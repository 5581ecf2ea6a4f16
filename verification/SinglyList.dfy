/**
 The C++ singly linked list on the heap: push swaps the head in, remove rewrites
 `next` in place.  What other threads do meanwhile is given as a schedule: the
 pushes and removals they complete, and the attempts at which the weak
 compare-and-swap fails for no reason.
 */
module SinglyList {
  import opened Sequences

  class Node<T> {
    const data: T
    var next: Node?<T>

    constructor (data: T)
      ensures this.data == data && next == null
    {
      this.data, next := data, null;
    }
  }

  /** The node after position i, null behind the last. */
  ghost function After<T>(nodes: seq<Node<T>>, i: int): Node?<T>
    requires -1 <= i
  {
    if i + 1 < |nodes| then nodes[i + 1] else null
  }

  ghost predicate Apart<T>(nodes: seq<Node<T>>) {
    forall i, j :: 0 <= i < j < |nodes| ==> nodes[i] != nodes[j]
  }

  ghost predicate IsChain<T>(head: Node?<T>, nodes: seq<Node<T>>)
    reads nodes
  {
    && head == After(nodes, -1) && Apart(nodes)
    && forall i {:trigger nodes[i].next} :: 0 <= i < |nodes| ==> nodes[i].next == After(nodes, i)
  }

  function Data<T>(nodes: seq<Node<T>>): (r: seq<T>)
    ensures |r| == |nodes|
  {
    seq(|nodes|, i requires 0 <= i < |nodes| => nodes[i].data)
  }

  /** What another thread completes: a push, or, under the lock, the removal of the node at a position. */
  datatype Other<T> = Put(data: T) | Take(at: nat)

  /** What happens between the write of new_node->next and the CAS behind it. */
  datatype Gap<T> = Gap(others: seq<Other<T>>, spurious: bool)

  function Done<T>(contents: seq<T>, other: Other<T>): seq<T> {
    match other
    case Put(x) => [x] + contents
    case Take(i) => if i < |contents| then contents[..i] + contents[i + 1..] else contents
  }

  function DoneAll<T>(contents: seq<T>, others: seq<Other<T>>): seq<T> {
    if others == [] then contents else Done(DoneAll(contents, others[..|others| - 1]), others[|others| - 1])
  }

  /** What others did in the gaps, one after the other. */
  function Others<T>(gaps: seq<Gap<T>>): seq<Other<T>> {
    if gaps == [] then [] else Others(gaps[..|gaps| - 1]) + gaps[|gaps| - 1].others
  }

  lemma {:induction false} DoneAllConcat<T>(contents: seq<T>, xs: seq<Other<T>>, ys: seq<Other<T>>)
    ensures DoneAll(contents, xs + ys) == DoneAll(DoneAll(contents, xs), ys)
    decreases |ys|
  {
    if ys == [] {
      assert xs + ys == xs;
    } else {
      var n := |ys| - 1;
      assert (xs + ys)[..|xs + ys| - 1] == xs + ys[..n] && (xs + ys)[|xs + ys| - 1] == ys[n];
      DoneAllConcat(contents, xs, ys[..n]);
    }
  }

  lemma OneMoreGap<T>(contents: seq<T>, gaps: seq<Gap<T>>, k: nat)
    requires k < |gaps|
    ensures DoneAll(contents, Others(gaps[..k + 1])) == DoneAll(DoneAll(contents, Others(gaps[..k])), gaps[k].others)
  {
    var g := gaps[..k + 1];
    assert g[..|g| - 1] == gaps[..k] && g[|g| - 1] == gaps[k];
    DoneAllConcat(contents, Others(gaps[..k]), gaps[k].others);
  }

  lemma OneMoreOther<T>(contents: seq<T>, others: seq<Other<T>>, k: nat)
    requires k < |others|
    ensures DoneAll(contents, others[..k + 1]) == Done(DoneAll(contents, others[..k]), others[k])
  {
    var o := others[..k + 1];
    assert o[..|o| - 1] == others[..k] && o[|o| - 1] == others[k];
  }

  lemma DataConcat<T>(xs: seq<Node<T>>, ys: seq<Node<T>>)
    ensures Data(xs + ys) == Data(xs) + Data(ys)
  {}

  lemma DataTaken<T>(nodes: seq<Node<T>>, i: nat)
    requires i < |nodes|
    ensures Data(nodes[..i] + nodes[i + 1..]) == Data(nodes)[..i] + Data(nodes)[i + 1..]
  {}

  /** One more push onto what was pushed before. */
  lemma DataPushed<T>(node: Node<T>, added: seq<Node<T>>, batch: seq<T>, k: nat)
    requires k < |batch| && node.data == batch[k] && Data(added) == Reverse(batch[..k])
    ensures Data([node] + added) == Reverse(batch[..k + 1])
  {
    assert batch[..k + 1] == batch[..k] + [batch[k]];
    ReverseConcat(batch[..k], [batch[k]]);
    DataConcat([node], added);
    assert Reverse([batch[k]]) == [batch[k]] == Data([node]);
  }

  lemma NoGapYet<T>(contents: seq<T>, gaps: seq<Gap<T>>)
    ensures DoneAll(contents, Others(gaps[..0])) == contents
  {}

  lemma NothingDone<T>(contents: seq<T>, others: seq<Other<T>>)
    ensures DoneAll(contents, others[..0]) == contents
  {}

  /** The pushes of k + 1 rounds: the newest round comes first. */
  lemma NewestRound<T>(rivals: seq<seq<T>>, k: nat)
    requires k < |rivals|
    ensures Reverse(Flatten(rivals[..k + 1])) == Reverse(rivals[k]) + Reverse(Flatten(rivals[..k]))
  {
    assert rivals[..k + 1] == rivals[..k] + [rivals[k]];
    FlattenConcat(rivals[..k], [rivals[k]]);
    assert Flatten([rivals[k]]) == rivals[k] + Flatten([]) == rivals[k];
    ReverseConcat(Flatten(rivals[..k]), rivals[k]);
  }

  /** The nodes of the first k rounds of pushes, newest first. */
  ghost predicate AreRounds<T>(nodes: seq<Node<T>>, rounds: seq<seq<T>>, k: nat)
    requires k <= |rounds|
  {
    Data(nodes) == Reverse(Flatten(rounds[..k]))
  }

  lemma MoreRivals<T>(rivals: seq<seq<T>>, k: nat, more: seq<Node<T>>, added: seq<Node<T>>)
    requires k < |rivals| && Data(more) == Reverse(rivals[k]) && AreRounds(added, rivals, k)
    ensures AreRounds(more + added, rivals, k + 1)
  {
    hide Data, Reverse, Flatten;
    NewestRound(rivals, k);
    DataConcat(more, added);
  }

  lemma RivalsThenLate<T>(added: seq<Node<T>>, rivals: seq<T>, newer: seq<Node<T>>, late: seq<seq<T>>, k: nat)
    requires k <= |late| && Data(added) == Reverse(rivals) && AreRounds(newer, late, k)
    ensures Data(newer + added) == Reverse(rivals + Flatten(late[..k]))
  {
    hide Reverse, Flatten, Data;
    ReverseConcat(rivals, Flatten(late[..k]));
    DataConcat(newer, added);
  }

  lemma NoneLate<T>(rivals: seq<T>, late: seq<seq<T>>)
    ensures rivals + Flatten(late[..0]) == rivals
  {}

  lemma AsMany<T>(added: seq<Node<T>>, batch: seq<T>)
    requires Data(added) == Reverse(batch)
    ensures |added| == |batch|
  {
    assert |Data(added)| == |Reverse(batch)|;
  }

  lemma ChainNext<T>(head: Node?<T>, nodes: seq<Node<T>>, i: nat)
    requires IsChain(head, nodes) && i < |nodes|
    ensures nodes[i].next == After(nodes, i)
  {}

  lemma SliceBehind<T>(newer: seq<Node<T>>, was: seq<Node<T>>, i: nat)
    requires i < |was|
    ensures (newer + was)[..|newer| + i] + (newer + was)[|newer| + i + 1..] == newer + (was[..i] + was[i + 1..])
  {}

  /** Taking a node out behind the newer ones. */
  lemma TakenOut<T>(newer: seq<Node<T>>, was: seq<Node<T>>, i: nat)
    requires Apart(was) && i < |was|
    ensures (newer + was)[..|newer| + i] + (newer + was)[|newer| + i + 1..] == newer + Without(was, {was[i]})
  {
    hide Without, Apart;
    ChainWithout(was, i);
    SliceBehind(newer, was, i);
  }

  lemma HeadIsFirst<T>(head: Node?<T>, nodes: seq<Node<T>>)
    requires IsChain(head, nodes) && nodes != []
    ensures head == nodes[0] && Apart(nodes)
  {}

  /** The list with newer nodes in front. */
  ghost predicate Grown<T>(nodes: seq<Node<T>>, newer: seq<Node<T>>, was: seq<Node<T>>) {
    nodes == newer + was
  }

  /** The node stands behind position start. */
  ghost predicate IsBehind<T>(nodes: seq<Node<T>>, node: Node<T>, start: int) {
    exists j :: 0 <= start < j < |nodes| && nodes[j] == node
  }

  /** The search has come to position i without meeting the node. */
  ghost predicate Unseen<T>(nodes: seq<Node<T>>, node: Node<T>, start: int, i: int)
    requires 0 <= i < |nodes|
  {
    !IsBehind(nodes[..i + 1], node, start)
  }

  /** The search looks at the node at i and at it, the one behind. */
  ghost predicate Searching<T>(nodes: seq<Node<T>>, node: Node<T>, start: int, i: int, prev: Node<T>, it: Node?<T>) {
    0 <= start <= i < |nodes| && prev == nodes[i] && it == After(nodes, i) && Unseen(nodes, node, start, i)
  }

  lemma SearchBegins<T>(nodes: seq<Node<T>>, node: Node<T>, start: nat, late: seq<seq<T>>)
    requires start < |nodes|
    ensures Grown(nodes, [], nodes) && AreRounds([], late, 0)
    ensures Searching(nodes, node, start, start, nodes[start], After(nodes, start))
  {
    assert [] + nodes == nodes;
  }

  lemma SearchGoesOn<T>(nodes: seq<Node<T>>, node: Node<T>, start: nat, i: nat, prev: Node<T>, it: Node<T>)
    requires Searching(nodes, node, start, i, prev, it)
    ensures i + 1 < |nodes| && prev == nodes[i] && it == nodes[i + 1]
    ensures it == node ==> IsBehind(nodes, node, start)
    ensures it != node ==> Searching(nodes, node, start, i + 1, it, After(nodes, i + 1))
  {
    assert nodes[..i + 2] == nodes[..i + 1] + [nodes[i + 1]];
  }

  lemma SearchEnds<T>(nodes: seq<Node<T>>, node: Node<T>, start: nat, i: nat, prev: Node<T>)
    requires Searching(nodes, node, start, i, prev, null)
    ensures !IsBehind(nodes, node, start)
  {
    assert nodes[..i + 1] == nodes;
  }

  lemma HeadDropped<T>(nodes: seq<Node<T>>)
    requires Apart(nodes) && nodes != []
    ensures Without(nodes, {nodes[0]}) == nodes[1..]
  {
    ChainWithout(nodes, 0);
    assert nodes[..0] + nodes[1..] == nodes[1..];
  }

  lemma NoneOf<T>(batch: seq<T>)
    ensures Data<T>([]) == Reverse(batch[..0])
  {}

  lemma ConsChain<T>(node: Node<T>, nodes: seq<Node<T>>)
    requires IsChain(node.next, nodes) && node !in nodes
    ensures IsChain(node, [node] + nodes)
  {
    var all := [node] + nodes;
    assert forall i :: 0 < i < |all| ==> all[i] == nodes[i - 1] && After(all, i) == After(nodes, i - 1);
  }

  lemma {:induction false} ApartIsDistinct<T>(nodes: seq<Node<T>>)
    requires Apart(nodes)
    ensures Distinct(nodes)
  {
    if nodes != [] {
      assert forall i, j :: 0 <= i < j < |nodes| - 1 ==> nodes[1..][i] == nodes[i + 1] && nodes[1..][j] == nodes[j + 1];
      ApartIsDistinct(nodes[1..]);
    }
  }

  /** What unlinking the node at position i leaves. */
  lemma ChainWithout<T>(nodes: seq<Node<T>>, i: nat)
    requires Apart(nodes) && i < |nodes|
    ensures nodes[..i] + nodes[i + 1..] == Without(nodes, {nodes[i]})
  {
    ApartIsDistinct(nodes);
    WithoutOne(nodes, i);
  }

  lemma ChainRest<T>(nodes: seq<Node<T>>)
    requires nodes != [] && IsChain(nodes[0], nodes)
    ensures Apart(nodes) && IsChain(nodes[0].next, nodes[1..])
  {
    var rest := nodes[1..];
    assert forall i :: -1 <= i < |rest| ==> After(rest, i) == After(nodes, i + 1);
    assert forall i :: 0 <= i < |rest| ==> rest[i] == nodes[i + 1];
  }

  lemma WithoutOld<T>(added: seq<Node<T>>, nodes: seq<Node<T>>, node: Node<T>)
    requires node !in added
    ensures Without(added + nodes, {node}) == added + Without(nodes, {node})
  {
    WithoutConcat(added, nodes, {node});
    WithoutNone(added, {node});
  }

  /** What the search behind the start position can find. */
  lemma FoundFrom<T>(added: seq<Node<T>>, nodes: seq<Node<T>>, node: Node<T>, start: nat)
    requires nodes != [] && Apart(nodes) && node !in added
    requires start == if nodes[0] == node then 0 else |added|
    ensures IsBehind(added + nodes, node, start) <==> node in nodes && !(nodes[0] == node && added == [])
  {
    var all := added + nodes;
    if nodes[0] == node {
      if added != [] { assert all[|added|] == node; }
    } else if node in nodes {
      var k :| 0 <= k < |nodes| && nodes[k] == node;
      assert all[|added| + k] == node;
    }
  }

  lemma SearchFrom<T>(nodes: seq<Node<T>>, added: seq<Node<T>>, was: seq<Node<T>>, node: Node<T>, start: nat)
    requires Grown(nodes, added, was) && was != [] && Apart(was) && node !in added
    requires start == if was[0] == node then 0 else |added|
    ensures start < |nodes| && nodes[|added|] == was[0]
    ensures IsBehind(nodes, node, start) <==> node in was && !(was[0] == node && added == [])
  {
    FoundFrom(added, was, node, start);
  }

  lemma RemovedAtHead<T>(was: seq<Node<T>>, node: Node<T>, added: seq<Node<T>>, nodes: seq<Node<T>>,
                         rivals: seq<T>, late: seq<seq<T>>)
    requires Grown(nodes, added, Without(was, {node})) && Data(added) == Reverse(rivals)
    ensures nodes == added + Without(was, {node}) && Data(added) == Reverse(rivals + Flatten(late[..0]))
  {
    hide Without, Data, Reverse, Flatten;
    NoneLate(rivals, late);
  }

  lemma RemovedBehind<T>(nodes: seq<Node<T>>, newer: seq<Node<T>>, all: seq<Node<T>>, added: seq<Node<T>>,
                         was: seq<Node<T>>, node: Node<T>, ok: bool)
    requires Grown(all, added, was) && node !in added
    requires Grown(nodes, newer, if ok then Without(all, {node}) else all)
    ensures nodes == (newer + added) + if ok then Without(was, {node}) else was
  {
    hide Without;
    WithoutOld(added, was, node);
  }

  class SinglyList<T> {
    var head: Node?<T>
    ghost var nodes: seq<Node<T>>     // the linked nodes, newest first

    ghost predicate Valid()
      reads this, nodes
    {
      IsChain(head, nodes)
    }

    ghost function Contents(): seq<T>
      reads this
    {
      Data(nodes)
    }

    constructor ()
      ensures Valid() && nodes == []
    {
      head, nodes := null, [];
    }

    /** Succeeds only if the head is the expected one, and then may still fail spuriously. */
    method CompareExchangeWeak(expected: Node?<T>, desired: Node?<T>, spurious: bool) returns (ok: bool, seen: Node?<T>)
      modifies `head
      ensures ok == (old(head) == expected && !spurious)
      ensures head == if ok then desired else old(head)
      ensures seen == old(head)
    {
      ok, seen := head == expected && !spurious, head;
      if ok { head := desired; }
    }

    /** One attempt of push to make newNode, which points to the head it has seen, the new head. */
    method Attempt(newNode: Node<T>, spurious: bool) returns (ok: bool, seen: Node?<T>)
      requires Valid() && newNode !in nodes
      modifies this
      ensures Valid()
      ensures ok == (old(head) == newNode.next && !spurious)
      ensures nodes == if ok then [newNode] + old(nodes) else old(nodes)
      ensures seen == old(head) && (!ok ==> head == seen)
    {
      ok, seen := CompareExchangeWeak(newNode.next, newNode, spurious);
      if ok {
        ConsChain(newNode, nodes);
        nodes := [newNode] + nodes;
      }
    }

    /** One attempt of push with what others do before its CAS; in the round behind the last gap nothing interferes. */
    method Round(newNode: Node<T>, gaps: seq<Gap<T>>, k: nat)
      returns (ok: bool, seen: Node?<T>, ghost under: seq<Node<T>>)
      requires Valid() && newNode !in nodes && newNode.next == head && k <= |gaps|
      modifies this, nodes
      ensures Valid() && (k == |gaps| ==> ok && under == old(nodes))
      ensures Data(under) == if k < |gaps| then DoneAll(old(Contents()), gaps[k].others) else old(Contents())
      ensures nodes == if ok then [newNode] + under else under
      ensures forall i :: 0 <= i < |under| ==> under[i] in old(nodes) || fresh(under[i])
      ensures !ok ==> newNode !in nodes && seen == head
    {
      if k < |gaps| { DoOthers(gaps[k].others); }
      under := nodes;
      ok, seen := Attempt(newNode, k < |gaps| && gaps[k].spurious);
    }

    /**
     gaps[k] is what others do before the CAS of the k-th attempt, and whether it
     fails spuriously; behind the last gap nothing interferes.  Whatever they do,
     the node is linked once, on top of what they have left.
     */
    method Push(data: T, gaps: seq<Gap<T>>) returns (ghost newNode: Node<T>, ghost under: seq<Node<T>>, ghost used: nat)
      requires Valid()
      modifies this, nodes
      ensures Valid() && nodes == [newNode] + under && fresh(newNode) && newNode.data == data
      ensures used <= |gaps| && Data(under) == DoneAll(old(Contents()), Others(gaps[..used]))
      ensures forall i :: 0 <= i < |under| ==> under[i] in old(nodes) || fresh(under[i])
      ensures gaps == [] ==> under == old(nodes)
    {
      hide DoneAll, Others, Data, IsChain;
      var node := new Node(data);
      var oldHead, k := head, 0;
      newNode := node;
      NoGapYet(Contents(), gaps);
      while true
        invariant 0 <= k <= |gaps|
        invariant Valid() && oldHead == head && node !in nodes
        invariant forall i :: 0 <= i < |nodes| ==> nodes[i] in old(nodes) || fresh(nodes[i])
        invariant Data(nodes) == DoneAll(old(Contents()), Others(gaps[..k]))
        invariant gaps == [] ==> nodes == old(nodes)
        decreases |gaps| - k
      {
        node.next := oldHead;
        if k < |gaps| { OneMoreGap(old(Contents()), gaps, k); }
        var ok;
        ok, oldHead, under := Round(node, gaps, k);
        used := if k < |gaps| then k + 1 else k;
        if ok { return; }
        k := k + 1;
      }
    }

    /** Other threads complete these operations, one after the other. */
    method DoOthers(others: seq<Other<T>>)
      requires Valid()
      modifies this, nodes
      ensures Valid() && Contents() == DoneAll(old(Contents()), others)
      ensures forall i :: 0 <= i < |nodes| ==> nodes[i] in old(nodes) || fresh(nodes[i])
      ensures others == [] ==> nodes == old(nodes) && head == old(head)
    {
      hide DoneAll, IsChain, Data;
      NothingDone(Contents(), others);
      for k := 0 to |others|
        invariant Valid() && Contents() == DoneAll(old(Contents()), others[..k])
        invariant forall i :: 0 <= i < |nodes| ==> nodes[i] in old(nodes) || fresh(nodes[i])
        invariant others == [] ==> nodes == old(nodes) && head == old(head)
      {
        OneMoreOther(old(Contents()), others, k);
        DoOther(others[k]);
      }
      assert others[..|others|] == others;
    }

    /** Another thread's push, with nothing in its gaps. */
    method PushOne(data: T) returns (ghost node: Node<T>)
      requires Valid()
      modifies this
      ensures Valid() && nodes == [node] + old(nodes) && fresh(node) && node.data == data
    {
      hide IsChain;
      var newNode := new Node(data);
      newNode.next := head;
      node := newNode;
      var ok, seen := Attempt(newNode, false);
    }

    method DoOther(other: Other<T>)
      requires Valid()
      modifies this, nodes
      ensures Valid() && Contents() == Done(old(Contents()), other)
      ensures forall i :: 0 <= i < |nodes| ==> nodes[i] in old(nodes) || fresh(nodes[i])
    {
      hide DoneAll, IsChain;
      match other
      case Put(x) =>
        ghost var node := PushOne(x);
        DataConcat([node], old(nodes));
      case Take(i) =>
        TakeAt(i);
        if i < |old(nodes)| { DataTaken(old(nodes), i); }
    }

    /** Another thread's removal, of whatever node stands at this position. */
    method TakeAt(at: nat)
      requires Valid()
      modifies this, nodes
      ensures Valid()
      ensures nodes == if at < |old(nodes)| then old(nodes)[..at] + old(nodes)[at + 1..] else old(nodes)
    {
      if head == null { return; }
      if at == 0 {
        head := head.next;
        HeadGone();
        return;
      }
      var prev, i := head, 0;
      while i + 1 < at && prev.next != null
        invariant Valid() && nodes == old(nodes)
        invariant 0 <= i < |nodes| && i < at && prev == nodes[i]
      {
        prev, i := prev.next, i + 1;
      }
      if prev.next != null { UnlinkNext(prev, prev.next, i); }
    }

    /** Other threads push batch, one after the other. */
    method PushAll(batch: seq<T>) returns (ghost added: seq<Node<T>>)
      requires Valid()
      modifies this
      ensures Valid() && nodes == added + old(nodes) && fresh(added)
      ensures Data(added) == Reverse(batch)
    {
      hide Reverse, Data, IsChain;
      added := [];
      NoneOf(batch);
      for k := 0 to |batch|
        invariant Valid() && nodes == added + old(nodes) && fresh(added)
        invariant Data(added) == Reverse(batch[..k])
      {
        ghost var node := PushOne(batch[k]);
        DataPushed(node, added, batch, k);
        added := [node] + added;
      }
      assert batch[..|batch|] == batch;
    }

    method GetFront() returns (front: Node?<T>)
      requires Valid()
      ensures front == if nodes == [] then null else nodes[0]
    {
      front := head;
    }

    /** The head node is gone: the CAS has put its successor in its place. */
    ghost method HeadGone()
      requires nodes != [] && IsChain(nodes[0], nodes) && head == nodes[0].next
      modifies `nodes
      ensures Valid() && nodes == old(nodes)[1..]
    {
      hide IsChain;
      ChainRest(nodes);
      nodes := nodes[1..];
    }

    /** prev->next = iterator->next. */
    method UnlinkNext(prev: Node<T>, it: Node<T>, ghost i: nat)
      requires Valid() && i + 1 < |nodes| && prev == nodes[i] && it == nodes[i + 1]
      modifies `nodes, prev`next
      ensures Valid() && nodes == old(nodes)[..i + 1] + old(nodes)[i + 2..]
    {
      prev.next := it.next;
      nodes := nodes[..i + 1] + nodes[i + 2..];
      assert forall j :: 0 <= j < |nodes| ==> nodes[j] == old(nodes)[if j <= i then j else j + 1];
    }

    /** remove's attempt to put the successor of the node it found at the head in its place. */
    method SwapHead(node: Node<T>, spurious: bool, ghost added: seq<Node<T>>, ghost was: seq<Node<T>>)
      returns (ok: bool, seen: Node<T>)
      requires Valid() && Grown(nodes, added, was) && was != [] && was[0] == node && node !in added
      modifies `head, `nodes
      ensures Valid() && ok == (added == [] && !spurious)
      ensures if ok then Grown(nodes, added, Without(was, {node})) else nodes == old(nodes) && seen == nodes[0]
    {
      hide IsChain, Apart, Without;
      HeadIsFirst(head, nodes);
      assert node == nodes[|added|];
      ChainNext(head, nodes, |added|);
      ok, seen := CompareExchangeWeak(node, node.next, spurious);
      if ok {
        assert added == [] && nodes == was;
        HeadDropped(nodes);
        HeadGone();
        assert [] + nodes == nodes;
      }
    }

    /** What others push between remove's load of the head and its CAS. */
    method Rivals(ghost node: Node<T>, rivals: seq<T>) returns (ghost added: seq<Node<T>>)
      requires Valid()
      modifies this
      ensures Valid() && Grown(nodes, added, old(nodes)) && node !in added
      ensures |added| == |rivals| && Data(added) == Reverse(rivals)
      ensures forall i :: 0 <= i < |nodes| ==> nodes[i] in old(nodes) || fresh(nodes[i])
    {
      hide Reverse, Data, IsChain;
      added := PushAll(rivals);
      AsMany(added, rivals);
    }

    lemma ListApart()
      requires Valid()
      ensures Apart(nodes)
    {}

    lemma ListStarts()
      requires Valid() && nodes != []
      ensures head == nodes[0] && Apart(nodes)
    {}

    /** iterator->next, with newer nodes pushed in front of the list that was searched. */
    method Next(it: Node<T>, ghost newer: seq<Node<T>>, ghost was: seq<Node<T>>, ghost i: nat) returns (next: Node?<T>)
      requires Valid() && Grown(nodes, newer, was) && i < |was| && it == was[i]
      ensures next == After(was, i)
    {
      hide IsChain;
      ChainNext(head, nodes, |newer| + i);
      next := it.next;
    }

    method UnlinkBehind(prev: Node<T>, it: Node<T>, ghost newer: seq<Node<T>>, ghost was: seq<Node<T>>, ghost i: nat)
      requires Valid() && Grown(nodes, newer, was) && Apart(was) && i + 1 < |was| && prev == was[i] && it == was[i + 1]
      modifies `nodes, prev`next
      ensures Valid() && Grown(nodes, newer, Without(was, {it}))
    {
      hide IsChain, Apart, Without;
      TakenOut(newer, was, i + 1);
      UnlinkNext(prev, it, |newer| + i);
    }

    /** What others push before one more look of the search. */
    method LatePushes(late: seq<seq<T>>, k: nat, ghost newer: seq<Node<T>>, ghost was: seq<Node<T>>)
      returns (next: nat, ghost grown: seq<Node<T>>)
      requires Valid() && k <= |late| && AreRounds(newer, late, k) && Grown(nodes, newer, was)
      modifies this
      ensures Valid() && next <= |late| && AreRounds(grown, late, next) && Grown(nodes, grown, was)
    {
      hide Reverse, Flatten, Data, IsChain, AreRounds;
      next, grown := k, newer;
      if k < |late| {
        ghost var more := PushAll(late[k]);
        MoreRivals(late, k, more, newer);
        next, grown := k + 1, more + newer;
      }
    }

    /**
     The search of remove, from the node behind first on.  Before its k-th look at
     the iterator others push late[k]; used is how many of these rounds there were.
     */
    method Unlink(node: Node<T>, first: Node<T>, ghost start: nat, late: seq<seq<T>>)
      returns (ok: bool, ghost newer: seq<Node<T>>, ghost used: nat)
      requires Valid() && start < |nodes| && first == nodes[start]
      modifies this, nodes
      ensures Valid() && used <= |late| && AreRounds(newer, late, used)
      ensures ok == IsBehind(old(nodes), node, start)
      ensures Grown(nodes, newer, if ok then Without(old(nodes), {node}) else old(nodes))
    {
      hide *;
      var k: nat := 0;
      ghost var was, i := nodes, start;
      newer := [];
      ListApart();
      SearchBegins(was, node, start, late);
      var prev: Node<T> := first;
      var it := Next(first, newer, was, start);
      while it != null
        invariant start <= i < |was| && k <= |late| && Searching(was, node, start, i, prev, it)
        invariant Valid() && Grown(nodes, newer, was) && AreRounds(newer, late, k)
        decreases |was| - i
      {
        k, newer := LatePushes(late, k, newer, was);
        SearchGoesOn(was, node, start, i, prev, it);
        if it == node {
          UnlinkBehind(prev, it, newer, was, i);
          return true, newer, k;
        }
        prev := it;
        it := Next(it, newer, was, i + 1);
        i := i + 1;
      }
      SearchEnds(was, node, start, i, prev);
      ok, used := false, k;
    }

    /**
     Called under the lock on a list that is not empty.  Others push rivals between
     the load of the head and the CAS, and late[k] before the k-th look of the
     search; the CAS may fail spuriously.
     */
    method Remove(node: Node<T>, rivals: seq<T>, spurious: bool, late: seq<seq<T>>)
      returns (ok: bool, ghost added: seq<Node<T>>, ghost used: nat)
      requires Valid() && nodes != []
      modifies this, nodes
      ensures Valid()
      ensures used <= |late| && Data(added) == Reverse(rivals + Flatten(late[..used]))
      ensures ok == (node in old(nodes) && !(old(head) == node && rivals == [] && spurious))
      ensures nodes == added + if ok then Without(old(nodes), {node}) else old(nodes)
    {
      hide *;
      ghost var was := nodes;
      ListStarts();
      var it: Node<T> := head;
      added := Rivals(node, rivals);
      ghost var start := |added|;
      if it == node {
        var swapped;
        swapped, it := SwapHead(node, spurious, added, was);
        if swapped {
          used := 0;
          RemovedAtHead(was, node, added, nodes, rivals, late);
          return true, added, 0;
        }
        start := 0;
      }
      SearchFrom(nodes, added, was, node, start);
      ghost var all, newer := nodes, [];
      ok, newer, used := Unlink(node, it, start, late);
      RivalsThenLate(added, rivals, newer, late, used);
      RemovedBehind(nodes, newer, all, added, was, node, ok);
      added := newer + added;
    }
  }
}
