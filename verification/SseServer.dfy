/**
 The C++ server on the heap: clients, buckets of linked nodes, the registration
 callback, and broadcast with its walk and its sweep.
 */
module SseServer {
  import opened Sequences
  import L = SinglyList

  /** How a write completes. */
  datatype WriteError = Success | Eof | ConnectionReset | BrokenPipe | OtherError

  class SseClient {
    var dead: bool
    var log: seq<string>      // messages whose asynchronous write was started

    constructor ()
      ensures !dead && log == []
    {
      dead, log := false, [];
    }

    predicate IsDead()
      reads this
    {
      dead
    }

    method Send(msg: string)
      modifies `log
      ensures log == if dead then old(log) else old(log) + [msg]
    {
      if dead { return; }
      log := log + [msg];
    }

    /** A write has completed: three of its errors mean that the client has gone. */
    method WriteCompleted(error: WriteError)
      modifies `dead
      ensures dead <==> old(dead) || error in {Eof, ConnectionReset, BrokenPipe}
    {
      if error == Eof || error == ConnectionReset || error == BrokenPipe {
        dead := true;
      }
    }
  }

  type Node = L.Node<SseClient>
  type Lists = seq<seq<Node>>

  datatype Tuple = Tuple(bucket: int, node: Node)

  /** Whether the head CAS of the k-th removal of a sweep fails spuriously, should there be one. */
  type Failures = int -> bool

  // ---------- Walk and sweep, on values ----------

  /** The nodes whose client is dead, in order. */
  ghost function DeadIn(nodes: seq<Node>, deads: set<SseClient>): (r: seq<Node>)
    ensures forall x :: x in r ==> x in nodes && x.data in deads
    ensures forall x :: x in nodes ==> x.data in deads ==> x in r
  {
    if nodes == [] then []
    else if nodes[0].data in deads then [nodes[0]] + DeadIn(nodes[1..], deads)
    else DeadIn(nodes[1..], deads)
  }

  ghost function Tuples(b: int, nodes: seq<Node>): seq<Tuple> {
    seq(|nodes|, i requires 0 <= i < |nodes| => Tuple(b, nodes[i]))
  }

  /** What the walk over the first n buckets collects. */
  ghost function Collected(lists: Lists, deads: set<SseClient>, n: nat): seq<Tuple>
    requires n <= |lists|
  {
    if n == 0 then [] else Collected(lists, deads, n - 1) + Tuples(n - 1, DeadIn(lists[n - 1], deads))
  }

  /** Every tuple names a node that is still linked when its turn, the k-th, comes. */
  ghost predicate Sweepable(lists: Lists, tuples: seq<Tuple>, fails: Failures, k: int)
    decreases |tuples|
  {
    tuples == [] ||
    var t := tuples[0];
    && 0 <= t.bucket < |lists| && t.node in lists[t.bucket]
    && Sweepable(Unlinked(lists, t, fails(k)), tuples[1..], fails, k + 1)
  }

  /** Removal leaves the node where it is if that is the head and the CAS fails. */
  ghost predicate Misses(nodes: seq<Node>, node: Node, fail: bool) {
    fail && nodes != [] && nodes[0] == node
  }

  ghost function Unlinked(lists: Lists, t: Tuple, fail: bool): Lists
    requires 0 <= t.bucket < |lists|
  {
    lists[t.bucket := Removed(lists[t.bucket], t.node, fail)]
  }

  ghost function Removed(nodes: seq<Node>, node: Node, fail: bool): seq<Node> {
    if Misses(nodes, node, fail) then nodes else Without(nodes, {node})
  }

  ghost function Swept(lists: Lists, tuples: seq<Tuple>, fails: Failures, k: int): Lists
    requires Sweepable(lists, tuples, fails, k)
    decreases |tuples|
  {
    if tuples == [] then lists else Swept(Unlinked(lists, tuples[0], fails(k)), tuples[1..], fails, k + 1)
  }

  /** The nodes of dead clients. */
  ghost function DeadNodes(nodes: seq<Node>, deads: set<SseClient>): set<Node> {
    set x | x in nodes && x.data in deads
  }

  /**
   The dead node that stays: the first of those at the front of the list whose
   removal, the k-th and following, has its head CAS fail.  Behind a node that
   stays, or a live one, no removal is at the head any more.
   */
  ghost function MissedIn(nodes: seq<Node>, deads: set<SseClient>, fails: Failures, k: int): (r: set<Node>)
    ensures r <= DeadNodes(nodes, deads) && |r| <= 1
    ensures (forall j :: !fails(j)) ==> r == {}
  {
    if nodes == [] || nodes[0].data !in deads then {}
    else if fails(k) then {nodes[0]}
    else MissedIn(nodes[1..], deads, fails, k + 1)
  }

  /** A list without its dead nodes, except for the one that is missed. */
  ghost function Kept(nodes: seq<Node>, deads: set<SseClient>, fails: Failures, k: int): seq<Node> {
    Without(nodes, DeadNodes(nodes, deads) - MissedIn(nodes, deads, fails, k))
  }

  /** The first n lists without their dead nodes but the missed ones. */
  ghost function Filtered(lists: Lists, deads: set<SseClient>, fails: Failures, n: nat): Lists
    requires n <= |lists|
  {
    seq(|lists|, b requires 0 <= b < |lists| =>
      if b < n then Kept(lists[b], deads, fails, |Collected(lists, deads, b)|) else lists[b])
  }

  lemma {:induction false} SweptConcat(lists: Lists, first: seq<Tuple>, more: seq<Tuple>, fails: Failures, k: int)
    requires Sweepable(lists, first, fails, k)
    requires Sweepable(Swept(lists, first, fails, k), more, fails, k + |first|)
    ensures Sweepable(lists, first + more, fails, k)
    ensures Swept(lists, first + more, fails, k) == Swept(Swept(lists, first, fails, k), more, fails, k + |first|)
    decreases |first|
  {
    if first == [] {
      assert first + more == more;
    } else {
      assert (first + more)[1..] == first[1..] + more;
      SweptConcat(Unlinked(lists, first[0], fails(k)), first[1..], more, fails, k + 1);
    }
  }

  /** One list, and the removal of these nodes from it one after the other. */
  ghost function SweptOne(nodes: seq<Node>, dead: seq<Node>, fails: Failures, k: int): seq<Node>
    decreases |dead|
  {
    if dead == [] then nodes else SweptOne(Removed(nodes, dead[0], fails(k)), dead[1..], fails, k + 1)
  }

  /** Sweeping distinct nodes of one bucket touches that bucket only. */
  lemma {:induction false} SweepOne(lists: Lists, b: nat, dead: seq<Node>, fails: Failures, k: int)
    requires b < |lists| && Distinct(dead) && forall x :: x in dead ==> x in lists[b]
    ensures Sweepable(lists, Tuples(b, dead), fails, k)
    ensures Swept(lists, Tuples(b, dead), fails, k) == lists[b := SweptOne(lists[b], dead, fails, k)]
    decreases |dead|
  {
    if dead != [] {
      var t := Tuple(b, dead[0]);
      assert Tuples(b, dead)[0] == t && Tuples(b, dead)[1..] == Tuples(b, dead[1..]);
      SweepOne(Unlinked(lists, t, fails(k)), b, dead[1..], fails, k + 1);
    }
  }

  /** While a node that is not to be removed is the head, no removal misses. */
  lemma {:induction false} HeadStays(nodes: seq<Node>, dead: seq<Node>, fails: Failures, k: int)
    requires nodes != [] && nodes[0] !in dead
    ensures SweptOne(nodes, dead, fails, k) == Without(nodes, set x | x in dead)
    decreases |dead|
  {
    var gone := set x | x in dead;
    if dead == [] {
      WithoutNone(nodes, gone);
    } else {
      var rest := set x | x in dead[1..];
      assert gone == {dead[0]} + rest;
      WithoutTwice(nodes, {dead[0]}, rest);
      assert Without(nodes, {dead[0]})[0] == nodes[0];
      HeadStays(Without(nodes, {dead[0]}), dead[1..], fails, k + 1);
    }
  }

  lemma DeadInIsDead(nodes: seq<Node>, deads: set<SseClient>)
    ensures (set x | x in DeadIn(nodes, deads)) == DeadNodes(nodes, deads)
  {}

  /** Removing the collected nodes of a list leaves it without its dead but the missed one. */
  lemma {:induction false} SweptIsKept(nodes: seq<Node>, deads: set<SseClient>, fails: Failures, k: int)
    requires Distinct(nodes)
    ensures SweptOne(nodes, DeadIn(nodes, deads), fails, k) == Kept(nodes, deads, fails, k)
    decreases |nodes|
  {
    var dead := DeadIn(nodes, deads);
    DeadInIsDead(nodes, deads);
    if nodes == [] {
    } else if nodes[0].data !in deads {
      HeadStays(nodes, dead, fails, k);
      assert DeadNodes(nodes, deads) - {} == DeadNodes(nodes, deads);
    } else {
      assert nodes[0] !in nodes[1..] && dead[1..] == DeadIn(nodes[1..], deads);
      DeadInIsDead(nodes[1..], deads);
      if fails(k) {
        HeadStays(nodes, dead[1..], fails, k + 1);
        assert (set x | x in dead[1..]) == DeadNodes(nodes, deads) - {nodes[0]};
      } else {
        HeadRemoved(nodes);
        SweptIsKept(nodes[1..], deads, fails, k + 1);
        HeadGoneToo(nodes, deads, MissedIn(nodes[1..], deads, fails, k + 1));
      }
    }
  }

  lemma HeadRemoved(nodes: seq<Node>)
    requires nodes != [] && nodes[0] !in nodes[1..]
    ensures Without(nodes, {nodes[0]}) == nodes[1..]
  {
    WithoutNone(nodes[1..], {nodes[0]});
  }

  lemma HeadGoneToo(nodes: seq<Node>, deads: set<SseClient>, missed: set<Node>)
    requires nodes != [] && nodes[0] !in nodes[1..] && nodes[0].data in deads && nodes[0] !in missed
    ensures Without(nodes, DeadNodes(nodes, deads) - missed)
            == Without(nodes[1..], DeadNodes(nodes[1..], deads) - missed)
  {
    var all, more := DeadNodes(nodes, deads) - missed, DeadNodes(nodes[1..], deads) - missed;
    assert all == {nodes[0]} + more;
    WithoutTwice(nodes, {nodes[0]}, more);
    HeadRemoved(nodes);
  }

  lemma {:induction false} DeadInDistinct(nodes: seq<Node>, deads: set<SseClient>)
    requires Distinct(nodes)
    ensures Distinct(DeadIn(nodes, deads))
  {
    if nodes != [] {
      DeadInDistinct(nodes[1..], deads);
      if nodes[0].data in deads { assert DeadIn(nodes, deads)[1..] == DeadIn(nodes[1..], deads); }
    }
  }

  ghost predicate AllDistinct(lists: Lists) {
    forall b :: 0 <= b < |lists| ==> Distinct(lists[b])
  }

  lemma FilterNext(lists: Lists, deads: set<SseClient>, fails: Failures, n: nat)
    requires n < |lists| && AllDistinct(lists)
    ensures var before, tuples := Filtered(lists, deads, fails, n), Tuples(n, DeadIn(lists[n], deads));
            var k := |Collected(lists, deads, n)|;
            && Sweepable(before, tuples, fails, k)
            && Swept(before, tuples, fails, k) == Filtered(lists, deads, fails, n + 1)
  {
    var nodes, before, k := lists[n], Filtered(lists, deads, fails, n), |Collected(lists, deads, n)|;
    DeadInDistinct(nodes, deads);
    hide DeadIn, Sweepable, Swept, Tuples, Distinct, Kept, SweptOne, Collected;
    SweepOne(before, n, DeadIn(nodes, deads), fails, k);
    SweptIsKept(nodes, deads, fails, k);
    assert before[n := Kept(nodes, deads, fails, k)] == Filtered(lists, deads, fails, n + 1);
  }

  lemma NoneCollected(lists: Lists, deads: set<SseClient>, fails: Failures)
    ensures Collected(lists, deads, 0) == []
    ensures Sweepable(lists, [], fails, 0) && Swept(lists, [], fails, 0) == lists == Filtered(lists, deads, fails, 0)
  {}

  /**
   The two phases together refine a filter: sweeping what the walk collected
   leaves every list without its dead, but for one missed node at its head.
   */
  lemma {:induction false} SweepIsFilter(lists: Lists, deads: set<SseClient>, fails: Failures, n: nat)
    requires n <= |lists| && AllDistinct(lists)
    ensures Sweepable(lists, Collected(lists, deads, n), fails, 0)
    ensures Swept(lists, Collected(lists, deads, n), fails, 0) == Filtered(lists, deads, fails, n)
  {
    hide *;
    if n == 0 {
      NoneCollected(lists, deads, fails);
    } else {
      SweepIsFilter(lists, deads, fails, n - 1);
      FilterNext(lists, deads, fails, n - 1);
      CollectedNext(lists, deads, n - 1);
      SweptConcat(lists, Collected(lists, deads, n - 1), Tuples(n - 1, DeadIn(lists[n - 1], deads)), fails, 0);
    }
  }

  /** The removal of the i-th node fails, and up to it all nodes of the list are dead. */
  ghost predicate FrontFails(nodes: seq<Node>, deads: set<SseClient>, fails: Failures, k: int, i: int) {
    0 <= i < |nodes| && fails(k + i) && forall j :: 0 <= j <= i ==> nodes[j].data in deads
  }

  /** A list keeps a dead node exactly if it has one in front of all live ones whose head CAS fails. */
  lemma {:induction false} MissesIff(nodes: seq<Node>, deads: set<SseClient>, fails: Failures, k: int)
    ensures MissedIn(nodes, deads, fails, k) != {} <==> exists i :: FrontFails(nodes, deads, fails, k, i)
  {
    if nodes != [] && nodes[0].data in deads {
      if fails(k) {
        assert FrontFails(nodes, deads, fails, k, 0);
      } else {
        var more, next := nodes[1..], k + 1;
        MissesIff(more, deads, fails, next);
        if i :| FrontFails(more, deads, fails, next, i) {
          assert forall j :: 0 < j <= i + 1 ==> nodes[j] == more[j - 1];
          assert next + i == k + (i + 1) && FrontFails(nodes, deads, fails, k, i + 1);
        }
        if i :| FrontFails(nodes, deads, fails, k, i) {
          assert i != 0 && next + (i - 1) == k + i && FrontFails(more, deads, fails, next, i - 1);
        }
      }
    }
  }

  lemma CollectedNext(lists: Lists, deads: set<SseClient>, n: nat)
    requires n < |lists|
    ensures Collected(lists, deads, n + 1) == Collected(lists, deads, n) + Tuples(n, DeadIn(lists[n], deads))
  {}

  /** The removals that miss. */
  ghost function MissCount(lists: Lists, tuples: seq<Tuple>, fails: Failures, k: int): nat
    requires Sweepable(lists, tuples, fails, k)
    decreases |tuples|
  {
    if tuples == [] then 0
    else
      (if Misses(lists[tuples[0].bucket], tuples[0].node, fails(k)) then 1 else 0)
      + MissCount(Unlinked(lists, tuples[0], fails(k)), tuples[1..], fails, k + 1)
  }

  /** Each tuple takes one node away, unless its removal misses. */
  lemma {:induction false} SweptLength(lists: Lists, tuples: seq<Tuple>, fails: Failures, k: int)
    requires Sweepable(lists, tuples, fails, k) && AllDistinct(lists)
    ensures AllDistinct(Swept(lists, tuples, fails, k))
    ensures TotalLength(Swept(lists, tuples, fails, k)) ==
            TotalLength(lists) - |tuples| + MissCount(lists, tuples, fails, k)
    decreases |tuples|
  {
    if tuples != [] {
      var t := tuples[0];
      UnlinkedLength(lists, t, fails(k));
      UnlinkedDistinct(lists, t, fails(k));
      SweptLength(Unlinked(lists, t, fails(k)), tuples[1..], fails, k + 1);
    }
  }

  lemma UnlinkedDistinct(lists: Lists, t: Tuple, fail: bool)
    requires 0 <= t.bucket < |lists| && AllDistinct(lists)
    ensures AllDistinct(Unlinked(lists, t, fail))
  {
    WithoutKeepsDistinct(lists[t.bucket], {t.node});
  }

  lemma UnlinkedLength(lists: Lists, t: Tuple, fail: bool)
    requires 0 <= t.bucket < |lists| && t.node in lists[t.bucket] && Distinct(lists[t.bucket])
    ensures TotalLength(Unlinked(lists, t, fail)) ==
            TotalLength(lists) - if Misses(lists[t.bucket], t.node, fail) then 0 else 1
  {
    var nodes := lists[t.bucket];
    WithoutOne(nodes, Pos(nodes, t.node));
    TotalLengthUpdate(lists, t.bucket, Removed(nodes, t.node, fail));
  }

  // ---------- The server ----------

  /** No two linked nodes share a client. */
  ghost predicate OneEach(lists: Lists) {
    forall a, b, i, j ::
      0 <= a < |lists| && 0 <= b < |lists| && 0 <= i < |lists[a]| && 0 <= j < |lists[b]| ==>
      lists[a][i].data == lists[b][j].data ==> a == b && lists[a][i] == lists[b][j]
  }

  lemma OneEachUnlinked(lists: Lists, t: Tuple, fail: bool)
    requires OneEach(lists) && 0 <= t.bucket < |lists|
    ensures OneEach(Unlinked(lists, t, fail))
  {
    var after: Lists := Unlinked(lists, t, fail);
    forall a: int, b: int, i: int, j: int |
                        0 <= a < |lists| && 0 <= b < |lists| && 0 <= i < |after[a]| && 0 <= j < |after[b]|
                        && after[a][i].data == after[b][j].data
      ensures a == b && after[a][i] == after[b][j]
    {
      SameNode(lists, a, b, after[a][i], after[b][j]);
    }
  }

  lemma SameNode(lists: Lists, a: nat, b: nat, x: Node, y: Node)
    requires OneEach(lists) && a < |lists| && b < |lists| && x in lists[a] && y in lists[b] && x.data == y.data
    ensures a == b && x == y
  {
    var i, j := Pos(lists[a], x), Pos(lists[b], y);
    assert lists[a][i] == x && lists[b][j] == y;
  }

  lemma DeadInOneMore(nodes: seq<Node>, deads: set<SseClient>, i: nat)
    requires i < |nodes|
    ensures DeadIn(nodes[..i + 1], deads) ==
            DeadIn(nodes[..i], deads) + if nodes[i].data in deads then [nodes[i]] else []
  {
    DeadInConcat(nodes[..i], [nodes[i]], deads);
    assert nodes[..i + 1] == nodes[..i] + [nodes[i]];
  }

  lemma {:induction false} DeadInConcat(xs: seq<Node>, ys: seq<Node>, deads: set<SseClient>)
    ensures DeadIn(xs + ys, deads) == DeadIn(xs, deads) + DeadIn(ys, deads)
  {
    if xs == [] {
      assert xs + ys == ys;
    } else {
      assert (xs + ys)[1..] == xs[1..] + ys;
      DeadInConcat(xs[1..], ys, deads);
    }
  }

  lemma ChainDistinct(bucket: L.SinglyList<SseClient>)
    requires bucket.Valid()
    ensures Distinct(bucket.nodes)
  {
    L.ApartIsDistinct(bucket.nodes);
  }

  lemma MissesHead(nodes: seq<Node>, node: Node, fail: bool)
    requires nodes != []
    ensures Misses(nodes, node, fail) <==> nodes[0] == node && fail
  {}

  lemma ListHead(bucket: L.SinglyList<SseClient>)
    requires bucket.Valid() && bucket.nodes != []
    ensures bucket.head == bucket.nodes[0]
  {}

  lemma OthersApart(lists: Lists, i: nat)
    requires OneEach(lists) && i < |lists|
    ensures forall b, x :: 0 <= b < |lists| && b != i && x in lists[b] ==> x !in lists[i]
  {
    forall b, x | 0 <= b < |lists| && b != i && x in lists[b] ensures x !in lists[i] {
      if x in lists[i] { SameNode(lists, b, i, x, x); }
    }
  }

  /** Walking bucket b touches the clients of no other bucket. */
  lemma ClientsApart(lists: Lists, b: nat)
    requires OneEach(lists) && b < |lists|
    ensures forall x, y :: x in lists[b] && y in lists[b] && x.data == y.data ==> x == y
    ensures forall a, i, x :: 0 <= a < |lists| && a != b && 0 <= i < |lists[a]| && x in lists[b] ==>
              lists[a][i].data != x.data
  {
    forall x, y | x in lists[b] && y in lists[b] && x.data == y.data ensures x == y { SameNode(lists, b, b, x, y); }
    forall a, i, x | 0 <= a < |lists| && a != b && 0 <= i < |lists[a]| && x in lists[b]
      ensures lists[a][i].data != x.data
    {
      assert lists[b][Pos(lists[b], x)] == x;
    }
  }

  lemma {:induction false} NoneLinked(lists: Lists)
    requires forall b :: 0 <= b < |lists| ==> lists[b] == []
    ensures TotalLength(lists) == 0
  {
    if lists != [] { NoneLinked(lists[1..]); }
  }

  lemma OneEachPushed(lists: Lists, b: nat, node: Node)
    requires OneEach(lists) && b < |lists|
    requires forall a, i :: 0 <= a < |lists| && 0 <= i < |lists[a]| ==> lists[a][i].data != node.data
    ensures OneEach(lists[b := [node] + lists[b]])
  {
    var after: Lists := lists[b := [node] + lists[b]];
    assert forall i :: 0 < i < |after[b]| ==> after[b][i] == lists[b][i - 1];
  }

  lemma NoTuples(b: int, nodes: seq<Node>, deads: set<SseClient>)
    ensures Tuples(b, DeadIn(nodes[..0], deads)) == []
  {}

  lemma TuplesOneMore(b: int, nodes: seq<Node>, deads: set<SseClient>, i: nat, before: seq<Tuple>)
    requires i < |nodes|
    ensures before + Tuples(b, DeadIn(nodes[..i + 1], deads)) ==
            before + Tuples(b, DeadIn(nodes[..i], deads)) + if nodes[i].data in deads then [Tuple(b, nodes[i])] else []
  {
    DeadInOneMore(nodes, deads, i);
  }

  lemma ChainNext(head: L.Node?<SseClient>, nodes: seq<Node>, i: nat)
    requires L.IsChain(head, nodes) && i < |nodes|
    ensures nodes[i].next == L.After(nodes, i) && L.Apart(nodes)
  {}

  /** The client has been given the message, unless it is dead. */
  twostate predicate Served(c: SseClient, full: string, deads: set<SseClient>)
    reads c
  {
    c.log == if c in deads then old(c.log) else old(c.log) + [full]
  }

  twostate predicate AllServed(clients: set<SseClient>, full: string, deads: set<SseClient>)
    reads clients
  {
    forall c :: c in clients ==> Served(c, full, deads)
  }

  /** The clients of the linked nodes. */
  ghost function Clients(lists: Lists): set<SseClient> {
    set b, x | 0 <= b < |lists| && x in lists[b] :: x.data
  }

  lemma ClientsHold(lists: Lists, b: nat)
    requires b < |lists|
    ensures forall x :: x in lists[b] ==> x.data in Clients(lists)
  {}

  lemma ClientAt(lists: Lists, c: SseClient) returns (b: nat, i: nat)
    requires c in Clients(lists)
    ensures b < |lists| && i < |lists[b]| && lists[b][i].data == c
  {
    var a: int, x: Node :| 0 <= a < |lists| && x in lists[a] && x.data == c;
    b, i := a, Pos(lists[a], x);
  }

  class SseServer {
    var buckets: seq<L.SinglyList<SseClient>>
    var counter: int
    var count: int
    ghost var all: set<Node>      // every node ever linked

    ghost function Lists(): Lists
      reads this`buckets, buckets
    {
      var bs := buckets;
      seq(|bs|, b requires 0 <= b < |bs| reads bs => bs[b].nodes)
    }

    ghost predicate BucketsValid()
      reads this`buckets, this`counter, this`all, buckets, all
    {
      && 0 < |buckets| && 0 <= counter
      && (forall a, b :: 0 <= a < b < |buckets| ==> buckets[a] != buckets[b])
      && (forall b :: 0 <= b < |buckets| ==> (forall x :: x in buckets[b].nodes ==> x in all) && buckets[b].Valid())
    }

    ghost predicate Valid()
      reads this, buckets, all
    {
      BucketsValid() && OneEach(Lists()) && count == TotalLength(Lists())
    }

    /** One round of the walk: is_dead, then send or a tuple for the sweep. */
    static method Visit(b: int, it: Node, full: string, before: seq<Tuple>, ghost deads: set<SseClient>)
      returns (tuples: seq<Tuple>)
      requires it.data.dead <==> it.data in deads
      modifies it.data`log
      ensures tuples == before + if it.data in deads then [Tuple(b, it)] else []
      ensures Served(it.data, full, deads)
    {
      tuples := before;
      if it.data.IsDead() {
        tuples := tuples + [Tuple(b, it)];
      } else {
        it.data.Send(full);
      }
    }

    /** The walk over one bucket: is_dead, then send or a tuple for the sweep. */
    static method Walk(bucket: L.SinglyList<SseClient>, b: nat, full: string, before: seq<Tuple>,
                       ghost deads: set<SseClient>)
      returns (tuples: seq<Tuple>)
      requires bucket.Valid()
      requires forall x, y :: x in bucket.nodes && y in bucket.nodes && x.data == y.data ==> x == y
      requires forall x :: x in bucket.nodes ==> (x.data.dead <==> x.data in deads)
      modifies set x | x in bucket.nodes :: x.data
      ensures tuples == before + Tuples(b, DeadIn(bucket.nodes, deads))
      ensures forall x :: x in bucket.nodes ==> x.data.dead == old(x.data.dead)
      ensures forall x :: x in bucket.nodes ==> Served(x.data, full, deads)
    {
      hide Tuples, DeadIn, L.IsChain;
      tuples := before;
      var it := bucket.GetFront();
      ghost var nodes, i := bucket.nodes, 0;
      NoTuples(b, nodes, deads);
      while it != null
        invariant 0 <= i <= |nodes| && it == L.After(nodes, i - 1)
        invariant bucket.Valid() && bucket.nodes == nodes
        invariant tuples == before + Tuples(b, DeadIn(nodes[..i], deads))
        invariant forall x :: x in nodes ==> x.data.dead == old(x.data.dead)
        invariant forall j :: 0 <= j < i ==> Served(nodes[j].data, full, deads)
        invariant forall j :: i <= j < |nodes| ==> nodes[j].data.log == old(nodes[j].data.log)
        decreases |nodes| - i
      {
        TuplesOneMore(b, nodes, deads, i, before);
        ChainNext(bucket.head, nodes, i);
        tuples := Visit(b, it, full, tuples, deads);
        it := it.next;
        i := i + 1;
      }
      assert nodes[..i] == nodes;
    }

    /** bucket->remove: the other lists are as they were. */
    method RemoveFrom(t: Tuple, fail: bool) returns (hit: bool)
      requires BucketsValid() && OneEach(Lists())
      requires 0 <= t.bucket < |buckets| && t.node in buckets[t.bucket].nodes
      modifies buckets, all
      ensures BucketsValid() && Lists() == Unlinked(old(Lists()), t, fail)
      ensures hit == !Misses(old(Lists()[t.bucket]), t.node, fail)
    {
      hide Without, L.IsChain, Misses;
      ghost var lists := Lists();
      var i := t.bucket;
      var bucket := buckets[i];
      OthersApart(lists, i);
      ListHead(bucket);
      MissesHead(lists[i], t.node, fail);
      ghost var added, used;
      hit, added, used := bucket.Remove(t.node, [], fail, []);
      assert |L.Data(added)| == 0;
      assert bucket.nodes == Removed(lists[i], t.node, fail);
      forall b | 0 <= b < |buckets| && b != i ensures buckets[b].nodes == lists[b] && buckets[b].Valid() {
        var other := buckets[b];
        assert other != bucket && old(other.Valid()) && old(other.nodes) == lists[b] && old(bucket.nodes) == lists[i];
        assert forall x :: x in lists[b] ==> x !in lists[i];
      }
      assert Lists() == Unlinked(lists, t, fail);
    }

    /** One round of the sweep, under the bucket's lock. */
    method SweepTuple(t: Tuple, fail: bool)
      requires Valid() && 0 <= t.bucket < |buckets| && t.node in buckets[t.bucket].nodes
      modifies `count, buckets, all
      ensures Valid() && Lists() == Unlinked(old(Lists()), t, fail)
    {
      hide OneEach, TotalLength, Misses, Unlinked;
      ghost var lists := Lists();
      OneEachUnlinked(lists, t, fail);
      ChainDistinct(buckets[t.bucket]);
      UnlinkedLength(lists, t, fail);
      hide BucketsValid;
      var hit := RemoveFrom(t, fail);
      if hit { count := count - 1; }
    }

    ghost function Linked(): set<SseClient>
      reads this`buckets, buckets
    {
      Clients(Lists())
    }

    ghost function Deads(): set<SseClient>
      reads this`all, set x | x in all :: x.data
    {
      set x | x in all && x.data.dead :: x.data
    }

    /** The first phase of broadcast: the walk over all buckets. */
    method WalkAll(full: string) returns (tuples: seq<Tuple>)
      requires Valid()
      modifies Linked()
      ensures tuples == Collected(Lists(), old(Deads()), |buckets|)
      ensures Deads() == old(Deads())
      ensures AllServed(old(Linked()), full, old(Deads()))
    {
      hide DeadIn, Tuples, L.IsChain, OneEach, TotalLength;
      ghost var lists, deads := Lists(), Deads();
      tuples := [];
      for b := 0 to |buckets|
        invariant tuples == Collected(lists, deads, b)
        invariant forall x :: x in all ==> x.data.dead == old(x.data.dead)
        invariant forall a, i :: 0 <= a < b && 0 <= i < |lists[a]| ==> Served(lists[a][i].data, full, deads)
        invariant forall a, i :: b <= a < |lists| && 0 <= i < |lists[a]| ==>
                    lists[a][i].data.log == old(lists[a][i].data.log)
      {
        ClientsApart(lists, b);
        ClientsHold(lists, b);
        tuples := Walk(buckets[b], b, full, tuples, deads);
      }
      forall c | c in old(Linked()) ensures Served(c, full, deads) { var b, i := ClientAt(lists, c); }
    }

    /** The second phase: the sweep over the collected tuples. */
    method SweepAll(tuples: seq<Tuple>, fails: Failures)
      requires Valid() && Sweepable(Lists(), tuples, fails, 0)
      modifies `count, buckets, all
      ensures Valid() && Lists() == Swept(old(Lists()), tuples, fails, 0)
    {
      hide Unlinked, Valid;
      ghost var lists := Lists();
      assert tuples[0..] == tuples;
      for k := 0 to |tuples|
        invariant Valid() && Sweepable(Lists(), tuples[k..], fails, k)
        invariant Swept(Lists(), tuples[k..], fails, k) == Swept(lists, tuples, fails, 0)
      {
        assert tuples[k..][1..] == tuples[k + 1..];
        SweepTuple(tuples[k], fails(k));
      }
    }

    /**
     Every client that is linked and not dead is given the message once, the dead
     are given nothing and unlinked, except for one at the head of a list whose
     CAS fails spuriously, and nothing else changes.
     */
    method Broadcast(msg: string, fails: Failures)
      requires Valid()
      modifies `count, buckets, all, Linked()
      ensures AllServed(old(Linked()), "data: " + msg + "\n\n", old(Deads()))
      ensures Valid()
      ensures Lists() == Filtered(old(Lists()), old(Deads()), fails, |old(Lists())|)
      ensures Deads() == old(Deads()) && counter == old(counter)
    {
      hide Collected, Filtered, Swept, Sweepable, Deads, AllServed;
      ghost var lists, deads := Lists(), Deads();
      ListsDistinct();
      SweepIsFilter(lists, deads, fails, |buckets|);
      hide Valid;
      var tuples := WalkAll("data: " + msg + "\n\n");
      SweepAll(tuples, fails);
    }

    lemma ListsDistinct()
      requires Valid()
      ensures AllDistinct(Lists())
    {
      forall b | 0 <= b < |buckets| ensures Distinct(Lists()[b]) { ChainDistinct(buckets[b]); }
    }

    constructor (bucketCount: nat)
      requires bucketCount > 0
      ensures Valid() && |buckets| == bucketCount && counter == 0
      ensures forall b :: 0 <= b < bucketCount ==> Lists()[b] == []
    {
      buckets, counter, count, all := [], 0, 0, {};
      new;
      for i := 0 to bucketCount
        invariant |buckets| == i && counter == 0 && count == 0 && all == {} && fresh(buckets)
        invariant forall b :: 0 <= b < i ==> buckets[b].Valid() && buckets[b].nodes == []
        invariant forall a, b :: 0 <= a < b < i ==> buckets[a] != buckets[b]
      {
        var bucket := new L.SinglyList<SseClient>();
        buckets := buckets + [bucket];
      }
      NoneLinked(Lists());
    }

    /** The end of the "/sse" callback: the next bucket in turn gets the client. */
    method Register(client: SseClient) returns (ghost node: Node)
      requires Valid()
      requires forall b, i :: 0 <= b < |buckets| && 0 <= i < |Lists()[b]| ==> Lists()[b][i].data != client
      modifies `counter, `count, `all, buckets, all
      ensures Valid() && counter == old(counter) + 1 && count == old(count) + 1
      ensures fresh(node) && node.data == client
      ensures var b := old(counter) % |buckets|; Lists() == old(Lists())[b := [node] + old(Lists())[b]]
    {
      hide L.IsChain, TotalLength, L.DoneAll, L.Others, L.Data;
      ghost var lists := Lists();
      var b := counter % |buckets|;
      counter := counter + 1;
      var bucket := buckets[b];
      OthersApart(lists, b);
      ghost var under, used;
      node, under, used := bucket.Push(client, []);
      all := all + {node};
      count := count + 1;
      assert bucket.nodes == [node] + lists[b];
      forall a | 0 <= a < |buckets| && a != b ensures buckets[a].nodes == lists[a] && buckets[a].Valid() {
        assert buckets[a] != bucket && old(buckets[a].Valid());
      }
      assert Lists() == lists[b := [node] + lists[b]];
      OneEachPushed(lists, b, node);
      TotalLengthUpdate(lists, b, [node] + lists[b]);
    }
  }
}
