/** Every step keeps the lists sound: finite, free of repetition, and exactly pushed minus removed. */
module RegistryLists {
  import opened Sequences
  import opened Registry
  import opened RegistryInvariant

  type Links = map<Client, Option<Client>>

  // ---------- Chains ----------

  lemma {:induction false} ChainAt(next: Links, head: Option<Client>, xs: seq<Client>, i: nat)
    requires IsChain(next, head, xs) && i < |xs|
    ensures xs[i] in next && next[xs[i]] == At(xs, i + 1)
    decreases |xs|
  {
    if i > 0 {
      ChainAt(next, next[xs[0]], xs[1..], i - 1);
      assert xs[i] == xs[1..][i - 1] && At(xs, i + 1) == At(xs[1..], i);
    }
  }

  /** Changes to next outside the list leave it a chain. */
  lemma {:induction false} ChainFrame(next: Links, next': Links, head: Option<Client>, xs: seq<Client>)
    requires IsChain(next, head, xs)
    requires forall x :: x in xs ==> x in next' && x in next && next'[x] == next[x]
    ensures IsChain(next', head, xs)
    decreases |xs|
  {
    if xs != [] {
      var first := xs[0];
      assert first in xs;
      ChainFrame(next, next', next[xs[0]], xs[1..]);
    }
  }

  lemma {:induction false} ChainMembers(next: Links, head: Option<Client>, xs: seq<Client>)
    requires IsChain(next, head, xs)
    ensures forall x :: x in xs ==> x in next
    decreases |xs|
  {
    if xs != [] { ChainMembers(next, next[xs[0]], xs[1..]); }
  }

  lemma ChainBehead(next: Links, xs: seq<Client>)
    requires |xs| > 0 && Distinct(xs) && IsChain(next, Some(xs[0]), xs)
    ensures IsChain(next - {xs[0]}, next[xs[0]], xs[1..])
  {
    ChainMembers(next, next[xs[0]], xs[1..]);
    ChainFrame(next, next - {xs[0]}, next[xs[0]], xs[1..]);
  }

  /** Taking out the node behind the first. */
  lemma ChainUnlinkSecond(next: Links, head: Option<Client>, xs: seq<Client>)
    requires 1 < |xs| && Distinct(xs) && IsChain(next, head, xs)
    ensures xs[0] in next && xs[1] in next
    ensures IsChain(next[xs[0] := next[xs[1]]] - {xs[1]}, head, xs[..1] + xs[2..])
  {
    ChainAt(next, head, xs, 0);
    ChainAt(next, head, xs, 1);
    ChainMembers(next, head, xs);
    var next' := next[xs[0] := next[xs[1]]] - {xs[1]};
    var ys := xs[..1] + xs[2..];
    assert xs[1..][1..] == xs[2..] && ys[1..] == xs[2..];
    assert IsChain(next, next[xs[1]], xs[2..]);
    assert xs[0] !in xs[2..] && xs[1] !in xs[2..] by { assert xs[2..] == xs[1..][1..]; }
    ChainFrame(next, next', next[xs[1]], xs[2..]);
  }

  lemma {:induction false} ChainUnlink(next: Links, head: Option<Client>, xs: seq<Client>, i: nat)
    requires 0 < i < |xs| && Distinct(xs) && IsChain(next, head, xs)
    ensures xs[i - 1] in next && xs[i] in next
    ensures IsChain(next[xs[i - 1] := next[xs[i]]] - {xs[i]}, head, xs[..i] + xs[i + 1..])
    decreases |xs|
  {
    if i == 1 {
      ChainUnlinkSecond(next, head, xs);
    } else {
      ChainAt(next, head, xs, i);
      ChainAt(next, head, xs, i - 1);
      ChainMembers(next, head, xs);
      var ys := xs[..i] + xs[i + 1..];
      DistinctApart(xs, 0, i);
      DistinctApart(xs, 0, i - 1);
      assert xs[1..][i - 1] == xs[i] && xs[1..][i - 2] == xs[i - 1];
      ChainUnlink(next, next[xs[0]], xs[1..], i - 1);
      assert ys[1..] == xs[1..][..i - 1] + xs[1..][i..];
    }
  }

  /** The list is determined by the head and the next pointers. */
  lemma {:induction false} ChainUnique(next: Links, head: Option<Client>, xs: seq<Client>, ys: seq<Client>)
    requires IsChain(next, head, xs) && IsChain(next, head, ys)
    ensures xs == ys
    decreases |xs|
  {
    if xs != [] && ys != [] {
      ChainUnique(next, next[xs[0]], xs[1..], ys[1..]);
      assert xs == [xs[0]] + xs[1..] && ys == [ys[0]] + ys[1..];
    }
  }

  // ---------- Lists of one state ----------

  lemma LiveDistinct(s: State, b: int)
    requires Sound(s) && 0 <= b < |s.past.pushes|
    ensures Distinct(Live(s, b))
  {
    WithoutKeepsDistinct(s.past.pushes[b], s.past.removed);
  }

  lemma ListOf(s: State, b: int)
    requires Sound(s) && 0 <= b < |s.past.pushes|
    ensures IsChain(s.next, s.heads[b], Live(s, b))
  {}

  /** In a sound list, next leads from each node to the one at the following position. */
  lemma NextIsLater(s: State, b: int, x: Client)
    requires Sound(s) && 0 <= b < |s.past.pushes| && x in Live(s, b)
    ensures x in s.next && s.next[x] == At(Live(s, b), Pos(Live(s, b), x) + 1)
    ensures s.next[x].Some? ==>
              s.next[x].value in Live(s, b) && Pos(Live(s, b), s.next[x].value) == Pos(Live(s, b), x) + 1
    ensures x in s.past.pushes[b] && x in s.regs && x !in s.past.removed
  {
    LiveDistinct(s, b);
    ListOf(s, b);
    var live := Live(s, b);
    var p := Pos(live, x);
    ChainAt(s.next, s.heads[b], live, p);
    if p + 1 < |live| { PosOfDistinct(live, p + 1); }
  }

  lemma HeadIsFirst(s: State, b: int)
    requires Sound(s) && 0 <= b < |s.past.pushes|
    ensures s.heads[b] == At(Live(s, b), 0)
    ensures s.heads[b].Some? ==> s.heads[b].value in Live(s, b) && Pos(Live(s, b), s.heads[b].value) == 0
  {
    ListOf(s, b);
  }

  // ---------- One removal ----------

  lemma DropsOne(pushes: seq<Client>, removed: set<Client>, x: Client)
    requires Distinct(pushes) && x in Without(pushes, removed)
    ensures var live := Without(pushes, removed);
            var p := Pos(live, x);
            Without(pushes, removed + {x}) == live[..p] + live[p + 1..]
  {
    WithoutKeepsDistinct(pushes, removed);
    WithoutTwice(pushes, removed, {x});
    var live := Without(pushes, removed);
    WithoutOne(live, Pos(live, x));
  }

  /** t is s after the node x of bucket b has been unlinked, with these heads and next pointers. */
  ghost predicate TakesOut(s: State, t: State, b: int, x: Client) {
    && 0 <= b < |s.past.pushes| && x in Live(s, b)
    && t.past == s.past.(removed := s.past.removed + {x})
    && t.regs == s.regs && t.dead == s.dead
  }

  /** What unlinking does to the list of its own bucket. */
  lemma OneDropped(s: State, t: State, b: int, x: Client)
    requires Sound(s) && TakesOut(s, t, b, x)
    ensures var p := Pos(Live(s, b), x); Live(t, b) == Live(s, b)[..p] + Live(s, b)[p + 1..]
  {
    DropsOne(s.past.pushes[b], s.past.removed, x);
  }

  /** What unlinking does to the other lists. */
  lemma OthersKept(s: State, t: State, b: int, x: Client, c: int)
    requires Sound(s) && TakesOut(s, t, b, x) && 0 <= c < |s.past.pushes| && c != b
    ensures Live(t, c) == Live(s, c)
  {
    assert x in s.past.pushes[b];
    WithoutAgree(s.past.pushes[c], s.past.removed, t.past.removed);
  }

  /** Unlinking a list's first node, by moving the head. */
  lemma BeheadKeepsChain(s: State, t: State, b: int, x: Client)
    requires Sound(s) && TakesOut(s, t, b, x) && s.heads[b] == Some(x)
    requires x in s.next && t.next == s.next - {x} && t.heads == s.heads[b := s.next[x]]
    ensures IsChain(t.next, t.heads[b], Live(t, b))
  {
    OneDropped(s, t, b, x);
    LiveDistinct(s, b);
    HeadIsFirst(s, b);
    ListOf(s, b);
    var live := Live(s, b);
    ChainBehead(s.next, live);
    assert live[..0] + live[1..] == live[1..];
  }

  /** Unlinking a node behind prev, by writing prev->next. */
  lemma BypassKeepsChain(s: State, t: State, b: int, x: Client, prev: Client)
    requires Sound(s) && TakesOut(s, t, b, x)
    requires prev in Live(s, b) && prev in s.next && s.next[prev] == Some(x)
    requires x in s.next && t.next == s.next[prev := s.next[x]] - {x} && t.heads == s.heads
    ensures IsChain(t.next, t.heads[b], Live(t, b))
  {
    OneDropped(s, t, b, x);
    assert |s.heads| == |s.past.pushes|;
    hide Sound, Live, Distinct, IsChain, Pos;
    LiveDistinct(s, b);
    NextIsLater(s, b, prev);
    ListOf(s, b);
    ChainUnlink(s.next, s.heads[b], Live(s, b), Pos(Live(s, b), x));
  }

  /** The other lists do not notice. */
  lemma UnlinkKeepsOther(s: State, t: State, b: int, x: Client, prev: Client, c: int)
    requires Sound(s) && TakesOut(s, t, b, x) && 0 <= c < |s.past.pushes| && c != b
    requires prev in Live(s, b) && |t.heads| == |s.heads| == |s.past.pushes| && t.heads[c] == s.heads[c]
    requires forall y :: y in s.next && y != x && y != prev ==> y in t.next && t.next[y] == s.next[y]
    ensures IsChain(t.next, t.heads[c], Live(t, c))
  {
    OthersKept(s, t, b, x, c);
    ListOf(s, c);
    ChainMembers(s.next, s.heads[c], Live(s, c));
    assert x in s.past.pushes[b] && prev in s.past.pushes[b];
    forall y | y in Live(s, c) ensures y in t.next && t.next[y] == s.next[y] {
      assert y in s.past.pushes[c];
    }
    ChainFrame(s.next, t.next, s.heads[c], Live(s, c));
  }

  // ---------- Registrations ----------

  lemma PushLists(s: State, r: Client)
    requires Shape(s) && Sound(s) && r in s.regs && s.regs[r].Linked? && s.heads[s.regs[r].bucket] == s.regs[r].oldHead
    ensures var t := Register(s, r, false); var b := s.regs[r].bucket;
            && r !in s.past.pushes[b] && r !in s.past.removed
            && Live(t, b) == [r] + Live(s, b)
            && forall c :: 0 <= c < |s.heads| && c != b ==> Live(t, c) == Live(s, c)
  {
    var t := Register(s, r, false);
    var b := s.regs[r].bucket;
    assert t.past.pushes[b][1..] == s.past.pushes[b];
  }

  lemma PushKeepsListed(pushes: seq<seq<Client>>, regs: map<Client, Registration>, r: Client, b: int)
    requires Listed(pushes, regs) && r in regs && !regs[r].InList() && 0 <= regs[r].bucket == b < |pushes|
    ensures Listed(pushes[b := [r] + pushes[b]], regs[r := Pushed(b)])
  {
    var pushes' := pushes[b := [r] + pushes[b]];
    assert pushes'[b][1..] == pushes[b];
  }

  lemma PushKeepsChains(s: State, r: Client)
    requires Shape(s) && Sound(s) && r in s.regs && s.regs[r].Linked? && s.heads[s.regs[r].bucket] == s.regs[r].oldHead
    ensures var t := Register(s, r, false); Chains(t.heads, t.next, t.past.pushes, t.past.removed)
  {
    var t := Register(s, r, false);
    var b := s.regs[r].bucket;
    PushLists(s, r);
    forall c | 0 <= c < |t.heads| ensures IsChain(t.next, t.heads[c], Without(t.past.pushes[c], t.past.removed)) {
      ListOf(s, c);
      assert Live(t, c) == Without(t.past.pushes[c], t.past.removed);
      if c == b { assert ([r] + Live(s, b))[1..] == Live(s, b); }
    }
  }

  /** A write to the node of a registration that is not yet in a list disturbs no list. */
  lemma PrivateWrite(s: State, r: Client, v: Option<Client>)
    requires Sound(s) && r in s.regs && !s.regs[r].InList()
    ensures Chains(s.heads, s.next[r := v], s.past.pushes, s.past.removed)
  {
    forall c | 0 <= c < |s.heads|
      ensures IsChain(s.next[r := v], s.heads[c], Without(s.past.pushes[c], s.past.removed))
    {
      ListOf(s, c);
      ChainMembers(s.next, s.heads[c], Live(s, c));
      forall x | x in Live(s, c) ensures x != r { assert x in s.past.pushes[c]; }
      ChainFrame(s.next, s.next[r := v], s.heads[c], Live(s, c));
    }
  }

  lemma RegisterKeepsListed(s: State, r: Client, spurious: bool)
    requires Shape(s) && Sound(s) && r in s.regs && !s.regs[r].Counted?
    ensures var t := Register(s, r, spurious); Listed(t.past.pushes, t.regs)
  {
    hide Allocated, Chains;
    var b := s.regs[r].bucket;
    if s.regs[r].Linked? && s.heads[b] == s.regs[r].oldHead && !spurious {
      PushKeepsListed(s.past.pushes, s.regs, r, b);
    } else {
      SameListed(s.past.pushes, s.regs, r, Register(s, r, spurious).regs[r]);
    }
  }

  lemma SameListed(pushes: seq<seq<Client>>, regs: map<Client, Registration>, r: Client, to: Registration)
    requires Listed(pushes, regs) && r in regs && regs[r].InList() == to.InList() && to.bucket == regs[r].bucket
    ensures Listed(pushes, regs[r := to])
  {}

  lemma RegisterKeepsAllocated(s: State, r: Client, spurious: bool)
    requires Shape(s) && Sound(s) && r in s.regs && !s.regs[r].Counted?
    ensures var t := Register(s, r, spurious); Allocated(t.next, t.regs, t.dead, t.past.removed)
  {
    hide Listed, Chains, Register;
    RegisterMoves(s, r, spurious);
    var t := Register(s, r, spurious);
    AllocatedAfter(s.next, t.next, s.regs, t.regs[r], s.dead, s.past.removed, r);
  }

  /** What a registration step does to the allocated nodes and to its own place. */
  lemma RegisterMoves(s: State, r: Client, spurious: bool)
    requires Shape(s) && r in s.regs && !s.regs[r].Counted?
    requires s.regs[r].Linked? ==> r in s.next && s.next[r] == s.regs[r].oldHead
    ensures var t := Register(s, r, spurious);
            && r in t.regs && t.regs == s.regs[r := t.regs[r]] && t.dead == s.dead && t.past.removed == s.past.removed
            && (t.next == s.next
                || (t.regs[r].HasNode() && !s.regs[r].InList() && r in t.next && t.next == s.next[r := t.next[r]]))
            && (t.regs[r].HasNode() && !s.regs[r].HasNode() ==> r in t.next)
            && (t.regs[r].HasNode() <==> s.regs[r].HasNode() || s.regs[r].Bumped?)
            && (s.regs[r].InList() ==> t.regs[r].InList())
            && (t.regs[r].Linked? ==> r in t.next && t.next[r] == t.regs[r].oldHead)
  {
    hide Live;
  }

  lemma AllocatedAfter(next: Links, next': Links, regs: map<Client, Registration>, reg: Registration,
                       dead: set<Client>, removed: set<Client>, r: Client)
    requires Allocated(next, regs, dead, removed) && r in regs
    requires next' == next || (reg.HasNode() && !regs[r].InList() && r in next' && next' == next[r := next'[r]])
    requires reg.HasNode() && !regs[r].HasNode() ==> r in next'
    requires (regs[r].HasNode() ==> reg.HasNode()) && (regs[r].InList() ==> reg.InList())
    requires reg.Linked? ==> r in next' && next'[r] == reg.oldHead
    ensures Allocated(next', regs[r := reg], dead, removed)
  {}

  lemma RegisterKeepsChains(s: State, r: Client, spurious: bool)
    requires Shape(s) && Sound(s) && r in s.regs && !s.regs[r].Counted?
    ensures var t := Register(s, r, spurious); Chains(t.heads, t.next, t.past.pushes, t.past.removed)
  {
    hide Listed, Allocated, Chains;
    var b := s.regs[r].bucket;
    if s.regs[r].Linked? && s.heads[b] == s.regs[r].oldHead && !spurious {
      PushKeepsChains(s, r);
    } else if s.regs[r].Bumped? {
      PrivateWrite(s, r, None);
    } else if s.regs[r].Loaded? {
      PrivateWrite(s, r, s.regs[r].oldHead);
    }
  }

  lemma RegisterKeepsSound(s: State, r: Client, spurious: bool)
    requires Shape(s) && Sound(s) && r in s.regs && !s.regs[r].Counted?
    ensures Sound(Register(s, r, spurious))
  {
    hide Listed, Allocated, Chains;
    RegisterKeepsListed(s, r, spurious);
    RegisterKeepsAllocated(s, r, spurious);
    RegisterKeepsChains(s, r, spurious);
  }

  // ---------- The broadcast ----------

  ghost predicate Unlinks(s: State, spurious: bool)
    requires Shape(s) && s.caster.InRemove()
  {
    && 0 <= s.caster.k < |s.tuples|
    && (s.caster.Unlinking?
        || (s.caster.Swapping? && !spurious
            && s.heads[s.tuples[s.caster.k].bucket] == Some(s.tuples[s.caster.k].client)))
  }

  /** The two unlinking steps take exactly the tuple's node out of its list. */
  lemma UnlinkTakesOut(s: State, spurious: bool)
    requires Shape(s) && Control(s) && s.caster.InRemove() && Unlinks(s, spurious)
    ensures var t := Remove(s, spurious);
            var b, x := s.tuples[s.caster.k].bucket, s.tuples[s.caster.k].client;
            TakesOut(s, t, b, x) && t.caster == Removed(s.caster.k, true)
  {}

  lemma UnlinkPointers(s: State, spurious: bool)
    requires Shape(s) && Control(s) && s.caster.InRemove() && Unlinks(s, spurious)
    ensures var t := Remove(s, spurious);
            var b, x := s.tuples[s.caster.k].bucket, s.tuples[s.caster.k].client;
            && x in s.next
            && (s.caster.Swapping? ==>
                  s.heads[b] == Some(x) && t.heads == s.heads[b := s.next[x]] && t.next == s.next - {x})
            && (s.caster.Unlinking? ==>
                  && s.caster.prev in Live(s, b) && s.caster.prev in s.next && s.next[s.caster.prev] == Some(x)
                  && t.heads == s.heads && t.next == s.next[s.caster.prev := s.next[x]] - {x})
  {}

  lemma UnlinkKeepsChains(s: State, t: State, b: int, x: Client, prev: Client)
    requires Sound(s) && TakesOut(s, t, b, x) && x in s.next
    requires (&& prev == x && |s.heads| == |s.past.pushes| && s.heads[b] == Some(x)
              && t.heads == s.heads[b := s.next[x]] && t.next == s.next - {x})
          || (&& prev in Live(s, b) && prev in s.next && s.next[prev] == Some(x)
              && t.heads == s.heads && t.next == s.next[prev := s.next[x]] - {x})
    ensures Chains(t.heads, t.next, t.past.pushes, t.past.removed)
    ensures prev in s.past.pushes[b]
  {
    forall c | 0 <= c < |t.heads| ensures IsChain(t.next, t.heads[c], Without(t.past.pushes[c], t.past.removed)) {
      hide Listed, Allocated, Chains;
      assert Live(t, c) == Without(t.past.pushes[c], t.past.removed);
      if prev == x && c == b { NextIsLater(s, b, x); }
      if c != b { UnlinkKeepsOther(s, t, b, x, prev, c); }
      else if prev == x { BeheadKeepsChain(s, t, b, x); }
      else { BypassKeepsChain(s, t, b, x, prev); }
    }
  }

  lemma UnlinkKeepsAllocated(s: State, t: State, b: int, x: Client, prev: Client)
    requires Sound(s) && TakesOut(s, t, b, x) && x in s.dead
    requires prev in s.past.pushes[b]
    requires t.next.Keys == s.next.Keys - {x}
    requires forall y :: y in t.next && y != prev ==> t.next[y] == s.next[y]
    ensures Allocated(t.next, t.regs, t.dead, t.past.removed)
  {}

  lemma UnlinkKeepsSound(s: State, spurious: bool)
    requires Shape(s) && Sound(s) && Control(s) && s.caster.InRemove() && Unlinks(s, spurious)
    requires s.tuples[s.caster.k].client in s.dead
    ensures Sound(Remove(s, spurious))
  {
    hide Listed, Allocated, Chains;
    UnlinkTakesOut(s, spurious);
    UnlinkPointers(s, spurious);
    var t := Remove(s, spurious);
    var b, x := s.tuples[s.caster.k].bucket, s.tuples[s.caster.k].client;
    var prev := if s.caster.Swapping? then x else s.caster.prev;
    UnlinkKeepsChains(s, t, b, x, prev);
    UnlinkKeepsAllocated(s, t, b, x, prev);
  }

  ghost predicate SameLists(s: State, t: State) {
    && t.heads == s.heads && t.next == s.next && t.regs == s.regs && t.dead == s.dead
    && t.past.pushes == s.past.pushes && t.past.removed == s.past.removed
  }

  lemma RemoveLeavesLists(s: State, spurious: bool)
    requires Shape(s) && s.caster.InRemove() && !Unlinks(s, spurious) && !s.caster.Unlinking?
    ensures SameLists(s, Remove(s, spurious))
  {
    hide RemoveHead, RemoveSearch, SameLists, Shape;
    if s.caster.Stepping? || s.caster.Searching? { SearchLeavesLists(s); } else { HeadLeavesLists(s, spurious); }
  }

  lemma HeadLeavesLists(s: State, spurious: bool)
    requires Shape(s) && (s.caster.Removing? || s.caster.Comparing? || s.caster.Swapping?) && !Unlinks(s, spurious)
    ensures SameLists(s, RemoveHead(s, spurious))
  {
    hide TakeOut;
  }

  lemma SearchLeavesLists(s: State)
    requires Shape(s) && (s.caster.Stepping? || s.caster.Searching?)
    ensures SameLists(s, RemoveSearch(s))
  {}

  /** Every step of the broadcast outside remove leaves the lists alone. */
  lemma CastLeavesLists(s: State, spurious: bool)
    requires Shape(s) && Enabled(s, Cast(spurious)) && !s.caster.InRemove()
    ensures SameLists(s, Exec(s, Cast(spurious)))
  {
    hide Walk, Offer, Sweep, Remove, SameLists;
    if s.caster.InSweep() { SweepLeavesLists(s); }
    else if s.caster.Sending? || s.caster.Advancing? { OfferLeavesLists(s); }
    else { WalkLeavesLists(s); }
  }

  lemma WalkLeavesLists(s: State)
    requires Shape(s) && (s.caster.Entering? || s.caster.Fronting? || s.caster.Visiting?)
    ensures SameLists(s, Walk(s))
  {
    hide Live;
  }

  lemma OfferLeavesLists(s: State)
    requires Shape(s) && (s.caster.Sending? || s.caster.Advancing?)
    ensures SameLists(s, Offer(s))
  {}

  lemma SweepLeavesLists(s: State)
    requires Shape(s) && (s.caster.Sweeping? || s.caster.Removed? || s.caster.Unlocking?)
    ensures SameLists(s, Sweep(s))
  {}

  lemma SameListsKeepSound(s: State, t: State)
    requires Sound(s) && SameLists(s, t)
    ensures Sound(t)
  {
    hide Listed, Allocated, Chains;
  }

  lemma ArrivalKeeps(s: State, r: Client, b: int)
    requires Sound(s) && r !in s.regs
    ensures Listed(s.past.pushes, s.regs[r := Picked(b)])
    ensures Allocated(s.next, s.regs[r := Picked(b)], s.dead, s.past.removed)
  {
    hide Chains;
  }

  lemma DeathKeeps(s: State, x: Client)
    requires Sound(s)
    ensures Allocated(s.next, s.regs, s.dead + {x}, s.past.removed)
  {
    hide Listed, Chains;
  }

  lemma OtherKeepsSound(s: State, step: Step)
    requires Shape(s) && Enabled(s, step) && Sound(s) && (step.Arrive? || step.Die? || step.Begin?)
    ensures Sound(Exec(s, step))
  {
    hide Listed, Allocated, Chains;
    if step.Arrive? { ArrivalKeeps(s, step.r, s.counter % |s.heads|); }
    if step.Die? { DeathKeeps(s, step.x); }
  }

  lemma StepKeepsSound(s: State, step: Step)
    requires Shape(s) && Enabled(s, step) && Sound(s) && Control(s)
    requires forall j :: 0 <= j < |s.tuples| ==> s.tuples[j].client in s.dead
    ensures Sound(Exec(s, step))
  {
    hide Sound, Control, Register, Remove, SameLists, Unlinks, Walk, Offer, Sweep;
    match step
    case Bump(r) => RegisterKeepsSound(s, r, false);
    case Load(r) => RegisterKeepsSound(s, r, false);
    case Link(r) => RegisterKeepsSound(s, r, false);
    case Cas(r, spurious) => RegisterKeepsSound(s, r, spurious);
    case CountUp(r) => RegisterKeepsSound(s, r, false);
    case Cast(spurious) => CastKeepsSound(s, spurious);
    case _ => OtherKeepsSound(s, step);
  }

  lemma CastKeepsSound(s: State, spurious: bool)
    requires Shape(s) && Enabled(s, Cast(spurious)) && Sound(s) && Control(s)
    requires forall j :: 0 <= j < |s.tuples| ==> s.tuples[j].client in s.dead
    ensures Sound(Exec(s, Cast(spurious)))
  {
    hide Sound, Control, Remove, SameLists, Unlinks, Walk, Offer, Sweep;
    var t := Exec(s, Cast(spurious));
    if !s.caster.InRemove() {
      CastLeavesLists(s, spurious);
      SameListsKeepSound(s, t);
    } else if Unlinks(s, spurious) {
      TupleInRange(s, spurious);
      UnlinkKeepsSound(s, spurious);
    } else {
      NoUnlinking(s, spurious);
      RemoveLeavesLists(s, spurious);
      SameListsKeepSound(s, t);
    }
  }

  lemma TupleInRange(s: State, spurious: bool)
    requires Shape(s) && s.caster.InRemove() && Unlinks(s, spurious)
    ensures 0 <= s.caster.k < |s.tuples|
  {}

  lemma NoUnlinking(s: State, spurious: bool)
    requires Shape(s) && s.caster.InRemove() && !Unlinks(s, spurious)
    ensures !s.caster.Unlinking?
  {}
}
