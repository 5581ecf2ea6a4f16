/**
 Every step keeps the broadcast where it should be: it holds the lock it needs,
 its iterators are linked nodes, and it never follows a null or freed pointer.
 */
module RegistryControl {
  import opened Sequences
  import opened Registry
  import opened RegistryInvariant
  import opened RegistryLists

  // ---------- Steps of registrations ----------

  lemma RemovalSurvivesPush(caster: Caster, next: Links, next': Links, live: seq<Client>,
                            x: Client, gone: bool, missed: bool, r: Client)
    requires Removal(caster, next, live, x, gone, missed) && r !in live
    requires forall y :: y in live ==> (y in next <==> y in next') && (y in next ==> next'[y] == next[y])
    ensures Removal(caster, next', [r] + live, x, gone, missed)
  {
    assert ([r] + live)[1..] == live;
  }

  lemma RemovalSurvivesWrite(caster: Caster, next: Links, next': Links, live: seq<Client>,
                             x: Client, gone: bool, missed: bool)
    requires Removal(caster, next, live, x, gone, missed)
    requires forall y :: y in live ==> (y in next <==> y in next') && (y in next ==> next'[y] == next[y])
    ensures Removal(caster, next', live, x, gone, missed)
  {}

  lemma PrivateNode(s: State, r: Client)
    requires Shape(s) && Sound(s) && r in s.regs && !s.regs[r].InList()
    ensures forall b :: 0 <= b < |s.heads| ==> r !in Live(s, b)
  {
    forall b | 0 <= b < |s.heads| ensures r !in Live(s, b) {
      assert forall x :: x in Live(s, b) ==> x in s.past.pushes[b];
    }
  }

  /** What a registration step can do to the lists and pointers the broadcast uses. */
  lemma RegisterFrame(s: State, r: Client, spurious: bool)
    requires Shape(s) && Sound(s) && r in s.regs && !s.regs[r].Counted?
    ensures var t := Register(s, r, spurious);
            && t.caster == s.caster && t.locks == s.locks && t.tuples == s.tuples
            && t.past.removed == s.past.removed && t.past.missed == s.past.missed && t.dead == s.dead
            && t.past.messages == s.past.messages && t.handed == s.handed && t.wire == s.wire && t.msg == s.msg
            && t.past.fronts == s.past.fronts && t.past.front == s.past.front
            && (forall y :: y != r ==> (y in s.next <==> y in t.next) && (y in s.next ==> t.next[y] == s.next[y]))
            && |t.past.pushes| == |s.past.pushes|
  {}

  lemma RegisterLists(s: State, r: Client, spurious: bool, b: int)
    requires Shape(s) && Sound(s) && r in s.regs && !s.regs[r].Counted? && 0 <= b < |s.heads|
    ensures var t := Register(s, r, spurious);
            Live(t, b) == Live(s, b) || (Live(t, b) == [r] + Live(s, b) && r !in Live(s, b) && !s.regs[r].InList())
  {
    if s.regs[r].Linked? && s.heads[s.regs[r].bucket] == s.regs[r].oldHead && !spurious {
      PushLists(s, r);
      PrivateNode(s, r);
    }
  }

  lemma RegisterKeepsRemoval(s: State, r: Client, spurious: bool)
    requires Shape(s) && Sound(s) && Control(s) && r in s.regs && !s.regs[r].Counted? && s.caster.InRemoval()
    ensures var t := Register(s, r, spurious);
            var u := s.tuples[s.caster.k];
            Removal(t.caster, t.next, Live(t, u.bucket), u.client,
                    u.client in t.past.removed, u.client in t.past.missed)
  {
    hide Sound, Removal;
    RegisterFrame(s, r, spurious);
    var t := Register(s, r, spurious);
    var u := s.tuples[s.caster.k];
    var b, x := u.bucket, u.client;
    RegisterLists(s, r, spurious, b);
    var gone, missed := x in s.past.removed, x in s.past.missed;
    if s.regs[r].Pushed? {
      assert t.next == s.next;
      assert Live(t, b) == Live(s, b);
    } else {
      PrivateNode(s, r);
      if Live(t, b) == Live(s, b) {
        RemovalSurvivesWrite(s.caster, s.next, t.next, Live(s, b), x, gone, missed);
      } else {
        RemovalSurvivesPush(s.caster, s.next, t.next, Live(s, b), x, gone, missed, r);
      }
    }
  }

  lemma RegisterKeepsControl(s: State, r: Client, spurious: bool)
    requires Shape(s) && Sound(s) && Control(s) && r in s.regs && !s.regs[r].Counted?
    ensures Control(Register(s, r, spurious))
  {
    hide Sound, Removal, Locking;
    RegisterFrame(s, r, spurious);
    var t := Register(s, r, spurious);
    if s.caster.InRemoval() { RegisterKeepsRemoval(s, r, spurious); }
    if s.caster.InWalk() { RegisterLists(s, r, spurious, s.caster.bucket); }
    assert Locking(t) by { SameLocking(s, t); }
  }

  lemma SameLocking(s: State, t: State)
    requires Locking(s) && t.caster == s.caster && t.locks == s.locks && t.tuples == s.tuples
    ensures Locking(t)
  {}

  // ---------- Steps of the walk ----------

  lemma WalkKeepsControl(s: State)
    requires Shape(s) && Sound(s) && Control(s) && (s.caster.Entering? || s.caster.Fronting? || s.caster.Visiting?)
    requires s.caster.Entering? && s.caster.bucket < |s.heads| ==> !s.locks[s.caster.bucket]
    ensures Control(Walk(s))
  {
    hide Sound;
    if s.caster.Fronting? { HeadIsFirst(s, s.caster.bucket); }
    if s.caster.Visiting? && s.caster.at.Some? { NextIsLater(s, s.caster.bucket, s.caster.at.value); }
  }

  lemma OfferKeepsControl(s: State)
    requires Shape(s) && Sound(s) && Control(s) && (s.caster.Sending? || s.caster.Advancing?)
    ensures Control(Offer(s))
  {
    hide Sound;
    NextIsLater(s, s.caster.bucket, s.caster.node);
  }

  // ---------- Steps of the sweep ----------

  lemma TargetLinked(s: State)
    requires Shape(s) && Sound(s) && Tuples(s) && s.caster.Sweeping? && s.caster.k < |s.tuples|
    ensures var t := s.tuples[s.caster.k]; t.client in Live(s, t.bucket)
  {
    assert TupleOk(s, s.caster.k);
  }

  lemma SweepKeepsControl(s: State)
    requires Shape(s) && Sound(s) && Control(s) && Tuples(s)
    requires s.caster.Sweeping? || s.caster.Removed? || s.caster.Unlocking?
    requires s.caster.Sweeping? && s.caster.k < |s.tuples| ==> !s.locks[s.tuples[s.caster.k].bucket]
    ensures Control(Sweep(s))
  {
    hide Sound, Tuples;
    if s.caster.Sweeping? && s.caster.k < |s.tuples| { TargetLinked(s); }
  }

  /** The removal reads a head and compares it, or fails its CAS: the search starts at or before the node. */
  lemma RemoveHeadKeepsControl(s: State, spurious: bool)
    requires Shape(s) && Sound(s) && Control(s) && (s.caster.Removing? || s.caster.Comparing? || s.caster.Swapping?)
    requires s.tuples[s.caster.k].client !in s.past.missed && !Unlinks(s, spurious)
    ensures Control(Remove(s, spurious))
  {
    hide Sound;
    var t := s.tuples[s.caster.k];
    NextIsLater(s, t.bucket, t.client);
    HeadIsFirst(s, t.bucket);
  }

  /** The search moves one node along; the node sought stays ahead of it, unless the CAS failed spuriously. */
  lemma SteppingKeepsControl(s: State, spurious: bool)
    requires Shape(s) && Sound(s) && Control(s) && s.caster.Stepping?
    ensures Control(Remove(s, spurious))
  {
    hide Sound;
    var t := s.tuples[s.caster.k];
    NextIsLater(s, t.bucket, t.client);
    NextIsLater(s, t.bucket, s.caster.at.value);
  }

  /** A step within the removal in progress that moves the broadcast and nothing else. */
  lemma CasterKeepsControl(s: State, c: Caster)
    requires Shape(s) && Control(s) && s.caster.InRemoval() && c.InRemoval() && c.k == s.caster.k && !c.Faulted?
    requires var t := s.tuples[s.caster.k];
             Removal(c, s.next, Live(s, t.bucket), t.client, t.client in s.past.removed, t.client in s.past.missed)
    ensures Shape(s.(caster := c)) && Control(s.(caster := c))
  {
    hide Removal;
    assert Live(s.(caster := c), s.tuples[s.caster.k].bucket) == Live(s, s.tuples[s.caster.k].bucket);
    hide Live;
  }

  /** Where the search goes from here. */
  function SearchTo(s: State): Caster
    requires Shape(s) && s.caster.Searching?
  {
    var k := s.caster.k;
    if s.caster.at.None? then Removed(k, false)
    else if s.caster.at.value !in s.next then Faulted
    else if s.caster.at.value == s.tuples[k].client then Unlinking(k, s.caster.prev, s.next[s.caster.at.value])
    else Searching(k, s.caster.at.value, s.next[s.caster.at.value])
  }

  lemma SearchMoves(s: State)
    requires Shape(s) && s.caster.Searching?
    ensures RemoveSearch(s) == s.(caster := SearchTo(s))
  {}

  /** One step of the search along a list in which next leads from each node to the following one. */
  lemma SearchKeepsRemoval(s: State, live: seq<Client>, x: Client, gone: bool, missed: bool)
    requires Shape(s) && s.caster.Searching? && x == s.tuples[s.caster.k].client
    requires Removal(s.caster, s.next, live, x, gone, missed) && !gone
    requires s.next[s.caster.prev] == At(live, Pos(live, s.caster.prev) + 1)
    requires s.caster.at.Some? ==>
               var y := s.caster.at.value;
               y in live && y in s.next && Pos(live, y) == Pos(live, s.caster.prev) + 1
    ensures !SearchTo(s).Faulted? && Removal(SearchTo(s), s.next, live, x, gone, missed)
  {
    hide Shape;
  }

  lemma SearchingKeepsControl(s: State, spurious: bool)
    requires Shape(s) && Sound(s) && Control(s) && s.caster.Searching?
    ensures Control(Remove(s, spurious))
  {
    hide Sound, Removal, RemoveSearch, RemoveHead, Live;
    var t := s.tuples[s.caster.k];
    SearchMoves(s);
    SearchStands(s);
    NextIsLater(s, t.bucket, t.client);
    NextIsLater(s, t.bucket, s.caster.prev);
    if s.caster.at.Some? { NextIsLater(s, t.bucket, s.caster.at.value); }
    SearchKeepsRemoval(s, Live(s, t.bucket), t.client, t.client in s.past.removed, t.client in s.past.missed);
    CasterKeepsControl(s, SearchTo(s));
  }

  lemma SearchStands(s: State)
    requires Shape(s) && Sound(s) && Control(s) && s.caster.Searching?
    ensures var live := Live(s, s.tuples[s.caster.k].bucket);
            && s.caster.prev in live && (s.caster.at.Some? ==> s.caster.at.value in live)
            && s.tuples[s.caster.k].client in live && s.next[s.caster.prev] == s.caster.at
  {
    hide Sound, Live;
    NextIsLater(s, s.tuples[s.caster.k].bucket, s.caster.prev);
  }

  lemma RemoveSearchKeepsControl(s: State, spurious: bool)
    requires Shape(s) && Sound(s) && Control(s) && (s.caster.Stepping? || s.caster.Searching?)
    ensures Control(Remove(s, spurious))
  {
    if s.caster.Stepping? { SteppingKeepsControl(s, spurious); } else { SearchingKeepsControl(s, spurious); }
  }

  lemma UnlinkKeepsControl(s: State, spurious: bool)
    requires Shape(s) && Control(s) && s.caster.InRemove() && Unlinks(s, spurious)
    ensures Control(Remove(s, spurious))
  {
    hide Live;
  }

  lemma StepKeepsControl(s: State, step: Step)
    requires Shape(s) && Enabled(s, step) && Sound(s) && Control(s) && Tuples(s)
    ensures Control(Exec(s, step))
  {
    hide Sound, Control, Removal;
    match step
    case Bump(r) => RegisterKeepsControl(s, r, false);
    case Load(r) => RegisterKeepsControl(s, r, false);
    case Link(r) => RegisterKeepsControl(s, r, false);
    case Cas(r, spurious) => RegisterKeepsControl(s, r, spurious);
    case CountUp(r) => RegisterKeepsControl(s, r, false);
    case Cast(spurious) => CastKeepsControl(s, spurious);
    case _ => OtherKeepsControl(s, step);
  }

  lemma OtherKeepsControl(s: State, step: Step)
    requires Shape(s) && Enabled(s, step) && Control(s) && (step.Arrive? || step.Die? || step.Begin?)
    ensures Control(Exec(s, step))
  {
    hide Removal;
  }

  lemma NotMissedYet(s: State)
    requires Shape(s) && Tuples(s) && (s.caster.Removing? || s.caster.Comparing? || s.caster.Swapping?)
    ensures s.tuples[s.caster.k].client !in s.past.missed
  {
    assert TupleOk(s, s.caster.k);
  }

  lemma CastKeepsControl(s: State, spurious: bool)
    requires Shape(s) && Enabled(s, Cast(spurious)) && Sound(s) && Control(s) && Tuples(s)
    ensures Control(Exec(s, Cast(spurious)))
  {
    hide Sound, Removal, Tuples, Locking, Walking, Walk, Offer, Sweep, RemoveHead, RemoveSearch;
    if s.caster.InRemove() {
      if Unlinks(s, spurious) {
        UnlinkKeepsControl(s, spurious);
      } else if s.caster.Stepping? || s.caster.Searching? {
        RemoveSearchKeepsControl(s, spurious);
      } else {
        NotMissedYet(s);
        RemoveHeadKeepsControl(s, spurious);
      }
    } else if s.caster.InSweep() {
      SweepKeepsControl(s);
    } else if s.caster.Sending? || s.caster.Advancing? {
      OfferKeepsControl(s);
    } else {
      WalkKeepsControl(s);
    }
  }
}
