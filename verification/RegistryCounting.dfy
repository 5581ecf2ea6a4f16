/** Every step keeps the client count and the account of each list since its head was last loaded. */
module RegistryCounting {
  import opened Sequences
  import opened Registry
  import opened RegistryInvariant
  import opened RegistryLists
  import opened RegistryControl
  import opened RegistryTuples
  import opened RegistryDelivery

  // ---------- The client count ----------

  lemma SameListsSameTotal(s: State, t: State)
    requires |s.past.pushes| == |t.past.pushes|
    requires forall b :: 0 <= b < |s.past.pushes| ==> Live(s, b) == Live(t, b)
    ensures AllLists(s) == AllLists(t)
  {}

  /** One list changes, by one node. */
  lemma OneListChanges(s: State, t: State, b: int)
    requires 0 <= b < |s.past.pushes| == |t.past.pushes|
    requires forall c :: 0 <= c < |s.past.pushes| && c != b ==> Live(s, c) == Live(t, c)
    ensures TotalLength(AllLists(t)) == TotalLength(AllLists(s)) - |Live(s, b)| + |Live(t, b)|
  {
    assert AllLists(t) == AllLists(s)[b := Live(t, b)];
    TotalLengthUpdate(AllLists(s), b, Live(t, b));
  }

  ghost predicate Pushes(s: State, r: Client, spurious: bool)
    requires Shape(s) && r in s.regs
  {
    s.regs[r].Linked? && s.heads[s.regs[r].bucket] == s.regs[r].oldHead && !spurious
  }

  lemma UncountedUpdate(s: State, t: State, r: Client)
    requires r in s.regs && r in t.regs && t.regs == s.regs[r := t.regs[r]]
    ensures |Uncounted(t)| ==
            |Uncounted(s)| + (if t.regs[r].Pushed? then 1 else 0) - (if s.regs[r].Pushed? then 1 else 0)
  {
    var others := Uncounted(s) - {r};
    assert Uncounted(s) == if s.regs[r].Pushed? then others + {r} else others;
    assert Uncounted(t) == if t.regs[r].Pushed? then others + {r} else others;
  }

  lemma RegisterMoves(s: State, r: Client, spurious: bool)
    requires Shape(s) && r in s.regs && !s.regs[r].Counted?
    ensures var t := Register(s, r, spurious);
            && r in t.regs && t.regs == s.regs[r := t.regs[r]] && (t.regs[r].Pushed? <==> Pushes(s, r, spurious))
            && t.count == s.count + (if s.regs[r].Pushed? then 1 else 0) && t.caster == s.caster
            && |t.past.pushes| == |s.past.pushes|
  {}

  lemma RegisterKeepsCounting(s: State, r: Client, spurious: bool)
    requires Shape(s) && Sound(s) && Counting(s) && r in s.regs && !s.regs[r].Counted?
    ensures Counting(Register(s, r, spurious))
  {
    hide Sound, Live, Uncounted, Register;
    var t := Register(s, r, spurious);
    RegisterMoves(s, r, spurious);
    UncountedUpdate(s, t, r);
    if Pushes(s, r, spurious) {
      PushLists(s, r);
      OneListChanges(s, t, s.regs[r].bucket);
    } else {
      SameListsRegister(s, r, spurious);
      SameListsSameTotal(s, t);
    }
  }

  lemma SameListsRegister(s: State, r: Client, spurious: bool)
    requires Shape(s) && r in s.regs && !s.regs[r].Counted?
    requires !(s.regs[r].Linked? && s.heads[s.regs[r].bucket] == s.regs[r].oldHead && !spurious)
    ensures var t := Register(s, r, spurious);
            |t.past.pushes| == |s.past.pushes| && forall b :: 0 <= b < |s.past.pushes| ==> Live(s, b) == Live(t, b)
  {}

  lemma RemoveKeepsCounting(s: State, spurious: bool)
    requires Shape(s) && Sound(s) && Control(s) && Tuples(s) && Counting(s) && s.caster.InRemove()
    ensures Counting(Remove(s, spurious))
  {
    hide Sound, Control, Tuples, Live, Remove;
    RemoveVerdict(s, spurious);
    RemoveEffect(s, spurious);
    var t := Remove(s, spurious);
    var b, x := s.tuples[s.caster.k].bucket, s.tuples[s.caster.k].client;
    assert Uncounted(t) == Uncounted(s);
    if t.past.removed == s.past.removed {
      LiveOf(s, t);
      SameListsSameTotal(s, t);
    } else {
      TargetInList(s, spurious);
      forall c | 0 <= c < |s.past.pushes| && c != b ensures Live(s, c) == Live(t, c) { OthersKept(s, t, b, x, c); }
      OneDropped(s, t, b, x);
      OneListChanges(s, t, b);
    }
  }

  lemma LiveOf(s: State, t: State)
    requires s.past.pushes == t.past.pushes && s.past.removed == t.past.removed
    ensures forall b :: 0 <= b < |s.past.pushes| ==> Live(s, b) == Live(t, b)
  {}

  lemma TargetInList(s: State, spurious: bool)
    requires Shape(s) && Sound(s) && Control(s) && Tuples(s) && s.caster.InRemove()
    requires Remove(s, spurious).past.removed != s.past.removed
    ensures TakesOut(s, Remove(s, spurious), s.tuples[s.caster.k].bucket, s.tuples[s.caster.k].client)
  {
    hide Sound, Tuples, RemoveHead, RemoveSearch;
    RemoveVerdict(s, spurious);
    RemoveEffect(s, spurious);
  }

  lemma OtherKeepsCounting(s: State, step: Step)
    requires Shape(s) && Enabled(s, step) && Counting(s) && (step.Arrive? || step.Die? || step.Begin?)
    ensures Counting(Exec(s, step))
  {
    var t := Exec(s, step);
    LiveOf(s, t);
    hide Live;
    SameListsSameTotal(s, t);
    assert Uncounted(t) == Uncounted(s);
  }

  /** The count and the registrations stay as they are. */
  ghost predicate SameCount(s: State, t: State) {
    t.regs == s.regs && t.count == s.count && !t.caster.Removed?
  }

  lemma WalkCounts(s: State)
    requires Shape(s) && (s.caster.Entering? || s.caster.Fronting? || s.caster.Visiting?)
    ensures SameCount(s, Walk(s))
  {
    hide Live;
  }

  lemma OfferCounts(s: State)
    requires Shape(s) && (s.caster.Sending? || s.caster.Advancing?)
    ensures SameCount(s, Offer(s))
  {}

  lemma SweepCounts(s: State)
    requires Shape(s) && (s.caster.Sweeping? || s.caster.Removed? || s.caster.Unlocking?)
    ensures var t := Sweep(s);
            && t.regs == s.regs && !t.caster.Removed?
            && t.count == s.count - if s.caster.Removed? && s.caster.hit then 1 else 0
  {}

  /** Outside remove only the subtraction behind it changes the count. */
  lemma CastCounts(s: State, spurious: bool)
    requires Shape(s) && Enabled(s, Cast(spurious)) && !s.caster.InRemove()
    ensures var t := Exec(s, Cast(spurious));
            && t.regs == s.regs && !t.caster.Removed?
            && t.count == s.count - if s.caster.Removed? && s.caster.hit then 1 else 0
  {
    hide Shape, Walk, Offer, Sweep;
    if s.caster.InSweep() {
      SweepCounts(s);
    } else if s.caster.Sending? || s.caster.Advancing? {
      OfferCounts(s);
    } else {
      WalkCounts(s);
    }
  }

  lemma WalkKeepsCounting(s: State, spurious: bool)
    requires Shape(s) && Enabled(s, Cast(spurious)) && Counting(s) && !s.caster.InRemove()
    ensures Counting(Exec(s, Cast(spurious)))
  {
    var t := Exec(s, Cast(spurious));
    hide Live, Exec, Enabled;
    CastLeavesLists(s, spurious);
    CastCounts(s, spurious);
    LiveOf(s, t);
    SameListsSameTotal(s, t);
    hide Shape;
    assert Uncounted(t) == Uncounted(s);
  }

  lemma StepKeepsCounting(s: State, step: Step)
    requires Shape(s) && Enabled(s, step) && Sound(s) && Control(s) && Tuples(s) && Counting(s)
    ensures Counting(Exec(s, step))
  {
    hide Sound, Control, Tuples, Counting, Register, Walk, Offer, Sweep, Remove;
    match step
    case Bump(r) => RegisterKeepsCounting(s, r, false);
    case Load(r) => RegisterKeepsCounting(s, r, false);
    case Link(r) => RegisterKeepsCounting(s, r, false);
    case Cas(r, spurious) => RegisterKeepsCounting(s, r, spurious);
    case CountUp(r) => RegisterKeepsCounting(s, r, false);
    case Cast(spurious) =>
      if s.caster.InRemove() { RemoveKeepsCounting(s, spurious); } else { WalkKeepsCounting(s, spurious); }
    case _ => OtherKeepsCounting(s, step);
  }

  // ---------- The lists since their heads were loaded ----------

  lemma RegisterKeepsFront(s: State, r: Client, spurious: bool, b: int)
    requires Shape(s) && Sound(s) && Control(s) && 0 <= b < |s.heads| && FrontOk(s, b)
    requires r in s.regs && !s.regs[r].Counted?
    ensures FrontOk(Register(s, r, spurious), b)
  {
    hide Sound, Live;
    var t := Register(s, r, spurious);
    RegisterFrame(s, r, spurious);
    if s.past.fronts[b] > 0 && !Unfronted(s, b) {
      SameUnfronted(s, t, b);
      if s.regs[r].Linked? && s.heads[s.regs[r].bucket] == s.regs[r].oldHead && !spurious {
        PushLists(s, r);
        if s.regs[r].bucket == b { PushMovesCursor(s, r); }
      } else {
        SameListsRegister(s, r, spurious);
      }
      forall x | x in t.past.front[b] && x in t.past.removed ensures Collected(t, x) { assert Collected(s, x); }
    }
  }

  /** A push in front of the cursor shifts it by one place. */
  lemma PushMovesCursor(s: State, r: Client)
    requires Shape(s) && Sound(s) && Control(s)
    requires r in s.regs && s.regs[r].Linked? && s.heads[s.regs[r].bucket] == s.regs[r].oldHead
    ensures s.caster.InWalk() && s.caster.bucket == s.regs[r].bucket && !s.caster.Fronting? ==>
              CursorPos(Register(s, r, false)) == CursorPos(s) + 1
  {
    hide Sound;
    PushLists(s, r);
    var b := s.regs[r].bucket;
    assert ([r] + Live(s, b))[1..] == Live(s, b);
  }

  lemma FrontingKeepsFront(s: State, b: int)
    requires Shape(s) && Sound(s) && Tuples(s) && s.caster.Fronting? && b == s.caster.bucket
    ensures FrontOk(Walk(s), b)
  {
    hide Sound;
    var t := Walk(s);
    assert t.past.front[b] == Live(s, b) == Live(t, b) && t.past.newer[b] == [];
    WithoutNone(Live(s, b), s.past.removed);
    forall j | 0 <= j < |t.tuples| ensures t.tuples[j].bucket != b { assert TupleOk(s, j); }
  }

  /** The walk never goes back, and the node it collects was in the list when the head was loaded. */
  lemma EnterKeepsFront(s: State, b: int)
    requires Shape(s) && 0 <= b < |s.heads| && FrontOk(s, b)
    requires s.caster.Entering? || (s.caster.Fronting? && s.caster.bucket != b)
    ensures FrontOk(Walk(s), b)
  {
    var t := Walk(s);
    WalkCollects(s);
    hide Live, Collected;
    assert Live(t, b) == Live(s, b) by { LiveOf(s, t); }
    assert Unfronted(s, b) ==> Unfronted(t, b);
  }

  lemma VisitKeepsFront(s: State, b: int)
    requires Shape(s) && Control(s) && s.caster.Visiting? && 0 <= b < |s.heads| && FrontOk(s, b)
    requires !Walk(s).caster.Faulted?
    ensures FrontOk(Walk(s), b)
  {
    hide Live, Collected;
    var t := Walk(s);
    WalkCollects(s);
    LiveOf(s, t);
    if !Unfronted(t, b) && t.past.fronts[b] > 0 {
      if t.caster.Advancing? && t.caster.bucket == b { BehindNewer(s, s.caster.at.value); }
    }
  }

  lemma WalkKeepsFront(s: State, b: int)
    requires Shape(s) && Sound(s) && Control(s) && Fronts(s) && 0 <= b < |s.heads| && FrontOk(s, b)
    requires s.caster.Entering? || s.caster.Visiting? || (s.caster.Fronting? && s.caster.bucket != b)
    requires !Walk(s).caster.Faulted?
    ensures FrontOk(Walk(s), b)
  {
    hide Sound, Control, Fronts, FrontOk, Walk;
    if s.caster.Visiting? { VisitKeepsFront(s, b); } else { EnterKeepsFront(s, b); }
  }

  lemma BehindNewer(s: State, x: Client)
    requires Shape(s) && Control(s) && s.caster.Visiting? && s.caster.at == Some(x)
    requires s.past.fronts[s.caster.bucket] > 0 && FrontOk(s, s.caster.bucket)
    ensures x in s.past.front[s.caster.bucket] && Pos(Live(s, s.caster.bucket), x) >= |s.past.newer[s.caster.bucket]|
  {
    var b := s.caster.bucket;
    var p := Pos(Live(s, b), x);
    assert x == Without(s.past.front[b], s.past.removed)[p - |s.past.newer[b]|];
  }

  lemma OfferKeepsFront(s: State, b: int)
    requires Shape(s) && Sound(s) && Control(s) && 0 <= b < |s.heads| && FrontOk(s, b)
    requires s.caster.Sending? || s.caster.Advancing?
    ensures FrontOk(Offer(s), b)
  {
    hide Sound;
    var t := Offer(s);
    NextIsLater(s, s.caster.bucket, s.caster.node);
    if !Unfronted(t, b) && t.past.fronts[b] > 0 {
      forall x | x in t.past.front[b] && x in t.past.removed ensures Collected(t, x) { assert Collected(s, x); }
    }
  }

  lemma DistinctConcat(xs: seq<Client>, ys: seq<Client>, x: Client)
    requires Distinct(xs + ys) && x in ys
    ensures x !in xs
  {
    if x in xs {
      var i :| 0 <= i < |xs| && xs[i] == x;
      var j :| 0 <= j < |ys| && ys[j] == x;
      assert (xs + ys)[i] == (xs + ys)[|xs| + j];
      DistinctApart(xs + ys, i, |xs| + j);
    }
  }

  /** Unlinking a collected node takes it out of the part of the list that was there when the head was loaded. */
  lemma UnlinkKeepsFront(s: State, t: State, b: int, x: Client)
    requires Sound(s) && TakesOut(s, t, b, x) && b < |s.past.front| && b < |s.past.newer|
    requires Live(s, b) == s.past.newer[b] + Without(s.past.front[b], s.past.removed) && x in s.past.front[b]
    ensures Live(t, b) == t.past.newer[b] + Without(t.past.front[b], t.past.removed)
  {
    var newer, front, gone := s.past.newer[b], s.past.front[b], s.past.removed;
    LiveDistinct(s, b);
    assert x !in gone by { assert forall y :: y in Live(s, b) ==> y !in gone; }
    DistinctConcat(newer, Without(front, gone), x);
    WithoutTwice(s.past.pushes[b], gone, {x});
    WithoutConcat(newer, Without(front, gone), {x});
    WithoutNone(newer, {x});
    WithoutTwice(front, gone, {x});
  }

  lemma SweepKeepsFront(s: State, spurious: bool, b: int)
    requires Shape(s) && Sound(s) && Control(s) && Tuples(s) && 0 <= b < |s.heads| && FrontOk(s, b)
    requires s.caster.InSweep() && Enabled(s, Cast(spurious)) && !Exec(s, Cast(spurious)).caster.Faulted?
    ensures |Exec(s, Cast(spurious)).heads| == |s.heads| && FrontOk(Exec(s, Cast(spurious)), b)
  {
    hide Sound, Control, Tuples, Live, Exec;
    var t := Exec(s, Cast(spurious));
    SweepFrame(s, spurious);
    SweepRemoved(s, spurious);
    BehindCursor(s, b, 0);
    if s.past.fronts[b] > 0 {
      if t.past.removed == s.past.removed {
        LiveOf(s, t);
      } else {
        var c, x := s.tuples[s.caster.k].bucket, s.tuples[s.caster.k].client;
        if c == b {
          UnlinkKeepsFront(s, t, b, x);
        } else {
          OthersKept(s, t, c, x, b);
          OtherFront(s, t, b, c, x);
        }
      }
      forall y | y in t.past.front[b] && y in t.past.removed ensures Collected(t, y) {
        if y in s.past.removed { assert Collected(s, y); } else { assert t.tuples[s.caster.k].client == y; }
      }
    }
  }

  lemma OtherFront(s: State, t: State, b: int, c: int, x: Client)
    requires Shape(s) && Sound(s) && TakesOut(s, t, c, x) && 0 <= b < |s.heads| && b != c
    requires Live(t, b) == Live(s, b) == s.past.newer[b] + Without(s.past.front[b], s.past.removed)
    ensures Live(t, b) == t.past.newer[b] + Without(t.past.front[b], t.past.removed)
  {
    var newer, front, gone := s.past.newer[b], s.past.front[b], s.past.removed;
    WithoutTwice(s.past.pushes[b], gone, {x});
    WithoutConcat(newer, Without(front, gone), {x});
    WithoutTwice(front, gone, {x});
    assert x !in Live(s, b) by {
      assert forall y :: y in Live(s, b) ==> y in s.past.pushes[b];
      assert x in s.past.pushes[c];
    }
    WithoutNone(Live(s, b), {x});
    WithoutNone(newer, {x});
  }

  lemma SweepRemoved(s: State, spurious: bool)
    requires Shape(s) && Sound(s) && Control(s) && Tuples(s) && s.caster.InSweep() && Enabled(s, Cast(spurious))
    ensures var t := Exec(s, Cast(spurious));
            t.past.removed == s.past.removed ||
            (s.caster.InRemove() && TakesOut(s, t, s.tuples[s.caster.k].bucket, s.tuples[s.caster.k].client))
  {
    hide Sound, Control, Tuples, Live, RemoveHead, RemoveSearch;
    if s.caster.InRemove() && Remove(s, spurious).past.removed != s.past.removed { TargetInList(s, spurious); }
  }

  lemma OtherKeepsFront(s: State, step: Step, b: int)
    requires Shape(s) && Enabled(s, step) && Fronts(s) && 0 <= b < |s.heads| && FrontOk(s, b)
    requires step.Arrive? || step.Die? || step.Begin?
    ensures FrontOk(Exec(s, step), b)
  {
    var t := Exec(s, step);
    if !Unfronted(t, b) && t.past.fronts[b] > 0 {
      forall x | x in t.past.front[b] && x in t.past.removed ensures Collected(t, x) { assert Collected(s, x); }
    }
  }

  lemma CastKeepsFront(s: State, spurious: bool, b: int)
    requires Shape(s) && 0 <= b < |s.heads| && FrontOk(s, b)
    requires Enabled(s, Cast(spurious)) && !Exec(s, Cast(spurious)).caster.Faulted?
    requires Sound(s) && Control(s) && Tuples(s) && Fronts(s)
    ensures var t := Exec(s, Cast(spurious)); b < |t.heads| && FrontOk(t, b)
  {
    hide Sound, Control, Tuples, Fronts, FrontOk, Walk, Offer, Sweep, Remove;
    SameBuckets(s, Cast(spurious));
    if s.caster.InSweep() { SweepKeepsFront(s, spurious, b); }
    else if s.caster.Sending? || s.caster.Advancing? { OfferKeepsFront(s, b); }
    else if s.caster.Fronting? && s.caster.bucket == b { FrontingKeepsFront(s, b); }
    else { WalkKeepsFront(s, b); }
  }

  lemma StepKeepsSnapshots(s: State, step: Step)
    requires Shape(s) && Enabled(s, step) && Sound(s) && Control(s) && Tuples(s) && Fronts(s) && Snapshots(s)
    requires !Exec(s, step).caster.Faulted?
    ensures Snapshots(Exec(s, step))
  {
    hide Sound, Control, Tuples, Fronts, FrontOk, Register, Walk, Offer, Sweep, Remove;
    var t := Exec(s, step);
    forall b | 0 <= b < |t.heads| ensures FrontOk(t, b) {
      assert |s.heads| == |t.heads| by { SameBuckets(s, step); }
      assert FrontOk(s, b);
      match step
      case Bump(r) => RegisterKeepsFront(s, r, false, b);
      case Load(r) => RegisterKeepsFront(s, r, false, b);
      case Link(r) => RegisterKeepsFront(s, r, false, b);
      case Cas(r, spurious) => RegisterKeepsFront(s, r, spurious, b);
      case CountUp(r) => RegisterKeepsFront(s, r, false, b);
      case Cast(spurious) => CastKeepsFront(s, spurious, b);
      case _ => OtherKeepsFront(s, step, b);
    }
  }

  lemma SameBuckets(s: State, step: Step)
    requires Shape(s) && Enabled(s, step) && !Exec(s, step).caster.Faulted?
    ensures |Exec(s, step).heads| == |s.heads|
  {
    hide Live, Remove;
    if step.Cast? && s.caster.InRemove() { RemoveEffect(s, step.spurious); }
  }
}
