/** Every step keeps the collected tuples sound, and knows what the broadcast has still to visit. */
module RegistryTuples {
  import opened Sequences
  import opened Registry
  import opened RegistryInvariant
  import opened RegistryLists
  import opened RegistryControl

  // ---------- The cursor ----------

  /** A list that has only gained a node in front keeps what is still to be visited of it. */
  lemma PendingShifts(s: State, t: State, r: Client, b: int, x: Client)
    requires Shape(s) && Shape(t) && Control(s) && t.caster == s.caster && |t.heads| == |s.heads|
    requires 0 <= b < |s.heads| && x in Live(s, b)
    requires Live(t, b) == Live(s, b) || (Live(t, b) == [r] + Live(s, b) && r !in Live(s, b))
    ensures Pending(t, b, x) <==> Pending(s, b, x)
  {
    hide Removal, Locking, Live;
    if Live(t, b) != Live(s, b) { assert ([r] + Live(s, b))[1..] == Live(s, b); }
  }

  /** Registrations do not change which of the old nodes are still to be visited. */
  lemma RegisterPending(s: State, r: Client, spurious: bool, b: int, x: Client)
    requires Shape(s) && Sound(s) && Control(s) && r in s.regs && !s.regs[r].Counted?
    requires 0 <= b < |s.heads| && x in Live(s, b)
    ensures Pending(Register(s, r, spurious), b, x) <==> Pending(s, b, x)
  {
    hide Sound, Control, Pending, Register, Live;
    RegisterFrame(s, r, spurious);
    RegisterLists(s, r, spurious, b);
    PendingShifts(s, Register(s, r, spurious), r, b, x);
  }

  /** A new node is still to be visited just when the head of its bucket has not been loaded. */
  lemma PushedPending(s: State, r: Client)
    requires Shape(s) && Sound(s) && Control(s)
    requires r in s.regs && s.regs[r].Linked? && s.heads[s.regs[r].bucket] == s.regs[r].oldHead
    ensures var t := Register(s, r, false); var b := s.regs[r].bucket;
            r in Live(t, b) && (Pending(t, b, r) <==> Unfronted(t, b))
  {
    hide Sound, Removal, Locking;
    PushLists(s, r);
    var b := s.regs[r].bucket;
    assert ([r] + Live(s, b))[1..] == Live(s, b);
  }

  lemma EnteringPending(s: State, b: int, x: Client)
    requires Shape(s) && s.caster.Entering? && 0 <= b < |s.heads| && x in Live(s, b)
    ensures var t := Walk(s); Live(t, b) == Live(s, b) && (Pending(t, b, x) <==> Pending(s, b, x))
  {
    var t := Walk(s);
    assert Live(t, b) == Live(s, b);
    hide Live;
  }

  lemma FrontingPending(s: State, b: int, x: Client)
    requires Shape(s) && s.caster.Fronting? && 0 <= b < |s.heads| && x in Live(s, b)
    requires var live := Live(s, s.caster.bucket);
             s.heads[s.caster.bucket] == if live == [] then None else Some(live[0])
    ensures var t := Walk(s); Live(t, b) == Live(s, b) && (Pending(t, b, x) <==> Pending(s, b, x))
  {
    var t := Walk(s);
    assert Live(t, b) == Live(s, b) && Live(t, s.caster.bucket) == Live(s, s.caster.bucket);
    hide Live;
  }

  lemma VisitingPending(s: State, b: int, x: Client)
    requires Shape(s) && Control(s) && s.caster.Visiting? && 0 <= b < |s.heads| && x in Live(s, b)
    requires s.caster.at.Some? ==> s.caster.at.value in s.regs && s.caster.at.value in s.next
    requires s.caster.at.Some? && x == s.caster.at.value ==> b == s.caster.bucket
    ensures var t := Walk(s);
            && Live(t, b) == Live(s, b)
            && (Pending(t, b, x) <==> Pending(s, b, x) && !(t.caster.Advancing? && t.caster.node == x))
  {
    hide Removal, Locking;
    var t := Walk(s);
    assert Live(t, b) == Live(s, b) && Live(t, s.caster.bucket) == Live(s, s.caster.bucket);
    hide Live;
  }

  /** How a step of the walk moves the cursor: past one node, or not at all. */
  lemma WalkPending(s: State, b: int, x: Client)
    requires Shape(s) && Sound(s) && Control(s) && (s.caster.Entering? || s.caster.Fronting? || s.caster.Visiting?)
    requires 0 <= b < |s.heads| && x in Live(s, b)
    ensures var t := Walk(s);
            && Live(t, b) == Live(s, b)
            && (Pending(t, b, x) <==> Pending(s, b, x) && !(t.caster.Advancing? && t.caster.node == x))
  {
    hide Sound, Removal, Locking, Pending, Live;
    if s.caster.Entering? {
      EnteringPending(s, b, x);
    } else if s.caster.Fronting? {
      HeadIsFirst(s, s.caster.bucket);
      FrontingPending(s, b, x);
    } else {
      if s.caster.at.Some? { SamePosition(s, b, x, s.caster.bucket, s.caster.at.value); }
      VisitingPending(s, b, x);
    }
  }

  lemma SamePosition(s: State, b: int, x: Client, c: int, y: Client)
    requires Shape(s) && Sound(s) && 0 <= b < |s.heads| && x in Live(s, b) && 0 <= c < |s.heads| && y in Live(s, c)
    ensures x == y ==> b == c
    ensures x in s.regs && y in s.regs && y in s.next
  {
    NextIsLater(s, b, x);
    NextIsLater(s, c, y);
  }

  lemma SendingPending(s: State, b: int, x: Client)
    requires Shape(s) && Control(s) && s.caster.Sending? && 0 <= b < |s.heads| && x in Live(s, b)
    ensures var t := Offer(s);
            && Live(t, b) == Live(s, b)
            && (Pending(t, b, x) <==> Pending(s, b, x) && !(b == s.caster.bucket && s.caster.node == x))
  {
    hide Removal, Locking;
    var t := Offer(s);
    assert Live(t, b) == Live(s, b) && Live(t, s.caster.bucket) == Live(s, s.caster.bucket);
    hide Live, Shape;
  }

  lemma AdvancingPending(s: State, b: int, x: Client)
    requires Shape(s) && Control(s) && s.caster.Advancing? && 0 <= b < |s.heads| && x in Live(s, b)
    requires var live, node := Live(s, s.caster.bucket), s.caster.node;
             && node in s.next && node in live && s.next[node] == At(live, Pos(live, node) + 1)
             && (s.next[node].Some? ==>
                   s.next[node].value in live && Pos(live, s.next[node].value) == Pos(live, node) + 1)
    ensures var t := Offer(s);
            Live(t, b) == Live(s, b) && (Pending(t, b, x) <==> Pending(s, b, x))
  {
    hide Removal, Locking, Walking;
    var t := Offer(s);
    assert Live(t, b) == Live(s, b) && Live(t, s.caster.bucket) == Live(s, s.caster.bucket);
    hide Live;
  }

  lemma OfferPending(s: State, b: int, x: Client)
    requires Shape(s) && Sound(s) && Control(s) && (s.caster.Sending? || s.caster.Advancing?)
    requires 0 <= b < |s.heads| && x in Live(s, b)
    ensures var t := Offer(s);
            && Live(t, b) == Live(s, b)
            && (Pending(t, b, x) <==> Pending(s, b, x) && !(s.caster.Sending? && s.caster.node == x))
  {
    hide Sound, Removal, Locking, Offer, Pending, Live;
    NextIsLater(s, s.caster.bucket, s.caster.node);
    SamePosition(s, b, x, s.caster.bucket, s.caster.node);
    if s.caster.Sending? { SendingPending(s, b, x); } else { AdvancingPending(s, b, x); }
  }

  // ---------- The tuples ----------

  lemma RegisterKeepsTuples(s: State, r: Client, spurious: bool)
    requires Shape(s) && Sound(s) && Control(s) && Tuples(s) && r in s.regs && !s.regs[r].Counted?
    ensures Tuples(Register(s, r, spurious))
  {
    hide Sound, Control, Register;
    var t := Register(s, r, spurious);
    RegisterFrame(s, r, spurious);
    forall j | 0 <= j < |t.tuples| ensures TupleOk(t, j) {
      assert TupleOk(s, j);
      RegisterTuple(s, r, spurious, j);
    }
    forall x | x in t.past.missed ensures Collected(t, x) { assert Collected(s, x); }
  }

  lemma RegisterTuple(s: State, r: Client, spurious: bool, j: int)
    requires Shape(s) && Sound(s) && Control(s) && r in s.regs && !s.regs[r].Counted?
    requires 0 <= j < |s.tuples| && TupleOk(s, j)
    ensures TupleOk(Register(s, r, spurious), j)
  {
    hide Sound, Control;
    var t := Register(s, r, spurious);
    RegisterFrame(s, r, spurious);
    var b, x := s.tuples[j].bucket, s.tuples[j].client;
    hide Pending;
    if x in Live(s, b) {
      RegisterPending(s, r, spurious, b, x);
    } else {
      NotLivePending(t, b, x);
    }
  }

  lemma NotLivePending(s: State, b: int, x: Client)
    requires Shape(s) && 0 <= b < |s.heads| && x !in Live(s, b)
    ensures !Pending(s, b, x)
  {}

  lemma WalkTuple(s: State, j: int)
    requires Shape(s) && Sound(s) && Control(s) && (s.caster.Entering? || s.caster.Fronting? || s.caster.Visiting?)
    requires 0 <= j < |s.tuples| && TupleOk(s, j)
    ensures j < |Walk(s).tuples| && TupleOk(Walk(s), j)
  {
    hide Sound, Control, Pending, Processed, MayBeMissed;
    var b, x := s.tuples[j].bucket, s.tuples[j].client;
    LinkedTuple(s, j);
    WalkPending(s, b, x);
    WalkSameTuple(s, j);
  }

  /** Before the sweep every collected node is linked. */
  lemma LinkedTuple(s: State, j: int)
    requires Shape(s) && (s.caster.Entering? || s.caster.Fronting? || s.caster.Visiting?)
    requires 0 <= j < |s.tuples| && TupleOk(s, j)
    ensures s.tuples[j].client in Live(s, s.tuples[j].bucket)
  {
    hide Pending;
  }

  lemma WalkSameTuple(s: State, j: int)
    requires Shape(s) && (s.caster.Entering? || s.caster.Fronting? || s.caster.Visiting?)
    requires 0 <= j < |s.tuples| && TupleOk(s, j)
    ensures var t := Walk(s); var b, x := s.tuples[j].bucket, s.tuples[j].client;
            && j < |t.tuples| && t.tuples[j] == s.tuples[j] && t.dead == s.dead && t.past.pushes == s.past.pushes
            && x !in t.past.removed && x !in t.past.missed && !Processed(t, j) && !Unfronted(t, b)
  {
    hide Live, Pending, MayBeMissed;
    NotYetSwept(s, j);
  }

  lemma NotYetSwept(s: State, j: int)
    requires Shape(s) && (s.caster.Entering? || s.caster.Fronting? || s.caster.Visiting?)
    requires 0 <= j < |s.tuples| && TupleOk(s, j)
    ensures s.tuples[j].client !in s.past.removed && s.tuples[j].client !in s.past.missed
  {
    hide Pending, Unfronted;
  }

  lemma WalkKeepsTuples(s: State)
    requires Shape(s) && Sound(s) && Control(s) && Tuples(s)
    requires s.caster.Entering? || s.caster.Fronting? || s.caster.Visiting?
    ensures Tuples(Walk(s))
  {
    hide Sound, Control, TupleOk;
    var t := Walk(s);
    forall j | 0 <= j < |s.tuples| ensures TupleOk(t, j) { WalkTuple(s, j); }
    forall x | x in t.past.missed ensures Collected(t, x) {
      var j :| 0 <= j < |s.tuples| && s.tuples[j].client == x;
      assert t.tuples[j] == s.tuples[j];
    }
    if t.tuples != s.tuples { CollectKeepsTuples(s); }
  }

  /** The node collected by this step is not among the earlier tuples, and the cursor moves past it. */
  lemma CollectKeepsTuples(s: State)
    requires Shape(s) && Sound(s) && Control(s) && Tuples(s) && s.caster.Visiting? && Walk(s).tuples != s.tuples
    ensures var t := Walk(s);
            && |t.tuples| == |s.tuples| + 1 && TupleOk(t, |s.tuples|)
            && forall j :: 0 <= j < |s.tuples| ==>
                 t.tuples[j] == s.tuples[j] && s.tuples[j].client != t.tuples[|s.tuples|].client
  {
    hide Sound, Removal, Locking;
    var t := Walk(s);
    var b, x := s.caster.bucket, s.caster.at.value;
    NextIsLater(s, b, x);
    WalkPending(s, b, x);
    assert Pending(s, b, x);
    forall j | 0 <= j < |s.tuples| ensures s.tuples[j].client != x {
      assert TupleOk(s, j);
      if s.tuples[j].client == x { SameBucket(s, b, s.tuples[j].bucket, x); }
    }
    assert !Collected(s, x);
  }

  lemma SameBucket(s: State, b: int, c: int, x: Client)
    requires Shape(s) && Sound(s) && 0 <= b < |s.heads| && 0 <= c < |s.heads|
    requires x in s.past.pushes[b] && x in s.past.pushes[c]
    ensures b == c
  {}

  lemma OfferKeepsTuples(s: State)
    requires Shape(s) && Sound(s) && Control(s) && Tuples(s) && (s.caster.Sending? || s.caster.Advancing?)
    ensures Tuples(Offer(s))
  {
    hide Sound, Control;
    var t := Offer(s);
    forall j | 0 <= j < |s.tuples| ensures TupleOk(t, j) {
      assert TupleOk(s, j);
      var b, x := s.tuples[j].bucket, s.tuples[j].client;
      hide Pending;
      if x in Live(s, b) { OfferPending(s, b, x); } else { NotLivePending(t, b, x); }
    }
    forall x | x in t.past.missed ensures Collected(t, x) { assert Collected(s, x); }
  }

  lemma SweepKeepsTuples(s: State)
    requires Shape(s) && Tuples(s) && (s.caster.Sweeping? || s.caster.Removed? || s.caster.Unlocking?)
    ensures Tuples(Sweep(s))
  {
    hide Pending, CursorPos;
    var t := Sweep(s);
    forall j | 0 <= j < |s.tuples| ensures TupleOk(t, j) {
      assert TupleOk(s, j);
      BehindCursor(t, s.tuples[j].bucket, s.tuples[j].client);
    }
    forall x | x in t.past.missed ensures Collected(t, x) { assert Collected(s, x); }
  }

  lemma BehindCursor(s: State, b: int, x: Client)
    requires Shape(s) && (s.caster.InSweep() || s.caster.Idle? || s.caster.Faulted?) && 0 <= b < |s.heads|
    ensures !Pending(s, b, x) && !Unfronted(s, b)
  {}

  /** A step of remove changes removed and missed, if at all, by the node of its own tuple. */
  ghost predicate RemoveFrame(s: State, t: State)
    requires s.caster.InRemove() && 0 <= s.caster.k < |s.tuples|
  {
    var x := s.tuples[s.caster.k].client;
    && t.tuples == s.tuples && t.dead == s.dead && t.regs == s.regs
    && t.handed == s.handed && t.wire == s.wire && t.msg == s.msg && t.count == s.count
    && |t.heads| == |s.heads|
    && t.past == s.past.(removed := t.past.removed, missed := t.past.missed)
    && t.caster.InSweep() && t.caster.k == s.caster.k && !t.caster.Sweeping? && !t.caster.Unlocking?
    && ((t.past.removed == s.past.removed && !(t.caster.Removed? && t.caster.hit)) ||
        (t.past.removed == s.past.removed + {x} && t.caster == Removed(s.caster.k, true)))
    && (t.past.missed == s.past.missed ||
        (t.past.missed == s.past.missed + {x} && t.caster.Stepping?))
  }

  lemma RemoveEffect(s: State, spurious: bool)
    requires Shape(s) && s.caster.InRemove() && !Remove(s, spurious).caster.Faulted?
    ensures RemoveFrame(s, Remove(s, spurious))
  {
    if s.caster.Removing? || s.caster.Comparing? || s.caster.Swapping? {
      HeadEffect(s, spurious);
    } else {
      SearchEffect(s);
    }
  }

  lemma HeadEffect(s: State, spurious: bool)
    requires Shape(s) && (s.caster.Removing? || s.caster.Comparing? || s.caster.Swapping?)
    requires !RemoveHead(s, spurious).caster.Faulted?
    ensures RemoveFrame(s, RemoveHead(s, spurious))
  {}

  lemma SearchEffect(s: State)
    requires Shape(s) && (s.caster.Stepping? || s.caster.Searching? || s.caster.Unlinking?)
    requires !RemoveSearch(s).caster.Faulted?
    ensures RemoveFrame(s, RemoveSearch(s))
  {}

  lemma RemoveVerdict(s: State, spurious: bool)
    requires Shape(s) && Sound(s) && Control(s) && Tuples(s) && s.caster.InRemove()
    ensures var t := Remove(s, spurious); var x := s.tuples[s.caster.k].client;
            && !t.caster.Faulted?
            && (t.caster.Removed? ==> (x in t.past.removed <==> x !in t.past.missed))
            && (x in t.past.missed ==> t.caster.Stepping? || t.caster.Searching? || t.caster.Removed?)
            && x !in s.past.removed
  {
    hide Sound, Tuples;
    NotYetProcessed(s);
    CastKeepsControl(s, spurious);
    if s.caster.Searching? && s.caster.at.None? { LastHasNoAfter(s); }
    if s.caster.Removing? || s.caster.Comparing? || s.caster.Swapping? { hide RemoveSearch; } else { hide RemoveHead; }
  }

  lemma NotYetProcessed(s: State)
    requires Shape(s) && Tuples(s) && s.caster.InRemove()
    ensures var x := s.tuples[s.caster.k].client;
            x !in s.past.removed && (x in s.past.missed ==> s.caster.Stepping? || s.caster.Searching?)
  {
    assert TupleOk(s, s.caster.k);
  }

  lemma LastHasNoAfter(s: State)
    requires Shape(s) && Sound(s) && Control(s) && s.caster.Searching? && s.caster.at.None?
    ensures s.tuples[s.caster.k].client in s.past.missed
  {
    hide Sound;
    NextIsLater(s, s.tuples[s.caster.k].bucket, s.caster.prev);
  }

  lemma RemoveKeepsTuples(s: State, spurious: bool)
    requires Shape(s) && Sound(s) && Control(s) && Tuples(s) && s.caster.InRemove()
    ensures Tuples(Remove(s, spurious))
  {
    hide Sound, Control, Pending, Remove;
    RemoveVerdict(s, spurious);
    RemoveEffect(s, spurious);
    var t := Remove(s, spurious);
    forall j | 0 <= j < |s.tuples| ensures TupleOk(t, j) {
      assert TupleOk(s, j);
      BehindCursor(t, s.tuples[j].bucket, s.tuples[j].client);
    }
    forall x | x in t.past.missed ensures Collected(t, x) {
      if x in s.past.missed { assert Collected(s, x); } else { assert s.tuples[s.caster.k].client == x; }
    }
  }

  lemma StepKeepsTuples(s: State, step: Step)
    requires Shape(s) && Enabled(s, step) && Sound(s) && Control(s) && Tuples(s)
    ensures Tuples(Exec(s, step))
  {
    hide Sound, Control, Tuples, Walk, Offer, Sweep, Remove, Register;
    match step
    case Bump(r) => RegisterKeepsTuples(s, r, false);
    case Load(r) => RegisterKeepsTuples(s, r, false);
    case Link(r) => RegisterKeepsTuples(s, r, false);
    case Cas(r, spurious) => RegisterKeepsTuples(s, r, spurious);
    case CountUp(r) => RegisterKeepsTuples(s, r, false);
    case Cast(spurious) =>
      if s.caster.InRemove() { RemoveKeepsTuples(s, spurious); }
      else if s.caster.InSweep() { SweepKeepsTuples(s); }
      else if s.caster.Sending? || s.caster.Advancing? { OfferKeepsTuples(s); }
      else { WalkKeepsTuples(s); }
    case _ => OtherKeepsTuples(s, step);
  }

  lemma OtherKeepsTuples(s: State, step: Step)
    requires Shape(s) && Enabled(s, step) && Tuples(s) && (step.Arrive? || step.Die? || step.Begin?)
    ensures Tuples(Exec(s, step))
  {
    var t := Exec(s, step);
    forall j | 0 <= j < |t.tuples| ensures TupleOk(t, j) { assert TupleOk(s, j); }
    forall x | x in t.past.missed ensures Collected(t, x) { assert Collected(s, x); }
  }
}
