/** Every step keeps each client's log a contiguous slice of the broadcast history. */
module RegistryDelivery {
  import opened Sequences
  import opened Registry
  import opened RegistryInvariant
  import opened RegistryLists
  import opened RegistryControl
  import opened RegistryTuples

  // ---------- How often each head was loaded ----------

  lemma WalkKeepsFronts(s: State)
    requires Shape(s) && Fronts(s) && (s.caster.Entering? || s.caster.Fronting? || s.caster.Visiting?)
    requires !Walk(s).caster.Faulted?
    ensures Fronts(Walk(s))
  {
    hide Live;
  }

  lemma CastKeepsFronts(s: State, spurious: bool)
    requires Shape(s) && Enabled(s, Cast(spurious)) && Fronts(s) && !Exec(s, Cast(spurious)).caster.Faulted?
    ensures Fronts(Exec(s, Cast(spurious)))
  {
    if s.caster.InSweep() { hide Exec; SweepFrame(s, spurious); }
    else if s.caster.Sending? || s.caster.Advancing? { hide Walk; }
    else { hide Walk; WalkKeepsFronts(s); }
  }

  lemma StepKeepsFronts(s: State, step: Step)
    requires Shape(s) && Enabled(s, step) && Fronts(s) && !Exec(s, step).caster.Faulted?
    ensures Fronts(Exec(s, step))
  {
    hide Fronts, Register, Walk, Offer, Sweep, Remove;
    match step
    case Bump(r) => RegisterKeepsFronts(s, r, false);
    case Load(r) => RegisterKeepsFronts(s, r, false);
    case Link(r) => RegisterKeepsFronts(s, r, false);
    case Cas(r, spurious) => RegisterKeepsFronts(s, r, spurious);
    case CountUp(r) => RegisterKeepsFronts(s, r, false);
    case Cast(spurious) => CastKeepsFronts(s, spurious);
    case _ => OtherKeepsFronts(s, step);
  }

  lemma RegisterKeepsFronts(s: State, r: Client, spurious: bool)
    requires Shape(s) && Fronts(s) && r in s.regs && !s.regs[r].Counted?
    ensures Fronts(Register(s, r, spurious))
  {}

  lemma OtherKeepsFronts(s: State, step: Step)
    requires Shape(s) && Enabled(s, step) && Fronts(s) && (step.Arrive? || step.Die? || step.Begin?)
    ensures Fronts(Exec(s, step))
  {}

  // ---------- Logs ----------

  lemma RegisterKeepsLogged(s: State, r: Client, spurious: bool, x: Client)
    requires Shape(s) && Fronts(s) && Delivery(s) && r in s.regs && !s.regs[r].Counted? && x in s.regs
    ensures Logged(Register(s, r, spurious), x)
  {
    hide Live, Unfronted;
    assert Logged(s, x);
    if x == r { assert 0 <= s.past.fronts[s.regs[r].bucket] <= |s.past.messages|; }
  }

  lemma SliceExtends(messages: seq<Message>, start: int, log: seq<Message>, m: Message)
    requires Slice(messages, start, log)
    ensures Slice(messages + [m], start, log)
    ensures start + |log| == |messages| ==> Slice(messages + [m], start, log + [m])
  {}

  /** The message in flight is the next one of the history for the client it is handed to. */
  lemma OfferKeepsLogged(s: State, x: Client)
    requires Shape(s) && Sound(s) && Control(s) && Delivery(s) && Progress(s) && x in s.regs
    requires s.caster.Sending? || s.caster.Advancing?
    ensures Logged(Offer(s), x)
  {
    hide Sound, NodeProgress;
    assert Logged(s, x);
    NextIsLater(s, s.caster.bucket, s.caster.node);
    if s.caster.Sending? && x == s.caster.node {
      InListOf(s, s.caster.bucket, x);
      var last := |s.past.messages| - 1;
      assert s.past.messages == s.past.messages[..last] + [s.msg];
    }
  }

  lemma InListOf(s: State, b: int, x: Client)
    requires Shape(s) && Sound(s) && 0 <= b < |s.heads| && x in Live(s, b)
    ensures x in s.regs && s.regs[x].InList() && s.regs[x].bucket == b
  {
    assert forall y :: y in Live(s, b) ==> y in s.past.pushes[b];
  }

  lemma RegisterKeepsDelivery(s: State, r: Client, spurious: bool)
    requires Shape(s) && Sound(s) && Fronts(s) && Delivery(s) && r in s.regs && !s.regs[r].Counted?
    ensures Delivery(Register(s, r, spurious))
  {
    hide Sound, Fronts, Logged;
    RegisterFrame(s, r, spurious);
    var t := Register(s, r, spurious);
    forall x | x in t.regs ensures Logged(t, x) { RegisterKeepsLogged(s, r, spurious, x); }
  }

  lemma OfferKeepsDelivery(s: State)
    requires Shape(s) && Sound(s) && Control(s) && Delivery(s) && Progress(s)
    requires s.caster.Sending? || s.caster.Advancing?
    ensures Delivery(Offer(s))
  {
    hide Sound, Logged, Progress, Control;
    var t := Offer(s);
    forall x | x in t.regs ensures Logged(t, x) { OfferKeepsLogged(s, x); }
  }

  ghost predicate SameLogs(s: State, t: State) {
    && t.regs == s.regs && t.handed == s.handed && t.wire == s.wire && t.dead == s.dead && t.msg == s.msg
    && t.past.messages == s.past.messages && t.past.start == s.past.start
  }

  lemma SameLogsKeepDelivery(s: State, t: State)
    requires Shape(s) && Shape(t) && Delivery(s) && SameLogs(s, t) && !s.caster.Idle?
    ensures Delivery(t)
  {
    forall x | x in t.regs ensures Logged(t, x) { assert Logged(s, x); }
  }

  lemma CastSameLogs(s: State, spurious: bool)
    requires Shape(s) && Enabled(s, Cast(spurious)) && !s.caster.Sending? && !Exec(s, Cast(spurious)).caster.Faulted?
    ensures SameLogs(s, Exec(s, Cast(spurious)))
  {
    hide Walk, Offer, Sweep, Remove, SameLogs;
    if s.caster.InRemove() { RemoveSameLogs(s, spurious); }
    else if s.caster.InSweep() { SweepSameLogs(s); }
    else if s.caster.Advancing? { AdvancingSameLogs(s); }
    else { WalkSameLogs(s); }
  }

  lemma RemoveSameLogs(s: State, spurious: bool)
    requires Shape(s) && s.caster.InRemove() && !Remove(s, spurious).caster.Faulted?
    ensures SameLogs(s, Remove(s, spurious))
  {
    hide Remove;
    RemoveEffect(s, spurious);
  }

  lemma SweepSameLogs(s: State)
    requires Shape(s) && (s.caster.Sweeping? || s.caster.Removed? || s.caster.Unlocking?)
    ensures SameLogs(s, Sweep(s))
  {}

  lemma AdvancingSameLogs(s: State)
    requires Shape(s) && s.caster.Advancing?
    ensures SameLogs(s, Offer(s))
  {}

  lemma WalkSameLogs(s: State)
    requires Shape(s) && (s.caster.Entering? || s.caster.Fronting? || s.caster.Visiting?)
    ensures SameLogs(s, Walk(s))
  {
    hide Live;
  }

  lemma OtherKeepsDelivery(s: State, step: Step)
    requires Shape(s) && Enabled(s, step) && Delivery(s) && (step.Arrive? || step.Die? || step.Begin?)
    ensures Delivery(Exec(s, step))
  {
    var t := Exec(s, step);
    forall x | x in t.regs ensures Logged(t, x) {
      if x in s.regs { assert Logged(s, x); }
      if step.Begin? && x in s.past.start { OldSlice(s, x, step.m); }
    }
  }

  lemma OldSlice(s: State, x: Client, m: Message)
    requires Shape(s) && x in s.regs && x in s.past.start
    ensures Slice(s.past.messages, s.past.start[x], s.handed[x]) ==>
              Slice(s.past.messages + [m], s.past.start[x], s.handed[x])
  {
    if Slice(s.past.messages, s.past.start[x], s.handed[x]) {
      SliceExtends(s.past.messages, s.past.start[x], s.handed[x], m);
    }
  }

  lemma StepKeepsDelivery(s: State, step: Step)
    requires Shape(s) && Enabled(s, step) && Sound(s) && Control(s) && Fronts(s) && Delivery(s) && Progress(s)
    requires !Exec(s, step).caster.Faulted?
    ensures Delivery(Exec(s, step))
  {
    hide Sound, Control, Fronts, Delivery, Progress, Register, Walk, Sweep, Remove;
    match step
    case Bump(r) => RegisterKeepsDelivery(s, r, false);
    case Load(r) => RegisterKeepsDelivery(s, r, false);
    case Link(r) => RegisterKeepsDelivery(s, r, false);
    case Cas(r, spurious) => RegisterKeepsDelivery(s, r, spurious);
    case CountUp(r) => RegisterKeepsDelivery(s, r, false);
    case Cast(spurious) =>
      if s.caster.Sending? || s.caster.Advancing? {
        OfferKeepsDelivery(s);
      } else {
        CastSameLogs(s, spurious);
        SameLogsKeepDelivery(s, Exec(s, step));
      }
    case _ => OtherKeepsDelivery(s, step);
  }

  // ---------- Exactly once ----------

  /** A registration that pushes reaches exactly the broadcasts whose load of its bucket's head comes later. */
  lemma PushedProgress(s: State, r: Client)
    requires Shape(s) && Sound(s) && Control(s) && Fronts(s) && Delivery(s)
    requires r in s.regs && s.regs[r].Linked? && s.heads[s.regs[r].bucket] == s.regs[r].oldHead
    ensures var t := Register(s, r, false); NodeProgress(t, s.regs[r].bucket, r)
  {
    hide Sound, Control, Delivery, Pending, Unfronted, Collected;
    PushedPending(s, r);
    assert Logged(s, r) by { AllLogged(s, r); }
    var b := s.regs[r].bucket;
    assert Register(s, r, false).caster == s.caster;
    SameUnfronted(s, Register(s, r, false), b);
  }

  lemma AllLogged(s: State, x: Client)
    requires Shape(s) && Delivery(s) && x in s.regs
    ensures Logged(s, x)
  {}

  lemma SameUnfronted(s: State, t: State, b: int)
    requires s.caster == t.caster && |s.heads| == |t.heads|
    ensures Unfronted(s, b) <==> Unfronted(t, b)
  {}

  lemma RegisterReached(s: State, r: Client, spurious: bool, x: Client)
    requires Shape(s) && Sound(s) && r in s.regs && !s.regs[r].Counted? && x in s.regs && s.regs[x].InList()
    ensures Reached(Register(s, r, spurious), x) == Reached(s, x)
  {}

  lemma RegisterNodeProgress(s: State, r: Client, spurious: bool, b: int, x: Client)
    requires Shape(s) && Sound(s) && Control(s) && r in s.regs && !s.regs[r].Counted?
    requires 0 <= b < |s.heads| && x in Live(s, b) && NodeProgress(s, b, x)
    ensures NodeProgress(Register(s, r, spurious), b, x)
  {
    hide Sound, Control, Pending, Register, Reached;
    InListOf(s, b, x);
    RegisterFrame(s, r, spurious);
    RegisterReached(s, r, spurious, x);
    RegisterPending(s, r, spurious, b, x);
  }

  lemma RegisterKeepsProgress(s: State, r: Client, spurious: bool)
    requires Shape(s) && Sound(s) && Control(s) && Tuples(s) && Fronts(s) && Delivery(s) && Progress(s)
    requires r in s.regs && !s.regs[r].Counted?
    ensures Progress(Register(s, r, spurious))
  {
    hide Sound, Control, Tuples, Fronts, Delivery, NodeProgress, Register, Reached;
    var t := Register(s, r, spurious);
    RegisterFrame(s, r, spurious);
    forall b, x | 0 <= b < |t.heads| && x in Live(t, b) ensures NodeProgress(t, b, x) {
      RegisterLists(s, r, spurious, b);
      if x in Live(s, b) {
        assert NodeProgress(s, b, x);
        RegisterNodeProgress(s, r, spurious, b, x);
      } else {
        PushedHere(s, r, spurious, b);
        PushedProgress(s, r);
      }
    }
    forall x | Collected(t, x) ensures Reached(t, x) < |t.past.messages| {
      assert Collected(s, x);
      CollectedInList(s, x);
      RegisterReached(s, r, spurious, x);
    }
    if s.caster.Sending? { SendingInList(s); RegisterReached(s, r, spurious, s.caster.node); }
  }

  lemma PushedHere(s: State, r: Client, spurious: bool, b: int)
    requires Shape(s) && Sound(s) && r in s.regs && !s.regs[r].Counted? && 0 <= b < |s.heads|
    requires Live(Register(s, r, spurious), b) != Live(s, b)
    ensures s.regs[r].Linked? && s.heads[s.regs[r].bucket] == s.regs[r].oldHead && !spurious && b == s.regs[r].bucket
  {
    hide Sound;
    if s.regs[r].Linked? && s.heads[s.regs[r].bucket] == s.regs[r].oldHead && !spurious { PushLists(s, r); }
  }

  lemma CollectedInList(s: State, x: Client)
    requires Shape(s) && Sound(s) && Tuples(s) && Collected(s, x)
    ensures x in s.regs && s.regs[x].InList() && x in s.dead
  {
    var j :| 0 <= j < |s.tuples| && s.tuples[j].client == x;
    assert TupleOk(s, j);
  }

  lemma SendingInList(s: State)
    requires Shape(s) && Sound(s) && Control(s) && s.caster.Sending?
    ensures s.caster.node in s.regs && s.regs[s.caster.node].InList()
  {
    hide Sound;
    InListOf(s, s.caster.bucket, s.caster.node);
  }

  lemma WalkKeepsProgress(s: State)
    requires Shape(s) && Sound(s) && Control(s) && Tuples(s) && Progress(s)
    requires s.caster.Entering? || s.caster.Fronting? || s.caster.Visiting?
    ensures Progress(Walk(s))
  {
    hide Sound, Control, Tuples, NodeProgress, Reached;
    var t := Walk(s);
    WalkCollects(s);
    forall b, x | 0 <= b < |t.heads| && x in Live(t, b) ensures NodeProgress(t, b, x) {
      assert x in Live(s, b);
      assert NodeProgress(s, b, x);
      WalkNodeProgress(s, b, x);
    }
    forall x | Collected(t, x) ensures Reached(t, x) < |t.past.messages| {
      SameReached(s, t, x);
      if !Collected(s, x) { NewlyCollected(s); }
    }
    if t.caster.Sending? { SentWhenPending(s); SameReached(s, t, t.caster.node); }
  }

  lemma SameReached(s: State, t: State, x: Client)
    requires Shape(s) && Shape(t) && s.past.start == t.past.start && s.handed == t.handed
    ensures Reached(s, x) == Reached(t, x)
  {}

  lemma WalkSameLists(s: State)
    requires Shape(s) && (s.caster.Entering? || s.caster.Fronting? || s.caster.Visiting?)
    ensures var t := Walk(s);
            s.past.pushes == t.past.pushes && s.past.removed == t.past.removed && |t.heads| == |s.heads|
  {
    hide Live;
  }

  lemma WalkTuples(s: State)
    requires Shape(s) && (s.caster.Entering? || s.caster.Fronting? || s.caster.Visiting?)
    ensures var t := Walk(s);
            t.tuples == s.tuples + if t.caster.Advancing? then [Tuple(s.caster.bucket, t.caster.node)] else []
  {
    hide Live;
  }

  lemma WalkCollects(s: State)
    requires Shape(s) && (s.caster.Entering? || s.caster.Fronting? || s.caster.Visiting?)
    ensures var t := Walk(s);
            && s.past.start == t.past.start && s.handed == t.handed
            && s.past.messages == t.past.messages && s.dead == t.dead
            && s.past.pushes == t.past.pushes && s.past.removed == t.past.removed && |t.heads| == |s.heads|
            && (forall x :: Collected(s, x) ==> Collected(t, x))
            && (forall x :: Collected(t, x) ==> Collected(s, x) || (t.caster.Advancing? && t.caster.node == x))
            && (t.caster.Advancing? ==> Collected(t, t.caster.node))
  {
    hide Walk, Shape;
    var t := Walk(s);
    WalkSameLogs(s);
    WalkSameLists(s);
    WalkTuples(s);
    if t.caster.Advancing? { assert t.tuples[|s.tuples|].client == t.caster.node; }
    forall x | Collected(s, x) ensures Collected(t, x) {
      var j :| 0 <= j < |s.tuples| && s.tuples[j].client == x;
      assert t.tuples[j] == s.tuples[j];
    }
  }

  lemma WalkNodeProgress(s: State, b: int, x: Client)
    requires Shape(s) && Sound(s) && Control(s) && (s.caster.Entering? || s.caster.Fronting? || s.caster.Visiting?)
    requires 0 <= b < |s.heads| && x in Live(s, b) && NodeProgress(s, b, x)
    ensures NodeProgress(Walk(s), b, x)
  {
    hide Sound, Control, Pending, Walk, Reached;
    WalkCollects(s);
    SameReached(s, Walk(s), x);
    WalkPending(s, b, x);
  }

  /** The node at the cursor has not been passed, so it is one message behind. */
  lemma AtCursorPending(s: State)
    requires Shape(s) && Sound(s) && Control(s) && s.caster.Visiting? && s.caster.at.Some?
    ensures s.caster.at.value in Live(s, s.caster.bucket) && Pending(s, s.caster.bucket, s.caster.at.value)
    ensures s.caster.at.value in s.next && s.caster.at.value in s.regs
  {
    hide Sound;
    NextIsLater(s, s.caster.bucket, s.caster.at.value);
  }

  lemma NewlyCollected(s: State)
    requires Shape(s) && Sound(s) && Control(s) && Progress(s)
    requires s.caster.Entering? || s.caster.Fronting? || s.caster.Visiting?
    ensures Walk(s).caster.Advancing? ==> Reached(s, Walk(s).caster.node) < |s.past.messages|
  {
    hide Sound, Control, Pending, Reached;
    if Walk(s).caster.Advancing? {
      AtCursorPending(s);
      assert NodeProgress(s, s.caster.bucket, s.caster.at.value);
    }
  }

  lemma SentWhenPending(s: State)
    requires Shape(s) && Sound(s) && Control(s) && Progress(s)
    requires s.caster.Entering? || s.caster.Fronting? || s.caster.Visiting?
    ensures Walk(s).caster.Sending? ==> Reached(s, Walk(s).caster.node) + 1 == |s.past.messages|
  {
    hide Sound, Control, Pending, Reached;
    if Walk(s).caster.Sending? {
      AtCursorPending(s);
      assert NodeProgress(s, s.caster.bucket, s.caster.at.value);
    }
  }

  lemma OfferReached(s: State, x: Client)
    requires Shape(s) && (s.caster.Sending? || s.caster.Advancing?)
    ensures Reached(Offer(s), x) ==
            Reached(s, x) + (if s.caster.Sending? && x == s.caster.node && x in s.past.start then 1 else 0)
  {}

  lemma OfferKeepsProgress(s: State)
    requires Shape(s) && Sound(s) && Control(s) && Tuples(s) && Delivery(s) && Progress(s)
    requires s.caster.Sending? || s.caster.Advancing?
    ensures Progress(Offer(s))
  {
    hide Sound, Control, Tuples, Delivery, NodeProgress, Reached, Pending;
    var t := Offer(s);
    NodeStarted(s);
    forall b, x | 0 <= b < |t.heads| && x in Live(t, b) ensures NodeProgress(t, b, x) {
      assert x in Live(s, b);
      assert NodeProgress(s, b, x);
      OfferNodeProgress(s, b, x);
    }
    forall x | Collected(t, x) ensures Reached(t, x) < |t.past.messages| {
      assert Collected(s, x);
      OfferReached(s, x);
      if s.caster.Sending? && x == s.caster.node { SendingNotCollected(s); }
    }
  }

  lemma NodeStarted(s: State)
    requires Shape(s) && Sound(s) && Control(s) && Delivery(s) && (s.caster.Sending? || s.caster.Advancing?)
    ensures s.caster.node in s.past.start
  {
    hide Sound;
    InListOf(s, s.caster.bucket, s.caster.node);
    assert Logged(s, s.caster.node);
  }

  lemma SendingNotCollected(s: State)
    requires Shape(s) && Sound(s) && Control(s) && Tuples(s) && s.caster.Sending?
    ensures !Collected(s, s.caster.node)
  {
    hide Sound;
    var b, x := s.caster.bucket, s.caster.node;
    NextIsLater(s, b, x);
    forall j | 0 <= j < |s.tuples| ensures s.tuples[j].client != x {
      assert TupleOk(s, j);
      if s.tuples[j].client == x { SameBucket(s, b, s.tuples[j].bucket, x); }
    }
  }

  lemma OfferNodeProgress(s: State, b: int, x: Client)
    requires Shape(s) && Sound(s) && Control(s) && (s.caster.Sending? || s.caster.Advancing?)
    requires 0 <= b < |s.heads| && x in Live(s, b) && NodeProgress(s, b, x) && s.caster.node in s.past.start
    requires s.caster.Sending? ==> Reached(s, s.caster.node) + 1 == |s.past.messages|
    ensures NodeProgress(Offer(s), b, x)
  {
    hide Sound, Control, Pending, Reached;
    OfferPending(s, b, x);
    OfferReached(s, x);
    if Collected(s, x) { assert Collected(Offer(s), x); }
  }

  /** During the sweep and after it nothing is pending, and lists only shrink. */
  lemma SweepKeepsProgress(s: State, spurious: bool)
    requires Shape(s) && Sound(s) && Control(s) && Tuples(s) && Progress(s) && s.caster.InSweep()
    requires Enabled(s, Cast(spurious)) && !Exec(s, Cast(spurious)).caster.Faulted?
    ensures Progress(Exec(s, Cast(spurious)))
  {
    hide Sound, Control, Tuples, NodeProgress, Reached, Pending, Exec;
    var t := Exec(s, Cast(spurious));
    SweepFrame(s, spurious);
    forall b, x | 0 <= b < |t.heads| && x in Live(t, b) ensures NodeProgress(t, b, x) {
      assert x in Live(s, b);
      assert NodeProgress(s, b, x);
      BehindCursor(s, b, x);
      BehindCursor(t, b, x);
      SameReached(s, t, x);
      SettledProgress(s, t, b, x);
    }
    forall x | Collected(t, x) ensures Reached(t, x) < |t.past.messages| {
      assert Collected(s, x);
      SameReached(s, t, x);
    }
  }

  lemma SettledProgress(s: State, t: State, b: int, x: Client)
    requires Shape(s) && Shape(t) && 0 <= b < |s.heads| == |t.heads| && NodeProgress(s, b, x)
    requires !Pending(s, b, x) && !Pending(t, b, x) && Reached(s, x) == Reached(t, x)
    requires s.past.messages == t.past.messages && s.tuples == t.tuples
    ensures NodeProgress(t, b, x)
  {
    if Collected(s, x) { assert Collected(t, x); }
  }

  lemma SweepFrame(s: State, spurious: bool)
    requires Shape(s) && s.caster.InSweep() && Enabled(s, Cast(spurious)) && !Exec(s, Cast(spurious)).caster.Faulted?
    ensures var t := Exec(s, Cast(spurious));
            && t.past.start == s.past.start && t.handed == s.handed && t.past.messages == s.past.messages
            && t.tuples == s.tuples && |t.heads| == |s.heads| && t.past.pushes == s.past.pushes
            && s.past.removed <= t.past.removed && (t.caster.InSweep() || t.caster.Idle?)
            && t.past.front == s.past.front && t.past.newer == s.past.newer && t.past.fronts == s.past.fronts
  {
    hide RemoveHead, RemoveSearch;
    if s.caster.InRemove() { RemoveEffect(s, spurious); }
  }

  lemma BeginKeepsProgress(s: State, m: Message)
    requires Shape(s) && Sound(s) && Control(s) && Tuples(s) && Delivery(s) && Progress(s) && s.caster.Idle?
    ensures Progress(Exec(s, Begin(m)))
  {
    hide Sound, Control, Tuples, NodeProgress, Logged;
    var t := Exec(s, Begin(m));
    forall b, x | 0 <= b < |t.heads| && x in Live(t, b) ensures NodeProgress(t, b, x) {
      assert x in Live(s, b);
      assert NodeProgress(s, b, x);
      NewMessagePending(s, m, b, x);
    }
  }

  lemma NewMessagePending(s: State, m: Message, b: int, x: Client)
    requires Shape(s) && Sound(s) && Tuples(s) && Delivery(s) && s.caster.Idle?
    requires 0 <= b < |s.heads| && x in Live(s, b) && NodeProgress(s, b, x)
    ensures NodeProgress(Exec(s, Begin(m)), b, x)
  {
    hide Sound, Tuples;
    InListOf(s, b, x);
    assert Logged(s, x);
    if Collected(s, x) { CollectedInList(s, x); }
  }

  lemma ArriveKeepsProgress(s: State, step: Step)
    requires Shape(s) && Enabled(s, step) && Sound(s) && Tuples(s) && Control(s) && Progress(s)
    requires step.Arrive? || step.Die?
    ensures Progress(Exec(s, step))
  {
    hide Sound, Tuples, NodeProgress, Control, Pending;
    var t := Exec(s, step);
    forall b, x | 0 <= b < |t.heads| && x in Live(t, b) ensures NodeProgress(t, b, x) {
      assert x in Live(s, b);
      assert NodeProgress(s, b, x);
      InListOf(s, b, x);
      ArriveNodeProgress(s, step, b, x);
    }
    forall x | Collected(t, x) ensures Reached(t, x) < |t.past.messages| {
      assert Collected(s, x);
      CollectedInList(s, x);
    }
    if s.caster.Sending? { SendingInList(s); }
  }

  lemma ArriveNodeProgress(s: State, step: Step, b: int, x: Client)
    requires Shape(s) && Enabled(s, step) && (step.Arrive? || step.Die?) && x in s.regs
    requires 0 <= b < |s.heads| && NodeProgress(s, b, x)
    ensures NodeProgress(Exec(s, step), b, x)
  {
    var t := Exec(s, step);
    assert Pending(t, b, x) <==> Pending(s, b, x);
    if Collected(s, x) { assert Collected(t, x); }
  }

  lemma StepKeepsProgress(s: State, step: Step)
    requires Shape(s) && Enabled(s, step) && Sound(s) && Control(s) && Tuples(s)
    requires Fronts(s) && Delivery(s) && Progress(s)
    requires !Exec(s, step).caster.Faulted?
    ensures Progress(Exec(s, step))
  {
    hide Sound, Control, Tuples, Fronts, Delivery, Progress, Register, Walk, Sweep, Remove;
    match step
    case Bump(r) => RegisterKeepsProgress(s, r, false);
    case Load(r) => RegisterKeepsProgress(s, r, false);
    case Link(r) => RegisterKeepsProgress(s, r, false);
    case Cas(r, spurious) => RegisterKeepsProgress(s, r, spurious);
    case CountUp(r) => RegisterKeepsProgress(s, r, false);
    case Cast(spurious) =>
      if s.caster.InSweep() { SweepKeepsProgress(s, spurious); }
      else if s.caster.Sending? || s.caster.Advancing? { OfferKeepsProgress(s); }
      else { WalkKeepsProgress(s); }
    case Begin(m) => BeginKeepsProgress(s, m);
    case _ => ArriveKeepsProgress(s, step);
  }
}
