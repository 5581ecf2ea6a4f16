/**
 What the registry can always still do: a registration left alone gets its node
 linked and counted, and a broadcast left alone comes to its end.
 */
module RegistryProgress {
  import opened Sequences
  import opened Registry
  import opened RegistryInvariant
  import opened RegistryLists
  import opened RegistryControl
  import opened RegistryTuples
  import opened RegistryDelivery
  import opened RegistryCounting
  import opened RegistryRuns

  // ---------- A registration left alone ----------

  /** The steps of registration r in which no CAS fails spuriously. */
  predicate IsOwn(step: Step, r: Client) {
    match step
    case Arrive(q) => q == r
    case Bump(q) => q == r
    case Load(q) => q == r
    case Link(q) => q == r
    case Cas(q, spurious) => q == r && !spurious
    case CountUp(q) => q == r
    case _ => false
  }

  ghost predicate OwnNext(s: State, t: State, r: Client) {
    Shape(s) && exists step :: IsOwn(step, r) && Enabled(s, step) && t == Exec(s, step)
  }

  /** A continuation of s made of steps of registration r only. */
  ghost predicate OwnRun(run: seq<State>, s: State, r: Client) {
    |run| > 0 && run[0] == s && forall k :: 0 <= k < |run| - 1 ==> OwnNext(run[k], run[k + 1], r)
  }

  predicate InSomeList(s: State, r: Client) {
    r in s.regs && s.regs[r].InList()
  }

  /** How many steps it has to go: a head that has moved since it was loaded costs one failed CAS and one link more. */
  function StepsLeft(s: State, r: Client): nat
    requires Shape(s)
  {
    if r !in s.regs then 6
    else
      var reg := s.regs[r];
      match reg
      case Picked(_) => 5
      case Bumped(_) => 4
      case Loaded(b, seen) => if seen == s.heads[b] then 3 else 5
      case Linked(b, seen) => if seen == s.heads[b] then 2 else 4
      case Pushed(_) => 1
      case Counted(_) => 0
  }

  lemma OwnStep(s: State, r: Client) returns (step: Step)
    requires Shape(s) && StepsLeft(s, r) > 0
    ensures IsOwn(step, r) && Enabled(s, step)
    ensures var t := Exec(s, step);
            && r in t.regs && StepsLeft(t, r) == StepsLeft(s, r) - 1
            && t.regs[r].bucket == (if r in s.regs then s.regs[r].bucket else s.counter % |s.heads|)
            && |t.heads| == |s.heads| && t.past.removed == s.past.removed
            && t.count == s.count + (if StepsLeft(s, r) == 1 then 1 else 0)
            && var b := t.regs[r].bucket;
            && (InSomeList(s, r) ==> InSomeList(t, r))
            && t.past.pushes ==
                 if InSomeList(t, r) && !InSomeList(s, r) then s.past.pushes[b := [r] + s.past.pushes[b]]
                 else s.past.pushes
  {
    if r !in s.regs {
      step := Arrive(r);
    } else {
      match s.regs[r]
      case Picked(_) => step := Bump(r);
      case Bumped(_) => step := Load(r);
      case Loaded(_, _) => step := Link(r);
      case Linked(_, _) => step := Cas(r, false);
      case Pushed(_) => step := CountUp(r);
    }
  }

  lemma OwnStepThenRun(s: State, step: Step, run: seq<State>, r: Client) returns (longer: seq<State>)
    requires Shape(s) && IsOwn(step, r) && Enabled(s, step) && OwnRun(run, Exec(s, step), r)
    ensures OwnRun(longer, s, r) && longer[|longer| - 1] == run[|run| - 1] && |longer| == |run| + 1
  {
    hide Enabled, Exec, Shape;
    longer := [s] + run;
    assert OwnNext(s, run[0], r);
    forall k | 0 <= k < |longer| - 1 ensures OwnNext(longer[k], longer[k + 1], r) {
      if k > 0 { assert longer[k] == run[k - 1] && longer[k + 1] == run[k - 1 + 1]; }
    }
  }

  /** The bucket registration r has or gets. */
  function BucketOf(s: State, r: Client): int
    requires Shape(s)
  {
    if r in s.regs then s.regs[r].bucket else s.counter % |s.heads|
  }

  /** The lists of t are those of s, with r in front of its own if it was not in it. */
  ghost predicate HasJoined(s: State, t: State, r: Client)
    requires Shape(s)
  {
    && InSomeList(t, r) && t.regs[r].bucket == BucketOf(s, r)
    && |t.past.pushes| == |s.past.pushes|
    && forall b :: 0 <= b < |s.past.pushes| ==>
         Live(t, b) == (if b == BucketOf(s, r) && !InSomeList(s, r) then [r] else []) + Live(s, b)
  }

  lemma PushShows(s: State, t: State, r: Client)
    requires Inv(s) && Inv(t) && !InSomeList(s, r) && InSomeList(t, r) && t.regs[r].bucket == BucketOf(s, r)
    requires 0 <= BucketOf(s, r) < |s.heads| && t.past.removed == s.past.removed
    requires t.past.pushes == s.past.pushes[BucketOf(s, r) := [r] + s.past.pushes[BucketOf(s, r)]]
    ensures HasJoined(s, t, r)
  {
    hide Control, Tuples, Fronts, Delivery, Progress, Counting, Snapshots, Starts;
    assert r !in s.past.removed;
    forall b | 0 <= b < |s.past.pushes|
      ensures Live(t, b) == (if b == BucketOf(s, r) then [r] else []) + Live(s, b)
    {
      if b == BucketOf(s, r) {
        assert ([r] + s.past.pushes[b])[1..] == s.past.pushes[b];
      } else {
        assert [] + Live(s, b) == Live(s, b);
      }
    }
  }

  lemma NothingPushed(s: State, t: State)
    requires t.past.pushes == s.past.pushes && t.past.removed == s.past.removed
    ensures forall b :: 0 <= b < |s.past.pushes| ==> Live(t, b) == [] + Live(s, b)
  {
    forall b | 0 <= b < |s.past.pushes| ensures Live(t, b) == [] + Live(s, b) {
      assert [] + Live(s, b) == Live(s, b);
    }
  }

  lemma JoinedAfter(s: State, t: State, u: State, r: Client)
    requires Shape(s) && Shape(t) && HasJoined(t, u, r) && BucketOf(t, r) == BucketOf(s, r)
    requires t.past.pushes == s.past.pushes && t.past.removed == s.past.removed
    requires InSomeList(t, r) == InSomeList(s, r)
    ensures HasJoined(s, u, r)
  {
    LiveOf(s, t);
    hide Live;
  }

  lemma JoinedBefore(s: State, t: State, u: State, r: Client)
    requires Shape(s) && Shape(t) && HasJoined(s, t, r) && HasJoined(t, u, r) && BucketOf(t, r) == BucketOf(s, r)
    ensures HasJoined(s, u, r)
  {
    hide Live;
    forall b | 0 <= b < |s.past.pushes|
      ensures Live(u, b) == (if b == BucketOf(s, r) && !InSomeList(s, r) then [r] else []) + Live(s, b)
    {
      assert [] + Live(t, b) == Live(t, b);
    }
  }

  /**
   From every state with the invariant, a registration that is left alone has its
   node linked at the head of its bucket's list and counted, after exactly the
   steps it has to go, and all else in the lists is as it was.
   */
  lemma {:induction false} PushSucceeds(s: State, r: Client) returns (run: seq<State>)
    requires Inv(s)
    ensures OwnRun(run, s, r) && |run| == StepsLeft(s, r) + 1
    ensures var t := run[|run| - 1];
            && Inv(t) && HasJoined(s, t, r) && t.regs[r].Counted?
            && t.count == s.count + if StepsLeft(s, r) > 0 then 1 else 0
    decreases StepsLeft(s, r)
  {
    hide Sound, Control, Tuples, Fronts, Delivery, Progress, Counting, Snapshots, Starts, HasJoined, Exec, Enabled;
    if StepsLeft(s, r) == 0 {
      run := [s];
      JoinedItself(s, r);
    } else {
      var step := OwnStep(s, r);
      StepKeepsInv(s, step);
      var t := Exec(s, step);
      run := PushSucceeds(t, r);
      run := OwnStepThenRun(s, step, run, r);
      if InSomeList(t, r) == InSomeList(s, r) {
        JoinedAfter(s, t, run[|run| - 1], r);
      } else {
        PushShows(s, t, r);
        JoinedBefore(s, t, run[|run| - 1], r);
      }
    }
  }

  lemma JoinedItself(s: State, r: Client)
    requires Shape(s) && InSomeList(s, r)
    ensures HasJoined(s, s, r)
  {
    NothingPushed(s, s);
  }

  // ---------- A broadcast left alone ----------

  /** Walk, then sweep, then idle. */
  ghost function Phase(s: State): nat {
    if s.caster.Idle? || s.caster.Faulted? then 0 else if s.caster.InSweep() then 1 else 2
  }

  /** The buckets still to walk, or the tuples still to sweep. */
  ghost function Outer(s: State): nat
    requires Shape(s)
  {
    if Phase(s) == 2 then |s.heads| - s.caster.bucket
    else if Phase(s) == 1 then |s.tuples| - s.caster.k
    else 0
  }

  /** How far it is with one bucket or one tuple. */
  ghost function Stage(s: State): nat {
    match s.caster
    case Entering(_) => 3
    case Fronting(_) => 2
    case Visiting(_, _) => 1
    case Sending(_, _) => 1
    case Advancing(_, _) => 1
    case Sweeping(_) => 9
    case Removing(_) => 8
    case Comparing(_, _) => 7
    case Swapping(_, _) => 6
    case Stepping(_, _) => 5
    case Searching(_, _, _) => 4
    case Unlinking(_, _, _) => 3
    case Removed(_, _) => 2
    case Unlocking(_) => 1
    case _ => 0
  }

  /** The nodes of the list that the walk, or the search of remove, has still before it. */
  ghost function Inner(s: State): nat
    requires Shape(s)
  {
    if s.caster.InWalk() then
      var left := |Live(s, s.caster.bucket)| - CursorPos(s);
      if left < 0 then 0 else left
    else if s.caster.Searching? then
      var live := Live(s, s.tuples[s.caster.k].bucket);
      if s.caster.prev in live then |live| - Pos(live, s.caster.prev) else 0
    else 0
  }

  /** What is left to do for one node. */
  ghost function Micro(s: State): nat {
    if s.caster.Advancing? then 2 else if s.caster.Visiting? then 1 else 0
  }

  ghost predicate Nearer(s: State, t: State)
    requires Shape(s) && Shape(t)
  {
    || Phase(t) < Phase(s)
    || (Phase(t) == Phase(s) && Outer(t) < Outer(s))
    || (Phase(t) == Phase(s) && Outer(t) == Outer(s) && Stage(t) < Stage(s))
    || (Phase(t) == Phase(s) && Outer(t) == Outer(s) && Stage(t) == Stage(s) && Inner(t) < Inner(s))
    || (Phase(t) == Phase(s) && Outer(t) == Outer(s) && Stage(t) == Stage(s) && Inner(t) == Inner(s)
        && Micro(t) < Micro(s))
  }

  lemma WalkNearer(s: State)
    requires Shape(s) && Control(s) && (s.caster.Entering? || s.caster.Fronting? || s.caster.Visiting?)
    ensures Nearer(s, Walk(s))
  {
    hide Locking, Removal;
    var t := Walk(s);
    if s.caster.Visiting? && s.caster.at.Some? {
      WalkCollects(s);
      assert Live(t, s.caster.bucket) == Live(s, s.caster.bucket);
    }
  }

  lemma OfferNearer(s: State)
    requires Shape(s) && Sound(s) && Control(s) && (s.caster.Sending? || s.caster.Advancing?)
    ensures Nearer(s, Offer(s))
  {
    hide Sound, Locking, Removal;
    var t := Offer(s);
    var live := Live(s, s.caster.bucket);
    assert Live(t, s.caster.bucket) == live;
    NextIsLater(s, s.caster.bucket, s.caster.node);
  }

  lemma SweepNearer(s: State)
    requires Shape(s) && (s.caster.Sweeping? || s.caster.Removed? || s.caster.Unlocking?)
    ensures Nearer(s, Sweep(s))
  {}

  lemma HeadNearer(s: State, spurious: bool)
    requires Shape(s) && (s.caster.Removing? || s.caster.Comparing? || s.caster.Swapping?)
    ensures Nearer(s, RemoveHead(s, spurious))
  {
    hide Live;
  }

  lemma SearchNearer(s: State)
    requires Shape(s) && Sound(s) && Control(s) && (s.caster.Stepping? || s.caster.Searching? || s.caster.Unlinking?)
    ensures Nearer(s, RemoveSearch(s))
  {
    hide Sound, Locking, Walking, Live;
    if s.caster.Searching? { SearchGoesOn(s); }
  }

  lemma SearchGoesOn(s: State)
    requires Shape(s) && Sound(s) && Control(s) && s.caster.Searching?
    ensures Nearer(s, RemoveSearch(s))
  {
    hide Sound, Locking, Walking;
    var b := s.tuples[s.caster.k].bucket;
    NextIsLater(s, b, s.caster.prev);
    hide Control;
    assert Live(RemoveSearch(s), b) == Live(s, b);
  }

  lemma CastNearer(s: State, spurious: bool)
    requires Inv(s) && !s.caster.Idle?
    ensures Enabled(s, Cast(spurious)) && Nearer(s, Exec(s, Cast(spurious)))
  {
    CastEnabled(s, spurious);
    hide Sound, Control, Tuples, Fronts, Delivery, Progress, Counting, Snapshots, Starts, Shape, Nearer;
    hide Walk, Offer, Sweep, RemoveHead, RemoveSearch;
    if s.caster.InRemove() {
      if s.caster.Removing? || s.caster.Comparing? || s.caster.Swapping? { HeadNearer(s, spurious); }
      else { SearchNearer(s); }
    } else if s.caster.InSweep() {
      SweepNearer(s);
    } else if s.caster.Sending? || s.caster.Advancing? {
      OfferNearer(s);
    } else {
      WalkNearer(s);
    }
  }

  /** The broadcast never waits for a lock: nobody else takes one. */
  lemma CastEnabled(s: State, spurious: bool)
    requires Shape(s) && Control(s) && !s.caster.Idle?
    ensures Enabled(s, Cast(spurious))
  {}

  /** A continuation of s made of steps of the broadcast only; fails says in which of them a CAS fails spuriously. */
  ghost predicate CastRun(run: seq<State>, s: State, fails: int -> bool, n: int) {
    |run| > 0 && run[0] == s && forall k :: 0 <= k < |run| - 1 ==> CastNext(run[k], run[k + 1], fails(n + k))
  }

  ghost predicate CastNext(s: State, t: State, spurious: bool) {
    Shape(s) && Enabled(s, Cast(spurious)) && t == Exec(s, Cast(spurious))
  }

  lemma CastThenRun(s: State, run: seq<State>, fails: int -> bool, n: int) returns (longer: seq<State>)
    requires |run| > 0 && CastNext(s, run[0], fails(n)) && CastRun(run, run[0], fails, n + 1)
    ensures CastRun(longer, s, fails, n) && longer[|longer| - 1] == run[|run| - 1]
  {
    hide CastNext;
    longer := [s] + run;
    forall k | 0 <= k < |longer| - 1 ensures CastNext(longer[k], longer[k + 1], fails(n + k)) {
      if k > 0 { assert longer[k] == run[k - 1] && longer[k + 1] == run[k - 1 + 1] && n + k == n + 1 + (k - 1); }
    }
  }

  /** From every state with the invariant a broadcast in flight comes to its end, whatever fails spuriously. */
  lemma {:induction false} BroadcastEnds(s: State, fails: int -> bool, n: int) returns (run: seq<State>)
    requires Inv(s)
    ensures CastRun(run, s, fails, n) && Inv(run[|run| - 1]) && run[|run| - 1].caster.Idle?
    decreases Phase(s), Outer(s), Stage(s), Inner(s), Micro(s)
  {
    hide Sound, Control, Tuples, Fronts, Delivery, Progress, Counting, Snapshots, Starts, Shape, Exec, Enabled, CastRun;
    hide Phase, Outer, Stage, Inner, Micro;
    if s.caster.Idle? {
      run := AloneRun(s, fails, n);
    } else {
      CastNearer(s, fails(n));
      StepKeepsInv(s, Cast(fails(n)));
      var t := Exec(s, Cast(fails(n)));
      run := BroadcastEnds(t, fails, n + 1);
      RunStarts(run, t, fails, n + 1);
      run := CastThenRun(s, run, fails, n);
    }
  }

  lemma RunStarts(run: seq<State>, s: State, fails: int -> bool, n: int)
    requires CastRun(run, s, fails, n)
    ensures |run| > 0 && run[0] == s
  {}

  lemma AloneRun(s: State, fails: int -> bool, n: int) returns (run: seq<State>)
    ensures CastRun(run, s, fails, n) && run == [s]
  {
    run := [s];
  }

  // ---------- What a broadcast left alone does ----------

  /** What no step of a broadcast without spurious failures changes, from s to u. */
  ghost predicate Undisturbed(s: State, u: State) {
    && u.regs == s.regs && u.dead == s.dead && |u.heads| == |s.heads|
    && u.past.pushes == s.past.pushes && u.past.start == s.past.start && u.past.messages == s.past.messages
    && s.past.removed <= u.past.removed && u.past.missed == {}
    && (u.caster.Sending? ==> u.caster.node !in u.dead)
    && (forall x :: x in s.dead && x in s.handed ==> x in u.handed && u.handed[x] == s.handed[x])
    && (forall x :: x in s.dead && x in s.wire ==> x in u.wire && u.wire[x] == s.wire[x])
  }

  lemma WalkUndisturbed(s: State, u: State)
    requires Shape(u) && Undisturbed(s, u) && (u.caster.Entering? || u.caster.Fronting? || u.caster.Visiting?)
    ensures Undisturbed(s, Walk(u))
  {
    hide Live, Shape;
  }

  lemma OfferUndisturbed(s: State, u: State)
    requires Shape(u) && Undisturbed(s, u) && (u.caster.Sending? || u.caster.Advancing?)
    ensures Undisturbed(s, Offer(u))
  {}

  lemma SweepUndisturbed(s: State, u: State)
    requires Shape(u) && Undisturbed(s, u) && (u.caster.Sweeping? || u.caster.Removed? || u.caster.Unlocking?)
    ensures Undisturbed(s, Sweep(u))
  {}

  lemma RemoveUndisturbed(s: State, u: State)
    requires Shape(u) && Undisturbed(s, u) && u.caster.InRemove() && !Remove(u, false).caster.Faulted?
    ensures Undisturbed(s, Remove(u, false))
  {
    RemoveEffect(u, false);
    RemoveMisses(u);
    hide Remove, Shape;
  }

  lemma Sane(s: State)
    requires Inv(s)
    ensures Shape(s) && !s.caster.Faulted?
  {
    hide Sound, Tuples, Fronts, Delivery, Progress, Counting, Snapshots, Starts;
  }

  lemma CastUndisturbed(s: State, u: State)
    requires Inv(u) && Undisturbed(s, u) && Enabled(u, Cast(false))
    ensures Undisturbed(s, Exec(u, Cast(false)))
  {
    hide Inv, Undisturbed, Walk, Offer, Sweep, Remove;
    StepKeepsInv(u, Cast(false));
    Sane(u);
    Sane(Exec(u, Cast(false)));
    hide Shape;
    if u.caster.InRemove() {
      RemoveUndisturbed(s, u);
    } else if u.caster.InSweep() {
      SweepUndisturbed(s, u);
    } else if u.caster.Sending? || u.caster.Advancing? {
      OfferUndisturbed(s, u);
    } else {
      WalkUndisturbed(s, u);
    }
  }

  lemma {:induction false} RunUndisturbed(run: seq<State>, s: State, fails: int -> bool, n: int, k: nat)
    requires CastRun(run, s, fails, n) && (forall j :: !fails(j)) && k < |run| && Inv(s) && Undisturbed(s, s)
    ensures Inv(run[k]) && Undisturbed(s, run[k])
  {
    if k > 0 {
      RunUndisturbed(run, s, fails, n, k - 1);
      hide Inv, Undisturbed, Exec, Enabled;
      assert CastNext(run[k - 1], run[k - 1 + 1], fails(n + (k - 1)));
      CastUndisturbed(s, run[k - 1]);
      StepKeepsInv(run[k - 1], Cast(false));
    }
  }

  lemma CollectedIsRemoved(t: State, x: Client)
    requires Shape(t) && Tuples(t) && t.caster.Idle? && t.past.missed == {} && Collected(t, x)
    ensures x in t.past.removed
  {
    var j :| 0 <= j < |t.tuples| && t.tuples[j].client == x;
    assert TupleOk(t, j);
  }

  lemma SameReach(s: State, t: State, x: Client)
    requires Shape(s) && Shape(t) && Undisturbed(s, t) && x in s.dead && x in s.handed
    ensures Reached(t, x) == Reached(s, x)
  {
    hide Shape;
  }

  /** A dead node of the list has been collected by the walk and unlinked by the sweep. */
  lemma DeadIsRemoved(s: State, t: State, b: int, x: Client)
    requires Inv(s) && Inv(t) && Undisturbed(s, t) && t.caster.Idle? && 0 <= b < |s.heads|
    requires x in s.past.pushes[b] && x in s.dead && x in s.handed && Reached(s, x) < |s.past.messages|
    ensures x in t.past.removed
  {
    hide Sound, Control, Tuples, Fronts, Delivery, Progress, Counting, Snapshots, Starts, Shape, Pending;
    hide Collected, Reached;
    UndisturbedParts(s, t);
    SameShape(s, t);
    SameReach(s, t, x);
    hide Undisturbed;
    if x in Live(t, b) {
      ProgressOne(t, b, x);
      BehindCursor(t, b, x);
      CollectedIsRemoved(t, x);
    }
  }

  lemma SameShape(s: State, t: State)
    requires Shape(s) && Shape(t) && Undisturbed(s, t)
    ensures |t.past.pushes| == |s.past.pushes| == |t.heads| == |s.heads| && t.past.missed == {}
  {}

  lemma OnlyDeadRemoved(t: State, x: Client)
    requires Inv(t) && x in t.past.removed
    ensures x in t.dead
  {
    hide Shape, Control, Tuples, Fronts, Delivery, Progress, Counting, Snapshots, Starts;
  }

  /** The broadcast of m has just been begun: the state is now u. */
  ghost predicate Begun(s: State, m: Message, u: State) {
    Shape(s) && s.caster.Idle? && Enabled(s, Begin(m)) && u == Exec(s, Begin(m))
  }

  lemma BegunParts(s: State, m: Message, u: State)
    requires Begun(s, m, u)
    ensures u.regs == s.regs && u.dead == s.dead && u.wire == s.wire && u.handed == s.handed && |u.heads| == |s.heads|
    ensures u.past.pushes == s.past.pushes && u.past.start == s.past.start && u.past.removed == s.past.removed
    ensures u.past.messages == s.past.messages + [m] && u.past.missed == {} && !u.caster.Sending?
  {
    hide Shape;
  }

  lemma LoggedIn(s: State, x: Client)
    requires Shape(s) && Delivery(s) && InSomeList(s, x)
    ensures x in s.past.start && x in s.handed && Slice(s.past.messages, s.past.start[x], s.handed[x])
  {
    LoggedOne(s, x);
  }

  /** No client has yet been handed the message that has just been begun. */
  lemma NotYetHanded(s: State, m: Message, u: State, x: Client)
    requires Shape(s) && Delivery(s) && InSomeList(s, x) && Begun(s, m, u) && Shape(u)
    ensures x in u.handed && Reached(u, x) < |u.past.messages|
  {
    LoggedIn(s, x);
    BegunParts(s, m, u);
    hide Shape, Delivery, Begun, InSomeList;
  }

  lemma PushedIsThere(s: State, b: int, x: Client)
    requires Inv(s) && 0 <= b < |s.heads| && x in s.past.pushes[b]
    ensures x in s.regs && s.regs[x].InList() && s.regs[x].bucket == b
  {
    hide Control, Tuples, Fronts, Delivery, Progress, Counting, Snapshots, Starts;
  }

  lemma ListFiltered(s: State, m: Message, u: State, t: State, b: int)
    requires Inv(s) && Begun(s, m, u) && Inv(u) && Inv(t) && Undisturbed(u, t) && t.caster.Idle? && 0 <= b < |s.heads|
    ensures |s.past.pushes| == |t.past.pushes| == |s.heads| && Live(t, b) == Without(Live(s, b), s.dead)
  {
    hide Sound, Control, Tuples, Fronts, Delivery, Progress, Counting, Snapshots, Starts, Undisturbed, Begun;
    BegunParts(s, m, u);
    UndisturbedParts(u, t);
    SameShape(u, t);
    assert b < |s.past.pushes|;
    var pushed := s.past.pushes[b];
    forall x | x in pushed ensures x in t.past.removed <==> x in s.past.removed + s.dead {
      PushedIsThere(s, b, x);
      NotYetHanded(s, m, u, x);
      if x in t.past.removed { OnlyDeadRemoved(t, x); }
      if x in s.dead && x !in s.past.removed { DeadIsRemoved(u, t, b, x); }
    }
    hide Inv, Shape;
    WithoutAgree(pushed, t.past.removed, s.past.removed + s.dead);
    WithoutTwice(pushed, s.past.removed, s.dead);
  }

  /** The message is written once to every linked client that is not dead, and nothing to the others. */
  lemma WireAfter(s: State, m: Message, u: State, t: State, x: Client)
    requires Inv(s) && Begun(s, m, u) && Inv(t) && Undisturbed(u, t) && t.caster.Idle? && x in s.regs
    ensures x in s.wire && x in t.wire
    ensures t.wire[x] == s.wire[x] + if InSomeList(s, x) && x !in s.dead then [m] else []
  {
    hide Sound, Control, Tuples, Fronts, Delivery, Progress, Counting, Snapshots, Starts, Undisturbed;
    assert s.caster.Idle?;
    hide Begun;
    BegunParts(s, m, u);
    UndisturbedParts(u, t);
    LoggedOne(s, x);
    LoggedOne(t, x);
    if x in s.dead {
      DeadWire(u, t, x);
    } else if InSomeList(s, x) {
      IdleMissesNothing(s, s.regs[x].bucket, x);
      IdleMissesNothing(t, s.regs[x].bucket, x);
      hide Logged;
      assert (s.past.messages + [m])[s.past.start[x]..] == s.past.messages[s.past.start[x]..] + [m];
    }
  }

  lemma DeadWire(u: State, t: State, x: Client)
    requires Undisturbed(u, t) && x in u.dead && x in u.wire
    ensures x in t.wire && t.wire[x] == u.wire[x]
  {}

  lemma CountAfter(s: State, m: Message, u: State, t: State)
    requires Counting(s) && Begun(s, m, u) && Counting(t) && Undisturbed(u, t) && t.caster.Idle?
    ensures t.count == s.count - (TotalLength(AllLists(s)) - TotalLength(AllLists(t)))
  {
    assert s.caster.Idle?;
    hide Undisturbed, Begun, TotalLength, AllLists;
    BegunParts(s, m, u);
    UndisturbedParts(u, t);
    assert Uncounted(t) == Uncounted(s);
  }

  /** A continuation of s by a whole broadcast, and nothing else, in which no CAS fails spuriously. */
  ghost predicate IsBroadcast(run: seq<State>, s: State, m: Message) {
    && |run| > 0 && Begun(s, m, run[0]) && CastRun(run, run[0], _ => false, 0)
    && run[|run| - 1].caster.Idle?
  }

  /** All lists without their dead nodes, and the message written once to every other linked client. */
  ghost predicate BroadcastDone(s: State, m: Message, t: State) {
    && t.regs == s.regs && t.dead == s.dead && |t.past.pushes| == |s.past.pushes|
    && t.past.messages == s.past.messages + [m]
    && (forall b :: 0 <= b < |s.past.pushes| ==> Live(t, b) == Without(Live(s, b), s.dead))
    && (forall x :: x in s.regs ==> WrittenOnce(s, m, t, x))
    && t.count == s.count - (TotalLength(AllLists(s)) - TotalLength(AllLists(t)))
  }

  ghost predicate WrittenOnce(s: State, m: Message, t: State, x: Client) {
    && x in s.wire && x in t.wire
    && t.wire[x] == s.wire[x] + if InSomeList(s, x) && x !in s.dead then [m] else []
  }

  lemma BeginEnabled(s: State, m: Message)
    requires Shape(s) && s.caster.Idle?
    ensures Enabled(s, Begin(m)) && Begun(s, m, Exec(s, Begin(m)))
  {
    hide Shape, Exec;
  }

  lemma UndisturbedYet(u: State)
    requires u.past.missed == {} && !u.caster.Sending?
    ensures Undisturbed(u, u)
  {}

  lemma BegunUndisturbed(s: State, m: Message) returns (u: State)
    requires Inv(s) && s.caster.Idle?
    ensures Begun(s, m, u) && Inv(u) && Undisturbed(u, u)
  {
    Sane(s);
    hide Inv, Shape, Exec, Begun, Enabled, Undisturbed;
    BeginEnabled(s, m);
    u := Exec(s, Begin(m));
    StepKeepsInv(s, Begin(m));
    BegunParts(s, m, u);
    UndisturbedYet(u);
  }

  /**
   The steps of a broadcast that nothing interferes with refine one simple step:
   from every idle state with the invariant it can begin and comes to its end, and
   then every list is without its dead nodes, every other linked client has been
   written the message once, and the count has fallen by the nodes unlinked.
   */
  lemma BroadcastAlone(s: State, m: Message) returns (run: seq<State>)
    requires Inv(s) && s.caster.Idle?
    ensures IsBroadcast(run, s, m) && Inv(run[|run| - 1]) && BroadcastDone(s, m, run[|run| - 1])
  {
    hide CastRun, Begun, Undisturbed, Inv, BroadcastDone;
    var u := BegunUndisturbed(s, m);
    run := BroadcastEnds(u, _ => false, 0);
    RunStarts(run, u, _ => false, 0);
    RunUndisturbed(run, u, _ => false, 0, |run| - 1);
    DoneWhenUndisturbed(s, m, u, run[|run| - 1]);
  }

  lemma InvParts(s: State)
    requires Inv(s)
    ensures Shape(s) && Counting(s) && |s.past.pushes| == |s.heads|
  {
    hide Sound, Control, Tuples, Fronts, Delivery, Progress, Counting, Snapshots, Starts;
  }

  lemma DoneWhenUndisturbed(s: State, m: Message, u: State, t: State)
    requires Inv(s) && Begun(s, m, u) && Inv(u) && Inv(t) && Undisturbed(u, t) && t.caster.Idle?
    ensures BroadcastDone(s, m, t)
  {
    hide Inv, Begun, Undisturbed, Live, InSomeList, AllLists, Counting;
    InvParts(s);
    InvParts(u);
    InvParts(t);
    hide Shape;
    BegunParts(s, m, u);
    UndisturbedParts(u, t);
    forall b | 0 <= b < |s.past.pushes| ensures Live(t, b) == Without(Live(s, b), s.dead) {
      ListFiltered(s, m, u, t, b);
    }
    forall x | x in s.regs ensures WrittenOnce(s, m, t, x) { WireAfter(s, m, u, t, x); }
    CountAfter(s, m, u, t);
  }

  lemma UndisturbedParts(u: State, t: State)
    requires Undisturbed(u, t)
    ensures t.regs == u.regs && t.dead == u.dead && t.past.pushes == u.past.pushes && t.past.start == u.past.start
    ensures t.past.messages == u.past.messages && u.past.removed <= t.past.removed
  {}

  /** The client x has just been found dead: the state is now u. */
  ghost predicate Died(s: State, x: Client, u: State) {
    Shape(s) && Enabled(s, Die(x)) && u == Exec(s, Die(x))
  }

  lemma CanDie(s: State, x: Client) returns (u: State)
    requires Inv(s) && x in s.wire && s.wire[x] != []
    ensures Died(s, x, u) && Inv(u) && u.caster == s.caster && u.dead == s.dead + {x}
  {
    Sane(s);
    hide Inv, Shape;
    u := Exec(s, Die(x));
    StepKeepsInv(s, Die(x));
  }

  /** A client that has been written to can be found dead, and the next broadcast then takes it out of its list. */
  lemma GoneClientIsUnlinked(s: State, m: Message, x: Client) returns (u: State, run: seq<State>)
    requires Inv(s) && s.caster.Idle? && x in s.wire && s.wire[x] != []
    ensures Died(s, x, u) && IsBroadcast(run, u, m)
    ensures var t := run[|run| - 1]; x in t.dead && forall b :: 0 <= b < |t.past.pushes| ==> x !in Live(t, b)
  {
    hide Inv, Died, IsBroadcast, WrittenOnce;
    u := CanDie(s, x);
    run := BroadcastAlone(u, m);
    BroadcastHasRun(run, u, m);
    hide Without;
    var t := run[|run| - 1];
    forall b | 0 <= b < |t.past.pushes| ensures x !in Live(t, b) { assert Live(t, b) == Without(Live(u, b), u.dead); }
  }

  lemma BroadcastHasRun(run: seq<State>, s: State, m: Message)
    requires IsBroadcast(run, s, m)
    ensures |run| > 0
  {}
}
