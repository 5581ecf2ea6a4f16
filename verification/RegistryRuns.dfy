/** What holds in every run of the registry, however its steps interleave. */
module RegistryRuns {
  import opened Sequences
  import opened Registry
  import opened RegistryInvariant
  import opened RegistryLists
  import opened RegistryControl
  import opened RegistryTuples
  import opened RegistryDelivery
  import opened RegistryCounting

  lemma PushKeepsStarts(s: State, r: Client)
    requires Shape(s) && Sound(s) && Starts(s)
    requires r in s.regs && s.regs[r].Linked? && s.heads[s.regs[r].bucket] == s.regs[r].oldHead
    ensures Starts(Register(s, r, false))
  {
    var t := Register(s, r, false);
    var b := s.regs[r].bucket;
    forall c, x | 0 <= c < |s.heads| && x in s.past.pushes[c] ensures x != r {}
    hide Sound, Live;
    forall c, x | 0 <= c < |t.heads| && x in t.past.pushes[c] ensures StartedBy(t, c, x) {
      if c != b || x != r { assert x in s.past.pushes[c] && StartedBy(s, c, x); }
    }
    forall c, x | 0 <= c < |t.heads| && x in t.past.front[c] ensures StartedBefore(t, c, x) {
      assert StartedBefore(s, c, x);
    }
    forall c, x | 0 <= c < |t.heads| && x in t.past.newer[c] ensures StartedSince(t, c, x) {
      if c != b || x != r { assert x in s.past.newer[c] && StartedSince(s, c, x); }
    }
  }

  lemma FrontingKeepsStarts(s: State)
    requires Shape(s) && Starts(s) && s.caster.Fronting?
    ensures Starts(Walk(s))
  {
    var t := Walk(s);
    var b := s.caster.bucket;
    forall c, x | 0 <= c < |t.heads| && x in t.past.pushes[c] ensures StartedBy(t, c, x) { assert StartedBy(s, c, x); }
    forall c, x | 0 <= c < |t.heads| && x in t.past.front[c] ensures StartedBefore(t, c, x) {
      if c == b { assert x in s.past.pushes[c] && StartedBy(s, c, x); } else { assert StartedBefore(s, c, x); }
    }
    forall c, x | 0 <= c < |t.heads| && x in t.past.newer[c] ensures StartedSince(t, c, x) {
      assert StartedSince(s, c, x);
    }
  }

  ghost predicate SameStarts(s: State, t: State) {
    && t.past.pushes == s.past.pushes && t.past.start == s.past.start && t.past.fronts == s.past.fronts
    && t.past.front == s.past.front && t.past.newer == s.past.newer && |t.heads| == |s.heads|
  }

  lemma SameStartsKeep(s: State, t: State)
    requires Shape(s) && Shape(t) && Starts(s) && SameStarts(s, t)
    ensures Starts(t)
  {
    forall b, x | 0 <= b < |s.heads| && x in s.past.pushes[b] ensures StartedBy(t, b, x) { assert StartedBy(s, b, x); }
    forall b, x | 0 <= b < |s.heads| && x in s.past.front[b] ensures StartedBefore(t, b, x) {
      assert StartedBefore(s, b, x);
    }
    forall b, x | 0 <= b < |s.heads| && x in s.past.newer[b] ensures StartedSince(t, b, x) {
      assert StartedSince(s, b, x);
    }
  }

  lemma CastKeepsStarts(s: State, spurious: bool)
    requires Shape(s) && Enabled(s, Cast(spurious)) && Starts(s) && !Exec(s, Cast(spurious)).caster.Faulted?
    ensures Starts(Exec(s, Cast(spurious)))
  {
    hide Starts, SameStarts, Walk, Offer, Sweep, Remove;
    if s.caster.Fronting? {
      FrontingKeepsStarts(s);
    } else {
      CastSameStarts(s, spurious);
      SameStartsKeep(s, Exec(s, Cast(spurious)));
    }
  }

  lemma CastSameStarts(s: State, spurious: bool)
    requires Shape(s) && Enabled(s, Cast(spurious)) && !s.caster.Fronting? && !Exec(s, Cast(spurious)).caster.Faulted?
    ensures SameStarts(s, Exec(s, Cast(spurious)))
  {
    if s.caster.InSweep() {
      hide Exec;
      SweepFrame(s, spurious);
    } else {
      hide Walk, Offer, SameStarts;
      if s.caster.Sending? || s.caster.Advancing? { OfferSameStarts(s); } else { WalkSameStarts(s); }
    }
  }

  lemma OfferSameStarts(s: State)
    requires Shape(s) && (s.caster.Sending? || s.caster.Advancing?)
    ensures SameStarts(s, Offer(s))
  {}

  lemma WalkSameStarts(s: State)
    requires Shape(s) && (s.caster.Entering? || s.caster.Visiting?)
    ensures SameStarts(s, Walk(s))
  {}

  lemma StepKeepsStarts(s: State, step: Step)
    requires Shape(s) && Enabled(s, step) && Sound(s) && Starts(s) && !Exec(s, step).caster.Faulted?
    ensures Starts(Exec(s, step))
  {
    hide Sound, Live, Starts, Walk, Offer, Sweep, Remove;
    if step.Cast? {
      CastKeepsStarts(s, step.spurious);
    } else if step.Cas? && s.heads[s.regs[step.r].bucket] == s.regs[step.r].oldHead && !step.spurious {
      PushKeepsStarts(s, step.r);
    } else {
      SameStartsKeep(s, Exec(s, step));
    }
  }

  lemma InitInv(buckets: nat)
    requires buckets > 0
    ensures Inv(Init(buckets))
  {
    var s := Init(buckets);
    assert Uncounted(s) == {};
    EmptyTotal(AllLists(s));
  }

  lemma {:induction false} EmptyTotal(xss: seq<seq<Client>>)
    requires forall i :: 0 <= i < |xss| ==> xss[i] == []
    ensures TotalLength(xss) == 0
  {
    if xss != [] { EmptyTotal(xss[1..]); }
  }

  lemma StepKeepsInv(s: State, step: Step)
    requires Inv(s) && Enabled(s, step)
    ensures Inv(Exec(s, step))
  {
    StepKeepsControl(s, step);
    StepKeepsSoundly(s, step);
    hide Shape, Sound, Control, Tuples, Fronts, Delivery, Progress, Counting, Snapshots, Starts, Exec;
    NoFault(Exec(s, step));
    StepKeepsTuples(s, step);
    StepKeepsFronts(s, step);
    StepKeepsDelivery(s, step);
    StepKeepsProgress(s, step);
    StepKeepsCounting(s, step);
    StepKeepsSnapshots(s, step);
    StepKeepsStarts(s, step);
  }

  lemma NoFault(s: State)
    requires Shape(s) && Control(s)
    ensures !s.caster.Faulted?
  {}

  lemma StepKeepsSoundly(s: State, step: Step)
    requires Shape(s) && Enabled(s, step) && Sound(s) && Control(s) && Tuples(s)
    ensures Sound(Exec(s, step))
  {
    hide Sound, Control, Exec;
    forall j | 0 <= j < |s.tuples| ensures s.tuples[j].client in s.dead { assert TupleOk(s, j); }
    StepKeepsSound(s, step);
  }

  /** Every state of every run satisfies the invariant. */
  lemma {:induction false} InvAlways(run: seq<State>, i: nat)
    requires IsRun(run) && i < |run|
    ensures Inv(run[i])
  {
    if i == 0 {
      var buckets: nat :| buckets > 0 && run[0] == Init(buckets);
      InitInv(buckets);
    } else {
      InvAlways(run, i - 1);
      hide Inv;
      assert Next(run[i - 1], run[i - 1 + 1]);
      var step :| Enabled(run[i - 1], step) && run[i] == Exec(run[i - 1], step);
      StepKeepsInv(run[i - 1], step);
    }
  }

  // ---------- The main results ----------

  /**
   In every reachable state each list, followed from its head, is finite and
   free of repetition and holds exactly what was pushed minus what was removed,
   newest first; no null or freed node is ever dereferenced.
   */
  lemma ListsAreExact(run: seq<State>, i: nat, b: nat)
    requires IsRun(run) && i < |run| && b < |run[i].heads|
    ensures |run[i].past.pushes| == |run[i].heads| && !run[i].caster.Faulted?
    ensures IsChain(run[i].next, run[i].heads[b], Live(run[i], b))
    ensures Distinct(Live(run[i], b))
    ensures forall r :: r in run[i].regs && run[i].regs[r].InList() && run[i].regs[r].bucket == b ==>
              (r in Live(run[i], b) <==> r !in run[i].past.removed)
    ensures forall xs :: IsChain(run[i].next, run[i].heads[b], xs) ==> xs == Live(run[i], b)
  {
    InvAlways(run, i);
    var s := run[i];
    ListOf(s, b);
    LiveDistinct(s, b);
    forall xs | IsChain(s.next, s.heads[b], xs) ensures xs == Live(s, b) {
      ChainUnique(s.next, s.heads[b], xs, Live(s, b));
    }
  }

  /**
   In every reachable state the messages handed to a client's send are the
   contiguous slice of the history that begins with the first broadcast to load
   its bucket's head after the push; what was written is a prefix of that, and
   all of it while the client is not dead; only dead clients are ever unlinked.
   */
  lemma LogsAreSlices(run: seq<State>, i: nat, x: Client)
    requires IsRun(run) && i < |run| && x in run[i].regs
    ensures x in run[i].handed && x in run[i].wire
    ensures run[i].regs[x].InList() ==>
              x in run[i].past.start && Slice(run[i].past.messages, run[i].past.start[x], run[i].handed[x])
    ensures !run[i].regs[x].InList() ==> run[i].handed[x] == []
    ensures run[i].wire[x] <= run[i].handed[x] && (x !in run[i].dead ==> run[i].wire[x] == run[i].handed[x])
    ensures x in run[i].past.removed ==> x in run[i].dead
  {
    InvAlways(run, i);
    assert Logged(run[i], x);
  }

  /** When no broadcast is in flight, a linked client that is not dead has been written every message since its push. */
  lemma LiveClientsMissNothing(run: seq<State>, i: nat, b: nat, x: Client)
    requires IsRun(run) && i < |run| && run[i].caster.Idle?
    requires x in run[i].regs && run[i].regs[x].InList() && run[i].regs[x].bucket == b && x !in run[i].dead
    ensures var s := run[i];
            x in s.past.start && x in s.wire && 0 <= s.past.start[x] <= |s.past.messages|
            && s.wire[x] == s.past.messages[s.past.start[x]..]
  {
    InvAlways(run, i);
    hide IsRun, Sound, Control, Tuples, Fronts, Delivery, Progress, Counting, Snapshots, Starts;
    IdleMissesNothing(run[i], b, x);
  }

  lemma LiveIsLinked(s: State, b: int, x: Client)
    requires Shape(s) && Sound(s) && x in s.regs && s.regs[x].InList() && s.regs[x].bucket == b && x !in s.dead
    ensures 0 <= b < |s.heads| && x in Live(s, b)
  {
    assert x in s.past.pushes[b];
  }

  lemma LoggedOne(s: State, x: Client)
    requires Shape(s) && Delivery(s) && x in s.regs
    ensures Logged(s, x)
  {
    hide Logged, Shape;
  }

  lemma ProgressOne(s: State, b: int, x: Client)
    requires Shape(s) && Progress(s) && 0 <= b < |s.heads| && x in Live(s, b)
    ensures NodeProgress(s, b, x)
  {
    hide NodeProgress, Live, Shape;
  }

  lemma IdleMissesNothing(s: State, b: int, x: Client)
    requires Shape(s) && Sound(s) && Tuples(s) && Delivery(s) && Progress(s) && s.caster.Idle?
    requires x in s.regs && s.regs[x].InList() && s.regs[x].bucket == b && x !in s.dead
    ensures x in s.past.start && x in s.wire && 0 <= s.past.start[x] <= |s.past.messages|
            && s.wire[x] == s.past.messages[s.past.start[x]..]
  {
    hide Sound, Tuples, Delivery, Progress, Live, Pending, Unfronted, Collected;
    LiveIsLinked(s, b, x);
    LoggedOne(s, x);
    ProgressOne(s, b, x);
    BehindCursor(s, b, x);
    if Collected(s, x) { CollectedInList(s, x); }
  }

  /**
   After a broadcast, every node of the list it loaded was either collected, and
   then it is dead and was not sent this message, or was handed it exactly once;
   a node pushed after the load was not handed it.
   */
  lemma ServedExactlyOnce(run: seq<State>, i: nat, b: nat, x: Client)
    requires IsRun(run) && i < |run| && run[i].caster.Idle? && b < |run[i].heads| && |run[i].past.messages| > 0
    ensures var s := run[i]; var n := |s.past.messages|;
            && b < |s.past.front| && b < |s.past.newer|
            && (x in s.past.newer[b] ==> x in s.handed && s.handed[x] == [])
            && (x in s.past.front[b] && Collected(s, x) ==>
                  x in s.dead && x in s.handed && x in s.past.start && s.past.start[x] + |s.handed[x]| < n)
            && (x in s.past.front[b] && !Collected(s, x) ==>
                  x in s.handed && x in s.past.start && |s.handed[x]| > 0 && s.past.start[x] + |s.handed[x]| == n
                  && s.handed[x][|s.handed[x]| - 1] == s.past.messages[n - 1])
  {
    InvAlways(run, i);
    hide IsRun, Sound, Control, Tuples, Fronts, Delivery, Progress, Counting, Snapshots, Starts;
    if x in run[i].past.newer[b] || x in run[i].past.front[b] { IdleServedOnce(run[i], b, x); }
  }

  lemma LoadedByAll(s: State, b: int)
    requires Shape(s) && Fronts(s) && s.caster.Idle? && 0 <= b < |s.heads|
    ensures s.past.fronts[b] == |s.past.messages|
  {
    hide Unfronted;
    BehindCursor(s, b, 0);
  }

  lemma IdleServedOnce(s: State, b: int, x: Client)
    requires Inv(s) && s.caster.Idle? && 0 <= b < |s.heads| && |s.past.messages| > 0
    requires x in s.past.newer[b] || x in s.past.front[b]
    ensures var n := |s.past.messages|;
            && (x in s.past.newer[b] ==> x in s.handed && s.handed[x] == [])
            && (x in s.past.front[b] && Collected(s, x) ==>
                  x in s.dead && x in s.handed && x in s.past.start && s.past.start[x] + |s.handed[x]| < n)
            && (x in s.past.front[b] && !Collected(s, x) ==>
                  x in s.handed && x in s.past.start && |s.handed[x]| > 0 && s.past.start[x] + |s.handed[x]| == n
                  && s.handed[x][|s.handed[x]| - 1] == s.past.messages[n - 1])
  {
    StartedIn(s, b, x);
    LoggedOne(s, x);
    LoadedByAll(s, b);
    if x in s.past.front[b] { FrontServed(s, b, x); }
    hide Sound, Control, Tuples, Fronts, Delivery, Progress, Counting, Snapshots, Starts, Collected;
  }

  lemma StartedIn(s: State, b: int, x: Client)
    requires Shape(s) && Sound(s) && Starts(s) && 0 <= b < |s.heads| && (x in s.past.newer[b] || x in s.past.front[b])
    ensures x in s.regs && s.regs[x].InList() && x in s.past.pushes[b] && x in s.past.start
    ensures x in s.past.newer[b] ==> s.past.start[x] == s.past.fronts[b]
    ensures x in s.past.front[b] ==> s.past.start[x] < s.past.fronts[b]
  {
    if x in s.past.newer[b] { assert StartedSince(s, b, x); }
    if x in s.past.front[b] { assert StartedBefore(s, b, x); }
  }

  lemma FrontServed(s: State, b: int, x: Client)
    requires Inv(s) && s.caster.Idle? && 0 <= b < |s.heads| && x in s.past.front[b]
    ensures Collected(s, x) ==> x in s.dead && Reached(s, x) < |s.past.messages|
    ensures !Collected(s, x) ==> Reached(s, x) == |s.past.messages|
  {
    hide Sound, Counting, Control, Tuples, Fronts, Delivery, Starts, Snapshots, Live, Unfronted, Pending;
    if Collected(s, x) {
      CollectedInList(s, x);
    } else {
      FrontIsLive(s, b, x);
      ProgressOne(s, b, x);
      BehindCursor(s, b, x);
    }
  }

  lemma FrontIsLive(s: State, b: int, x: Client)
    requires Inv(s) && s.caster.Idle? && 0 <= b < |s.heads| && x in s.past.front[b] && !Collected(s, x)
    ensures x in Live(s, b)
  {
    hide Counting, Control, Progress, Tuples, Fronts, Live, Collected;
    BehindCursor(s, b, x);
    assert StartedBefore(s, b, x) && x in s.regs && s.regs[x].InList();
    StartNotNegative(s, x);
    assert FrontOk(s, b);
  }

  lemma StartNotNegative(s: State, x: Client)
    requires Inv(s) && x in s.regs && s.regs[x].InList()
    ensures x in s.past.start && s.past.start[x] >= 0
  {
    assert Logged(s, x);
  }

  /**
   In every reachable state the client count is the number of linked nodes, less
   the registrations pushed but not yet counted, plus the removal unlinked but
   not yet subtracted.
   */
  lemma CountIsExact(run: seq<State>, i: nat)
    requires IsRun(run) && i < |run|
    ensures var s := run[i];
            s.count == TotalLength(AllLists(s)) - |Uncounted(s)| + (if s.caster.Removed? && s.caster.hit then 1 else 0)
    ensures run[i].caster.Idle? && (forall r :: r in run[i].regs ==> !run[i].regs[r].Pushed?) ==>
              run[i].count == TotalLength(AllLists(run[i]))
  {
    InvAlways(run, i);
    if forall r :: r in run[i].regs ==> !run[i].regs[r].Pushed? { assert Uncounted(run[i]) == {}; }
  }

  /** The nodes the last broadcast unlinked: those it collected, except where the head CAS failed spuriously. */
  ghost function Swept(s: State): set<Client> {
    (set j | 0 <= j < |s.tuples| :: s.tuples[j].client) - s.past.missed
  }

  /**
   The sweep refines a filter: after a broadcast each list is the nodes pushed
   since its head was loaded, then the list as it was loaded without the swept
   nodes, order kept.
   */
  lemma SweepIsFilter(run: seq<State>, i: nat, b: nat)
    requires IsRun(run) && i < |run| && run[i].caster.Idle? && b < |run[i].heads| && |run[i].past.messages| > 0
    ensures var s := run[i];
            && b < |s.past.newer| && b < |s.past.front| && b < |s.past.pushes|
            && Live(s, b) == s.past.newer[b] + Without(s.past.front[b], Swept(s))
  {
    InvAlways(run, i);
    var s := run[i];
    hide Sound, Control, Delivery, Progress, Counting, Starts;
    BehindCursor(s, b, 0);
    assert s.past.fronts[b] == |s.past.messages|;
    assert FrontOk(s, b);
    forall x | x in s.past.front[b] ensures x in s.past.removed <==> x in Swept(s) {
      if Collected(s, x) {
        var j :| 0 <= j < |s.tuples| && s.tuples[j].client == x;
        assert TupleOk(s, j);
      }
    }
    WithoutAgree(s.past.front[b], s.past.removed, Swept(s));
  }

  /** The verdict of remove: true exactly when this call unlinked the node, false only after a spurious CAS failure. */
  lemma RemoveIsHonest(run: seq<State>, i: nat)
    requires IsRun(run) && i < |run| && run[i].caster.Removed?
    ensures var s := run[i]; var k := s.caster.k;
            0 <= k < |s.tuples| && var x := s.tuples[k].client;
            && (s.caster.hit <==> x in s.past.removed)
            && (s.caster.hit <==> x !in s.past.missed)
            && forall j :: k < j < |s.tuples| ==>
                 0 <= s.tuples[j].bucket < |s.past.pushes| && s.tuples[j].client in Live(s, s.tuples[j].bucket)
  {
    InvAlways(run, i);
    var s := run[i];
    assert TupleOk(s, s.caster.k);
    forall j | s.caster.k < j < |s.tuples|
      ensures 0 <= s.tuples[j].bucket < |s.past.pushes| && s.tuples[j].client in Live(s, s.tuples[j].bucket)
    {
      assert TupleOk(s, j);
    }
  }

  // ---------- Runs without spurious CAS failures in remove ----------

  ghost predicate Steady(run: seq<State>) {
    forall i :: 0 <= i < |run| - 1 ==>
      Shape(run[i]) && exists step :: Enabled(run[i], step) && step != Cast(true) && run[i + 1] == Exec(run[i], step)
  }

  lemma RegisterMisses(s: State, r: Client, spurious: bool)
    requires Shape(s) && r in s.regs && !s.regs[r].Counted?
    ensures Register(s, r, spurious).past.missed == s.past.missed
  {}

  lemma BroadcastMisses(s: State)
    requires Shape(s)
    ensures s.caster.Entering? || s.caster.Fronting? || s.caster.Visiting? ==> Walk(s).past.missed == s.past.missed
    ensures s.caster.Sending? || s.caster.Advancing? ==> Offer(s).past.missed == s.past.missed
    ensures s.caster.Sweeping? || s.caster.Removed? || s.caster.Unlocking? ==> Sweep(s).past.missed == s.past.missed
  {
    hide Live;
  }

  lemma RemoveMisses(s: State)
    requires Shape(s) && s.caster.InRemove()
    ensures Remove(s, false).past.missed == s.past.missed
  {}

  lemma SteadyStep(s: State, step: Step)
    requires Shape(s) && Enabled(s, step) && step != Cast(true) && s.past.missed == {}
    ensures Exec(s, step).past.missed == {}
  {
    hide Walk, Offer, Sweep, Remove, Register;
    match step
    case Bump(r) => RegisterMisses(s, r, false);
    case Load(r) => RegisterMisses(s, r, false);
    case Link(r) => RegisterMisses(s, r, false);
    case Cas(r, spurious) => RegisterMisses(s, r, spurious);
    case CountUp(r) => RegisterMisses(s, r, false);
    case Cast(_) => if s.caster.InRemove() { RemoveMisses(s); } else { BroadcastMisses(s); }
    case _ =>
  }

  /** If no head CAS of remove fails spuriously, every collected node is unlinked. */
  lemma {:induction false} SteadyMissesNothing(run: seq<State>, i: nat)
    requires IsRun(run) && Steady(run) && i < |run|
    ensures run[i].past.missed == {}
  {
    if i > 0 {
      SteadyMissesNothing(run, i - 1);
      hide IsRun;
      assert run[i] == run[i - 1 + 1];
      var step :| Enabled(run[i - 1], step) && step != Cast(true) && run[i] == Exec(run[i - 1], step);
      SteadyStep(run[i - 1], step);
    }
  }

  // ---------- What later states keep ----------

  ghost predicate Grows(s: State, t: State) {
    && s.dead <= t.dead
    && s.past.removed <= t.past.removed
    && s.past.messages <= t.past.messages
    && (forall x :: x in s.handed ==> x in t.handed && s.handed[x] <= t.handed[x])
    && (forall x :: x in s.wire ==> x in t.wire && s.wire[x] <= t.wire[x])
    && (forall x :: x in s.wire && x in s.dead ==> t.wire[x] == s.wire[x])
  }

  lemma SameGrows(s: State, t: State)
    requires t.dead == s.dead && s.past.removed <= t.past.removed && t.past.messages == s.past.messages
    requires t.handed == s.handed && t.wire == s.wire
    ensures Grows(s, t)
  {}

  lemma OfferGrows(s: State)
    requires Shape(s) && (s.caster.Sending? || s.caster.Advancing?)
    ensures Grows(s, Offer(s))
  {}

  lemma OtherGrows(s: State, step: Step)
    requires Shape(s) && Enabled(s, step) && (step.Arrive? || step.Die? || step.Begin?)
    ensures Grows(s, Exec(s, step))
  {}

  lemma WalkRemoves(s: State)
    requires Shape(s) && (s.caster.Entering? || s.caster.Fronting? || s.caster.Visiting?)
    ensures Walk(s).past.removed == s.past.removed
  {}

  lemma CastGrows(s: State, spurious: bool)
    requires Shape(s) && Enabled(s, Cast(spurious)) && !Exec(s, Cast(spurious)).caster.Faulted?
    ensures Grows(s, Exec(s, Cast(spurious)))
  {
    hide Grows, Walk, Offer, Sweep, Remove, Live;
    if s.caster.Sending? || s.caster.Advancing? {
      OfferGrows(s);
    } else {
      CastSameLogs(s, spurious);
      if s.caster.InSweep() { SweepFrame(s, spurious); } else { WalkRemoves(s); }
      SameGrows(s, Exec(s, Cast(spurious)));
    }
  }

  lemma RegisterGrows(s: State, r: Client, spurious: bool)
    requires Shape(s) && Sound(s) && r in s.regs && !s.regs[r].Counted?
    ensures Grows(s, Register(s, r, spurious))
  {
    hide Sound, Register, Grows;
    RegisterFrame(s, r, spurious);
    SameGrows(s, Register(s, r, spurious));
  }

  lemma StepGrows(s: State, step: Step)
    requires Inv(s) && Enabled(s, step)
    ensures Grows(s, Exec(s, step))
  {
    hide Sound, Control, Tuples, Fronts, Delivery, Progress, Counting, Snapshots, Starts, Grows;
    hide Register, Walk, Offer, Sweep, Remove;
    match step
    case Bump(r) => RegisterGrows(s, r, false);
    case Load(r) => RegisterGrows(s, r, false);
    case Link(r) => RegisterGrows(s, r, false);
    case Cas(r, spurious) => RegisterGrows(s, r, spurious);
    case CountUp(r) => RegisterGrows(s, r, false);
    case Cast(spurious) =>
      StepKeepsControl(s, step);
      NoFault(Exec(s, step));
      CastGrows(s, spurious);
    case _ => OtherGrows(s, step);
  }

  lemma GrowsSelf(s: State)
    ensures Grows(s, s)
  {}

  lemma GrowsTransitive(s: State, t: State, u: State)
    requires Grows(s, t) && Grows(t, u)
    ensures Grows(s, u)
  {}

  lemma StepBetween(run: seq<State>, i: nat) returns (step: Step)
    requires IsRun(run) && i + 1 < |run|
    ensures Shape(run[i]) && Enabled(run[i], step) && run[i + 1] == Exec(run[i], step)
  {
    hide Shape, Enabled;
    assert Next(run[i], run[i + 1]);
    step :| Enabled(run[i], step) && run[i + 1] == Exec(run[i], step);
  }

  /** No run clears a dead flag, relinks a removed node or takes back a message; a dead client is written no more. */
  lemma {:induction false} RunsGrow(run: seq<State>, i: nat, j: nat)
    requires IsRun(run) && i <= j < |run|
    ensures Grows(run[i], run[j])
    decreases j
  {
    hide *;
    if i == j {
      GrowsSelf(run[i]);
    } else {
      RunsGrow(run, i, j - 1);
      InvAlways(run, j - 1);
      var step := StepBetween(run, j - 1);
      StepGrows(run[j - 1], step);
      GrowsTransitive(run[i], run[j - 1], run[j]);
    }
  }
}
