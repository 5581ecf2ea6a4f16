/** Which bucket a registration gets, and when the C++ routing is fair. */
module RegistryRotation {
  import opened Registry
  import opened RegistryRuns
  import Rotation

  /** The registrations that have read the counter and not yet incremented it. */
  ghost function Waiting(regs: map<Client, Registration>): set<Client> {
    set r | r in regs && regs[r].Picked?
  }

  ghost predicate CounterOk(s: State) {
    s.counter + |Waiting(s.regs)| == |s.regs|
  }

  ghost predicate SameRouting(s: State, t: State) {
    t.regs == s.regs && t.counter == s.counter && |t.heads| == |s.heads|
  }

  lemma WalkRouting(s: State)
    requires Shape(s) && (s.caster.Entering? || s.caster.Fronting? || s.caster.Visiting?)
    ensures SameRouting(s, Walk(s))
  {
    hide Live;
  }

  lemma OfferRouting(s: State)
    requires Shape(s) && (s.caster.Sending? || s.caster.Advancing?)
    ensures SameRouting(s, Offer(s))
  {}

  lemma SweepRouting(s: State)
    requires Shape(s) && (s.caster.Sweeping? || s.caster.Removed? || s.caster.Unlocking?)
    ensures SameRouting(s, Sweep(s))
  {}

  lemma RemoveHeadRouting(s: State, spurious: bool)
    requires Shape(s) && (s.caster.Removing? || s.caster.Comparing? || s.caster.Swapping?)
    ensures SameRouting(s, RemoveHead(s, spurious))
  {}

  lemma RemoveSearchRouting(s: State)
    requires Shape(s) && (s.caster.Stepping? || s.caster.Searching? || s.caster.Unlinking?)
    ensures SameRouting(s, RemoveSearch(s))
  {}

  lemma CastRouting(s: State, spurious: bool)
    requires Shape(s) && Enabled(s, Cast(spurious))
    ensures SameRouting(s, Exec(s, Cast(spurious)))
  {
    hide Walk, Offer, Sweep, RemoveHead, RemoveSearch, SameRouting;
    if s.caster.InRemove() {
      if s.caster.Removing? || s.caster.Comparing? || s.caster.Swapping? { RemoveHeadRouting(s, spurious); }
      else { RemoveSearchRouting(s); }
    } else if s.caster.InSweep() {
      SweepRouting(s);
    } else if s.caster.Sending? || s.caster.Advancing? {
      OfferRouting(s);
    } else {
      WalkRouting(s);
    }
  }

  lemma WaitingOneMore(regs: map<Client, Registration>, r: Client, b: int)
    requires r !in regs
    ensures |Waiting(regs[r := Picked(b)])| == |Waiting(regs)| + 1 && |regs[r := Picked(b)]| == |regs| + 1
  {
    var regs' := regs[r := Picked(b)];
    assert Waiting(regs') == Waiting(regs) + {r} && regs'.Keys == regs.Keys + {r};
  }

  lemma WaitingMoves(regs: map<Client, Registration>, r: Client, reg: Registration)
    requires r in regs && !reg.Picked?
    ensures |Waiting(regs[r := reg])| == |Waiting(regs)| - (if regs[r].Picked? then 1 else 0)
    ensures |regs[r := reg]| == |regs|
  {
    var regs' := regs[r := reg];
    assert regs'.Keys == regs.Keys;
    if regs[r].Picked? {
      assert Waiting(regs') == Waiting(regs) - {r};
    } else {
      assert Waiting(regs') == Waiting(regs);
    }
  }

  lemma ArriveCounted(s: State, r: Client)
    requires Shape(s) && Enabled(s, Arrive(r)) && CounterOk(s)
    ensures CounterOk(Exec(s, Arrive(r)))
  {
    hide Waiting;
    WaitingOneMore(s.regs, r, s.counter % |s.heads|);
  }

  lemma RegisterCounted(s: State, r: Client, spurious: bool)
    requires Shape(s) && r in s.regs && !s.regs[r].Counted? && CounterOk(s)
    ensures CounterOk(Register(s, r, spurious))
  {
    var t := Register(s, r, spurious);
    hide Waiting;
    WaitingMoves(s.regs, r, t.regs[r]);
    assert t.regs == s.regs[r := t.regs[r]];
  }

  lemma StepKeepsCounted(s: State, step: Step)
    requires Shape(s) && Enabled(s, step) && CounterOk(s)
    ensures CounterOk(Exec(s, step))
  {
    hide Walk, Offer, Sweep, Remove, Register, CounterOk;
    match step
    case Arrive(r) => ArriveCounted(s, r);
    case Bump(r) => RegisterCounted(s, r, false);
    case Load(r) => RegisterCounted(s, r, false);
    case Link(r) => RegisterCounted(s, r, false);
    case Cas(r, spurious) => RegisterCounted(s, r, spurious);
    case CountUp(r) => RegisterCounted(s, r, false);
    case Cast(spurious) => CastRouting(s, spurious); CastCounted(s, Exec(s, step));
    case _ => CastCounted(s, Exec(s, step));
  }

  lemma CastCounted(s: State, t: State)
    requires CounterOk(s) && t.regs == s.regs && t.counter == s.counter
    ensures CounterOk(t)
  {}

  /** In every reachable state the counter is the number of registrations that have incremented it. */
  lemma {:induction false} CounterIsExact(run: seq<State>, i: nat)
    requires IsRun(run) && i < |run|
    ensures Shape(run[i]) && run[i].counter + |Waiting(run[i].regs)| == |run[i].regs|
  {
    if i == 0 {
      assert Waiting(run[0].regs) == {};
    } else {
      CounterIsExact(run, i - 1);
      hide IsRun, Exec, Enabled, Shape, Waiting;
      var step := StepBetween(run, i - 1);
      StepKeepsCounted(run[i - 1], step);
    }
  }

  // ---------- Fairness ----------

  lemma SameRemainder(n: nat, w: nat, b: nat)
    requires b > 0 && w <= n
    ensures (n - w) % b == n % b <==> w % b == 0
  {
    var q, r := w / b, w % b;
    assert w == q * b + r;
    var p, t := (n - w) / b, (n - w) % b;
    assert n - w == p * b + t && n == (p + q) * b + (t + r) by { assert p * b + q * b == (p + q) * b; }
    if t + r < b {
      Rotation.DivideIs(n, b, p + q, t + r);
    } else {
      assert (p + q) * b + b == (p + q + 1) * b;
      Rotation.DivideIs(n, b, p + q + 1, t + r - b);
    }
  }

  /**
   A registration gets the bucket whose turn it is exactly when the number of
   registrations between their read of the counter and its increment is a
   multiple of the number of buckets; none, if the callbacks do not overlap.
   */
  lemma TurnKeptIff(run: seq<State>, i: nat, r: Client)
    requires IsRun(run) && i < |run| && r !in run[i].regs
    ensures Shape(run[i]) && Enabled(run[i], Arrive(r)) && r in Exec(run[i], Arrive(r)).regs
    ensures Exec(run[i], Arrive(r)).regs[r].bucket == |run[i].regs| % |run[i].heads|
            <==> |Waiting(run[i].regs)| % |run[i].heads| == 0
  {
    CounterIsExact(run, i);
    CounterNotNegative(run, i);
    hide IsRun, Waiting;
    var s := run[i];
    SameRemainder(|s.regs|, |Waiting(s.regs)|, |s.heads|);
  }

  /** The registrations that bucket b was given. */
  ghost function Share(regs: map<Client, Registration>, b: int): set<Client> {
    set r | r in regs && regs[r].bucket == b
  }

  /** A run in which every registration reads the counter at such a moment. */
  ghost predicate InTurn(run: seq<State>) {
    forall i :: 0 <= i < |run| - 1 ==> StepInTurn(run[i], run[i + 1])
  }

  ghost predicate StepInTurn(s: State, t: State) {
    && Shape(s)
    && exists step :: Enabled(s, step) && t == Exec(s, step) && (step.Arrive? ==> |Waiting(s.regs)| % |s.heads| == 0)
  }

  lemma ShareGrows(regs: map<Client, Registration>, r: Client, b: int, c: int)
    requires r !in regs
    ensures |Share(regs[r := Picked(b)], c)| == |Share(regs, c)| + if b == c then 1 else 0
  {
    var regs' := regs[r := Picked(b)];
    if b == c { assert Share(regs', c) == Share(regs, c) + {r}; } else { assert Share(regs', c) == Share(regs, c); }
  }

  lemma ShareStays(regs: map<Client, Registration>, r: Client, reg: Registration, c: int)
    requires r in regs && reg.bucket == regs[r].bucket
    ensures Share(regs[r := reg], c) == Share(regs, c) && |regs[r := reg]| == |regs|
  {
    assert regs[r := reg].Keys == regs.Keys;
  }

  lemma OtherShares(s: State, step: Step, c: int)
    requires Shape(s) && Enabled(s, step) && !step.Arrive?
    ensures Share(Exec(s, step).regs, c) == Share(s.regs, c)
    ensures |Exec(s, step).regs| == |s.regs| && |Exec(s, step).heads| == |s.heads|
  {
    hide Walk, Offer, Sweep, Remove, Share;
    if step.Cast? {
      CastRouting(s, step.spurious);
    } else if !step.Die? && !step.Begin? {
      RegisterShares(s, step.r, step.Cas? && step.spurious, c);
    }
  }

  lemma RegisterShares(s: State, r: Client, spurious: bool, c: int)
    requires Shape(s) && r in s.regs && !s.regs[r].Counted?
    ensures var t := Register(s, r, spurious);
            Share(t.regs, c) == Share(s.regs, c) && |t.regs| == |s.regs| && |t.heads| == |s.heads|
  {
    hide Share;
    var t := Register(s, r, spurious);
    assert t.regs == s.regs[r := t.regs[r]];
    ShareStays(s.regs, r, t.regs[r], c);
  }

  lemma ArriveShares(s: State, r: Client, c: nat)
    requires Shape(s) && Enabled(s, Arrive(r)) && CounterOk(s) && s.counter >= 0 && c < |s.heads|
    requires |Waiting(s.regs)| % |s.heads| == 0 && |Share(s.regs, c)| == Rotation.Turns(|s.regs|, |s.heads|, c)
    ensures var t := Exec(s, Arrive(r));
            |t.heads| == |s.heads| && |Share(t.regs, c)| == Rotation.Turns(|t.regs|, |s.heads|, c)
  {
    hide Share, Waiting;
    ShareGrows(s.regs, r, s.counter % |s.heads|, c);
    WaitingOneMore(s.regs, r, s.counter % |s.heads|);
    SameRemainder(|s.regs|, |Waiting(s.regs)|, |s.heads|);
  }

  lemma NothingShared(run: seq<State>, b: nat)
    requires IsRun(run)
    ensures |run| > 0 && Shape(run[0]) && HasTurns(run[0], b)
  {
    assert Share(run[0].regs, b) == {};
  }

  lemma InTurnStep(run: seq<State>, i: nat) returns (step: Step)
    requires InTurn(run) && i + 1 < |run|
    ensures Shape(run[i]) && Enabled(run[i], step) && run[i + 1] == Exec(run[i], step)
    ensures step.Arrive? ==> |Waiting(run[i].regs)| % |run[i].heads| == 0
  {
    hide Exec, Enabled, Waiting;
    assert StepInTurn(run[i], run[i + 1]);
    step :| Enabled(run[i], step) && run[i + 1] == Exec(run[i], step)
            && (step.Arrive? ==> |Waiting(run[i].regs)| % |run[i].heads| == 0);
  }

  /** Bucket b has been given as many registrations as it had turns. */
  ghost predicate HasTurns(s: State, b: nat) {
    b < |s.heads| ==> |Share(s.regs, b)| == Rotation.Turns(|s.regs|, |s.heads|, b)
  }

  lemma {:induction false} SharesAreTurns(run: seq<State>, i: nat, b: nat)
    requires IsRun(run) && InTurn(run) && i < |run|
    ensures Shape(run[i]) && HasTurns(run[i], b)
  {
    hide *;
    if i == 0 {
      NothingShared(run, b);
    } else {
      SharesAreTurns(run, i - 1, b);
      CounterIsExact(run, i - 1);
      CounterIsExact(run, i);
      CounterNotNegative(run, i - 1);
      var step := InTurnStep(run, i - 1);
      ShareStep(run[i - 1], step, b);
    }
  }

  lemma ShareStep(s: State, step: Step, b: nat)
    requires Shape(s) && Enabled(s, step) && s.counter + |Waiting(s.regs)| == |s.regs| && s.counter >= 0
    requires step.Arrive? ==> |Waiting(s.regs)| % |s.heads| == 0
    requires HasTurns(s, b)
    ensures HasTurns(Exec(s, step), b)
  {
    if !step.Arrive? {
      hide Exec, Share, Waiting;
      OtherShares(s, step, b);
    } else if b < |s.heads| {
      hide Share, Waiting;
      ArriveShares(s, step.r, b);
    }
  }

  lemma {:induction false} CounterNotNegative(run: seq<State>, i: nat)
    requires IsRun(run) && i < |run|
    ensures run[i].counter >= 0
  {
    hide *;
    if i == 0 {
      NoneCounted(run);
    } else {
      CounterNotNegative(run, i - 1);
      var step := StepBetween(run, i - 1);
      CounterStep(run[i - 1], step);
    }
  }

  lemma NoneCounted(run: seq<State>)
    requires IsRun(run)
    ensures |run| > 0 && run[0].counter == 0
  {}

  lemma CounterStep(s: State, step: Step)
    requires Shape(s) && Enabled(s, step) && s.counter >= 0
    ensures Exec(s, step).counter >= 0
  {
    hide Walk, Offer, Sweep, Remove, Live;
    if step.Cast? { CastRouting(s, step.spurious); }
  }

  /** Of k registrations in turn bucket b of n has got ceil((k - b) / n), and no two buckets are more than one apart. */
  lemma FairWithoutOverlap(run: seq<State>, i: nat, b: nat, c: nat)
    requires IsRun(run) && InTurn(run) && i < |run| && b < |run[i].heads| && c < |run[i].heads|
    ensures var s := run[i]; var k, n := |s.regs|, |s.heads|;
            && |Share(s.regs, b)| == (if k > b then (k - b + n - 1) / n else 0)
            && -1 <= |Share(s.regs, b)| - |Share(s.regs, c)| <= 1
  {
    SharesAreTurns(run, i, b);
    SharesAreTurns(run, i, c);
    hide IsRun, InTurn, Share;
    Rotation.TurnsAreCeilings(|run[i].regs|, |run[i].heads|, b);
    Rotation.TurnsAreFair(|run[i].regs|, |run[i].heads|, b, c);
  }

  /** Every bucket b of n has been given ceil((k - b) / n) of the k registrations. */
  ghost predicate FairShares(s: State) {
    forall b: nat :: b < |s.heads| ==> FairShare(s, b)
  }

  ghost predicate FairShare(s: State, b: nat)
    requires b < |s.heads|
  {
    var k, n := |s.regs|, |s.heads|;
    |Share(s.regs, b)| == if k > b then (k - b + n - 1) / n else 0
  }

  lemma FairIsTurns(s: State, b: nat)
    requires b < |s.heads|
    ensures FairShare(s, b) <==> HasTurns(s, b)
  {
    hide Share;
    Rotation.TurnsAreCeilings(|s.regs|, |s.heads|, b);
  }

  /** A registration out of turn takes the share of the bucket whose turn it is. */
  lemma OutOfTurnShows(s: State, r: Client)
    requires Shape(s) && Enabled(s, Arrive(r)) && CounterOk(s) && s.counter >= 0
    requires var b := |s.regs| % |s.heads|; HasTurns(s, b) && HasTurns(Exec(s, Arrive(r)), b)
    ensures |Waiting(s.regs)| % |s.heads| == 0
  {
    hide Share, Waiting;
    var b := |s.regs| % |s.heads|;
    ShareGrows(s.regs, r, s.counter % |s.heads|, b);
    WaitingOneMore(s.regs, r, s.counter % |s.heads|);
    SameRemainder(|s.regs|, |Waiting(s.regs)|, |s.heads|);
  }

  lemma FairStepInTurn(s: State, step: Step)
    requires Shape(s) && Enabled(s, step) && s.counter + |Waiting(s.regs)| == |s.regs| && s.counter >= 0
    requires FairShares(s) && FairShares(Exec(s, step))
    ensures StepInTurn(s, Exec(s, step))
  {
    if step.Arrive? {
      var t, b := Exec(s, step), |s.regs| % |s.heads|;
      hide Share, Waiting, HasTurns, FairShare;
      assert FairShare(s, b) && FairShare(t, b);
      FairIsTurns(s, b);
      FairIsTurns(t, b);
      OutOfTurnShows(s, step.r);
    }
  }

  /**
   The routing is fair throughout a run, each of n buckets having got its
   ceil((k - b) / n) of k registrations, if and only if every registration reads
   the counter when a multiple of n others are between their read and increment.
   */
  lemma FairIffInTurn(run: seq<State>)
    requires IsRun(run)
    ensures InTurn(run) <==> forall i :: 0 <= i < |run| ==> FairShares(run[i])
  {
    hide IsRun, Shape, Exec, Enabled, Share, Waiting, StepInTurn, FairShare, HasTurns;
    if InTurn(run) {
      forall i, b: nat | 0 <= i < |run| && b < |run[i].heads| ensures FairShare(run[i], b) {
        SharesAreTurns(run, i, b);
        FairIsTurns(run[i], b);
      }
    }
    if forall i :: 0 <= i < |run| ==> FairShares(run[i]) {
      forall i | 0 <= i < |run| - 1 ensures StepInTurn(run[i], run[i + 1]) {
        CounterIsExact(run, i);
        CounterNotNegative(run, i);
        var step := StepBetween(run, i);
        FairStepInTurn(run[i], step);
      }
    }
  }

  /** Two overlapping callbacks both get the first bucket, whatever the number of buckets. */
  lemma Overlap(buckets: nat) returns (run: seq<State>)
    requires buckets > 1
    ensures IsRun(run) && |run| == 3 && |run[2].heads| == buckets
    ensures |Share(run[2].regs, 0)| == 2 && |Share(run[2].regs, 1)| == 0
  {
    var s := Init(buckets);
    var t := Exec(s, Arrive(0));
    assert Next(s, t) by { assert Enabled(s, Arrive(0)); }
    var u := Exec(t, Arrive(1));
    assert Next(t, u) by { assert Enabled(t, Arrive(1)); }
    run := [s, t, u];
    assert Share(u.regs, 0) == {0, 1} && Share(u.regs, 1) == {};
  }
}
