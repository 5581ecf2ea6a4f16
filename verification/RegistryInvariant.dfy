/** What every step of the registry machine keeps. */
module RegistryInvariant {
  import opened Sequences
  import opened Registry

  // ---------- The lists ----------

  /** The pushes recorded for a bucket are exactly the registrations whose CAS succeeded there. */
  ghost predicate Listed(pushes: seq<seq<Client>>, regs: map<Client, Registration>) {
    && (forall b :: 0 <= b < |pushes| ==> Distinct(pushes[b]))
    && (forall b, x :: 0 <= b < |pushes| && x in pushes[b] ==>
          x in regs && regs[x].InList() && regs[x].bucket == b)
    && (forall x :: x in regs && regs[x].InList() && 0 <= regs[x].bucket < |pushes| ==> x in pushes[regs[x].bucket])
  }

  /** The allocated nodes are those made by push and not yet deleted by remove. */
  ghost predicate Allocated(next: map<Client, Option<Client>>, regs: map<Client, Registration>,
                            dead: set<Client>, removed: set<Client>) {
    && (forall x :: x in removed ==> x in regs && regs[x].InList() && x in dead)
    && (forall x :: x in next <==> x in regs && regs[x].HasNode() && x !in removed)
    && (forall x :: x in regs && regs[x].Linked? ==> x in next && next[x] == regs[x].oldHead)
  }

  /** Every bucket's list is well linked. */
  ghost predicate Chains(heads: seq<Option<Client>>, next: map<Client, Option<Client>>,
                         pushes: seq<seq<Client>>, removed: set<Client>) {
    && |heads| == |pushes|
    && forall b :: 0 <= b < |heads| ==> IsChain(next, heads[b], Without(pushes[b], removed))
  }

  ghost predicate Sound(s: State) {
    && Listed(s.past.pushes, s.regs)
    && Allocated(s.next, s.regs, s.dead, s.past.removed)
    && Chains(s.heads, s.next, s.past.pushes, s.past.removed)
  }

  // ---------- Where the broadcast stands ----------

  ghost predicate NoLock(s: State) {
    forall c :: 0 <= c < |s.locks| ==> !s.locks[c]
  }

  ghost predicate OnlyLock(s: State, b: int) {
    forall c :: 0 <= c < |s.locks| ==> (s.locks[c] <==> c == b)
  }

  /** In the list xs, target comes strictly after node. */
  ghost predicate After(xs: seq<Client>, node: Client, target: Client) {
    node in xs && target in xs && Pos(xs, node) < Pos(xs, target)
  }

  ghost predicate Locking(s: State) {
    if s.caster.InWalk() then OnlyLock(s, s.caster.bucket)
    else if s.caster.InRemoval() && 0 <= s.caster.k < |s.tuples| then OnlyLock(s, s.tuples[s.caster.k].bucket)
    else NoLock(s)
  }

  ghost predicate Walking(s: State)
    requires Shape(s)
  {
    && (s.caster.Visiting? && s.caster.at.Some? ==> s.caster.at.value in Live(s, s.caster.bucket))
    && (s.caster.Sending? ==> s.caster.node in Live(s, s.caster.bucket))
    && (s.caster.Advancing? ==> s.caster.node in Live(s, s.caster.bucket))
  }

  /** The removal in progress, on the list live, of the node x. */
  ghost predicate Removal(caster: Caster, next: map<Client, Option<Client>>, live: seq<Client>,
                          x: Client, gone: bool, missed: bool) {
    && (!caster.Removed? && !caster.Unlocking? ==> x in live)
    && (caster.Comparing? ==>
          caster.at.Some? && caster.at.value in live && (caster.at.value == x || After(live, caster.at.value, x)))
    && (caster.Swapping? ==> x in next && next[x] == caster.after)
    && (caster.Stepping? ==>
          caster.at.Some? && caster.at.value in live
          && (if missed then caster.at.value == x else After(live, caster.at.value, x)))
    && (caster.Searching? ==>
          caster.prev in live && caster.prev in next && next[caster.prev] == caster.at
          && (!missed <==> After(live, caster.prev, x)))
    && (caster.Unlinking? ==>
          caster.prev in live && caster.prev in next && next[caster.prev] == Some(x)
          && x in next && next[x] == caster.after && !missed)
    && (caster.Removed? ==> (caster.hit <==> gone))
  }

  ghost predicate Control(s: State)
    requires Shape(s)
  {
    && !s.caster.Faulted?
    && Locking(s)
    && Walking(s)
    && (s.caster.InRemoval() ==>
          var t := s.tuples[s.caster.k];
          Removal(s.caster, s.next, Live(s, t.bucket), t.client, t.client in s.past.removed, t.client in s.past.missed))
  }

  // ---------- The collected tuples ----------

  /** The node of this tuple has been handed to remove and remove has returned. */
  ghost predicate Processed(s: State, j: int) {
    s.caster.Idle?
    || (s.caster.InSweep()
        && (j < s.caster.k || (j == s.caster.k && (s.caster.Removed? || s.caster.Unlocking?))))
  }

  ghost predicate MayBeMissed(s: State, j: int) {
    Processed(s, j) || (s.caster.InSweep() && j == s.caster.k && (s.caster.Stepping? || s.caster.Searching?))
  }

  /** The bucket the walk has reached; all buckets are behind it in the sweep and when idle. */
  ghost function CursorBucket(s: State): int {
    if s.caster.Entering? || s.caster.InWalk() then s.caster.bucket else |s.heads|
  }

  /** The position in that bucket's list which the walk has reached. */
  ghost function CursorPos(s: State): int
    requires Shape(s)
  {
    if !s.caster.InWalk() then 0
    else
      var live := Live(s, s.caster.bucket);
      if s.caster.Visiting? then
        if s.caster.at.None? then |live|
        else if s.caster.at.value in live then Pos(live, s.caster.at.value) else 0
      else if s.caster.Sending? && s.caster.node in live then Pos(live, s.caster.node)
      else if s.caster.Advancing? && s.caster.node in live then Pos(live, s.caster.node) + 1
      else 0
  }

  /** The broadcast in flight has yet to visit x, a node of bucket b. */
  ghost predicate Pending(s: State, b: int, x: Client)
    requires Shape(s) && 0 <= b < |s.heads|
  {
    x in Live(s, b)
    && (b > CursorBucket(s) || (b == CursorBucket(s) && Pos(Live(s, b), x) >= CursorPos(s)))
  }

  /** The broadcast in flight has yet to load the head of bucket b. */
  ghost predicate Unfronted(s: State, b: int) {
    b > CursorBucket(s) || (b == CursorBucket(s) && (s.caster.Entering? || s.caster.Fronting?))
  }

  ghost predicate Collected(s: State, x: Client) {
    exists j :: 0 <= j < |s.tuples| && s.tuples[j].client == x
  }

  ghost predicate TupleOk(s: State, j: int)
    requires Shape(s) && 0 <= j < |s.tuples|
  {
    var b, x := s.tuples[j].bucket, s.tuples[j].client;
    && x in s.dead
    && x in s.past.pushes[b]
    && (x in s.past.removed ==> Processed(s, j))
    && (x in s.past.missed ==> MayBeMissed(s, j))
    && (Processed(s, j) ==> (x in s.past.removed <==> x !in s.past.missed))
    && !Unfronted(s, b)
    && !Pending(s, b, x)
  }

  /** The tuples are distinct dead nodes already visited; each stays linked until its own removal. */
  ghost predicate Tuples(s: State)
    requires Shape(s)
  {
    && (forall i, j :: 0 <= i < j < |s.tuples| ==> s.tuples[i].client != s.tuples[j].client)
    && (forall j :: 0 <= j < |s.tuples| ==> TupleOk(s, j))
    && (forall x :: x in s.past.missed ==> Collected(s, x))
  }

  // ---------- What the clients have been handed ----------

  ghost predicate Fronts(s: State)
    requires Shape(s)
  {
    forall b :: 0 <= b < |s.heads| ==>
      0 <= s.past.fronts[b] && s.past.fronts[b] + (if Unfronted(s, b) then 1 else 0) == |s.past.messages|
  }

  ghost predicate Logged(s: State, x: Client)
    requires Shape(s) && x in s.regs
  {
    && (if s.regs[x].InList() then x in s.past.start && Slice(s.past.messages, s.past.start[x], s.handed[x])
        else s.handed[x] == [])
    && s.wire[x] <= s.handed[x]
    && (x !in s.dead ==> s.wire[x] == s.handed[x])
    && (x in s.dead ==> s.wire[x] != [])
  }

  ghost predicate Delivery(s: State)
    requires Shape(s)
  {
    && (forall x :: x in s.regs ==> Logged(s, x))
    && (forall x :: x in s.dead ==> x in s.regs)
    && (!s.caster.Idle? ==> |s.past.messages| > 0 && s.msg == s.past.messages[|s.past.messages| - 1])
  }

  /** How many broadcasts x has been handed or was pushed too late for. */
  function Reached(s: State, x: Client): int
    requires Shape(s)
  {
    if x in s.past.start && x in s.handed then s.past.start[x] + |s.handed[x]| else 0
  }

  ghost predicate NodeProgress(s: State, b: int, x: Client)
    requires Shape(s) && 0 <= b < |s.heads|
  {
    if Pending(s, b, x) then
      Reached(s, x) < |s.past.messages| && (x !in s.dead ==> Reached(s, x) + 1 == |s.past.messages|)
    else
      Collected(s, x) || Reached(s, x) == |s.past.messages|
  }

  /** Each linked node, once passed by the broadcast in flight, was either collected or sent to exactly once. */
  ghost predicate Progress(s: State)
    requires Shape(s)
  {
    && (forall b, x :: 0 <= b < |s.heads| && x in Live(s, b) ==> NodeProgress(s, b, x))
    && (forall x :: Collected(s, x) ==> Reached(s, x) < |s.past.messages|)
    && (s.caster.Sending? ==> Reached(s, s.caster.node) + 1 == |s.past.messages|)
  }

  // ---------- The client count ----------

  ghost function Uncounted(s: State): set<Client> {
    set r | r in s.regs && s.regs[r].Pushed?
  }

  ghost predicate Counting(s: State) {
    s.count == TotalLength(AllLists(s)) - |Uncounted(s)| + (if s.caster.Removed? && s.caster.hit then 1 else 0)
  }

  // ---------- The lists since the broadcast loaded their heads ----------

  ghost predicate FrontOk(s: State, b: int)
    requires Shape(s) && 0 <= b < |s.heads|
  {
    s.past.fronts[b] > 0 && !Unfronted(s, b) ==>
      && Live(s, b) == s.past.newer[b] + Without(s.past.front[b], s.past.removed)
      && (s.caster.InWalk() && b == s.caster.bucket ==> CursorPos(s) >= |s.past.newer[b]|)
      && (forall j :: 0 <= j < |s.tuples| && s.tuples[j].bucket == b ==> s.tuples[j].client in s.past.front[b])
      && (forall x :: x in s.past.front[b] && x in s.past.removed ==> Collected(s, x))
  }

  ghost predicate Snapshots(s: State)
    requires Shape(s)
  {
    forall b :: 0 <= b < |s.heads| ==> FrontOk(s, b)
  }

  ghost predicate StartedBy(s: State, b: int, x: Client)
    requires 0 <= b < |s.past.fronts|
  {
    x in s.past.start && s.past.start[x] <= s.past.fronts[b]
  }

  ghost predicate StartedBefore(s: State, b: int, x: Client)
    requires 0 <= b < |s.past.fronts| && b < |s.past.pushes|
  {
    x in s.past.pushes[b] && x in s.past.start && s.past.start[x] < s.past.fronts[b]
  }

  ghost predicate StartedSince(s: State, b: int, x: Client)
    requires 0 <= b < |s.past.fronts| && b < |s.past.pushes|
  {
    x in s.past.pushes[b] && x in s.past.start && s.past.start[x] == s.past.fronts[b]
  }

  /** The nodes of the list a broadcast loaded were pushed before that load, the newer ones after it. */
  ghost predicate Starts(s: State)
    requires Shape(s)
  {
    && (forall b, x :: 0 <= b < |s.heads| && x in s.past.pushes[b] ==> StartedBy(s, b, x))
    && (forall b, x :: 0 <= b < |s.heads| && x in s.past.front[b] ==> StartedBefore(s, b, x))
    && (forall b, x :: 0 <= b < |s.heads| && x in s.past.newer[b] ==> StartedSince(s, b, x))
  }

  ghost predicate Inv(s: State) {
    && Shape(s) && Sound(s) && Control(s) && Tuples(s) && Fronts(s)
    && Delivery(s) && Progress(s) && Counting(s) && Snapshots(s) && Starts(s)
  }
}
