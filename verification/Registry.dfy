/**
 The C++ client registry as a step machine.  Any number of registrations push
 nodes onto the bucket lists while one broadcast at a time walks and sweeps
 them.  Every load, compare-and-swap, write of `next` and counter update is one
 step; steps of different threads interleave freely under sequential
 consistency.  A client and its list node share one identity, never reused.
 */
module Registry {
  import opened Sequences

  type Client = int
  type Message = string

  /** Where a registration stands in the "/sse" callback and in push. */
  datatype Registration =
    | Picked(bucket: int)                              // bucket chosen from the counter
    | Bumped(bucket: int)                              // counter incremented, push entered
    | Loaded(bucket: int, oldHead: Option<Client>)     // about to write new_node->next
    | Linked(bucket: int, oldHead: Option<Client>)     // about to try the CAS
    | Pushed(bucket: int)                              // about to increment the client count
    | Counted(bucket: int)
  {
    predicate InList() { Pushed? || Counted? }
    predicate HasNode() { !Picked? && !Bumped? }
  }

  /** Where the broadcast stands.  In the sweep, k is the index of the tuple. */
  datatype Caster =
    | Idle
    | Entering(bucket: int)                            // about to lock, or past the last bucket
    | Fronting(bucket: int)                            // about to load the head
    | Visiting(bucket: int, at: Option<Client>)        // loop test, then is_dead
    | Sending(bucket: int, node: Client)               // is_dead was false
    | Advancing(bucket: int, node: Client)             // about to read node->next
    | Sweeping(k: int)                                 // about to lock for tuple k, or done
    | Removing(k: int)                                 // about to load the head
    | Comparing(k: int, at: Option<Client>)            // head loaded
    | Swapping(k: int, after: Option<Client>)          // about to CAS the head to after
    | Stepping(k: int, at: Option<Client>)             // about to read at->next, unchecked
    | Searching(k: int, prev: Client, at: Option<Client>)
    | Unlinking(k: int, prev: Client, after: Option<Client>)
    | Removed(k: int, hit: bool)                       // remove has returned
    | Unlocking(k: int)
    | Faulted                                          // a null or freed node was dereferenced
  {
    predicate InSweep() {
      Sweeping? || Removing? || Comparing? || Swapping? || Stepping? || Searching?
      || Unlinking? || Removed? || Unlocking?
    }
    predicate InWalk() { Fronting? || Visiting? || Sending? || Advancing? }
    predicate InRemoval() { InSweep() && !Sweeping? }
    predicate InRemove() { Removing? || Comparing? || Swapping? || Stepping? || Searching? || Unlinking? }
  }

  datatype Tuple = Tuple(bucket: int, client: Client)

  /** History variables: steps write them, no step reads them. */
  datatype History = History(
    messages: seq<Message>,          // every broadcast begun
    pushes: seq<seq<Client>>,        // per bucket, every successful push, newest first
    removed: set<Client>,            // every node unlinked
    fronts: seq<int>,                // per bucket, how often broadcast loaded its head
    start: map<Client, int>,         // fronts of the client's bucket when it was pushed
    front: seq<seq<Client>>,         // per bucket, its list when broadcast last loaded its head
    newer: seq<seq<Client>>,         // per bucket, the pushes since then, newest first
    missed: set<Client>)             // swept nodes whose head CAS failed spuriously

  datatype State = State(
    heads: seq<Option<Client>>,
    locks: seq<bool>,
    next: map<Client, Option<Client>>,   // allocated nodes
    counter: int,
    count: int,
    regs: map<Client, Registration>,
    dead: set<Client>,
    caster: Caster,
    msg: Message,
    tuples: seq<Tuple>,
    handed: map<Client, seq<Message>>,   // arguments of send, call by call
    wire: map<Client, seq<Message>>,     // messages whose asynchronous write was started
    past: History)

  /** The list of bucket b: what was pushed minus what was removed, newest first. */
  function Live(s: State, b: int): seq<Client>
    requires 0 <= b < |s.past.pushes|
  {
    Without(s.past.pushes[b], s.past.removed)
  }

  function AllLists(s: State): seq<seq<Client>> {
    seq(|s.past.pushes|, b requires 0 <= b < |s.past.pushes| => Live(s, b))
  }

  /** From head, following next visits exactly xs and then reaches null. */
  ghost predicate IsChain(next: map<Client, Option<Client>>, head: Option<Client>, xs: seq<Client>)
    decreases |xs|
  {
    if xs == [] then head == None
    else head == Some(xs[0]) && xs[0] in next && IsChain(next, next[xs[0]], xs[1..])
  }

  /** Array bounds and map domains; what a step needs to be defined. */
  predicate Shape(s: State) {
    && 0 < |s.heads| == |s.locks| == |s.past.pushes| == |s.past.fronts| == |s.past.front| == |s.past.newer|
    && s.handed.Keys == s.regs.Keys == s.wire.Keys
    && (forall r | r in s.regs :: 0 <= s.regs[r].bucket < |s.heads|)
    && (forall j | 0 <= j < |s.tuples| :: 0 <= s.tuples[j].bucket < |s.heads|)
    && (s.caster.InWalk() ==> 0 <= s.caster.bucket < |s.heads|)
    && (s.caster.Entering? ==> 0 <= s.caster.bucket <= |s.heads|)
    && (s.caster.Sweeping? ==> 0 <= s.caster.k <= |s.tuples|)
    && (s.caster.InRemoval() ==> 0 <= s.caster.k < |s.tuples|)
    && (s.caster.Sending? ==> s.caster.node in s.regs)
  }

  function Init(buckets: nat): State
    requires buckets > 0
  {
    State(seq(buckets, _ => None), seq(buckets, _ => false), map[], 0, 0, map[], {}, Idle, "", [], map[], map[],
          History([], seq(buckets, _ => []), {}, seq(buckets, _ => 0), map[],
                  seq(buckets, _ => []), seq(buckets, _ => []), {}))
  }

  datatype Step =
    | Arrive(r: Client)                   // the response head was written: read the counter
    | Bump(r: Client)
    | Load(r: Client)
    | Link(r: Client)
    | Cas(r: Client, spurious: bool)
    | CountUp(r: Client)
    | Die(x: Client)                      // a write completes with eof, reset or broken pipe
    | Begin(m: Message)
    | Cast(spurious: bool)                // the next step of the broadcast in flight

  predicate Enabled(s: State, step: Step)
    requires Shape(s)
  {
    match step
    case Arrive(r) => r !in s.regs
    case Bump(r) => r in s.regs && s.regs[r].Picked?
    case Load(r) => r in s.regs && s.regs[r].Bumped?
    case Link(r) => r in s.regs && s.regs[r].Loaded?
    case Cas(r, _) => r in s.regs && s.regs[r].Linked?
    case CountUp(r) => r in s.regs && s.regs[r].Pushed?
    case Die(x) => x in s.wire && s.wire[x] != []
    case Begin(_) => s.caster.Idle?
    case Cast(_) =>
      && !s.caster.Idle? && !s.caster.Faulted?
      && (s.caster.Entering? && s.caster.bucket < |s.heads| ==> !s.locks[s.caster.bucket])
      && (s.caster.Sweeping? && s.caster.k < |s.tuples| ==> !s.locks[s.tuples[s.caster.k].bucket])
  }

  /** One step of registration r. */
  function Register(s: State, r: Client, spurious: bool): (t: State)
    requires Shape(s) && r in s.regs && !s.regs[r].Counted?
    ensures Shape(t)
  {
    var b := s.regs[r].bucket;
    match s.regs[r]
    case Picked(_) =>
      s.(counter := s.counter + 1, regs := s.regs[r := Bumped(b)])
    case Bumped(_) =>
      s.(next := s.next[r := None], regs := s.regs[r := Loaded(b, s.heads[b])])
    case Loaded(_, seen) =>
      s.(next := s.next[r := seen], regs := s.regs[r := Linked(b, seen)])
    case Linked(_, seen) =>
      if s.heads[b] == seen && !spurious then
        s.(heads := s.heads[b := Some(r)], regs := s.regs[r := Pushed(b)],
           past := s.past.(pushes := s.past.pushes[b := [r] + s.past.pushes[b]],
                           newer := s.past.newer[b := [r] + s.past.newer[b]],
                           start := s.past.start[r := s.past.fronts[b]]))
      else
        s.(regs := s.regs[r := Loaded(b, s.heads[b])])
    case Pushed(_) =>
      s.(count := s.count + 1, regs := s.regs[r := Counted(b)])
  }

  /** A step of the broadcast's outer loop: lock, load the head, test the iterator, unlock. */
  function Walk(s: State): (t: State)
    requires Shape(s) && (s.caster.Entering? || s.caster.Fronting? || s.caster.Visiting?)
    ensures Shape(t)
  {
    var b := s.caster.bucket;
    match s.caster
    case Entering(_) =>
      if b == |s.heads| then s.(caster := Sweeping(0))
      else s.(locks := s.locks[b := true], caster := Fronting(b))
    case Fronting(_) =>
      s.(caster := Visiting(b, s.heads[b]),
         past := s.past.(fronts := s.past.fronts[b := s.past.fronts[b] + 1],
                         front := s.past.front[b := Live(s, b)],
                         newer := s.past.newer[b := []]))
    case Visiting(_, None) =>
      s.(locks := s.locks[b := false], caster := Entering(b + 1))
    case Visiting(_, Some(x)) =>
      if x !in s.next || x !in s.regs then s.(caster := Faulted)
      else if x in s.dead then s.(tuples := s.tuples + [Tuple(b, x)], caster := Advancing(b, x))
      else s.(caster := Sending(b, x))
  }

  /** A step of the loop body: send, then the read of iterator->next. */
  function Offer(s: State): (t: State)
    requires Shape(s) && (s.caster.Sending? || s.caster.Advancing?)
    ensures Shape(t)
  {
    var b, x := s.caster.bucket, s.caster.node;
    if s.caster.Sending? then
      s.(handed := s.handed[x := s.handed[x] + [s.msg]],
         wire := if x in s.dead then s.wire else s.wire[x := s.wire[x] + [s.msg]],
         caster := Advancing(b, x))
    else
      s.(caster := if x in s.next then Visiting(b, s.next[x]) else Faulted)
  }

  /** A step of the loop over the collected tuples, outside remove. */
  function Sweep(s: State): (t: State)
    requires Shape(s) && (s.caster.Sweeping? || s.caster.Removed? || s.caster.Unlocking?)
    ensures Shape(t)
  {
    var k := s.caster.k;
    match s.caster
    case Sweeping(_) =>
      if k == |s.tuples| then s.(caster := Idle)
      else s.(locks := s.locks[s.tuples[k].bucket := true], caster := Removing(k))
    case Removed(_, hit) =>
      s.(count := if hit then s.count - 1 else s.count, caster := Unlocking(k))
    case Unlocking(_) =>
      s.(locks := s.locks[s.tuples[k].bucket := false], caster := Sweeping(k + 1))
  }

  /** A step at the start of remove, called under the lock for tuple k: load, compare, CAS the head. */
  function RemoveHead(s: State, spurious: bool): (t: State)
    requires Shape(s) && (s.caster.Removing? || s.caster.Comparing? || s.caster.Swapping?)
    ensures Shape(t)
  {
    var k := s.caster.k;
    var b, x := s.tuples[k].bucket, s.tuples[k].client;
    match s.caster
    case Removing(_) => s.(caster := Comparing(k, s.heads[b]))
    case Comparing(_, at) =>
      if at != Some(x) then s.(caster := Stepping(k, at))
      else if x in s.next then s.(caster := Swapping(k, s.next[x]))
      else s.(caster := Faulted)
    case Swapping(_, after) =>
      if s.heads[b] == Some(x) && !spurious then
        TakeOut(s.(heads := s.heads[b := after]), x)
      else
        s.(caster := Stepping(k, s.heads[b]),
           past := s.past.(missed := s.past.missed + if s.heads[b] == Some(x) then {x} else {}))
  }

  /** A step of the search in remove, from the node the head load or the failed CAS returned. */
  function RemoveSearch(s: State): (t: State)
    requires Shape(s) && (s.caster.Stepping? || s.caster.Searching? || s.caster.Unlinking?)
    ensures Shape(t)
  {
    var k := s.caster.k;
    var x := s.tuples[k].client;
    match s.caster
    case Stepping(_, at) =>
      if at.Some? && at.value in s.next then s.(caster := Searching(k, at.value, s.next[at.value]))
      else s.(caster := Faulted)
    case Searching(_, prev, at) =>
      if at.None? then s.(caster := Removed(k, false))
      else if at.value !in s.next then s.(caster := Faulted)
      else if at.value == x then s.(caster := Unlinking(k, prev, s.next[x]))
      else s.(caster := Searching(k, at.value, s.next[at.value]))
    case Unlinking(_, prev, after) =>
      if prev !in s.next then s.(caster := Faulted)
      else TakeOut(s.(next := s.next[prev := after]), x)
  }

  function Remove(s: State, spurious: bool): (t: State)
    requires Shape(s) && s.caster.InRemove()
    ensures Shape(t)
  {
    if s.caster.Removing? || s.caster.Comparing? || s.caster.Swapping? then RemoveHead(s, spurious) else RemoveSearch(s)
  }

  /** The node x has been unlinked: it is deleted and remove returns true. */
  function TakeOut(s: State, x: Client): (t: State)
    requires Shape(s) && s.caster.InRemove()
    ensures Shape(t)
  {
    s.(next := s.next - {x}, caster := Removed(s.caster.k, true),
       past := s.past.(removed := s.past.removed + {x}))
  }

  function Exec(s: State, step: Step): (t: State)
    requires Shape(s) && Enabled(s, step)
    ensures Shape(t)
  {
    match step
    case Arrive(r) =>
      s.(regs := s.regs[r := Picked(s.counter % |s.heads|)],
         handed := s.handed[r := []], wire := s.wire[r := []])
    case Bump(r) => Register(s, r, false)
    case Load(r) => Register(s, r, false)
    case Link(r) => Register(s, r, false)
    case Cas(r, spurious) => Register(s, r, spurious)
    case CountUp(r) => Register(s, r, false)
    case Die(x) => s.(dead := s.dead + {x})
    case Begin(m) =>
      s.(caster := Entering(0), msg := m, tuples := [],
         past := s.past.(messages := s.past.messages + [m], missed := {}))
    case Cast(spurious) =>
      if s.caster.InRemove() then Remove(s, spurious)
      else if s.caster.InSweep() then Sweep(s)
      else if s.caster.Sending? || s.caster.Advancing? then Offer(s)
      else Walk(s)
  }

  ghost predicate Next(s: State, t: State) {
    Shape(s) && exists step :: Enabled(s, step) && t == Exec(s, step)
  }

  /** A run: any interleaving, of any length. */
  ghost predicate IsRun(run: seq<State>) {
    && |run| > 0
    && (exists buckets: nat :: buckets > 0 && run[0] == Init(buckets))
    && forall i :: 0 <= i < |run| - 1 ==> Next(run[i], run[i + 1])
  }
}
