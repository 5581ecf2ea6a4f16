/**
 The Go broker as a step machine: one publisher ranges over a map of bounded
 channels and sends with blocking, while subscribers join, drain and leave at
 any point.  Map operations are atomic steps.
 */
module GoBroker {
  import opened Sequences
  import opened Text
  import opened EventStream
  import opened Framing

  const MSG_BUF := 50

  type Chan = int
  type Bytes = string

  /** A channel with its subscriber's handler: what is queued, what was taken out, what was written. */
  datatype Channel = Channel(queue: seq<Bytes>, received: seq<Bytes>, written: string, gone: bool)

  datatype Publisher =
    | Idle
    | Ranging(initial: set<Chan>, visited: set<Chan>)              // in "for ch := range b.subscribers"
    | Sending(initial: set<Chan>, visited: set<Chan>, ch: Chan)    // at "ch <- msg"
  {
    predicate Busy() { !Idle? }
  }

  datatype State = State(
    subscribers: set<Chan>,                // the keys of the broker's map
    channels: map<Chan, Channel>,          // every channel ever made
    publisher: Publisher,
    msg: Bytes,
    // history: written by steps, read by none
    published: seq<Bytes>,                 // every message whose Publish has begun
    times: seq<nat>,                       // the clock readings they were made from
    joined: map<Chan, int>,                // |published| when the channel was subscribed
    during: set<Chan>,                     // channels subscribed while a Publish was in progress
    early: set<Chan>)                      // those of them to which that message was sent

  const INIT := State({}, map[], Idle, "", [], [], map[], {}, {})

  datatype Step =
    | Subscribe(ch: Chan)
    | Receive(ch: Chan)                    // the handler's select takes a message
    | Leave(ch: Chan)                      // the handler's select sees the client gone
    | Publish(now: nat)                    // the clock, in milliseconds
    | Pick(ch: Chan)                       // the range yields a key
    | Send
    | Finish                               // the range is exhausted

  /**
   The range yields each key present throughout exactly once; a key added during
   it may or may not be yielded, a deleted one is not yielded any more.
   */
  predicate Enabled(s: State, step: Step) {
    match step
    case Subscribe(ch) => ch !in s.channels
    case Receive(ch) => ch in s.channels && !s.channels[ch].gone && s.channels[ch].queue != []
    case Leave(ch) => ch in s.channels && !s.channels[ch].gone
    case Publish(_) => s.publisher.Idle?
    case Pick(ch) => s.publisher.Ranging? && ch in s.subscribers && ch !in s.publisher.visited
    case Send => s.publisher.Sending? && s.publisher.ch in s.channels && |s.channels[s.publisher.ch].queue| < MSG_BUF
    case Finish => s.publisher.Ranging? && s.subscribers * s.publisher.initial <= s.publisher.visited
  }

  function Exec(s: State, step: Step): State
    requires Enabled(s, step)
  {
    match step
    case Subscribe(ch) =>
      s.(channels := s.channels[ch := Channel([], [], ":ok\n\n", false)],
         subscribers := s.subscribers + {ch},
         joined := s.joined[ch := |s.published|],
         during := if s.publisher.Busy() then s.during + {ch} else s.during)
    case Receive(ch) =>
      var c := s.channels[ch];
      s.(channels := s.channels[ch := c.(queue := c.queue[1..], received := c.received + [c.queue[0]],
                                         written := c.written + ("data: " + c.queue[0] + "\n\n"))])
    case Leave(ch) =>
      s.(channels := s.channels[ch := s.channels[ch].(gone := true)],
         subscribers := s.subscribers - {ch})
    case Publish(now) =>
      s.(publisher := Ranging(s.subscribers, {}), msg := Decimal(now), published := s.published + [Decimal(now)],
         times := s.times + [now])
    case Pick(ch) =>
      s.(publisher := Sending(s.publisher.initial, s.publisher.visited, ch))
    case Send =>
      var ch := s.publisher.ch;
      var c := s.channels[ch];
      s.(channels := s.channels[ch := c.(queue := c.queue + [s.msg])],
         publisher := Ranging(s.publisher.initial, s.publisher.visited + {ch}),
         early := if ch in s.publisher.initial then s.early else s.early + {ch})
    case Finish =>
      s.(publisher := Idle)
  }

  ghost predicate Next(s: State, t: State) {
    exists step :: Enabled(s, step) && t == Exec(s, step)
  }

  ghost predicate IsRun(run: seq<State>) {
    && |run| > 0 && run[0] == INIT
    && forall i :: 0 <= i < |run| - 1 ==> Next(run[i], run[i + 1])
  }

  // ---------- The invariant ----------

  /** Everything that has gone into the channel. */
  function Log(c: Channel): seq<Bytes> { c.received + c.queue }

  /** The position in the history at which the channel's log begins. */
  function Base(s: State, ch: Chan): int
    requires ch in s.joined
  {
    if ch in s.early then s.joined[ch] - 1 else s.joined[ch]
  }

  /** The position up to which the channel has been given the history. */
  function Reached(s: State, ch: Chan): int
    requires ch in s.joined && ch in s.channels
  {
    Base(s, ch) + |Log(s.channels[ch])|
  }

  /** The messages are the decimal numerals of the clock readings. */
  predicate AreNumerals(ms: seq<Bytes>, times: seq<nat>) {
    |ms| == |times| && forall k :: 0 <= k < |ms| ==> IsNumeral(ms[k], times[k])
  }

  predicate IsNumeral(m: Bytes, n: nat) {
    m != "" && AllDigits(m) && Text.Value(m) == n && (m[0] == '0' ==> |m| == 1)
  }

  /** A channel that the message in progress has not yet been sent to. */
  ghost predicate Awaiting(s: State, ch: Chan)
    requires ch in s.joined && ch in s.channels && s.publisher.Busy()
  {
    if ch in s.publisher.initial then Reached(s, ch) + 1 == |s.published|
       else Log(s.channels[ch]) == [] && s.joined[ch] == |s.published| && ch in s.during && ch !in s.early
  }

  ghost predicate ChannelOk(s: State, ch: Chan)
    requires ch in s.channels
  {
    var c := s.channels[ch];
    && ch in s.joined && 0 <= s.joined[ch] <= |s.published|
    && (ch in s.during ==> s.joined[ch] >= 1)
    && Slice(s.published, Base(s, ch), Log(c))
    && |c.queue| <= MSG_BUF
    && c.written == Stream(c.received)
    && (ch in s.subscribers <==> !c.gone)
    && (!c.gone ==>
          if s.publisher.Busy() && ch !in s.publisher.visited then Awaiting(s, ch)
          else Reached(s, ch) == |s.published|)
  }

  ghost predicate Inv(s: State) {
    && (forall ch :: ch in s.channels ==> ChannelOk(s, ch))
    && s.subscribers <= s.channels.Keys
    && s.early <= s.during <= s.channels.Keys
    && (s.publisher.Busy() ==>
          && s.published != [] && s.msg == s.published[|s.published| - 1]
          && s.publisher.visited <= s.channels.Keys && s.publisher.initial <= s.channels.Keys)
    && (s.publisher.Sending? ==>
          && s.publisher.ch in s.channels && s.publisher.ch !in s.publisher.visited
          && s.publisher.ch in s.joined && Awaiting(s, s.publisher.ch))
    && AreNumerals(s.published, s.times)
  }

  lemma SliceAppend(messages: seq<Bytes>, start: int, log: seq<Bytes>, m: Bytes)
    requires Slice(messages, start, log)
    ensures Slice(messages + [m], start, log)
    ensures start + |log| < |messages| ==> Slice(messages, start, log + [messages[start + |log|]])
  {}

  lemma ReceiveKeepsInv(s: State, ch: Chan)
    requires Inv(s) && Enabled(s, Receive(ch))
    ensures Inv(Exec(s, Receive(ch)))
  {
    hide Stream, Decimal, AreNumerals;
    var t := Exec(s, Receive(ch));
    var c := s.channels[ch];
    assert ChannelOk(s, ch);
    StreamAppend(c.received, c.queue[0]);
    assert Log(t.channels[ch]) == Log(c);
    forall x | x in t.channels ensures ChannelOk(t, x) { assert ChannelOk(s, x); }
  }

  lemma SendKeepsInv(s: State)
    requires Inv(s) && Enabled(s, Send)
    ensures Inv(Exec(s, Send))
  {
    hide Stream, Decimal;
    var t := Exec(s, Send);
    var ch := s.publisher.ch;
    var c := s.channels[ch];
    assert ChannelOk(s, ch);
    SentKeepsChannel(s);
    forall x | x in t.channels ensures ChannelOk(t, x) {
      if x != ch { assert ChannelOk(s, x); }
    }
  }

  /** The channel that the message was sent to. */
  lemma SentKeepsChannel(s: State)
    requires Inv(s) && Enabled(s, Send)
    ensures ChannelOk(Exec(s, Send), s.publisher.ch)
  {
    hide Stream, Decimal, AreNumerals;
    var ch := s.publisher.ch;
    var c := s.channels[ch];
    assert ChannelOk(s, ch);
    assert Log(Exec(s, Send).channels[ch]) == Log(c) + [s.msg];
    if ch in s.publisher.initial { SliceAppend(s.published, Base(s, ch), Log(c), s.msg); }
  }

  lemma PublishKeepsInv(s: State, now: nat)
    requires Inv(s) && Enabled(s, Publish(now))
    ensures Inv(Exec(s, Publish(now)))
  {
    hide Stream, IsNumeral, Decimal, Log, Slice;
    var t := Exec(s, Publish(now));
    forall x | x in t.channels ensures ChannelOk(t, x) {
      assert ChannelOk(s, x);
      SliceAppend(s.published, Base(s, x), Log(s.channels[x]), Decimal(now));
    }
    assert t.publisher.initial <= t.channels.Keys;
    assert t.msg == t.published[|t.published| - 1];
    DecimalIsNumeral(now);
  }

  lemma {:induction false} DecimalIsNumeral(n: nat)
    ensures IsNumeral(Decimal(n), n)
  {
    ValueOfDecimal(n);
    if n >= 10 { DecimalIsNumeral(n / 10); LongerNumeral(n); }
  }

  lemma LongerNumeral(n: nat)
    requires n >= 10 && IsNumeral(Decimal(n / 10), n / 10)
    ensures Decimal(n)[0] != '0'
  {
    var d := Decimal(n / 10);
    assert Decimal(n)[0] == d[0];
    if |d| == 1 { assert d[..0] == "" && Text.Value(d) == DigitValue(d[0]); }
  }

  lemma SubscribeKeepsInv(s: State, ch: Chan)
    requires Inv(s) && Enabled(s, Subscribe(ch))
    ensures Inv(Exec(s, Subscribe(ch)))
  {
    var t := Exec(s, Subscribe(ch));
    assert ch !in s.early ==> ChannelOk(t, ch) by { assert Stream([]) == ":ok\n\n"; }
    hide Stream;
    forall x | x in t.channels ensures ChannelOk(t, x) {
      if x in s.channels { assert ChannelOk(s, x); }
    }
  }

  lemma FinishKeepsInv(s: State)
    requires Inv(s) && Enabled(s, Finish)
    ensures Inv(Exec(s, Finish))
  {
    hide Stream;
    var t := Exec(s, Finish);
    forall x | x in t.channels ensures ChannelOk(t, x) {
      assert ChannelOk(s, x);
      if x in s.subscribers && x in s.publisher.initial { assert x in s.subscribers * s.publisher.initial; }
    }
  }

  lemma OtherKeepsInv(s: State, step: Step)
    requires Inv(s) && Enabled(s, step) && (step.Leave? || step.Pick?)
    ensures Inv(Exec(s, step))
  {
    hide Stream, AreNumerals, Slice;
    var t := Exec(s, step);
    forall x | x in t.channels ensures ChannelOk(t, x) { assert ChannelOk(s, x); }
    if step.Pick? { assert ChannelOk(s, step.ch); }
  }

  lemma StepKeepsInv(s: State, step: Step)
    requires Inv(s) && Enabled(s, step)
    ensures Inv(Exec(s, step))
  {
    hide Inv, Exec;
    match step
    case Receive(ch) => ReceiveKeepsInv(s, ch);
    case Send => SendKeepsInv(s);
    case Publish(now) => PublishKeepsInv(s, now);
    case Subscribe(ch) => SubscribeKeepsInv(s, ch);
    case Finish => FinishKeepsInv(s);
    case _ => OtherKeepsInv(s, step);
  }

  /** Every state of every run satisfies the invariant. */
  lemma {:induction false} InvAlways(run: seq<State>, i: nat)
    requires IsRun(run) && i < |run|
    ensures Inv(run[i])
  {
    if i > 0 {
      InvAlways(run, i - 1);
      hide Inv;
      assert Next(run[i - 1], run[i - 1 + 1]);
      var step :| Enabled(run[i - 1], step) && run[i] == Exec(run[i - 1], step);
      StepKeepsInv(run[i - 1], step);
    }
  }

  // ---------- The main results ----------

  /**
   In every reachable state what a subscriber has received, followed by what its
   channel still holds, is a contiguous slice of the published messages; it
   begins with the first message published after it subscribed, or, only if a
   Publish was in progress then, with that one; and the channel holds at most 50.
   */
  lemma SubscribersGetSlices(run: seq<State>, i: nat, ch: Chan)
    requires IsRun(run) && i < |run| && ch in run[i].channels
    ensures var s := run[i]; var c := s.channels[ch];
            && ch in s.joined
            && |c.queue| <= 50
            && exists start :: Slice(s.published, start, c.received + c.queue)
                               && (start == s.joined[ch] || (start == s.joined[ch] - 1 && ch in s.during))
  {
    InvAlways(run, i);
    var s := run[i];
    assert ChannelOk(s, ch);
    assert Slice(s.published, Base(s, ch), s.channels[ch].received + s.channels[ch].queue);
  }

  /** What a live subscriber has received, counted from the start of its slice. */
  ghost function Position(s: State, ch: Chan): int
    requires ch in s.joined && ch in s.channels
  {
    Base(s, ch) + |s.channels[ch].received|
  }

  /**
   The publisher is never more than 51 messages, 50 queued and one in progress,
   past any live subscriber, so two live subscribers are at most 51 apart.
   */
  lemma LagIsBounded(run: seq<State>, i: nat, ch: Chan, other: Chan)
    requires IsRun(run) && i < |run|
    requires ch in run[i].subscribers && other in run[i].subscribers
    ensures var s := run[i];
            && ch in s.joined && ch in s.channels && other in s.joined && other in s.channels
            && |s.published| - 51 <= Position(s, ch) <= |s.published|
            && -51 <= Position(s, ch) - Position(s, other) <= 51
  {
    InvAlways(run, i);
    assert ChannelOk(run[i], ch) && ChannelOk(run[i], other);
  }

  /** With the publisher idle, every live subscriber has been given every message since its start. */
  lemma IdleMeansDelivered(run: seq<State>, i: nat, ch: Chan)
    requires IsRun(run) && i < |run| && run[i].publisher.Idle? && ch in run[i].subscribers
    ensures var s := run[i];
            && ch in s.joined && ch in s.channels && 0 <= Base(s, ch) <= |s.published|
            && Log(s.channels[ch]) == s.published[Base(s, ch)..]
  {
    InvAlways(run, i);
    assert ChannelOk(run[i], ch);
  }

  lemma {:induction false} DigitsAreClean(m: Bytes)
    requires AllDigits(m)
    ensures Clean(m)
  {
    if m != "" { DigitsAreClean(m[1..]); }
  }

  /** What the client's EventSource dispatches, whatever the chunks: the slice of the history it has received. */
  lemma ClientReadsSlice(run: seq<State>, i: nat, ch: Chan, chunks: seq<string>)
    requires IsRun(run) && i < |run| && ch in run[i].channels && Flatten(chunks) == run[i].channels[ch].written
    ensures var s := run[i]; var n := |s.channels[ch].received|;
            && ch in s.joined && 0 <= Base(s, ch) && Base(s, ch) + n <= |s.published|
            && ReadAll(READY, chunks) == Messages(s.published[Base(s, ch)..Base(s, ch) + n])
  {
    hide Stream, Clean, AllDigits, Decimal;
    InvAlways(run, i);
    var s := run[i];
    assert ChannelOk(s, ch);
    var received := s.channels[ch].received;
    var n := |received|;
    assert Log(s.channels[ch])[..n] == received;
    assert received == s.published[Base(s, ch)..Base(s, ch) + n];
    forall m | m in received ensures Clean(m) {
      var k :| 0 <= k < |s.published| && s.published[k] == m;
      assert IsNumeral(s.published[k], s.times[k]);
      DigitsAreClean(m);
    }
    CleanChunksDecode(received, chunks);
  }

  /**
   A client reads, as numerals without leading zeros, the clock readings of one
   stretch of the publications, each once and in order, whatever the chunks.
   */
  lemma ClientReadsClock(run: seq<State>, i: nat, ch: Chan, chunks: seq<string>)
    requires IsRun(run) && i < |run| && ch in run[i].channels && Flatten(chunks) == run[i].channels[ch].written
    ensures var s := run[i]; var events := ReadAll(READY, chunks);
            && ch in s.joined && |events| == |s.channels[ch].received|
            && 0 <= Base(s, ch) && Base(s, ch) + |events| <= |s.times|
            && forall k :: 0 <= k < |events| ==>
                 events[k] == Message(events[k].data) && IsNumeral(events[k].data, s.times[Base(s, ch) + k])
  {
    hide IsRun, ChannelOk, ReadAll, IsNumeral;
    ClientReadsSlice(run, i, ch, chunks);
    InvAlways(run, i);
    var s := run[i];
    var n := |s.channels[ch].received|;
    var part := s.published[Base(s, ch)..Base(s, ch) + n];
    forall k | 0 <= k < n
      ensures Messages(part)[k] == Message(part[k]) && IsNumeral(part[k], s.times[Base(s, ch) + k])
    {
      MessageAt(part, k);
      assert part[k] == s.published[Base(s, ch) + k];
    }
  }

  lemma {:induction false} MessageAt(ms: seq<Bytes>, k: nat)
    requires k < |ms|
    ensures Messages(ms)[k] == Message(ms[k])
  {
    if k > 0 { MessageAt(ms[1..], k - 1); }
  }

  // ---------- What is queued can be taken ----------

  /** A continuation of s in which only the handler of ch takes steps, each receiving one message. */
  ghost predicate Receives(run: seq<State>, s: State, ch: Chan) {
    |run| > 0 && run[0] == s
    && forall k :: 0 <= k < |run| - 1 ==> Enabled(run[k], Receive(ch)) && run[k + 1] == Exec(run[k], Receive(ch))
  }

  /** The channel, when its handler has taken everything that is queued. */
  function Drained(c: Channel): Channel {
    Channel([], c.received + c.queue, Stream(c.received + c.queue), c.gone)
  }

  /**
   A live subscriber can take everything that is queued for it, down to the last
   message, with one receive for each; it has then been written all of it, and
   nothing else has changed.
   */
  lemma {:induction false} QueueCanBeTaken(s: State, ch: Chan) returns (run: seq<State>)
    requires Inv(s) && ch in s.channels && !s.channels[ch].gone
    ensures Receives(run, s, ch) && |run| == |s.channels[ch].queue| + 1
    ensures run[|run| - 1] == s.(channels := s.channels[ch := Drained(s.channels[ch])])
    decreases |s.channels[ch].queue|
  {
    hide Inv, Stream;
    var c := s.channels[ch];
    if c.queue == [] {
      WrittenIs(s, ch);
      assert c.received + [] == c.received && s.channels[ch := c] == s.channels;
      run := [s];
    } else {
      var t := Exec(s, Receive(ch));
      StepKeepsInv(s, Receive(ch));
      assert t.channels[ch].received + t.channels[ch].queue == c.received + c.queue;
      var more := QueueCanBeTaken(t, ch);
      run := [s] + more;
      forall k | 0 <= k < |run| - 1 ensures Enabled(run[k], Receive(ch)) && run[k + 1] == Exec(run[k], Receive(ch)) {
        if k > 0 { assert run[k] == more[k - 1] && run[k + 1] == more[k - 1 + 1]; }
      }
      assert t.channels[ch := Drained(t.channels[ch])] == s.channels[ch := Drained(c)];
    }
  }

  lemma WrittenIs(s: State, ch: Chan)
    requires Inv(s) && ch in s.channels
    ensures s.channels[ch].written == Stream(s.channels[ch].received)
  {
    hide Stream;
    assert ChannelOk(s, ch);
  }

  /**
   With the publisher idle a live subscriber that takes what is queued has every
   message since its start, and its client reads exactly those.
   */
  lemma IdleCanBeRead(run: seq<State>, i: nat, ch: Chan, chunks: seq<string>)
    requires IsRun(run) && i < |run| && run[i].publisher.Idle? && ch in run[i].subscribers
    requires ch in run[i].channels && Flatten(chunks) == Drained(run[i].channels[ch]).written
    ensures var s := run[i];
            ch in s.joined && 0 <= Base(s, ch) <= |s.published|
            && ReadAll(READY, chunks) == Messages(s.published[Base(s, ch)..])
  {
    hide Stream, Clean, IsNumeral, IsRun;
    IdleMeansDelivered(run, i, ch);
    InvAlways(run, i);
    var s := run[i];
    var all := s.published[Base(s, ch)..];
    assert all == s.channels[ch].received + s.channels[ch].queue;
    forall m | m in all ensures Clean(m) {
      var k :| 0 <= k < |s.published| && s.published[k] == m;
      NumeralIsClean(s.published[k], s.times[k]);
    }
    CleanChunksDecode(all, chunks);
  }

  lemma NumeralIsClean(m: Bytes, n: nat)
    requires IsNumeral(m, n)
    ensures Clean(m)
  {
    DigitsAreClean(m);
  }

  // ---------- Leaving ----------

  /** The subscriber of ch has left, and the publisher is not at that channel. */
  predicate Left(s: State, ch: Chan) {
    ch in s.channels && s.channels[ch].gone && ch !in s.subscribers
    && !(s.publisher.Sending? && s.publisher.ch == ch)
  }

  /** A live subscriber can leave at any moment, and is then no longer one. */
  lemma CanLeave(s: State, ch: Chan)
    requires Inv(s) && ch in s.subscribers
    ensures Enabled(s, Leave(ch))
    ensures var t := Exec(s, Leave(ch));
            && t.subscribers == s.subscribers - {ch} && t.publisher == s.publisher
            && (Left(t, ch) <==> !(s.publisher.Sending? && s.publisher.ch == ch))
  {
    assert ch in s.channels && ChannelOk(s, ch);
  }

  lemma LeftStays(s: State, step: Step, ch: Chan)
    requires Left(s, ch) && Enabled(s, step)
    ensures Left(Exec(s, step), ch) && Exec(s, step).channels[ch] == s.channels[ch]
  {}

  /** From then on nothing is sent to it, received from its channel or written to it. */
  lemma {:induction false} NothingAfterLeaving(run: seq<State>, i: nat, j: nat, ch: Chan)
    requires i <= j < |run| && Left(run[i], ch)
    requires forall k :: 0 <= k < |run| - 1 ==> Next(run[k], run[k + 1])
    ensures Left(run[j], ch) && run[j].channels[ch] == run[i].channels[ch]
    decreases j
  {
    hide Next;
    if i < j {
      NothingAfterLeaving(run, i, j - 1, ch);
      assert Next(run[j - 1], run[j - 1 + 1]);
      LeftNext(run[j - 1], run[j], ch);
    }
  }

  lemma LeftNext(s: State, t: State, ch: Chan)
    requires Left(s, ch) && Next(s, t)
    ensures Left(t, ch) && t.channels[ch] == s.channels[ch]
  {
    var step :| Enabled(s, step) && t == Exec(s, step);
    LeftStays(s, step, ch);
  }

  // ---------- When the publisher never continues ----------

  /** The publisher is blocked on a full channel whose reader has left. */
  predicate Stuck(s: State) {
    s.publisher.Sending? && s.publisher.ch in s.channels
    && var c := s.channels[s.publisher.ch]; c.gone && |c.queue| == 50
  }

  lemma StuckStays(s: State, step: Step)
    requires Stuck(s) && Enabled(s, step)
    ensures Stuck(Exec(s, step)) && Exec(s, step).published == s.published && Exec(s, step).publisher == s.publisher
  {}

  /** Once stuck, in every continuation nothing is ever published or sent again, to anyone. */
  lemma {:induction false} StuckForever(run: seq<State>, i: nat, j: nat)
    requires i <= j < |run| && Stuck(run[i])
    requires forall k :: 0 <= k < |run| - 1 ==> Next(run[k], run[k + 1])
    ensures Stuck(run[j]) && run[j].published == run[i].published && run[j].publisher == run[i].publisher
    decreases j
  {
    if i < j {
      StuckForever(run, i, j - 1);
      assert Next(run[j - 1], run[j - 1 + 1]);
      var step :| Enabled(run[j - 1], step) && run[j] == Exec(run[j - 1], step);
      StuckStays(run[j - 1], step);
    }
  }

  // ---------- When it goes on ----------

  /** A sequence of steps from s on. */
  ghost predicate IsContinuation(run: seq<State>, s: State) {
    |run| > 0 && run[0] == s && forall k :: 0 <= k < |run| - 1 ==> Next(run[k], run[k + 1])
  }

  ghost predicate PublishesAgain(s: State) {
    exists run: seq<State> :: IsContinuation(run, s) && |run[|run| - 1].published| > |s.published|
  }

  lemma StepThenRun(s: State, step: Step, run: seq<State>) returns (longer: seq<State>)
    requires Enabled(s, step) && IsContinuation(run, Exec(s, step))
    ensures IsContinuation(longer, s) && longer[|longer| - 1] == run[|run| - 1]
  {
    hide Enabled, Exec;
    longer := [s] + run;
    assert Next(s, run[0]);
    forall k | 0 <= k < |longer| - 1 ensures Next(longer[k], longer[k + 1]) {
      if k > 0 { assert longer[k] == run[k - 1] && longer[k + 1] == run[k - 1 + 1]; }
    }
  }

  /** The keys the range has still to yield, not counting the one being sent to. */
  function ToVisit(s: State): set<Chan> {
    match s.publisher
    case Idle => {}
    case Ranging(initial, visited) => s.subscribers * initial - visited
    case Sending(initial, visited, ch) => s.subscribers * initial - visited - {ch}
  }

  /** How far the step is within one round: draining a full channel, sending, ranging. */
  function Phase(s: State): nat {
    if s.publisher.Sending? && s.publisher.ch in s.channels then
      if |s.channels[s.publisher.ch].queue| >= MSG_BUF then 2 else 1
    else 0
  }

  /** The step brings the end of the Publish nearer and keeps the publisher free. */
  ghost predicate TowardsEnd(s: State, step: Step) {
    Enabled(s, step) && var t := Exec(s, step);
    && !Stuck(t) && t.published == s.published
    && (|| !t.publisher.Busy()
        || |ToVisit(t)| < |ToVisit(s)|
        || (|ToVisit(t)| == |ToVisit(s)| && Phase(t) < Phase(s)))
  }

  lemma MemberOf(xs: set<Chan>) returns (x: Chan)
    requires xs != {}
    ensures x in xs
  {
    assert (forall x :: x !in xs) ==> xs == {};
    x :| x in xs;
  }

  lemma SendOrReceive(s: State) returns (step: Step)
    requires Inv(s) && s.publisher.Sending? && !Stuck(s)
    ensures TowardsEnd(s, step)
  {
    hide Stream, Decimal, AreNumerals;
    var ch := s.publisher.ch;
    assert ChannelOk(s, ch);
    step := if |s.channels[ch].queue| < MSG_BUF then Send else Receive(ch);
    assert ToVisit(Exec(s, step)) == ToVisit(s);
  }

  lemma PickOrFinish(s: State) returns (step: Step)
    requires Inv(s) && s.publisher.Ranging?
    ensures TowardsEnd(s, step)
  {
    hide Stream, Decimal, AreNumerals;
    var todo := s.subscribers * s.publisher.initial - s.publisher.visited;
    if todo == {} {
      step := Finish;
      assert forall ch :: ch in s.subscribers * s.publisher.initial ==> ch !in todo;
    } else {
      var ch := MemberOf(todo);
      assert ChannelOk(s, ch);
      step := Pick(ch);
      assert ToVisit(Exec(s, step)) == todo - {ch};
    }
  }

  /** A publisher that is not stuck finishes its message and publishes the next. */
  lemma {:induction false} RunToNextPublish(s: State) returns (run: seq<State>)
    requires Inv(s) && !Stuck(s)
    ensures IsContinuation(run, s) && |run[|run| - 1].published| > |s.published|
    decreases s.publisher.Busy(), |ToVisit(s)|, Phase(s)
  {
    hide Inv, Stuck, ToVisit, Phase, IsContinuation, Enabled, Exec;
    if s.publisher.Busy() {
      var step;
      if s.publisher.Sending? { step := SendOrReceive(s); } else { step := PickOrFinish(s); }
      StepKeepsInv(s, step);
      run := RunToNextPublish(Exec(s, step));
      run := StepThenRun(s, step, run);
    } else {
      run := PublishAtOnce(s);
    }
  }

  lemma PublishAtOnce(s: State) returns (run: seq<State>)
    requires s.publisher.Idle?
    ensures IsContinuation(run, s) && |run[|run| - 1].published| > |s.published|
  {
    var t := Exec(s, Publish(0));
    assert Next(s, t) by { assert Enabled(s, Publish(0)); }
    run := [s, t];
  }

  /**
   From a state that satisfies the invariant, and so from every reachable one,
   some continuation publishes another message exactly if the publisher is not
   blocked on a full channel whose reader has left.
   */
  lemma PublishesAgainIff(s: State)
    requires Inv(s)
    ensures PublishesAgain(s) <==> !Stuck(s)
  {
    hide Inv, Stuck;
    if Stuck(s) {
      forall run: seq<State> | IsContinuation(run, s) ensures run[|run| - 1].published == s.published {
        StuckForever(run, 0, |run| - 1);
      }
    } else {
      var run := RunToNextPublish(s);
    }
  }

  // ---------- How it gets stuck ----------

  lemma RunThenStep(run: seq<State>, step: Step) returns (longer: seq<State>)
    requires IsRun(run) && Enabled(run[|run| - 1], step)
    ensures IsRun(longer) && longer[|longer| - 1] == Exec(run[|run| - 1], step)
  {
    hide Enabled, Exec;
    var s := run[|run| - 1];
    longer := run + [Exec(s, step)];
    forall k | 0 <= k < |longer| - 1 ensures Next(longer[k], longer[k + 1]) {
      if k < |run| - 1 { assert longer[k] == run[k] && longer[k + 1] == run[k + 1]; } else { assert longer[k] == s; }
    }
  }

  /** One subscriber that takes nothing out, with k messages in its channel. */
  predicate Filled(s: State, k: nat) {
    s.publisher.Idle? && s.subscribers == {0} && 0 in s.channels && !s.channels[0].gone && |s.channels[0].queue| == k
  }

  lemma {:induction false} Fill(k: nat) returns (run: seq<State>)
    requires k <= MSG_BUF
    ensures IsRun(run) && Filled(run[|run| - 1], k)
  {
    hide IsRun, Decimal;
    if k == 0 {
      run := RunThenStep(InitialRun(), Subscribe(0));
    } else {
      run := Fill(k - 1);
      run := RunThenStep(run, Publish(0));
      run := RunThenStep(run, Pick(0));
      run := RunThenStep(run, Send);
      run := RunThenStep(run, Finish);
    }
  }

  ghost function InitialRun(): (run: seq<State>)
    ensures IsRun(run) && run[|run| - 1] == INIT
  {
    [INIT]
  }

  /** A subscriber that never reads and leaves while the fifty-first message is being sent to it. */
  lemma StuckIsReached() returns (run: seq<State>)
    ensures IsRun(run) && Stuck(run[|run| - 1])
  {
    hide IsRun, Decimal;
    run := Fill(MSG_BUF);
    run := RunThenStep(run, Publish(0));
    run := RunThenStep(run, Pick(0));
    run := RunThenStep(run, Leave(0));
  }

  // ---------- Subscribing during a Publish ----------

  /** A subscriber that joins during a Publish may be sent that message. */
  lemma EarlyIsReached() returns (run: seq<State>)
    ensures IsRun(run) && var s := run[|run| - 1];
            s.publisher.Idle? && s.subscribers == {0} && 0 in s.channels && s.channels[0].queue == s.published == ["7"]
  {
    hide IsRun;
    assert Decimal(7) == "7";
    hide Decimal;
    run := RunThenStep(InitialRun(), Publish(7));
    run := RunThenStep(run, Subscribe(0));
    run := RunThenStep(run, Pick(0));
    run := RunThenStep(run, Send);
    run := RunThenStep(run, Finish);
  }

  /** Or it may not. */
  lemma LateIsReached() returns (run: seq<State>)
    ensures IsRun(run) && var s := run[|run| - 1];
            s.publisher.Idle? && s.subscribers == {0} && 0 in s.channels && s.channels[0].queue == []
            && s.published == ["7"]
  {
    hide IsRun;
    assert Decimal(7) == "7";
    hide Decimal;
    run := RunThenStep(InitialRun(), Publish(7));
    run := RunThenStep(run, Subscribe(0));
    run := RunThenStep(run, Finish);
  }
}
