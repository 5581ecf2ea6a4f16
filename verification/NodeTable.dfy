/**
 The Node server's client table: an array in which the slots of clients that
 have gone are set to null and never used again.
 */
module NodeTable {
  import opened Sequences
  import opened EventStream
  import opened Framing

  // ---------- Histories ----------

  /** A client subscribes, the 'end' callback captured for an index runs, a message is broadcast. */
  datatype Step = Join | End(index: int) | Cast(message: string)

  /** The slots that are not null, the counter, and every client's bytes after its response head. */
  datatype Table = Table(slots: seq<bool>, numClients: int, logs: seq<string>)

  const EMPTY := Table([], 0, [])

  /** The number of clients that have joined; the next one gets this index. */
  function Joined(h: seq<Step>): nat {
    if h == [] then 0 else Joined(h[..|h| - 1]) + if h[|h| - 1].Join? then 1 else 0
  }

  /** Callbacks run only for indices that were given out. */
  predicate Sensible(h: seq<Step>) {
    h == [] ||
    (Sensible(h[..|h| - 1]) && (h[|h| - 1].End? ==> 0 <= h[|h| - 1].index < Joined(h[..|h| - 1])))
  }

  /** Every live client's log gets the frame. */
  function Written(slots: seq<bool>, logs: seq<string>, m: string): (r: seq<string>)
    requires |slots| == |logs|
    ensures |r| == |logs|
  {
    seq(|logs|, i requires 0 <= i < |logs| => if slots[i] then logs[i] + Frame(m) else logs[i])
  }

  function Apply(t: Table, step: Step): (u: Table)
    requires |t.slots| == |t.logs| && (step.End? ==> 0 <= step.index < |t.slots|)
    ensures |u.slots| == |u.logs|
  {
    match step
    case Join => Table(t.slots + [true], t.numClients + 1, t.logs + [GREETING])
    case End(i) => t.(slots := t.slots[i := false], numClients := t.numClients - 1)
    case Cast(m) => t.(logs := Written(t.slots, t.logs, m))
  }

  function After(h: seq<Step>): (t: Table)
    requires Sensible(h)
    ensures |t.slots| == |t.logs| == Joined(h)
  {
    if h == [] then EMPTY else Apply(After(h[..|h| - 1]), h[|h| - 1])
  }

  // ---------- What a history means for one client ----------

  /** The messages broadcast after the client of this index joined and before its callback ran. */
  function Heard(h: seq<Step>, i: nat): seq<string> {
    if h == [] then []
    else
      var past := h[..|h| - 1];
      Heard(past, i) +
      if h[|h| - 1].Cast? && i < Joined(past) && End(i) !in past then [h[|h| - 1].message] else []
  }

  function Casts(h: seq<Step>): seq<string> {
    if h == [] then [] else Casts(h[..|h| - 1]) + if h[|h| - 1].Cast? then [h[|h| - 1].message] else []
  }

  lemma LastIn(h: seq<Step>, x: Step)
    requires h != []
    ensures x in h <==> x in h[..|h| - 1] || h[|h| - 1] == x
  {
    assert h == h[..|h| - 1] + [h[|h| - 1]];
  }

  /** A captured index keeps pointing to its own client, until the client's callback has run. */
  lemma {:induction false} SlotsAreLive(h: seq<Step>, i: nat)
    requires Sensible(h) && i < Joined(h)
    ensures After(h).slots[i] <==> End(i) !in h
  {
    var past := h[..|h| - 1];
    LastIn(h, End(i));
    if i < Joined(past) {
      SlotsAreLive(past, i);
    } else {
      NotEarly(past, i);
    }
  }

  /** No callback runs for an index before it is given out. */
  lemma {:induction false} NotEarly(h: seq<Step>, i: nat)
    requires Sensible(h) && i >= Joined(h)
    ensures End(i) !in h && Heard(h, i) == []
  {
    if h != [] {
      LastIn(h, End(i));
      NotEarly(h[..|h| - 1], i);
    }
  }

  /** A client's log is the stream of exactly the messages broadcast while it was in the table, in order. */
  lemma {:induction false} LogsAreHeard(h: seq<Step>, i: nat)
    requires Sensible(h) && i < Joined(h)
    ensures After(h).logs[i] == Stream(Heard(h, i))
  {
    var past := h[..|h| - 1];
    if i < Joined(past) {
      LogsAreHeard(past, i);
      SlotsAreLive(past, i);
      if h[|h| - 1].Cast? && End(i) !in past { StreamAppend(Heard(past, i), h[|h| - 1].message); }
      assert Heard(past, i) + [] == Heard(past, i);
    } else {
      NotEarly(past, i);
      assert Frames([]) == "" && GREETING + "" == GREETING;
    }
  }

  /** What a client hears is one contiguous slice of the broadcasts, up to the last one if it is still there. */
  lemma {:induction false} HeardIsSlice(h: seq<Step>, i: nat) returns (start: nat)
    requires Sensible(h) && i < Joined(h)
    ensures start + |Heard(h, i)| <= |Casts(h)|
    ensures Heard(h, i) == Casts(h)[start..start + |Heard(h, i)|]
    ensures End(i) !in h ==> Heard(h, i) == Casts(h)[start..]
  {
    var past := h[..|h| - 1];
    LastIn(h, End(i));
    if i < Joined(past) {
      start := HeardIsSlice(past, i);
      var more := if h[|h| - 1].Cast? then [h[|h| - 1].message] else [];
      assert Casts(h) == Casts(past) + more;
      assert Heard(h, i) == Heard(past, i) + if End(i) !in past then more else [];
      hide Casts, Heard, Joined, Sensible;
      SliceGrows(Casts(past), start, Heard(past, i), more);
    } else {
      NotEarly(past, i);
      start := |Casts(past)|;
    }
  }

  // ---------- The counter ----------

  function LiveSlots(slots: seq<bool>): nat {
    if slots == [] then 0 else LiveSlots(slots[..|slots| - 1]) + if slots[|slots| - 1] then 1 else 0
  }

  /** The callbacks that ran for a slot already null. */
  function Repeats(h: seq<Step>): nat {
    if h == [] then 0
    else Repeats(h[..|h| - 1]) + if h[|h| - 1].End? && h[|h| - 1] in h[..|h| - 1] then 1 else 0
  }

  lemma {:induction false} LiveUpdate(slots: seq<bool>, i: nat)
    requires i < |slots|
    ensures LiveSlots(slots[i := false]) == LiveSlots(slots) - if slots[i] then 1 else 0
  {
    var n := |slots| - 1;
    if i == n {
      assert slots[i := false][..n] == slots[..n];
    } else {
      assert slots[i := false][..n] == slots[..n][i := false];
      LiveUpdate(slots[..n], i);
    }
  }

  /** The counter falls behind the live clients by one for every callback run twice. */
  lemma {:induction false} CounterIs(h: seq<Step>)
    requires Sensible(h)
    ensures After(h).numClients == LiveSlots(After(h).slots) - Repeats(h)
  {
    if h != [] {
      var past, last := h[..|h| - 1], h[|h| - 1];
      CounterIs(past);
      var slots := After(past).slots;
      if last.Join? {
        assert (slots + [true])[..|slots|] == slots;
      } else if last.End? {
        LiveUpdate(slots, last.index);
        SlotsAreLive(past, last.index);
      }
    }
  }

  /** The count served under "/connections" is right exactly if no client's callback ever ran twice. */
  lemma CounterRightIff(h: seq<Step>)
    requires Sensible(h)
    ensures After(h).numClients == LiveSlots(After(h).slots)
            <==> forall j, k :: 0 <= j < k < |h| && h[k].End? ==> h[j] != h[k]
  {
    CounterIs(h);
    NoRepeatIff(h);
  }

  lemma {:induction false} NoRepeatIff(h: seq<Step>)
    ensures Repeats(h) == 0 <==> forall j, k :: 0 <= j < k < |h| && h[k].End? ==> h[j] != h[k]
  {
    if h != [] {
      var past, n := h[..|h| - 1], |h| - 1;
      NoRepeatIff(past);
      assert forall j :: 0 <= j < n ==> past[j] == h[j];
      if Repeats(h) == 0 {
        forall j, k | 0 <= j < k < |h| && h[k].End? ensures h[j] != h[k] {
          if k < n { assert past[j] != past[k]; } else { assert past[j] in past; }
        }
      }
    }
  }

  // ---------- The table on the heap ----------

  class Socket {
    var log: string        // bytes written behind the response head

    constructor ()
      ensures log == ""
    {
      log := "";
    }

    method Write(bytes: string)
      modifies this
      ensures log == old(log) + bytes
    {
      log := log + bytes;
    }
  }

  class ClientTable {
    var clients: seq<Socket?>
    var numClients: int
    ghost var sockets: seq<Socket>       // the client of each index

    ghost predicate Valid()
      reads this
    {
      && |clients| == |sockets|
      && (forall i :: 0 <= i < |clients| ==> clients[i] == null || clients[i] == sockets[i])
      && forall i, j :: 0 <= i < j < |sockets| ==> sockets[i] != sockets[j]
    }

    ghost function View(): Table
      reads this, sockets
    {
      Table(seq(|clients|, i requires 0 <= i < |clients| reads this => clients[i] != null),
            numClients,
            seq(|sockets|, i requires 0 <= i < |sockets| reads this, sockets => sockets[i].log))
    }

    constructor ()
      ensures Valid() && View() == EMPTY
    {
      clients, numClients, sockets := [], 0, [];
    }

    /** The registration of a client whose response head has been written. */
    method InitSseClient(res: Socket) returns (clientIndex: nat)
      requires Valid() && res !in sockets && res.log == ""
      modifies this, res
      ensures Valid() && sockets == old(sockets) + [res]
      ensures View() == Apply(old(View()), Join) && clientIndex == |old(clients)|
    {
      ghost var before := View();
      res.Write(":ok\n\n");
      assert res.log == GREETING;
      clients := clients + [res];
      sockets := sockets + [res];
      clientIndex := |clients| - 1;
      numClients := numClients + 1;
      assert forall j :: 0 <= j < |before.logs| ==> sockets[j] == old(sockets)[j] && sockets[j].log == before.logs[j];
      assert View().logs == before.logs + [GREETING];
      assert View().slots == old(View()).slots + [true];
    }

    /** The 'end' callback made for this index. */
    method RemoveClient(index: nat)
      requires Valid() && index < |clients|
      modifies this
      ensures Valid() && sockets == old(sockets) && View() == Apply(old(View()), End(index))
    {
      clients := clients[index := null];
      numClients := numClients - 1;
      assert View().slots == old(View()).slots[index := false];
      assert View().logs == old(View()).logs;
    }

    /** Down through the array, past the empty slots. */
    method Broadcast(data: string)
      requires Valid()
      modifies sockets
      ensures Valid() && View() == Apply(old(View()), Cast(data))
    {
      ghost var before := View();
      var i := |clients|;
      while i > 0
        invariant 0 <= i <= |clients|
        invariant forall j :: 0 <= j < i ==> sockets[j].log == old(sockets[j].log)
        invariant forall j :: i <= j < |clients| ==>
                    sockets[j].log ==
                    if clients[j] != null then old(sockets[j].log) + Frame(data) else old(sockets[j].log)
      {
        i := i - 1;
        if clients[i] != null {
          assert clients[i] == sockets[i];
          clients[i].Write("data: " + data + "\n\n");
        }
      }
      assert forall j :: 0 <= j < |clients| ==> View().logs[j] == Written(before.slots, before.logs, data)[j];
    }
  }

  // ---------- End to end ----------

  /**
   Decoding a client's whole log gives exactly the messages broadcast between
   its registration and its removal, however the bytes are cut, if and only if
   none of them contains a line break.
   */
  lemma ClientReadsWhatItHeardIff(h: seq<Step>, i: nat, chunks: seq<string>)
    requires Sensible(h) && i < Joined(h) && Flatten(chunks) == After(h).logs[i]
    ensures ReadAll(READY, chunks) == Messages(Heard(h, i)) <==> AllClean(Heard(h, i))
  {
    hide Heard, After, Stream, AllClean, Decode;
    LogsAreHeard(h, i);
    ChunkingIsInvisible(chunks);
    FaithfulIffClean(Heard(h, i));
  }
}
