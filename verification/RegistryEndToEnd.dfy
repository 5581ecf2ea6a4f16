/** From a broadcast in the C++ server to the events an EventSource dispatches. */
module RegistryEndToEnd {
  import opened Sequences
  import opened EventStream
  import opened Framing
  import opened Registry
  import opened RegistryRuns

  /**
   In every reachable state, and however the network cuts it, the stream written
   to a client is read as the messages of one contiguous slice of the broadcast
   history exactly if none of them contains a line break.  For a client that is
   not dead, and with no broadcast in flight, the slice reaches to the last message.
   */
  lemma ClientReadsItsSliceIff(run: seq<State>, i: nat, x: Client, chunks: seq<string>)
    requires IsRun(run) && i < |run| && x in run[i].regs && run[i].regs[x].InList()
    requires x in run[i].wire && Flatten(chunks) == Stream(run[i].wire[x])
    ensures var s := run[i]; var n := |s.wire[x]|;
            && x in s.past.start && 0 <= s.past.start[x] && s.past.start[x] + n <= |s.past.messages|
            && var slice := s.past.messages[s.past.start[x]..s.past.start[x] + n];
            && (ReadAll(READY, chunks) == Messages(slice) <==> AllClean(slice))
            && (s.caster.Idle? && x !in s.dead ==> slice == s.past.messages[s.past.start[x]..])
  {
    hide IsRun, Stream, AllClean, Messages, ReadAll, Decode;
    LogsAreSlices(run, i, x);
    var s := run[i];
    SlicePrefix(s.past.messages, s.past.start[x], s.handed[x], s.wire[x]);
    ChunkingIsInvisible(chunks);
    FaithfulIffClean(s.wire[x]);
    assert 0 <= s.regs[x].bucket by { ShapeAlways(run, i); }
    if s.caster.Idle? && x !in s.dead { LiveClientsMissNothing(run, i, s.regs[x].bucket, x); }
  }

  lemma ShapeAlways(run: seq<State>, i: nat)
    requires IsRun(run) && i < |run|
    ensures Shape(run[i])
  {
    InvAlways(run, i);
  }

  lemma SlicePrefix(messages: seq<Message>, start: int, log: seq<Message>, prefix: seq<Message>)
    requires Slice(messages, start, log) && prefix <= log
    ensures 0 <= start && start + |prefix| <= |messages| && prefix == messages[start..start + |prefix|]
  {
    assert prefix == log[..|prefix|];
    assert log[..|prefix|] == messages[start..start + |prefix|];
  }
}
