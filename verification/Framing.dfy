/**
 How the servers put a message on the wire, and what an EventSource reads back.
 The Node, C++ and Go servers frame a message as one "data: " line; the Python
 server writes one such line per line of the message.
 */
module Framing {
  import opened Sequences
  import opened EventStream

  const GREETING := ":ok\n\n"

  /** "data: <message>\n\n" */
  function Frame(m: string): string { "data: " + m + "\n\n" }

  function Frames(ms: seq<string>): string {
    if ms == [] then "" else Frame(ms[0]) + Frames(ms[1..])
  }

  /** A client's whole log after the response head. */
  function Stream(ms: seq<string>): string { GREETING + Frames(ms) }

  function Message(m: string): Event { Event("message", m, "") }

  function Messages(ms: seq<string>): (es: seq<Event>)
    ensures |es| == |ms|
  {
    if ms == [] then [] else [Message(ms[0])] + Messages(ms[1..])
  }

  predicate AllClean(ms: seq<string>) {
    forall m :: m in ms ==> Clean(m)
  }

  lemma {:induction false} FramesAppend(ms: seq<string>, m: string)
    ensures Frames(ms + [m]) == Frames(ms) + Frame(m)
  {
    if ms == [] {
      assert ms + [m] == [m];
    } else {
      assert (ms + [m])[1..] == ms[1..] + [m];
      FramesAppend(ms[1..], m);
    }
  }

  lemma StreamAppend(ms: seq<string>, m: string)
    ensures Stream(ms + [m]) == Stream(ms) + Frame(m)
  {
    FramesAppend(ms, m);
  }

  // ---------- Clean messages come back as they were sent ----------

  lemma GreetingLines(s: string)
    ensures Decode(GREETING + s) == Interpret(FRESH, Lines(s))
  {
    hide Lines, Clean;
    assert GREETING[0] == ':';
    LinesConcat(GREETING, s);
    assert Lines(GREETING) == [":ok", ""] by { GreetingAlone(); }
    assert Line(FRESH, ":ok") == (FRESH, []) && Line(FRESH, "") == (FRESH, []);
    InterpretConcat(FRESH, [":ok", ""], Lines(s));
    assert [":ok", ""][1..] == [""] && [""][1..] == [];
  }

  lemma GreetingAlone()
    ensures Lines(GREETING) == [":ok", ""]
  {
    hide Lines;
    assert Clean(":ok") by { assert ":ok"[1..] == "ok" && "ok"[1..] == "k" && "k"[1..] == ""; }
    FirstLine(":ok", "\n\n");
    assert GREETING == ":ok" + "\n\n" && AfterBreak("\n\n") == "\n";
    FirstLine("", "\n");
    assert "" + "\n" == "\n" && AfterBreak("\n") == "";
    NoLine("");
  }

  /** A line break, or two, ends a data line and dispatches. */
  lemma DataLine(b: Buffers, value: string)
    ensures Line(b, "data: " + value) == (b.(data := b.data + value + "\n"), [])
  {
    var line := "data: " + value;
    NameBeforeColon("data", ": " + value);
    assert line == "data" + (": " + value);
    assert line[..4] == "data" && line[5..] == " " + value;
  }

  lemma CleanDataLine(value: string)
    requires Clean(value)
    ensures Clean("data: " + value)
  {
    assert Clean("data: ") by {
      assert "data: "[1..] == "ata: " && "ata: "[1..] == "ta: " && "ta: "[1..] == "a: ";
      assert "a: "[1..] == ": " && ": "[1..] == " " && " "[1..] == "";
    }
    CleanConcat("data: ", value);
  }

  lemma FrameLines(m: string)
    requires Clean(m)
    ensures Lines(Frame(m)) == ["data: " + m, ""]
  {
    hide Lines, Clean;
    CleanDataLine(m);
    FirstLine("data: " + m, "\n\n");
    assert Frame(m) == ("data: " + m) + "\n\n" && AfterBreak("\n\n") == "\n";
    LastBreak();
  }

  lemma LastBreak()
    ensures Lines("\n") == [""]
  {
    FirstLine("", "\n");
    assert "" + "\n" == "\n" && AfterBreak("\n") == "";
    NoLine("");
  }

  lemma FrameDispatches(m: string)
    ensures Interpret(FRESH, ["data: " + m, ""]) == [Message(m)]
    ensures Settle(FRESH, ["data: " + m, ""]) == FRESH
  {
    DataLine(FRESH, m);
    var lines := ["data: " + m, ""];
    var b := FRESH.(data := m + "\n");
    assert FRESH.data + m + "\n" == b.data;
    assert lines[1..] == [""] && [""][1..] == [];
    assert b.data[..|b.data| - 1] == m;
    assert Line(b, "") == (FRESH, [Message(m)]);
  }

  lemma {:induction false} FramesInterpret(ms: seq<string>)
    requires AllClean(ms)
    ensures Interpret(FRESH, Lines(Frames(ms))) == Messages(ms)
  {
    hide Lines;
    if ms == [] {
      NoLine("");
    } else {
      var m := ms[0];
      assert m in ms;
      FramesInterpret(ms[1..]);
      LinesConcat(Frame(m), Frames(ms[1..]));
      FrameLines(m);
      FrameDispatches(m);
      InterpretConcat(FRESH, ["data: " + m, ""], Lines(Frames(ms[1..])));
    }
  }

  /** Messages without line breaks are dispatched one event each, in order and unchanged. */
  lemma CleanStreamDecodes(ms: seq<string>)
    requires AllClean(ms)
    ensures Decode(Stream(ms)) == Messages(ms)
  {
    hide Lines;
    GreetingLines(Frames(ms));
    FramesInterpret(ms);
  }

  // ---------- Messages with line breaks do not ----------

  /** The number of data characters in the events. */
  function Weight(es: seq<Event>): nat {
    if es == [] then 0 else |es[0].data| + Weight(es[1..])
  }

  function TotalSize(ms: seq<string>): nat {
    if ms == [] then 0 else |ms[0]| + TotalSize(ms[1..])
  }

  lemma {:induction false} WeightConcat(xs: seq<Event>, ys: seq<Event>)
    ensures Weight(xs + ys) == Weight(xs) + Weight(ys)
    decreases |xs|
  {
    if xs == [] {
      assert xs + ys == ys;
    } else {
      assert (xs + ys)[1..] == xs[1..] + ys;
      WeightConcat(xs[1..], ys);
    }
  }

  lemma {:induction false} WeightOfMessages(ms: seq<string>)
    ensures Weight(Messages(ms)) == TotalSize(ms)
  {
    if ms != [] {
      WeightOfMessages(ms[1..]);
      assert Messages(ms)[1..] == Messages(ms[1..]);
    }
  }

  /** The data characters b already holds, less the line feed that dispatch drops. */
  function Held(b: Buffers): nat { if b.data == "" then 0 else |b.data| - 1 }

  /** One line adds at most its own length to what is held, and less when it continues an event. */
  lemma LineAdds(b: Buffers, line: string)
    ensures line != "" ==> Line(b, line).1 == [] && Held(Line(b, line).0) <= Held(b) + |line|
    ensures line == "" ==> Held(Line(b, line).0) == 0 && Weight(Line(b, line).1) <= |b.data|
                           && (b.data != "" && b.data[|b.data| - 1] == '\n' ==> Weight(Line(b, line).1) == Held(b))
    ensures EndsInLF(b) ==> EndsInLF(Line(b, line).0)
    ensures line == "" ==> Line(b, line).0.data == ""
  {
    if line == "" {
      var (b', es) := Dispatch(b);
      if b.data != "" { assert es[1..] == []; }
    }
  }

  predicate EndsInLF(b: Buffers) { b.data == "" || b.data[|b.data| - 1] == '\n' }

  /** What is left of a text, after some of its lines, plus the two line feeds of the frame. */
  predicate Tail(s: string, t: string) { s == t + "\n\n" || (t == "" && s == "\n") }

  lemma UnbrokenIffClean(t: string)
    ensures Clean(t) <==> LineLength(t) == |t|
  {
    var n := LineLength(t);
    LineIsClean(t);
    CleanConcat(t[..n], t[n..]);
    assert t == t[..n] + t[n..];
  }

  /** The next line of a tail. */
  lemma TailLine(s: string, t: string) returns (line: string, rest: string, s': string, t': string)
    requires Tail(s, t)
    ensures t == "" ==> line == "" && (s' == "\n" || s' == "")
    ensures t != "" ==> Tail(s', t') && |line| + |t'| <= |t| && |t'| < |t|
    ensures t != "" && Clean(t) ==> t' == "" && line == t && s' == "\n"
    ensures t != "" && !Clean(t) ==> |line| + |t'| < |t|
    ensures Clean(line) && s == line + rest && rest != "" && IsBreak(rest[0]) && s' == AfterBreak(rest)
    ensures Lines(s) == [line] + Lines(s')
  {
    hide Lines, Clean;
    var n := LineLength(t);
    LineIsClean(t);
    UnbrokenIffClean(t);
    line := t[..n];
    if n < |t| {
      rest, t' := t[n..] + "\n\n", AfterBreak(t[n..]);
      AfterBreakTail(t[n..]);
      assert s == line + rest;
    } else {
      rest, t' := s[n..], "";
      assert line == t && s == line + rest;
    }
    s' := AfterBreak(rest);
    FirstLine(line, rest);
  }

  lemma AfterBreakTail(r: string)
    requires r != "" && IsBreak(r[0])
    ensures Tail(AfterBreak(r + "\n\n"), AfterBreak(r))
  {
    if r == "\r" {
      assert AfterBreak("\r" + "\n\n") == "\n";
    } else {
      assert AfterBreak(r + "\n\n") == AfterBreak(r) + "\n\n";
    }
  }

  /** Reading the rest of a frame dispatches no more data characters than are held and left, and holds nothing after. */
  lemma {:induction false} TailWeight(b: Buffers, s: string, t: string)
    requires Tail(s, t) && EndsInLF(b)
    ensures Weight(Interpret(b, Lines(s))) <= Held(b) + |t|
    ensures Settle(b, Lines(s)).data == ""
    decreases |s|
  {
    hide Lines, Tail, Line, Clean, EndsInLF;
    var line, rest, s', t' := TailLine(s, t);
    LineAdds(b, line);
    var (b', es) := Line(b, line);
    assert Lines(s)[1..] == Lines(s');
    WeightConcat(es, Interpret(b', Lines(s')));
    HeldBound(b);
    if t != "" {
      TailShrinks(s, t, s', t');
      TailWeight(b', s', t');
    } else {
      BlankTail(b', s');
    }
  }

  lemma HeldBound(b: Buffers)
    requires EndsInLF(b)
    ensures b.data != "" ==> b.data[|b.data| - 1] == '\n'
  {}

  lemma TailShrinks(s: string, t: string, s': string, t': string)
    requires Tail(s, t) && Tail(s', t') && |t'| < |t|
    ensures |s'| < |s|
  {}

  lemma BlankTail(b: Buffers, s: string)
    requires b.data == "" && (s == "\n" || s == "")
    ensures Weight(Interpret(b, Lines(s))) == 0 && Settle(b, Lines(s)).data == ""
  {
    hide Lines;
    if s == "" {
      NoLine("");
    } else {
      FirstLine("", "\n");
      assert "" + "\n" == "\n" && AfterBreak("\n") == "";
      NoLine("");
    }
  }

  /** A frame yields at most its message's length of data, and strictly less when the message has a line break. */
  lemma FrameWeight(b: Buffers, m: string)
    requires b.data == ""
    ensures Weight(Interpret(b, Lines(Frame(m)))) <= |m|
    ensures !Clean(m) ==> Weight(Interpret(b, Lines(Frame(m)))) < |m|
    ensures Settle(b, Lines(Frame(m))).data == ""
  {
    hide Lines, Clean;
    var line, rest, s', t' := TailLine(m + "\n\n", m);
    CleanDataLine(line);
    FirstLine("data: " + line, rest);
    var text := m + "\n\n";
    assert Frame(m) == "data: " + text;
    assert "data: " + (line + rest) == ("data: " + line) + rest;
    DataLine(b, line);
    var b' := b.(data := b.data + line + "\n");
    var lines := Lines(Frame(m));
    assert lines == ["data: " + line] + Lines(s') && lines[1..] == Lines(s');
    assert Interpret(b, lines) == [] + Interpret(b', Lines(s')) == Interpret(b', Lines(s'));
    assert Held(b') == |line|;
    if m == "" {
      FrameLines(m) by { assert Clean(""); }
      EmptyFrame(b);
    } else {
      TailWeight(b', s', t');
    }
  }

  lemma EmptyFrame(b: Buffers)
    requires b.data == ""
    ensures Weight(Interpret(b, ["data: ", ""])) == 0 && Settle(b, ["data: ", ""]).data == ""
  {
    var lines := ["data: ", ""];
    assert "data: " + "" == "data: ";
    DataLine(b, "");
    assert lines[1..] == [""] && [""][1..] == [];
    var b' := b.(data := "\n");
    assert b.data + "" + "\n" == "\n";
    var es := Line(b', "").1;
    assert es[0].data == "" && es[1..] == [];
    assert es + [] == es;
  }

  lemma {:induction false} FramesWeight(b: Buffers, ms: seq<string>)
    requires b.data == ""
    ensures Weight(Interpret(b, Lines(Frames(ms)))) <= TotalSize(ms)
    ensures !AllClean(ms) ==> Weight(Interpret(b, Lines(Frames(ms)))) < TotalSize(ms)
    decreases |ms|
  {
    hide Lines, Clean;
    if ms == [] {
      NoLine("");
    } else {
      var first, rest := Lines(Frame(ms[0])), Lines(Frames(ms[1..]));
      LinesConcat(Frame(ms[0]), Frames(ms[1..]));
      InterpretConcat(b, first, rest);
      FrameWeight(b, ms[0]);
      WeightConcat(Interpret(b, first), Interpret(Settle(b, first), rest));
      FramesWeight(Settle(b, first), ms[1..]);
      assert AllClean(ms) <==> Clean(ms[0]) && AllClean(ms[1..]) by {
        if Clean(ms[0]) && AllClean(ms[1..]) {
          forall m | m in ms ensures Clean(m) { assert m == ms[0] || m in ms[1..]; }
        }
        if AllClean(ms) {
          var m := ms[0];
          assert m in ms;
        }
      }
    }
  }

  /**
   Single-line framing is faithful exactly for messages without line breaks: the
   stream is read back as the messages sent, one event each, if and only if no
   message holds a carriage return or a line feed.
   */
  lemma FaithfulIffClean(ms: seq<string>)
    ensures Decode(Stream(ms)) == Messages(ms) <==> AllClean(ms)
  {
    hide Lines;
    if AllClean(ms) {
      CleanStreamDecodes(ms);
    } else {
      GreetingLines(Frames(ms));
      FramesWeight(FRESH, ms);
      WeightOfMessages(ms);
    }
  }

  /** The counterexample in the small: a line break splits a message, and the second half is lost. */
  lemma LineBreakLosesText()
    ensures Decode(Stream(["a\nb"])) != Messages(["a\nb"])
  {
    var m := "a\nb";
    FaithfulIffClean([m]);
    assert m in [m] && m[1..] == "\nb";
  }

  /** Any cutting of the stream into chunks is read the same way. */
  lemma CleanChunksDecode(ms: seq<string>, chunks: seq<string>)
    requires AllClean(ms) && Flatten(chunks) == Stream(ms)
    ensures ReadAll(READY, chunks) == Messages(ms)
  {
    ChunkingIsInvisible(chunks);
    CleanStreamDecodes(ms);
  }

  // ---------- The Python server: one data line per line of the message ----------

  /** What publish_to_all writes to a subscriber for the lines of one message. */
  function LinesFrame(lines: seq<string>): string {
    if lines == [] then "\n\n" else "data: " + lines[0] + "\n" + LinesFrame(lines[1..])
  }

  function LinesFrames(posts: seq<seq<string>>): string {
    if posts == [] then "" else LinesFrame(posts[0]) + LinesFrames(posts[1..])
  }

  /** The lines joined by line feeds. */
  function Join(lines: seq<string>): string {
    if lines == [] then ""
    else if |lines| == 1 then lines[0]
    else lines[0] + "\n" + Join(lines[1..])
  }

  /** One event per message with at least one line; a message without lines dispatches nothing. */
  function Posted(posts: seq<seq<string>>): seq<Event> {
    if posts == [] then []
    else (if posts[0] == [] then [] else [Message(Join(posts[0]))]) + Posted(posts[1..])
  }

  lemma {:induction false} LinesFrameEnds(lines: seq<string>)
    ensures LinesFrame(lines) != "" && LinesFrame(lines)[|LinesFrame(lines)| - 1] == '\n'
  {
    if lines != [] { LinesFrameEnds(lines[1..]); }
  }

  /** Reading a frame of clean lines, with some data already held. */
  lemma {:induction false} LinesFrameReads(b: Buffers, lines: seq<string>)
    requires AllClean(lines) && EndsInLF(b)
    ensures var text := LinesFrame(lines);
            var data := b.data + (if lines == [] then "" else Join(lines) + "\n");
            && Interpret(b, Lines(text)) == Dispatch(b.(data := data)).1
            && Settle(b, Lines(text)) == Dispatch(b.(data := data)).0
    decreases |lines|
  {
    hide Lines, Clean;
    if lines == [] {
      BlankLines(b);
      assert b.data + "" == b.data && b.(data := b.data) == b;
    } else {
      var line, more := lines[0], lines[1..];
      assert line in lines;
      assert forall l :: l in more ==> l in lines;
      CleanDataLine(line);
      DataLine(b, line);
      var b' := b.(data := b.data + line + "\n");
      LinesFrameReads(b', more);
      var rest := "\n" + LinesFrame(more);
      assert LinesFrame(lines) == ("data: " + line) + rest;
      FirstLine("data: " + line, rest);
      LinesFrameEnds(more);
      AfterLF(LinesFrame(more));
      var all := Lines(LinesFrame(lines));
      assert all[1..] == Lines(LinesFrame(more));
      JoinStep(b.data, lines);
    }
  }

  lemma AfterLF(s: string)
    ensures AfterBreak("\n" + s) == s
  {}

  lemma JoinStep(data: string, lines: seq<string>)
    requires lines != []
    ensures data + (Join(lines) + "\n") ==
            (data + lines[0] + "\n") + (if lines[1..] == [] then "" else Join(lines[1..]) + "\n")
  {}

  lemma BlankLines(b: Buffers)
    ensures Interpret(b, Lines("\n\n")) == Dispatch(b).1 && Settle(b, Lines("\n\n")) == Dispatch(b).0
  {
    hide Lines;
    assert Clean("");
    FirstLine("", "\n\n");
    assert "" + "\n\n" == "\n\n" && AfterBreak("\n\n") == "\n";
    FirstLine("", "\n");
    assert "" + "\n" == "\n" && AfterBreak("\n") == "";
    NoLine("");
    var lines := ["", ""];
    assert Lines("\n\n") == lines && lines[1..] == [""] && [""][1..] == [];
    var (b', es) := Dispatch(b);
    assert Dispatch(b') == (b', []);
    assert Interpret(b', [""]) == [] && es + [] == es;
  }

  lemma {:induction false} LinesFramesRead(posts: seq<seq<string>>)
    requires forall post :: post in posts ==> AllClean(post)
    ensures Interpret(FRESH, Lines(LinesFrames(posts))) == Posted(posts)
  {
    hide Lines, AllClean;
    if posts == [] {
      NoLine("");
    } else {
      var post := posts[0];
      assert post in posts;
      LinesFramesRead(posts[1..]);
      LinesFrameEnds(post);
      LinesConcat(LinesFrame(post), LinesFrames(posts[1..]));
      LinesFrameReads(FRESH, post);
      InterpretConcat(FRESH, Lines(LinesFrame(post)), Lines(LinesFrames(posts[1..])));
      var data := FRESH.data + (if post == [] then "" else Join(post) + "\n");
      assert data == (if post == [] then "" else Join(post) + "\n");
      if post != [] { assert data[..|data| - 1] == Join(post); }
    }
  }

  /**
   The Python stream: whatever was posted, under any cutting into chunks, each
   message with at least one line is dispatched as one event whose data is its
   lines joined by line feeds, in order, and the others dispatch nothing.
   */
  lemma LinesStreamDecodes(posts: seq<seq<string>>, chunks: seq<string>)
    requires forall post :: post in posts ==> AllClean(post)
    requires Flatten(chunks) == GREETING + LinesFrames(posts)
    ensures ReadAll(READY, chunks) == Posted(posts)
  {
    hide Lines, AllClean;
    ChunkingIsInvisible(chunks);
    GreetingLines(LinesFrames(posts));
    LinesFramesRead(posts);
  }
}
