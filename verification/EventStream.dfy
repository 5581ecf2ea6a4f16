/**
 The interpreter of an event stream, after sections 9.2.5 and 9.2.6 of the HTML
 Standard: what a browser's EventSource dispatches for the characters it reads.
 */
module EventStream {
  import opened Sequences
  import Text

  /** A dispatched MessageEvent: its type, data and lastEventId. */
  datatype Event = Event(kind: string, data: string, id: string)

  /** The data buffer, event type buffer, last event ID buffer and reconnection time. */
  datatype Buffers = Buffers(data: string, kind: string, id: string, retry: string)

  const FRESH := Buffers("", "", "", "")
  const BOM: char := '\U{FEFF}'

  predicate IsBreak(c: char) { c == '\n' || c == '\r' }

  /** No carriage return and no line feed. */
  predicate Clean(s: string) {
    s == "" || (!IsBreak(s[0]) && Clean(s[1..]))
  }

  /** The characters before the first line break. */
  function LineLength(s: string): (n: nat)
    ensures n <= |s| && (n < |s| ==> IsBreak(s[n]))
  {
    if s == "" || IsBreak(s[0]) then 0 else 1 + LineLength(s[1..])
  }

  /** What follows the line break at the front of s; a CRLF pair is one break. */
  function AfterBreak(s: string): (t: string)
    requires s != "" && IsBreak(s[0])
    ensures |t| < |s|
  {
    if s[0] == '\r' && |s| > 1 && s[1] == '\n' then s[2..] else s[1..]
  }

  /** The lines of s that are ended by a line break. */
  function Lines(s: string): seq<string>
    decreases |s|
  {
    var n := LineLength(s);
    if n == |s| then [] else [s[..n]] + Lines(AfterBreak(s[n..]))
  }

  function Field(b: Buffers, name: string, value: string): Buffers {
    if name == "event" then b.(kind := value)
    else if name == "data" then b.(data := b.data + value + "\n")
    else if name == "id" then (if '\0' in value then b else b.(id := value))
    else if name == "retry" && value != "" && Text.AllDigits(value) then b.(retry := value)
    else b
  }

  /** The field name is what precedes the first colon. */
  function NameLength(line: string): (n: nat)
    ensures n <= |line|
  {
    if line == "" || line[0] == ':' then 0 else 1 + NameLength(line[1..])
  }

  /** The field value is what follows the colon, without one leading space. */
  function Value(rest: string): string {
    if rest != "" && rest[0] == ' ' then rest[1..] else rest
  }

  function Dispatch(b: Buffers): (Buffers, seq<Event>) {
    var b' := b.(data := "", kind := "");
    if b.data == "" then (b', [])
    else
      var data := if b.data[|b.data| - 1] == '\n' then b.data[..|b.data| - 1] else b.data;
      (b', [Event(if b.kind == "" then "message" else b.kind, data, b.id)])
  }

  /** The effect of one line. */
  function Line(b: Buffers, line: string): (Buffers, seq<Event>) {
    if line == "" then Dispatch(b)
    else
      var n := NameLength(line);
      if n == 0 then (b, [])
      else if n == |line| then (Field(b, line, ""), [])
      else (Field(b, line[..n], Value(line[n + 1..])), [])
  }

  function Interpret(b: Buffers, lines: seq<string>): seq<Event>
    decreases |lines|
  {
    if lines == [] then []
    else
      var (b', events) := Line(b, lines[0]);
      events + Interpret(b', lines[1..])
  }

  function Settle(b: Buffers, lines: seq<string>): Buffers
    decreases |lines|
  {
    if lines == [] then b else Settle(Line(b, lines[0]).0, lines[1..])
  }

  /** The events of a whole stream. */
  function Decode(s: string): seq<Event> {
    Interpret(FRESH, Lines(if s != "" && s[0] == BOM then s[1..] else s))
  }

  lemma {:induction false} InterpretConcat(b: Buffers, xs: seq<string>, ys: seq<string>)
    ensures Interpret(b, xs + ys) == Interpret(b, xs) + Interpret(Settle(b, xs), ys)
    ensures Settle(b, xs + ys) == Settle(Settle(b, xs), ys)
    decreases |xs|
  {
    if xs == [] {
      assert xs + ys == ys;
    } else {
      assert (xs + ys)[1..] == xs[1..] + ys;
      InterpretConcat(Line(b, xs[0]).0, xs[1..], ys);
    }
  }

  lemma {:induction false} LineIsClean(s: string)
    ensures Clean(s[..LineLength(s)])
  {
    if s != "" && !IsBreak(s[0]) {
      LineIsClean(s[1..]);
      assert s[..LineLength(s)][1..] == s[1..][..LineLength(s[1..])];
    }
  }

  lemma {:induction false} CleanConcat(s: string, t: string)
    ensures Clean(s + t) <==> Clean(s) && Clean(t)
  {
    if s == "" {
      assert s + t == t;
    } else {
      assert (s + t)[1..] == s[1..] + t;
      CleanConcat(s[1..], t);
    }
  }

  lemma {:induction false} CleanLineLength(s: string, t: string)
    requires Clean(s)
    ensures LineLength(s + t) == |s| + LineLength(t)
  {
    if s == "" {
      assert s + t == t;
    } else {
      assert (s + t)[1..] == s[1..] + t;
      CleanLineLength(s[1..], t);
    }
  }

  /** A line is read back whole. */
  lemma FirstLine(line: string, rest: string)
    requires Clean(line) && rest != "" && IsBreak(rest[0])
    ensures Lines(line + rest) == [line] + Lines(AfterBreak(rest))
  {
    CleanLineLength(line, rest);
    assert (line + rest)[..|line|] == line && (line + rest)[|line|..] == rest;
  }

  lemma NoLine(s: string)
    requires s == "" || Clean(s)
    ensures Lines(s) == []
  {
    CleanLineLength(s, "");
    assert s + "" == s;
  }

  lemma EndsInBreak(s: string)
    requires s != "" && IsBreak(s[|s| - 1])
    ensures LineLength(s) < |s|
  {
    LineIsClean(s);
    CleanConcat(s[..|s| - 1], [s[|s| - 1]]);
    assert s[..|s| - 1] + [s[|s| - 1]] == s == s[..|s|];
  }

  lemma AfterBreakConcat(rest: string, t: string)
    requires rest != "" && IsBreak(rest[0]) && rest[|rest| - 1] == '\n'
    ensures AfterBreak(rest + t) == AfterBreak(rest) + t
    ensures AfterBreak(rest) == "" || AfterBreak(rest)[|AfterBreak(rest)| - 1] == '\n'
  {}

  lemma FirstLineOf(s: string, t: string)
    requires s != "" && s[|s| - 1] == '\n'
    ensures var n := LineLength(s);
            && n < |s| && IsBreak(s[n])
            && Lines(s + t) == [s[..n]] + Lines(AfterBreak(s[n..] + t))
  {
    EndsInBreak(s);
    LineIsClean(s);
    hide Clean, LineLength, Lines, AfterBreak;
    var n := LineLength(s);
    assert s + t == s[..n] + (s[n..] + t);
    FirstLine(s[..n], s[n..] + t);
  }

  lemma SplitFirst(s: string, t: string) returns (line: string, after: string)
    requires s != "" && s[|s| - 1] == '\n'
    ensures |after| < |s| && (after == "" || after[|after| - 1] == '\n')
    ensures Lines(s) == [line] + Lines(after)
    ensures Lines(s + t) == [line] + Lines(after + t)
  {
    hide Lines, LineLength;
    FirstLineOf(s, t);
    FirstLineOf(s, "");
    var rest := s[LineLength(s)..];
    line, after := s[..LineLength(s)], AfterBreak(rest);
    AfterBreakConcat(rest, t);
    assert s + "" == s && rest + "" == rest;
  }

  /** A text that ends in a line feed splits off the lines that follow it. */
  lemma {:induction false} LinesConcat(s: string, t: string)
    requires s == "" || s[|s| - 1] == '\n'
    ensures Lines(s + t) == Lines(s) + Lines(t)
    decreases |s|
  {
    hide Lines, Clean;
    if s == "" {
      NoLine(s);
      assert s + t == t;
    } else {
      var line, after := SplitFirst(s, t);
      LinesConcat(after, t);
      assert [line] + (Lines(after) + Lines(t)) == ([line] + Lines(after)) + Lines(t);
    }
  }

  lemma {:induction false} NameBeforeColon(name: string, rest: string)
    requires ':' !in name && rest != "" && rest[0] == ':'
    ensures NameLength(name + rest) == |name|
  {
    if name == "" {
      assert name + rest == rest;
    } else {
      assert (name + rest)[1..] == name[1..] + rest;
      NameBeforeColon(name[1..], rest);
    }
  }

  // ---------- Reading in chunks ----------

  /** A reader between chunks: the unfinished line, and whether a line feed is to be skipped. */
  datatype Reader = Reader(buffers: Buffers, pending: string, skipLF: bool, started: bool)

  const READY := Reader(FRESH, "", false, false)

  function ReadChar(r: Reader, c: char): (Reader, seq<Event>) {
    if !r.started && c == BOM then (r.(started := true), [])
    else if r.skipLF && c == '\n' then (r.(skipLF := false, started := true), [])
    else if IsBreak(c) then
      var (b, events) := Line(r.buffers, r.pending);
      (Reader(b, "", c == '\r', true), events)
    else (r.(pending := r.pending + [c], skipLF := false, started := true), [])
  }

  function Read(r: Reader, chunk: string): (Reader, seq<Event>)
    decreases |chunk|
  {
    if chunk == "" then (r, [])
    else
      var (r', events) := ReadChar(r, chunk[0]);
      var (r'', events') := Read(r', chunk[1..]);
      (r'', events + events')
  }

  /** The events dispatched while the chunks arrive one after the other. */
  function ReadAll(r: Reader, chunks: seq<string>): seq<Event>
    decreases |chunks|
  {
    if chunks == [] then []
    else
      var (r', events) := Read(r, chunks[0]);
      events + ReadAll(r', chunks[1..])
  }

  lemma {:induction false} ReadConcat(r: Reader, s: string, t: string)
    ensures Read(r, s + t) == (Read(Read(r, s).0, t).0, Read(r, s).1 + Read(Read(r, s).0, t).1)
    decreases |s|
  {
    hide ReadChar;
    if s == "" {
      assert s + t == t;
      var (r2, e2) := Read(r, t);
      assert [] + e2 == e2;
    } else {
      assert (s + t)[1..] == s[1..] + t && (s + t)[0] == s[0];
      var (r1, e1) := ReadChar(r, s[0]);
      ReadConcat(r1, s[1..], t);
      var (r2, e2) := Read(r1, s[1..]);
      var (r3, e3) := Read(r2, t);
      assert Read(r, s) == (r2, e1 + e2);
      assert Read(r, s + t) == (r3, e1 + (e2 + e3));
      assert e1 + (e2 + e3) == (e1 + e2) + e3;
    }
  }

  lemma {:induction false} ReadAllIsRead(r: Reader, chunks: seq<string>)
    ensures ReadAll(r, chunks) == Read(r, Flatten(chunks)).1
    decreases |chunks|
  {
    if chunks != [] {
      ReadAllIsRead(Read(r, chunks[0]).0, chunks[1..]);
      ReadConcat(r, chunks[0], Flatten(chunks[1..]));
    }
  }

  /** What the reader still has to split into lines. */
  function Unread(r: Reader, s: string): string {
    r.pending + if r.skipLF && s != "" && s[0] == '\n' then s[1..] else s
  }

  lemma AfterBreakUnread(r: Reader, s: string)
    requires s != "" && IsBreak(s[0]) && r.pending == "" && r.skipLF == (s[0] == '\r')
    ensures Unread(r, s[1..]) == AfterBreak(s)
  {}

  /** The reader, from any point within the stream, dispatches what the lines still to come say. */
  lemma {:induction false} ReadIsInterpret(r: Reader, s: string)
    requires r.started && Clean(r.pending) && (r.skipLF ==> r.pending == "")
    ensures Read(r, s).1 == Interpret(r.buffers, Lines(Unread(r, s)))
    decreases |s|
  {
    hide Lines, Line;
    if s == "" {
      assert Unread(r, s) == r.pending;
      NoLine(r.pending);
    } else {
      var (r', events) := ReadChar(r, s[0]);
      if r.skipLF && s[0] == '\n' {
        ReadIsInterpret(r', s[1..]);
      } else if IsBreak(s[0]) {
        ReadIsInterpret(r', s[1..]);
        FirstLine(r.pending, s);
        AfterBreakUnread(r', s);
        assert Lines(Unread(r, s)) == [r.pending] + Lines(AfterBreak(s));
      } else {
        CleanConcat(r.pending, [s[0]]);
        ReadIsInterpret(r', s[1..]);
        assert Unread(r, s) == Unread(r', s[1..]);
      }
    }
  }

  /** However a stream is cut into chunks, the same events are dispatched. */
  lemma ChunkingIsInvisible(chunks: seq<string>)
    ensures ReadAll(READY, chunks) == Decode(Flatten(chunks))
  {
    ReadAllIsRead(READY, chunks);
    var s := Flatten(chunks);
    var begun := READY.(started := true);
    if s != "" {
      if s[0] == BOM {
        ReadIsInterpret(begun, s[1..]);
        assert Unread(begun, s[1..]) == s[1..];
      } else {
        assert ReadChar(READY, s[0]) == ReadChar(begun, s[0]);
        ReadIsInterpret(begun, s);
        assert Unread(begun, s) == s;
      }
    }
  }
}
