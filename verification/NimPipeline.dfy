/** What the Nim request loop makes of requests printed back to back. */
module NimPipeline {
  import opened Sequences
  import opened Text
  import opened EventStream
  import opened NimRequests
  import H = HttpScanner

  // ---------- Lines ----------

  lemma LineReceived(line: string, rest: string)
    requires Clean(line) && line != ""
    ensures RecvLine(line + ("\r\n" + rest)) == (line, rest)
  {
    var s := line + ("\r\n" + rest);
    CleanLineLength(line, "\r\n" + rest);
    assert s[..|line|] == line && s[|line|..] == "\r\n" + rest;
    assert ("\r\n" + rest)[2..] == rest;
  }

  lemma BlankReceived(rest: string)
    ensures RecvLine("\r\n" + rest) == ("\r\n", rest)
  {
    var s := "\r\n" + rest;
    assert s[0..] == s && s[2..] == rest;
  }

  lemma SplitAt(word: string, rest: string)
    requires Free(word, {' '})
    ensures Split(word + (" " + rest)) == [word] + Split(rest)
  {
    UntilAfter(word, " " + rest, {' '});
    assert (" " + rest)[1..] == rest;
  }

  lemma SplitOne(word: string)
    requires Free(word, {' '})
    ensures Split(word) == [word]
  {
    UntilIs(word, {' '}, |word|);
  }

  lemma SplitThree(a: string, b: string, c: string)
    requires Free(a, {' '}) && Free(b, {' '}) && Free(c, {' '})
    ensures Split(a + (" " + (b + (" " + c)))) == [a, b, c]
  {
    hide Split, Free;
    SplitAt(a, b + (" " + c));
    SplitAt(b, c);
    SplitOne(c);
  }

  // ---------- Headers ----------

  lemma {:induction false} BlanksOne(value: string)
    requires value != "" ==> !IsSpace(value[0])
    ensures Blanks(" " + value) == 1 && (" " + value)[1..] == value
  {
    assert (" " + value)[1..] == value;
  }

  lemma {:induction false} CleanFree(s: string)
    requires Clean(s)
    ensures Free(s, {'\r', '\n'})
  {
    if s != "" { CleanFree(s[1..]); }
  }

  lemma HeaderParsed(h: H.Header)
    requires HeaderOk(h)
    ensures ParseHeader(h.name + (": " + h.value)) == Some((h.name, h.value))
  {
    hide Clean, Blanks, Until;
    UntilAfter(h.name, ": " + h.value, {':'});
    assert (": " + h.value)[1..] == " " + h.value;
    BlanksOne(h.value);
    CleanFree(h.value);
    UntilIs(h.value, {'\r', '\n'}, |h.value|);
    assert h.value[..|h.value|] == h.value;
  }

  lemma HeaderLineClean(h: H.Header)
    requires HeaderOk(h)
    ensures Clean(h.name + (": " + h.value)) && h.name + (": " + h.value) != "" && h.name + (": " + h.value) != "\r\n"
  {
    var line := h.name + (": " + h.value);
    assert ": "[1..] == " " && " "[1..] == "" && Clean(": ");
    CleanConcat(": ", h.value);
    CleanConcat(h.name, ": " + h.value);
    CleanFree(line);
    assert line[|h.name|] == ':';
  }

  lemma HeaderRead(h: H.Header, more: string, headers: Headers)
    requires HeaderOk(h)
    ensures ReadHeaders(h.name + (": " + h.value) + ("\r\n" + more), headers) ==
            ReadHeaders(more, headers[ToLower(h.name) := h.value])
  {
    hide Clean, RecvLine, ParseHeader, ToLower, HeaderOk;
    HeaderLineClean(h);
    HeaderParsed(h);
    LineReceived(h.name + (": " + h.value), more);
  }

  lemma HeaderThenMore(h: H.Header, headers: string, rest: string)
    ensures h.name + ": " + h.value + "\r\n" + headers + ("\r\n" + rest) ==
            h.name + (": " + h.value) + ("\r\n" + (headers + ("\r\n" + rest)))
  {}

  /** Reading headers undoes printing them. */
  lemma {:induction false} HeadersRead(hs: seq<H.Header>, rest: string, headers: Headers)
    requires HeadersOk(hs)
    ensures ReadHeaders(H.PrintHeaders(hs) + ("\r\n" + rest), headers) == Block(Table(hs, headers), rest)
    decreases |hs|
  {
    if hs == [] {
      assert H.PrintHeaders(hs) + ("\r\n" + rest) == "\r\n" + rest;
      BlankReceived(rest);
    } else {
      hide ReadHeaders, HeaderOk, ToLower;
      var h := hs[0];
      HeaderThenMore(h, H.PrintHeaders(hs[1..]), rest);
      HeaderRead(h, H.PrintHeaders(hs[1..]) + ("\r\n" + rest), headers);
      HeadersRead(hs[1..], rest, headers[ToLower(h.name) := h.value]);
    }
  }

  /** The last header of a name decides. */
  lemma {:induction false} LastValueWins(hs: seq<H.Header>, headers: Headers, i: nat, key: string)
    requires i < |hs| && H.LastNamed(hs, i, key)
    ensures key in Table(hs, headers) && Table(hs, headers)[key] == hs[i].value
    decreases |hs|
  {
    var more := hs[1..];
    if i > 0 {
      assert more[i - 1] == hs[i] && forall j :: i <= j < |more| ==> more[j] == hs[j + 1];
      LastValueWins(more, headers[ToLower(hs[0].name) := hs[0].value], i - 1, key);
    } else {
      assert forall j :: 0 <= j < |more| ==> more[j] == hs[j + 1];
      OthersKeep(more, headers[key := hs[0].value], key);
    }
  }

  lemma {:induction false} OthersKeep(hs: seq<H.Header>, headers: Headers, key: string)
    requires key in headers && forall j :: 0 <= j < |hs| ==> ToLower(hs[j].name) != key
    ensures key in Table(hs, headers) && Table(hs, headers)[key] == headers[key]
    decreases |hs|
  {
    if hs != [] {
      assert forall j :: 0 <= j < |hs| - 1 ==> hs[1..][j] == hs[j + 1];
      OthersKeep(hs[1..], headers[ToLower(hs[0].name) := hs[0].value], key);
    }
  }

  // ---------- Numbers ----------

  /** The value of digits, from the left. */
  function Fold(digits: string, acc: int): int
    requires AllDigits(digits)
  {
    if digits == "" then acc else Fold(digits[1..], 10 * acc + DigitValue(digits[0]))
  }

  lemma {:induction false} FoldLast(digits: string, d: char, acc: int)
    requires AllDigits(digits) && IsDigit(d)
    ensures AllDigits(digits + [d]) && Fold(digits + [d], acc) == 10 * Fold(digits, acc) + DigitValue(d)
    decreases |digits|
  {
    var all := digits + [d];
    if digits == "" {
      assert all == [d] && all[1..] == "";
    } else {
      assert all[1..] == digits[1..] + [d];
      FoldLast(digits[1..], d, 10 * acc + DigitValue(digits[0]));
    }
  }

  lemma {:induction false} FoldIsValue(digits: string)
    requires AllDigits(digits)
    ensures Fold(digits, 0) == Text.Value(digits)
    decreases |digits|
  {
    if digits != "" {
      var n := |digits| - 1;
      FoldIsValue(digits[..n]);
      FoldLast(digits[..n], digits[n], 0);
      assert digits[..n] + [digits[n]] == digits;
    }
  }

  predicate EndsNumber(rest: string) { rest != "" ==> !IsDigit(rest[0]) && rest[0] != '_' }

  lemma {:induction false} DigitsScanned(digits: string, rest: string, acc: int)
    requires AllDigits(digits) && EndsNumber(rest)
    ensures ScanInt(digits + rest, acc) == (Fold(digits, acc), |digits|)
    decreases |digits|
  {
    if digits == "" {
      assert digits + rest == rest;
    } else {
      var s := digits + rest;
      assert s[1..] == digits[1..] + rest;
      assert Underscores(s[1..]) == 0 by { if |digits| > 1 { assert IsDigit(s[1]); } else { assert s[1..] == rest; } }
      DigitsScanned(digits[1..], rest, 10 * acc + DigitValue(digits[0]));
    }
  }

  lemma NumberParsed(n: nat, rest: string)
    requires EndsNumber(rest)
    ensures ParseInt(Decimal(n) + rest) == (n, |Decimal(n)|) && |Decimal(n)| > 0
  {
    hide ScanInt;
    var d := Decimal(n);
    assert IsDigit(d[0]) && (d + rest)[0] == d[0];
    DigitsScanned(d, rest, 0);
    FoldIsValue(d);
    ValueOfDecimal(n);
  }

  lemma VersionParsed(major: nat, minor: nat)
    ensures ParseProtocol(PrintVersion(major, minor)) == Version(major, minor)
  {
    hide ParseInt, Decimal;
    var p := PrintVersion(major, minor);
    var tail := Decimal(major) + ("." + Decimal(minor));
    assert p[..5] == "HTTP/" && p[5..] == tail;
    assert ToLower("HTTP/") == "http/";
    NumberParsed(major, "." + Decimal(minor));
    NumberParsed(minor, "");
    assert Decimal(minor) + "" == Decimal(minor);
    assert p[5 + |Decimal(major)| + 1..] == Decimal(minor);
  }

  lemma {:induction false} PlainIsWord(s: string)
    requires forall i :: 0 <= i < |s| ==> s[i] != ' ' && !IsBreak(s[i])
    ensures Word(s)
    decreases |s|
  {
    if s != "" { PlainIsWord(s[1..]); }
  }

  /** Plain text is a header name and value, a method and a path. */
  lemma PlainHeader(h: H.Header)
    requires forall i :: 0 <= i < |h.name| ==> h.name[i] != ' ' && h.name[i] != ':' && !IsBreak(h.name[i])
    requires forall i :: 0 <= i < |h.value| ==> h.value[i] != ' ' && !IsBreak(h.value[i]) && !IsSpace(h.value[i])
    ensures HeaderOk(h)
  {
    PlainIsWord(h.name);
    PlainIsWord(h.value);
  }

  lemma VersionIsWord(major: nat, minor: nat)
    ensures Word(PrintVersion(major, minor))
  {
    PlainIsWord(PrintVersion(major, minor));
  }

  // ---------- One request ----------

  lemma LengthRead(hs: seq<H.Header>, n: nat)
    requires DeclaresLength(hs, n)
    ensures var table := Table(hs, map[]);
            "content-length" in table && ParseInt(table["content-length"]) == (n, |Decimal(n)|) && |Decimal(n)| > 0
  {
    hide ParseInt, Decimal;
    var i :| 0 <= i < |hs| && H.LastNamed(hs, i, "content-length") && hs[i].value == Decimal(n);
    LastValueWins(hs, map[], i, "content-length");
    NumberParsed(n, "");
    assert Decimal(n) + "" == Decimal(n);
  }

  lemma {:induction false} NormalizeLowers(s: string)
    ensures Normalize(s) == ToLower(WithoutUnderscores(s))
  {
    if s != "" {
      NormalizeLowers(s[1..]);
      var more := WithoutUnderscores(s[1..]);
      if s[0] != '_' { assert ToLower([s[0]] + more) == [Lower(s[0])] + ToLower(more); }
    }
  }

  /** normalize compares as text in any case, underscores left out. */
  lemma NormalizeIff(s: string, name: string)
    ensures Normalize(s) == ToLower(name) <==> SameText(WithoutUnderscores(s), name)
  {
    NormalizeLowers(s);
    hide ToLower, SameText;
    SameTextIff(WithoutUnderscores(s), name);
  }

  lemma MethodsLower()
    ensures ToLower("GET") == "get" && ToLower("POST") == "post" && ToLower("HEAD") == "head"
    ensures ToLower("PUT") == "put" && ToLower("DELETE") == "delete" && ToLower("TRACE") == "trace"
    ensures ToLower("OPTIONS") == "options" && ToLower("CONNECT") == "connect" && ToLower("PATCH") == "patch"
  {}

  /** The callback's methods are the nine. */
  lemma KnownIff(verb: string)
    ensures Known(verb) <==> Normalize(verb) in METHODS
    ensures Normalize(verb) == "post" ==> Known(verb)
  {
    MethodsLower();
    hide Normalize, ToLower, SameText, WithoutUnderscores;
    NormalizeIff(verb, "GET");
    NormalizeIff(verb, "POST");
    NormalizeIff(verb, "HEAD");
    NormalizeIff(verb, "PUT");
    NormalizeIff(verb, "DELETE");
    NormalizeIff(verb, "TRACE");
    NormalizeIff(verb, "OPTIONS");
    NormalizeIff(verb, "CONNECT");
    NormalizeIff(verb, "PATCH");
  }

  /** The events of a round on a request: the callback, or the refusal of a method that is not known. */
  ghost function EventsOf(r: Request): seq<Effect> {
    if Known(r.verb) then Events(Seen(r)) else [BadRequest]
  }

  /** The loop's round on a request whose head has been read. */
  lemma ServePrinted(r: Request, rest: string)
    requires Framed(r)
    ensures Serve(r.verb, r.path, PrintVersion(r.major, r.minor), Table(r.headers, map[]), r.body + rest) ==
            if Keeps(r) then Next(EventsOf(r), LeftOver(r) + rest) else Stop(EventsOf(r), Closed)
  {
    hide ParseInt, Decimal, Table, Normalize, ParseProtocol, PrintVersion, Expectation, Known;
    KnownIff(r.verb);
    VersionParsed(r.major, r.minor);
    if Normalize(r.verb) == "post" {
      assert (r.body + rest)[..|r.body|] == r.body && (r.body + rest)[|r.body|..] == "" + rest;
      LengthRead(r.headers, |r.body|);
    }
  }

  lemma RequestLineRead(r: Request, more: string)
    requires Framed(r)
    ensures var line := r.verb + (" " + (r.path + (" " + PrintVersion(r.major, r.minor))));
            && line != "" && RecvLine(line + ("\r\n" + more)) == (line, more)
            && Split(line) == [r.verb, r.path, PrintVersion(r.major, r.minor)]
  {
    var version := PrintVersion(r.major, r.minor);
    VersionIsWord(r.major, r.minor);
    assert Clean(" ") by { assert " "[1..] == ""; }
    hide Clean, Free, Normalize, PrintVersion, HeadersOk, DeclaresLength;
    CleanConcat(" ", version);
    CleanConcat(r.path, " " + version);
    CleanConcat(" ", r.path + (" " + version));
    CleanConcat(r.verb, " " + (r.path + (" " + version)));
    LineReceived(r.verb + (" " + (r.path + (" " + version))), more);
    SplitThree(r.verb, r.path, version);
  }

  lemma PrintedParts(verb: string, path: string, version: string, headers: string, body: string, rest: string)
    ensures verb + " " + path + " " + version + "\r\n" + headers + "\r\n" + body + rest ==
            verb + (" " + (path + (" " + version))) + ("\r\n" + (headers + ("\r\n" + (body + rest))))
  {
    var line := verb + (" " + (path + (" " + version)));
    assert verb + " " + path + " " + version == line;
    assert headers + "\r\n" + body + rest == headers + ("\r\n" + (body + rest));
  }

  lemma PrintedRequest(r: Request, rest: string)
    ensures Print(r) + rest ==
            r.verb + (" " + (r.path + (" " + PrintVersion(r.major, r.minor)))) +
            ("\r\n" + (H.PrintHeaders(r.headers) + ("\r\n" + (r.body + rest))))
  {
    hide PrintVersion, H.PrintHeaders;
    PrintedParts(r.verb, r.path, PrintVersion(r.major, r.minor), H.PrintHeaders(r.headers), r.body, rest);
  }

  /** The calls among the events are the served requests. */
  function Calls(events: seq<Effect>): seq<Called> {
    if events == [] then []
    else (if events[0].Callback? then [events[0].request] else []) + Calls(events[1..])
  }

  lemma {:induction false} CallsConcat(xs: seq<Effect>, ys: seq<Effect>)
    ensures Calls(xs + ys) == Calls(xs) + Calls(ys)
    decreases |xs|
  {
    if xs == [] {
      assert xs + ys == ys;
    } else {
      assert (xs + ys)[0] == xs[0] && (xs + ys)[1..] == xs[1..] + ys;
      CallsConcat(xs[1..], ys);
      var first := if xs[0].Callback? then [xs[0].request] else [];
      assert Calls(xs + ys) == first + Calls(xs[1..] + ys);
      assert first + (Calls(xs[1..]) + Calls(ys)) == first + Calls(xs[1..]) + Calls(ys);
    }
  }

  lemma OneCall(r: Request)
    ensures Calls(Events(r)) == [ToCall(r)]
  {
    hide Normalize, Table, ToCall;
    var before := if Normalize(r.verb) == "post" then Expectation(Table(r.headers, map[])) else [];
    CallsConcat(before, [Callback(ToCall(r))]);
    assert Calls(before) == [];
  }

  /** One round of the loop on any well-formed request: what it sees of it, and what it leaves. */
  lemma TurnOfAny(r: Request, rest: string)
    requires Framed(r)
    ensures Turned(Print(r) + rest) ==
            if Keeps(r) then Next(EventsOf(r), LeftOver(r) + rest) else Stop(EventsOf(r), Closed)
  {
    PrintedRequest(r, rest);
    var version, headers := PrintVersion(r.major, r.minor), H.PrintHeaders(r.headers);
    hide Print, H.PrintHeaders, ReadHeaders, RecvLine, Split, Serve, PrintVersion, Normalize, Table, Events, Keeps;
    hide DeclaresLength, EventsOf;
    RequestLineRead(r, headers + ("\r\n" + (r.body + rest)));
    HeadersRead(r.headers, r.body + rest, map[]);
    ServePrinted(r, rest);
  }

  lemma TurnOfPrinted(r: Request, rest: string)
    requires WellFormed(r)
    ensures Turned(Print(r) + rest) ==
            if Keeps(r) then Next(Events(Seen(r)), LeftOver(r) + rest) else Stop(Events(Seen(r)), Closed)
  {
    hide Framed, Known, Turned, Print, Events, Seen, Keeps, LeftOver;
    TurnOfAny(r, rest);
  }

  /**
   A request is handed to the callback, once and as it has been seen, if and only
   if its method is one of the nine; any other is refused, and nothing else happens.
   */
  lemma CallbackIff(r: Request, rest: string)
    requires Framed(r)
    ensures var events := Turned(Print(r) + rest).events;
            && (Known(r.verb) <==> Calls(events) == [ToCall(Seen(r))])
            && (!Known(r.verb) <==> events == [BadRequest])
            && (!Known(r.verb) ==> Calls(events) == [])
  {
    hide Framed, Known, Turned, Print, Keeps, LeftOver, ToCall;
    TurnOfAny(r, rest);
    OneCall(Seen(r));
    assert Calls([BadRequest]) == [];
  }

  /** A request that is not taken whole shows in its one event. */
  lemma SeenIff(r: Request)
    ensures Whole(r) ==> Seen(r) == r && LeftOver(r) == ""
    ensures !Whole(r) ==> |Events(r)| == |Events(Seen(r))| == 1 && Events(r)[0] != Events(Seen(r))[0]
  {
    hide Normalize, Table, Expectation;
  }

  /**
   One round of the loop undoes printing, and leaves exactly what follows the
   request, if and only if that is a POST or has no body.
   */
  lemma TurnUndoesPrintIff(r: Request, rest: string)
    requires WellFormed(r)
    ensures Turned(Print(r) + rest) == (if Keeps(r) then Next(Events(r), rest) else Stop(Events(r), Closed))
            <==> Whole(r)
  {
    hide Print, Turned, Events, Keeps, WellFormed, Whole, Seen, LeftOver;
    TurnOfPrinted(r, rest);
    SeenIff(r);
    assert "" + rest == rest;
  }

  lemma OneLength()
    ensures var hs := [H.Header("content-length", "1")];
            HeadersOk(hs) && DeclaresLength(hs, 1) && "connection" !in Table(hs, map[])
  {
    var hs := [H.Header("content-length", "1")];
    hide Clean;
    PlainHeader(hs[0]);
    assert ToLower("content-length") == "content-length" && Decimal(1) == "1";
    hide ToLower, Decimal;
    assert H.LastNamed(hs, 0, "content-length") && hs[1..] == [];
  }

  lemma PutVerb()
    ensures Word("PUT") && Word("/") && Normalize("PUT") == "put" && Normalize("") == ""
  {
    PlainIsWord("PUT");
    PlainIsWord("/");
    hide Clean, Free;
  }

  lemma PutIsWellFormed(r: Request)
    requires r == Request("PUT", "/", 1, 1, [H.Header("content-length", "1")], "x")
    ensures WellFormed(r) && Keeps(r) && !Whole(r)
  {
    KnownIff(r.verb);
    PutVerb();
    OneLength();
    hide Word, HeadersOk, DeclaresLength, Table, Normalize, Known;
  }

  /** A body that is not read is taken for what follows the request. */
  lemma BodyIsNext(r: Request)
    requires WellFormed(r) && !Whole(r) && Keeps(r)
    ensures Turned(Print(r)) == Next([Callback(ToCall(r.(body := "")))], r.body)
  {
    hide WellFormed, Keeps, Print, Turned, ToCall, Normalize, Table, Expectation;
    assert Print(r) + "" == Print(r) && LeftOver(r) + "" == r.body;
    TurnOfPrinted(r, "");
  }

  lemma PutBodyMissed() returns (r: Request)
    ensures WellFormed(r) && r.verb == "PUT" && r.body == "x"
    ensures Turned(Print(r)) == Next([Callback(ToCall(r.(body := "")))], "x")
  {
    hide *;
    r := Request("PUT", "/", 1, 1, [H.Header("content-length", "1")], "x");
    PutIsWellFormed(r);
    BodyIsNext(r);
  }

  // ---------- Requests back to back ----------

  function PrintAll(rs: seq<Request>): string {
    if rs == [] then "" else Print(rs[0]) + PrintAll(rs[1..])
  }

  /** The requests up to and with the first that does not keep the connection. */
  function Served(rs: seq<Request>): (r: seq<Request>)
    ensures |r| <= |rs| && r == rs[..|r|]
    ensures forall i :: 0 <= i < |r| - 1 ==> Keeps(rs[i])
    ensures |r| < |rs| ==> |r| > 0 && !Keeps(rs[|r| - 1])
  {
    if rs == [] then []
    else if !Keeps(rs[0]) then [rs[0]]
    else
      var more := Served(rs[1..]);
      assert [rs[0]] + more == rs[..|more| + 1];
      [rs[0]] + more
  }

  function AllEvents(rs: seq<Request>): seq<Effect> {
    if rs == [] then [] else Events(rs[0]) + AllEvents(rs[1..])
  }

  predicate AllWhole(rs: seq<Request>) {
    forall i :: 0 <= i < |rs| ==> Whole(rs[i])
  }

  lemma ProcessPrinted(r: Request, rest: string)
    requires WellFormed(r)
    ensures Process(Print(r) + rest) ==
            if Keeps(r) then (Events(Seen(r)) + Process(LeftOver(r) + rest).0, Process(LeftOver(r) + rest).1)
            else (Events(Seen(r)), Closed)
  {
    hide Print, Turned, Events, Keeps, WellFormed, Seen, LeftOver;
    TurnOfPrinted(r, rest);
  }

  lemma WholeProcessed(r: Request, rest: string)
    requires WellFormed(r) && Whole(r)
    ensures Process(Print(r) + rest) ==
            if Keeps(r) then (Events(r) + Process(rest).0, Process(rest).1) else (Events(r), Closed)
  {
    hide Print, Process, Events, Keeps, WellFormed, Seen, LeftOver, Whole;
    ProcessPrinted(r, rest);
    SeenIff(r);
    assert "" + rest == rest;
  }

  /** Whatever is expected behind it, a request that is not taken whole is not processed as expected. */
  lemma PartProcessed(r: Request, rest: string, more: seq<Effect>)
    requires WellFormed(r) && !Whole(r)
    ensures Process(Print(r) + rest).0 != Events(r) + more
  {
    hide Print, Process, Events, Keeps, WellFormed, Seen, LeftOver, Whole;
    ProcessPrinted(r, rest);
    SeenIff(r);
    assert Process(Print(r) + rest).0[0] == Events(Seen(r))[0] && (Events(r) + more)[0] == Events(r)[0];
  }

  lemma SameBehind<T>(first: seq<T>, xs: seq<T>, ys: seq<T>)
    ensures first + xs == first + ys <==> xs == ys
  {
    if first + xs == first + ys {
      assert xs == (first + xs)[|first|..] == (first + ys)[|first|..] == ys;
    }
  }

  /**
   Requests sent back to back, none of which ends the connection, are handled one
   by one and in order, and the loop goes on with what follows, if and only if
   those with a body are POSTs.
   */
  lemma {:induction false} PipelineKeptIff(rs: seq<Request>, tail: string)
    requires forall i :: 0 <= i < |rs| ==> WellFormed(rs[i]) && Keeps(rs[i])
    ensures Process(PrintAll(rs) + tail) == (AllEvents(rs) + Process(tail).0, Process(tail).1) <==> AllWhole(rs)
    decreases |rs|
  {
    hide Print, Process, Events, Keeps, WellFormed, Whole;
    if rs == [] {
      assert PrintAll(rs) + tail == tail && AllEvents(rs) + Process(tail).0 == Process(tail).0;
    } else {
      var r, rest := rs[0], PrintAll(rs[1..]) + tail;
      assert PrintAll(rs) + tail == Print(r) + rest;
      assert AllEvents(rs) + Process(tail).0 == Events(r) + (AllEvents(rs[1..]) + Process(tail).0);
      if Whole(r) {
        WholeProcessed(r, rest);
        PipelineKeptIff(rs[1..], tail);
        SameBehind(Events(r), Process(rest).0, AllEvents(rs[1..]) + Process(tail).0);
        AllWholeStep(rs);
      } else {
        PartProcessed(r, rest, AllEvents(rs[1..]) + Process(tail).0);
      }
    }
  }

  lemma AllWholeStep(rs: seq<Request>)
    requires rs != []
    ensures AllWhole(rs) <==> Whole(rs[0]) && AllWhole(rs[1..])
  {
    hide Whole;
    if Whole(rs[0]) && AllWhole(rs[1..]) {
      forall i | 0 <= i < |rs| ensures Whole(rs[i]) { if i > 0 { assert Whole(rs[1..][i - 1]); } }
    }
  }

  /**
   The first request that does not keep the connection is the last that is handled,
   and what follows it is never read, if and only if the requests up to it that
   have a body are POSTs.
   */
  lemma {:induction false} PipelineEndsIff(rs: seq<Request>, tail: string)
    requires (forall i :: 0 <= i < |rs| ==> WellFormed(rs[i])) && |rs| > 0
    requires tail == "" || exists i :: 0 <= i < |rs| && !Keeps(rs[i])
    ensures Process(PrintAll(rs) + tail) == (AllEvents(Served(rs)), Closed) <==> AllWhole(Served(rs))
    decreases |rs|
  {
    hide Print, Process, Events, Keeps, WellFormed, Whole, AllWhole;
    var r, rest := rs[0], PrintAll(rs[1..]) + tail;
    assert PrintAll(rs) + tail == Print(r) + rest;
    AllWholeStep(Served(rs));
    if !Whole(r) {
      PartProcessed(r, rest, AllEvents(Served(rs)[1..]));
    } else if !Keeps(r) {
      WholeProcessed(r, rest);
      AllEventsOne(r);
      NoneIsWhole();
    } else if |rs| == 1 {
      WholeProcessed(r, rest);
      assert tail == "" && rest == "";
      NothingSent();
      AllEventsOne(r);
      NoneIsWhole();
      assert Served(rs) == [r] && Events(r) + [] == Events(r);
    } else {
      WholeProcessed(r, rest);
      if i :| 0 <= i < |rs| && !Keeps(rs[i]) { assert rs[1..][i - 1] == rs[i]; }
      PipelineEndsIff(rs[1..], tail);
      assert Served(rs)[1..] == Served(rs[1..]);
      SameBehind(Events(r), Process(rest).0, AllEvents(Served(rs[1..])));
    }
  }

  lemma NoneIsWhole()
    ensures AllWhole([])
  {}

  /** A request that is served but not taken whole shows, whatever number of them is expected. */
  lemma {:induction false} PartShows(rs: seq<Request>, tail: string, k: nat)
    requires (forall i :: 0 <= i < |rs| ==> WellFormed(rs[i])) && k <= |rs| && !AllWhole(Served(rs))
    ensures Process(PrintAll(rs) + tail).0 != AllEvents(rs[..k])
    decreases |rs|
  {
    hide Print, Process, Keeps, WellFormed, Whole, AllWhole, Expectation, Table, Normalize;
    if rs == [] {
      NoneIsWhole();
    } else {
      var r, rest := rs[0], PrintAll(rs[1..]) + tail;
      assert PrintAll(rs) + tail == Print(r) + rest;
      ProcessPrinted(r, rest);
      AllWholeStep(Served(rs));
      if k > 0 {
        assert rs[..k][1..] == rs[1..][..k - 1];
        if Whole(r) {
          WholeProcessed(r, rest);
          NoneIsWhole();
          assert [r][1..] == [];
          assert Keeps(r) && Served(rs)[1..] == Served(rs[1..]);
          PartShows(rs[1..], tail, k - 1);
          SameBehind(Events(r), Process(rest).0, AllEvents(rs[1..][..k - 1]));
        } else {
          PartProcessed(r, rest, AllEvents(rs[1..][..k - 1]));
        }
      }
    }
  }

  lemma AllEventsOne(r: Request)
    ensures AllEvents([r]) == Events(r)
  {
    assert AllEvents([r]) == Events(r) + AllEvents([]);
  }

  lemma NothingSent()
    ensures Process("") == ([], Closed)
  {}

  lemma {:induction false} OneCallEach(rs: seq<Request>)
    ensures |Calls(AllEvents(rs))| == |rs|
    ensures forall i :: 0 <= i < |rs| ==> Calls(AllEvents(rs))[i] == ToCall(rs[i])
    decreases |rs|
  {
    if rs != [] {
      var r := rs[0];
      hide Events, ToCall;
      OneCallEach(rs[1..]);
      CallsConcat(Events(r), AllEvents(rs[1..]));
      OneCall(r);
    }
  }
}
