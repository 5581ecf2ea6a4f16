/**
 What the Nim loop answers where it does not just hand a request on: expectations,
 requests it refuses, and streams that end early; and the spellings of lines,
 numbers and protocols that its library accepts.
 */
module NimReplies {
  import opened Sequences
  import opened Text
  import opened EventStream
  import opened NimRequests
  import opened NimPipeline
  import H = HttpScanner

  // ---------- Headers by name ----------

  ghost predicate Absent(hs: seq<H.Header>, name: string) {
    forall i :: 0 <= i < |hs| ==> !SameText(hs[i].name, name)
  }

  ghost predicate Gives(hs: seq<H.Header>, name: string, value: string) {
    exists i :: 0 <= i < |hs| && H.LastCalled(hs, i, name) && hs[i].value == value
  }

  lemma CalledIff(hs: seq<H.Header>, i: nat, name: string)
    requires i < |hs|
    ensures H.LastCalled(hs, i, name) <==> H.LastNamed(hs, i, ToLower(name))
  {
    hide SameText, ToLower;
    forall j | i <= j < |hs| ensures SameText(hs[j].name, name) <==> ToLower(hs[j].name) == ToLower(name) {
      SameTextIff(hs[j].name, name);
    }
  }

  /** The table gives the last value of a name in any case, and nothing for a name that is absent. */
  lemma TableGives(hs: seq<H.Header>, name: string, value: string)
    ensures Gives(hs, name, value) ==>
              ToLower(name) in Table(hs, map[]) && Table(hs, map[])[ToLower(name)] == value
    ensures Absent(hs, name) ==> ToLower(name) !in Table(hs, map[])
  {
    hide SameText, ToLower, Table, H.LastCalled, H.LastNamed;
    if Gives(hs, name, value) {
      var i :| 0 <= i < |hs| && H.LastCalled(hs, i, name) && hs[i].value == value;
      CalledIff(hs, i, name);
      LastValueWins(hs, map[], i, ToLower(name));
    }
    if Absent(hs, name) {
      forall i | 0 <= i < |hs| ensures ToLower(hs[i].name) != ToLower(name) { SameTextIff(hs[i].name, name); }
      NeverNamed(hs, map[], ToLower(name));
    }
  }

  lemma {:induction false} NeverNamed(hs: seq<H.Header>, headers: Headers, key: string)
    requires key !in headers && forall i :: 0 <= i < |hs| ==> ToLower(hs[i].name) != key
    ensures key !in Table(hs, headers)
    decreases |hs|
  {
    hide ToLower;
    if hs != [] {
      assert ToLower(hs[0].name) != key;
      assert forall i :: 0 <= i < |hs| - 1 ==> hs[1..][i] == hs[i + 1];
      NeverNamed(hs[1..], headers[ToLower(hs[0].name) := hs[0].value], key);
    }
  }

  lemma NamesLower()
    ensures ToLower("Expect") == "expect" && ToLower("Content-Length") == "content-length"
  {}

  // ---------- Expectations ----------

  /** What is said about expectations, before anything else. */
  function Expected(hs: seq<H.Header>): seq<Effect> { Expectation(Table(hs, map[])) }

  /**
   A POST that expects 100-continue, in any case, is told to continue, one that
   expects anything else that this failed; both are then handled all the same.
   */
  lemma ExpectationMet(r: Request, rest: string, value: string)
    requires WellFormed(r) && SameText(WithoutUnderscores(r.verb), "POST")
    ensures Gives(r.headers, "Expect", value) ==>
              Turned(Print(r) + rest).events ==
                [if SameText(value, "100-continue") then Continue else ExpectationFailed, Callback(ToCall(r))]
    ensures Absent(r.headers, "Expect") ==> Turned(Print(r) + rest).events == [Callback(ToCall(r))]
  {
    PostIs(r.verb);
    hide Print, Turned, Keeps, LeftOver, ToCall, Framed, Known, Normalize, WithoutUnderscores, Table, SameText;
    hide Expectation;
    TurnOfPrinted(r, rest);
    ExpectedIs(r.headers, value);
  }

  /** What is said about an expectation, wherever it is said. */
  lemma ExpectedIs(hs: seq<H.Header>, value: string)
    ensures Gives(hs, "Expect", value) ==>
              Expected(hs) == [if SameText(value, "100-continue") then Continue else ExpectationFailed]
    ensures Absent(hs, "Expect") ==> Expected(hs) == []
  {
    NamesLower();
    hide Table, ToLower, SameText;
    TableGives(hs, "Expect", value);
    ContinueText(value);
  }

  lemma PostIs(verb: string)
    ensures SameText(WithoutUnderscores(verb), "POST") <==> Normalize(verb) == "post"
  {
    MethodsLower();
    hide Normalize, SameText, ToLower;
    NormalizeIff(verb, "POST");
  }

  lemma ContinueText(value: string)
    ensures ToLower(value) == "100-continue" <==> SameText(value, "100-continue")
  {
    assert ToLower("100-continue") == "100-continue";
    hide ToLower, SameText;
    SameTextIff(value, "100-continue");
  }

  // ---------- Heads of any kind ----------

  ghost predicate HeadOk(verb: string, path: string, protocol: string, hs: seq<H.Header>) {
    Word(verb) && Word(path) && Word(protocol) && verb != "" && HeadersOk(hs)
  }

  lemma LineRead(verb: string, path: string, protocol: string, more: string)
    requires Word(verb) && Word(path) && Word(protocol) && verb != ""
    ensures var line := verb + (" " + (path + (" " + protocol)));
            && line != "" && RecvLine(line + ("\r\n" + more)) == (line, more)
            && Split(line) == [verb, path, protocol]
  {
    assert Clean(" ") by { assert " "[1..] == ""; }
    hide Clean, Free;
    CleanConcat(" ", protocol);
    CleanConcat(path, " " + protocol);
    CleanConcat(" ", path + (" " + protocol));
    CleanConcat(verb, " " + (path + (" " + protocol)));
    LineReceived(verb + (" " + (path + (" " + protocol))), more);
    SplitThree(verb, path, protocol);
  }

  /** A head that can be read is served by its parts and by what follows it. */
  lemma TurnOfHead(verb: string, path: string, protocol: string, hs: seq<H.Header>, rest: string)
    requires HeadOk(verb, path, protocol, hs)
    ensures Turned(H.PrintHead(verb, path, protocol, hs) + rest) == Serve(verb, path, protocol, Table(hs, map[]), rest)
  {
    var headers := H.PrintHeaders(hs);
    hide H.PrintHeaders, ReadHeaders, RecvLine, Split, Serve, Table, Word, HeadersOk;
    HeadGrouped(verb, path, protocol, headers, rest);
    LineRead(verb, path, protocol, headers + ("\r\n" + rest));
    HeadersRead(hs, rest, map[]);
  }

  lemma HeadGrouped(verb: string, path: string, protocol: string, headers: string, rest: string)
    ensures verb + " " + path + " " + protocol + "\r\n" + headers + "\r\n" + rest ==
            verb + (" " + (path + (" " + protocol))) + ("\r\n" + (headers + ("\r\n" + rest)))
  {
    PrintedParts(verb, path, protocol, headers, "", rest);
    assert verb + " " + path + " " + protocol + "\r\n" + headers + "\r\n" + "" + rest ==
      verb + " " + path + " " + protocol + "\r\n" + headers + "\r\n" + rest;
    assert "" + rest == rest;
  }

  // ---------- Protocols ----------

  /** A protocol that does not begin with HTTP/ in some case is a bad request, and the loop goes on behind the head. */
  lemma OtherProtocolRefused(verb: string, path: string, protocol: string, hs: seq<H.Header>, rest: string)
    requires HeadOk(verb, path, protocol, hs)
    requires |protocol| < 5 || !SameText(protocol[..5], "HTTP/")
    ensures Turned(H.PrintHead(verb, path, protocol, hs) + rest) == Next([BadRequest], rest)
  {
    hide H.PrintHead, Turned, Table, HeadOk, Finish, ParseInt;
    TurnOfHead(verb, path, protocol, hs, rest);
    if |protocol| >= 5 { HttpText(protocol[..5]); }
  }

  lemma HttpText(p: string)
    ensures ToLower(p) == "http/" <==> SameText(p, "HTTP/")
  {
    assert ToLower("HTTP/") == "http/";
    hide ToLower, SameText;
    SameTextIff(p, "HTTP/");
  }

  /** One that does is read as its two numbers, whatever stands between them and behind them. */
  lemma ProtocolRead(http: string, major: nat, c: char, minor: nat, after: string)
    requires SameText(http, "HTTP/") && !IsDigit(c) && c != '_' && EndsNumber(after)
    ensures ParseProtocol(http + (Decimal(major) + ([c] + (Decimal(minor) + after)))) == Version(major, minor)
  {
    hide ParseInt, Decimal;
    var tail := Decimal(major) + ([c] + (Decimal(minor) + after));
    var p := http + tail;
    HttpText(http);
    assert |http| == 5;
    assert p[..5] == http && p[5..] == tail;
    hide ToLower, SameText;
    NumberParsed(major, [c] + (Decimal(minor) + after));
    NumberParsed(minor, after);
    assert p[5 + |Decimal(major)| + 1..] == Decimal(minor) + after;
  }

  /** A protocol that ends with its first number is read beyond its end. */
  lemma ProtocolCutShort(verb: string, path: string, http: string, major: nat, hs: seq<H.Header>, rest: string)
    requires SameText(http, "HTTP/") && HeadOk(verb, path, http + Decimal(major), hs)
    ensures Turned(H.PrintHead(verb, path, http + Decimal(major), hs) + rest) == Stop([], Undefined)
  {
    hide H.PrintHead, Turned, Table, HeadOk, Finish, ParseInt, Decimal;
    var protocol := http + Decimal(major);
    TurnOfHead(verb, path, protocol, hs, rest);
    HttpText(http);
    assert |http| == 5 && protocol[..5] == http && protocol[5..] == Decimal(major);
    hide ToLower, SameText;
    NumberParsed(major, "");
    assert Decimal(major) + "" == Decimal(major);
  }

  // ---------- POSTs without a body that can be read ----------

  ghost predicate PostHead(verb: string, path: string, protocol: string, hs: seq<H.Header>) {
    HeadOk(verb, path, protocol, hs) && SameText(WithoutUnderscores(verb), "POST") && ParseProtocol(protocol).Version?
  }

  /** A POST that gives no length is a bad request, and the loop goes on behind the head, whatever was asked of it. */
  lemma NoLengthRefused(verb: string, path: string, protocol: string, hs: seq<H.Header>, rest: string)
    requires PostHead(verb, path, protocol, hs) && Absent(hs, "Content-Length")
    ensures Turned(H.PrintHead(verb, path, protocol, hs) + rest) == Next(Expected(hs) + [BadRequest], rest)
  {
    PostIs(verb);
    NamesLower();
    hide H.PrintHead, Turned, Table, HeadOk, Finish, ParseInt, ParseProtocol, Normalize, Expectation, ToLower;
    TurnOfHead(verb, path, protocol, hs, rest);
    TableGives(hs, "Content-Length", "");
  }

  /** A POST whose length is no number is a bad request, and is handed on all the same, without a body. */
  lemma BadLengthHandedOn(verb: string, path: string, protocol: string, hs: seq<H.Header>, value: string, rest: string)
    requires PostHead(verb, path, protocol, hs) && Gives(hs, "Content-Length", value) && NoNumber(value)
    ensures var v := ParseProtocol(protocol);
            var call := Called(verb, path, v.major, v.minor, Table(hs, map[]), "");
            var turn := Turned(H.PrintHead(verb, path, protocol, hs) + rest);
            && turn.events == Expected(hs) + [BadRequest, Callback(call)]
            && (turn.Next? <==> Persistent(v.major, v.minor, Get(Table(hs, map[]), "connection")))
            && (turn.Next? ==> turn.rest == rest) && (turn.Stop? ==> turn.ending == Closed)
  {
    PostIs(verb);
    NamesLower();
    KnownIff(verb);
    hide H.PrintHead, Turned, Table, HeadOk, ParseProtocol, Normalize, Expectation, ToLower, Known, Persistent;
    TurnOfHead(verb, path, protocol, hs, rest);
    TableGives(hs, "Content-Length", value);
    NoNumberRead(value);
    hide ParseInt;
    assert Expected(hs) + [BadRequest] + [Callback(Called(verb, path, ParseProtocol(protocol).major,
                                                          ParseProtocol(protocol).minor, Table(hs, map[]), ""))] ==
      Expected(hs) + [BadRequest, Callback(Called(verb, path, ParseProtocol(protocol).major,
                                                  ParseProtocol(protocol).minor, Table(hs, map[]), ""))];
  }

  /** Neither the first character is a digit, nor the one behind a sign. */
  predicate NoNumber(value: string) {
    value == "" ||
    (!IsDigit(value[0]) && (value[0] == '-' || value[0] == '+' ==> |value| == 1 || !IsDigit(value[1])))
  }

  lemma NoNumberRead(value: string)
    ensures ParseInt(value).1 == 0 <==> NoNumber(value)
  {}

  /** A POST that is shorter than it says, or says a negative length, fails. */
  lemma ShortPostFails(verb: string, path: string, protocol: string, hs: seq<H.Header>, n: nat, minus: bool,
                       rest: string)
    requires PostHead(verb, path, protocol, hs)
    requires Gives(hs, "Content-Length", (if minus then "-" else "") + Decimal(n))
    ensures Turned(H.PrintHead(verb, path, protocol, hs) + rest) == Stop(Expected(hs), Failed)
            <==> (if minus then n > 0 else n > |rest|)
  {
    PostIs(verb);
    NamesLower();
    var value := (if minus then "-" else "") + Decimal(n);
    SignedNumber(n, minus);
    hide H.PrintHead, Turned, Table, HeadOk, ParseProtocol, Normalize, Expectation, ToLower, ParseInt, Decimal;
    TurnOfHead(verb, path, protocol, hs, rest);
    TableGives(hs, "Content-Length", value);
  }

  lemma SignedNumber(n: nat, minus: bool)
    ensures var value := (if minus then "-" else "") + Decimal(n);
            ParseInt(value).0 == (if minus then 0 - n else n) && ParseInt(value).1 > 0
  {
    var d := Decimal(n);
    NumberParsed(n, "");
    assert d + "" == d;
    assert IsDigit(d[0]);
    assert "" + d == d && ("-" + d)[1..] == d && ("-" + d)[0] == '-';
  }

  // ---------- Lines that are no requests ----------

  function SpaceCount(line: string): nat {
    if line == "" then 0 else (if line[0] == ' ' then 1 else 0) + SpaceCount(line[1..])
  }

  lemma {:induction false} SpaceCountFrom(line: string, n: nat)
    requires n <= |line| && forall i :: 0 <= i < n ==> line[i] != ' '
    ensures SpaceCount(line) == SpaceCount(line[n..])
  {
    if n > 0 {
      SpaceCountFrom(line[1..], n - 1);
      assert line[1..][n - 1..] == line[n..];
    } else {
      assert line[0..] == line;
    }
  }

  lemma {:induction false} PartCount(line: string)
    ensures |Split(line)| == SpaceCount(line) + 1
    decreases |line|
  {
    var n := Until(line, {' '});
    SpaceCountFrom(line, n);
    if n < |line| {
      assert line[n..][0] == ' ' && line[n..][1..] == line[n + 1..];
      PartCount(line[n + 1..]);
    }
  }

  /** A line without exactly two spaces is a bad request by itself, and the loop goes on with the next line. */
  lemma OddLineRefused(line: string, rest: string)
    requires Clean(line) && line != "" && SpaceCount(line) != 2
    ensures Turned(line + ("\r\n" + rest)) == Next([BadRequest], rest)
  {
    hide RecvLine, Split, SpaceCount, ReadHeaders, Serve;
    LineReceived(line, rest);
    PartCount(line);
  }

  /** So is an empty line. */
  lemma EmptyLineRefused(rest: string)
    ensures Turned("\r\n" + rest) == Next([BadRequest], rest)
  {
    hide RecvLine, ReadHeaders, Serve;
    BlankReceived(rest);
    UntilIs("\r\n", {' '}, 2);
  }

  /** Where the client leaves before its request line is complete, nothing happens. */
  lemma LeftInLine(s: string)
    requires Clean(s)
    ensures Turned(s) == Stop([], Closed)
  {
    CleanLineLength(s, "");
    assert s + "" == s;
  }

  /** Nor if it leaves among the header lines. */
  lemma LeftInHeaders(verb: string, path: string, protocol: string, hs: seq<H.Header>, s: string)
    requires HeadOk(verb, path, protocol, hs) && Clean(s)
    ensures Turned(verb + (" " + (path + (" " + protocol))) + ("\r\n" + (H.PrintHeaders(hs) + s))) == Stop([], Closed)
  {
    hide RecvLine, Split, ReadHeaders, Serve, H.PrintHeaders, Word;
    LineRead(verb, path, protocol, H.PrintHeaders(hs) + s);
    LeftAfterHeaders(hs, s, map[]);
  }

  lemma FirstHeader(hs: seq<H.Header>, tail: string)
    requires hs != []
    ensures H.PrintHeaders(hs) + tail ==
            hs[0].name + (": " + hs[0].value) + ("\r\n" + (H.PrintHeaders(hs[1..]) + tail))
  {}

  lemma {:induction false} LeftAfterHeaders(hs: seq<H.Header>, s: string, headers: Headers)
    requires HeadersOk(hs) && Clean(s)
    ensures ReadHeaders(H.PrintHeaders(hs) + s, headers) == Gone
    decreases |hs|
  {
    if hs == [] {
      assert H.PrintHeaders(hs) + s == s;
      CleanLineLength(s, "");
      assert s + "" == s;
    } else {
      hide ReadHeaders, HeaderOk, ToLower, Clean;
      var h := hs[0];
      FirstHeader(hs, s);
      hide H.PrintHeaders;
      HeaderRead(h, H.PrintHeaders(hs[1..]) + s, headers);
      LeftAfterHeaders(hs[1..], s, headers[ToLower(h.name) := h.value]);
    }
  }

  /** A header line without a colon is read beyond its end. */
  lemma ColonlessHeader(verb: string, path: string, protocol: string, hs: seq<H.Header>, line: string, rest: string)
    requires HeadOk(verb, path, protocol, hs) && Clean(line) && line != "" && ':' !in line
    ensures Turned(verb + (" " + (path + (" " + protocol)))
                   + ("\r\n" + (H.PrintHeaders(hs) + (line + ("\r\n" + rest)))))
            == Stop([], Undefined)
  {
    hide RecvLine, Split, ReadHeaders, Serve, H.PrintHeaders, Word;
    LineRead(verb, path, protocol, H.PrintHeaders(hs) + (line + ("\r\n" + rest)));
    OddAfterHeaders(hs, line, rest, map[]);
  }

  lemma {:induction false} OddAfterHeaders(hs: seq<H.Header>, line: string, rest: string, headers: Headers)
    requires HeadersOk(hs) && Clean(line) && line != "" && ':' !in line
    ensures ReadHeaders(H.PrintHeaders(hs) + (line + ("\r\n" + rest)), headers) == Odd
    decreases |hs|
  {
    var tail := line + ("\r\n" + rest);
    if hs == [] {
      assert H.PrintHeaders(hs) + tail == tail;
      LineReceived(line, rest);
      UntilIs(line, {':'}, |line|);
      CleanFree(line);
      assert line != "\r\n" by { assert line[0] !in {'\r', '\n'}; }
    } else {
      hide ReadHeaders, HeaderOk, ToLower;
      var h := hs[0];
      FirstHeader(hs, tail);
      hide H.PrintHeaders;
      HeaderRead(h, H.PrintHeaders(hs[1..]) + tail, headers);
      OddAfterHeaders(hs[1..], line, rest, headers[ToLower(h.name) := h.value]);
    }
  }

  // ---------- Spellings ----------

  /** A line may end in CRLF, in LF, or in a CR that no LF follows. */
  lemma AnyLineEnd(line: string, end: string, rest: string)
    requires Clean(line) && end in {"\r\n", "\n", "\r"} && (end == "\r" && rest != "" ==> rest[0] != '\n')
    ensures RecvLine(line + (end + rest)) == (if line == "" then "\r\n" else line, rest)
  {
    CleanLineLength(line, end + rest);
    assert (line + (end + rest))[..|line|] == line && (line + (end + rest))[|line|..] == end + rest;
    assert (end + rest)[|end|..] == rest;
  }

  /** A header's value begins behind any white space. */
  lemma AnySpacing(name: string, spaces: string, value: string)
    requires Clean(name) && Free(name, {':'}) && Clean(value) && (value != "" ==> !IsSpace(value[0]))
    requires forall c :: c in spaces ==> IsSpace(c)
    ensures ParseHeader(name + (":" + (spaces + value))) == Some((name, value))
  {
    hide Clean, Blanks, Until, IsSpace;
    UntilAfter(name, ":" + (spaces + value), {':'});
    assert (":" + (spaces + value))[1..] == spaces + value;
    BlanksThen(spaces, value);
    CleanFree(value);
    UntilIs(value, {'\r', '\n'}, |value|);
    assert value[..|value|] == value;
  }

  /** One digit with the underscores behind it. */
  lemma ScanOneDigit(s: string, rest: string, acc: int)
    requires s != "" && IsDigit(s[0]) && EndsNumber(rest)
    ensures var k := 1 + Underscores(s[1..]);
            && k <= |s| && (k < |s| ==> s[k] != '_')
            && ScanInt(s + rest, acc) ==
                 (ScanInt(s[k..] + rest, 10 * acc + DigitValue(s[0])).0,
                  k + ScanInt(s[k..] + rest, 10 * acc + DigitValue(s[0])).1)
            && WithoutUnderscores(s) == [s[0]] + WithoutUnderscores(s[k..])
  {
    hide WithoutUnderscores, Underscores;
    var u := Underscores(s[1..]);
    UnderscoresIn(s[1..], rest);
    FirstKept(s);
    assert (s + rest)[1..] == s[1..] + rest;
    assert (s + rest)[1 + u..] == s[1 + u..] + rest;
    assert s[1..][u..] == s[1 + u..];
  }

  lemma FirstKept(s: string)
    requires s != "" && s[0] != '_'
    ensures WithoutUnderscores(s) == [s[0]] + WithoutUnderscores(s[1..])
  {}

  /** Underscores behind the digits of a number do not count. */
  lemma {:induction false} UnderscoresSkipped(s: string, rest: string, acc: int)
    requires (forall c :: c in s ==> IsDigit(c) || c == '_') && (s != "" ==> s[0] != '_') && EndsNumber(rest)
    ensures AllDigits(WithoutUnderscores(s)) && ScanInt(s + rest, acc) == (Fold(WithoutUnderscores(s), acc), |s|)
    decreases |s|
  {
    hide ScanInt, Underscores, WithoutUnderscores, Fold, EndsNumber, DigitValue;
    if s == "" {
      ScanNone(rest, acc);
      assert s + rest == rest;
    } else {
      assert s[0] in s;
      ScanOneDigit(s, rest, acc);
      var more := s[1 + Underscores(s[1..])..];
      assert forall c :: c in more ==> c in s;
      UnderscoresSkipped(more, rest, 10 * acc + DigitValue(s[0]));
      OneDigitMore(s[0], WithoutUnderscores(more), acc);
    }
  }

  lemma ScanNone(rest: string, acc: int)
    requires EndsNumber(rest)
    ensures ScanInt(rest, acc) == (acc, 0) && Fold("", acc) == acc && WithoutUnderscores("") == ""
  {}

  lemma OneDigitMore(c: char, digits: string, acc: int)
    requires IsDigit(c) && AllDigits(digits)
    ensures AllDigits([c] + digits) && Fold([c] + digits, acc) == Fold(digits, 10 * acc + DigitValue(c))
  {
    assert ([c] + digits)[1..] == digits;
  }

  lemma {:induction false} UnderscoresIn(s: string, rest: string)
    requires EndsNumber(rest)
    ensures Underscores(s + rest) == Underscores(s)
    ensures var u := Underscores(s);
            WithoutUnderscores(s) == WithoutUnderscores(s[u..]) && (u < |s| ==> s[u] != '_')
    decreases |s|
  {
    if s == "" {
      assert s + rest == rest;
    } else if s[0] == '_' {
      assert (s + rest)[1..] == s[1..] + rest;
      UnderscoresIn(s[1..], rest);
      var u := Underscores(s[1..]);
      assert s[1..][u..] == s[1 + u..];
    } else {
      assert s[0..] == s;
    }
  }
}
