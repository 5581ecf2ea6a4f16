/**
 What the C++ server answers, in its own words: the five requests it serves, the
 sender that stops early, and the lengths and requests it refuses.
 */
module HttpReplies {
  import opened Sequences
  import opened Text
  import opened HttpScanner
  import opened HttpAssembly

  // ---------- The Content-Length header ----------

  /** The last header of that name, in any case, has this value. */
  ghost predicate LastLength(hs: seq<Header>, value: string) {
    exists i :: 0 <= i < |hs| && LastCalled(hs, i, "Content-Length") && hs[i].value == value
  }

  ghost predicate NoLength(hs: seq<Header>) {
    forall i :: 0 <= i < |hs| ==> !SameText(hs[i].name, "Content-Length")
  }

  lemma LengthName(name: string)
    ensures SameText(name, "Content-Length") <==> ToLower(name) == "content-length"
  {
    LengthLower();
    hide ToLower, SameText;
    SameTextIff(name, "Content-Length");
  }

  lemma LengthLower()
    ensures ToLower("Content-Length") == "content-length"
  {}

  lemma LastCalledIff(hs: seq<Header>, i: nat)
    requires i < |hs|
    ensures LastCalled(hs, i, "Content-Length") <==> LastNamed(hs, i, "content-length")
  {
    hide SameText, ToLower;
    LengthName(hs[i].name);
    forall j | i < j < |hs|
      ensures SameText(hs[j].name, "Content-Length") <==> ToLower(hs[j].name) == "content-length"
    {
      LengthName(hs[j].name);
    }
  }

  /** The parser finds the last header that is called Content-Length, in whatever case it is written. */
  lemma LengthFound(hs: seq<Header>, value: string)
    ensures LastLength(hs, value) ==>
              "content-length" in HeaderMap(hs, map[]) && HeaderMap(hs, map[])["content-length"] == value + "\r"
    ensures NoLength(hs) <==> "content-length" !in HeaderMap(hs, map[])
  {
    hide SameText, ToLower;
    LastHeaderWins(hs, map[], "content-length");
    forall i | 0 <= i < |hs|
      ensures SameText(hs[i].name, "Content-Length") <==> ToLower(hs[i].name) == "content-length"
    {
      LengthName(hs[i].name);
    }
    if LastLength(hs, value) {
      var i :| 0 <= i < |hs| && LastCalled(hs, i, "Content-Length") && hs[i].value == value;
      LastCalledIff(hs, i);
    }
  }

  lemma LengthDeclared(hs: seq<Header>, n: nat)
    ensures LastLength(hs, Decimal(n)) <==> DeclaresLength(hs, n)
  {
    hide Decimal, SameText, ToLower, LastCalled, LastNamed;
    forall i | 0 <= i < |hs| ensures LastCalled(hs, i, "Content-Length") <==> LastNamed(hs, i, "content-length") {
      LastCalledIff(hs, i);
    }
  }

  lemma LengthMissing(hs: seq<Header>)
    requires NoLength(hs)
    ensures forall i :: 0 <= i < |hs| ==> ToLower(hs[i].name) != "content-length"
  {
    hide SameText, ToLower;
    forall i | 0 <= i < |hs| ensures ToLower(hs[i].name) != "content-length" { LengthName(hs[i].name); }
  }

  // ---------- Every cutting comes to one reply ----------

  /** The reply is that to a prefix of the stream that holds the head, and little more. */
  lemma OutcomeIsReply(handlers: map<string, bool>, verb: string, path: string, version: string, hs: seq<Header>,
                       sent: string, chunks: seq<string>) returns (b: string, rest: string)
    requires RequestLineOk(verb, path, version) && AllWellFormed(hs) && |PrintHead(verb, path, version, hs)| <= 2048
    requires IsCut(chunks, PrintHead(verb, path, version, hs) + sent)
    ensures b + rest == PrintHead(verb, path, version, hs) + sent && |PrintHead(verb, path, version, hs)| <= |b|
    ensures Outcome(handlers, PrintHead(verb, path, version, hs) + sent, chunks) == Respond(handlers, b, rest)
  {
    hide PrintHead, AllWellFormed, RequestLineOk, Respond, Find, IsCut, HeaderPhase;
    var head := PrintHead(verb, path, version, hs);
    var s := head + sent;
    OffsetIsFirstBlank(verb, path, version, hs, sent);
    HeadLength(verb, path, version, hs);
    CutReaches(chunks, s, |head| - 4);
    b := HeaderPhase("", chunks).buffer;
    rest := s[|b|..];
  }

  /** The part of what was sent that has been read with the head. */
  lemma GotWithHead(head: string, sent: string, b: string, rest: string) returns (got: string)
    requires b + rest == head + sent && |head| <= |b|
    ensures b == head + got && got + rest == sent
  {
    got := b[|head|..];
    assert b[..|head|] == (b + rest)[..|head|] == head;
    assert (b + rest)[|head|..] == sent && (b + rest)[|head|..] == got + rest;
  }

  // ---------- The five requests ----------

  /** The method and path that the key of a request comes from. */
  lemma KeyOf(verb: string, path: string, literal: string, place: string)
    requires Free(verb, {' '}) && Free(literal, {' '}) && literal == ToUpper(literal)
    ensures ToUpper(verb) + " " + path == literal + " " + place <==> SameText(verb, literal) && path == place
  {
    SameTextIff(verb, literal);
    UpperFree(verb);
    var u := ToUpper(verb);
    hide ToUpper, SameText;
    if u + " " + path == literal + " " + place {
      UntilAfter(u, " " + path, {' '});
      UntilAfter(literal, " " + place, {' '});
      assert u + (" " + path) == u + " " + path && literal + (" " + place) == literal + " " + place;
      assert (" " + path)[1..] == path && (" " + place)[1..] == place;
    }
  }

  lemma UpperFree(s: string)
    requires Free(s, {' '})
    ensures Free(ToUpper(s), {' '})
  {
    forall i | 0 <= i < |s| ensures ToUpper(s)[i] != ' ' { assert ToUpper(s)[i] == Upper(s[i]); }
  }

  lemma MethodsPlain()
    ensures Free("GET", {' '}) && Free("OPTIONS", {' '}) && Free("POST", {' '})
    ensures "GET" == ToUpper("GET") && "OPTIONS" == ToUpper("OPTIONS") && "POST" == ToUpper("POST")
  {}

  /** The answer to a request for which the server has read this body. */
  ghost function Answer(verb: string, path: string, body: string): Reply {
    if SameText(verb, "GET") && path == "/connections" then Handled("GET /connections", None)
    else if SameText(verb, "GET") && path == "/sse" then Handled("GET /sse", None)
    else if SameText(verb, "OPTIONS") && path == "/connections" then Handled("OPTIONS /connections", None)
    else if SameText(verb, "OPTIONS") && path == "/sse" then Handled("OPTIONS /sse", None)
    else if SameText(verb, "POST") && path == "/broadcast" then Handled("POST /broadcast", Some(body))
    else NotFound
  }

  lemma KeysJoined()
    ensures "GET" + " " + "/connections" == "GET /connections" && "GET" + " " + "/sse" == "GET /sse"
    ensures "OPTIONS" + " " + "/connections" == "OPTIONS /connections" && "OPTIONS" + " " + "/sse" == "OPTIONS /sse"
    ensures "POST" + " " + "/broadcast" == "POST /broadcast"
  {}

  /** The keys of the table, for the requests whose method is one of its own in some case. */
  lemma KeyServed(verb: string, path: string)
    requires Free(verb, {' '})
    ensures var key := ToUpper(verb) + " " + path;
            && (key == "GET /connections" <==> SameText(verb, "GET") && path == "/connections")
            && (key == "GET /sse" <==> SameText(verb, "GET") && path == "/sse")
            && (key == "OPTIONS /connections" <==> SameText(verb, "OPTIONS") && path == "/connections")
            && (key == "OPTIONS /sse" <==> SameText(verb, "OPTIONS") && path == "/sse")
            && (key == "POST /broadcast" <==> SameText(verb, "POST") && path == "/broadcast")
  {
    MethodsPlain();
    KeysJoined();
    hide ToUpper, SameText;
    KeyOf(verb, path, "GET", "/connections");
    KeyOf(verb, path, "GET", "/sse");
    KeyOf(verb, path, "OPTIONS", "/connections");
    KeyOf(verb, path, "OPTIONS", "/sse");
    KeyOf(verb, path, "POST", "/broadcast");
  }

  lemma AnswerByKey(verb: string, path: string, body: string)
    requires Free(verb, {' '})
    ensures var key := ToUpper(verb) + " " + path;
            Answer(verb, path, body) ==
              if key !in SERVER_HANDLERS then NotFound
              else Handled(key, if SERVER_HANDLERS[key] then Some(body) else None)
  {
    hide ToUpper, SameText;
    KeyServed(verb, path);
  }

  /** The body is all that was sent, as declared, or there is none and nothing is declared. */
  ghost predicate SendsBody(hs: seq<Header>, body: string) {
    (LastLength(hs, Decimal(|body|)) && |body| <= 65536) || (NoLength(hs) && body == "")
  }

  /**
   Every well-formed request whose head ends by byte 2048 gets its answer, however
   its stream is cut and in whatever case its method and its header names are
   written: the five that the server knows are handled, a broadcast with exactly
   the body sent, and every other one is not found.
   */
  lemma ServerAnswers(verb: string, path: string, version: string, hs: seq<Header>, body: string, chunks: seq<string>)
    requires RequestLineOk(verb, path, version) && AllWellFormed(hs) && |PrintHead(verb, path, version, hs)| <= 2048
    requires SendsBody(hs, body) && IsCut(chunks, PrintHead(verb, path, version, hs) + body)
    ensures Outcome(SERVER_HANDLERS, PrintHead(verb, path, version, hs) + body, chunks) == Answer(verb, path, body)
  {
    hide PrintHead, AllWellFormed, Outcome, ToUpper, IsCut, Answer, SERVER_HANDLERS, Decimal, SameText;
    AnswerByKey(verb, path, body);
    if LastLength(hs, Decimal(|body|)) && |body| <= 65536 {
      LengthDeclared(hs, |body|);
      EveryCutGivesTheBody(SERVER_HANDLERS, verb, path, version, hs, body, chunks);
    } else {
      AnswerWithoutLength(SERVER_HANDLERS, verb, path, version, hs, "", chunks);
    }
  }

  /** Without a Content-Length nothing that follows the head is read into the body, however the stream is cut. */
  lemma AnswerWithoutLength(handlers: map<string, bool>, verb: string, path: string, version: string, hs: seq<Header>,
                            sent: string, chunks: seq<string>)
    requires RequestLineOk(verb, path, version) && AllWellFormed(hs) && |PrintHead(verb, path, version, hs)| <= 2048
    requires NoLength(hs) && IsCut(chunks, PrintHead(verb, path, version, hs) + sent)
    ensures var key := ToUpper(verb) + " " + path;
            Outcome(handlers, PrintHead(verb, path, version, hs) + sent, chunks) ==
              if key !in handlers then NotFound else Handled(key, if handlers[key] then Some("") else None)
  {
    hide PrintHead, AllWellFormed, RequestLineOk, Outcome, ToUpper, ToLower, IsCut, Respond, NoLength;
    var b, rest := OutcomeIsReply(handlers, verb, path, version, hs, sent, chunks);
    var got := GotWithHead(PrintHead(verb, path, version, hs), sent, b, rest);
    LengthMissing(hs);
    if ToUpper(verb) + " " + path in handlers {
      NoLengthNoBody(handlers, verb, path, version, hs, got, rest);
    } else {
      UnknownKey(handlers, verb, path, version, hs, got, rest);
    }
  }

  lemma UnknownKey(handlers: map<string, bool>, verb: string, path: string, version: string, hs: seq<Header>,
                   got: string, rest: string)
    requires RequestLineOk(verb, path, version) && AllWellFormed(hs) && ToUpper(verb) + " " + path !in handlers
    ensures Respond(handlers, PrintHead(verb, path, version, hs) + got, rest) == NotFound
  {
    hide PrintHead, Parse, HeaderMap, ToUpper, AllWellFormed, RequestLineOk, Stoi;
    ParseUndoesPrint(verb, path, version, hs, got);
  }

  // ---------- A sender that stops early ----------

  /**
   A broadcast that declares n bytes is handled if at least n are sent; with fewer
   the server goes on waiting for the rest, however the stream is cut.
   */
  lemma StalledIff(verb: string, version: string, hs: seq<Header>, n: nat, sent: string, chunks: seq<string>)
    requires SameText(verb, "POST") && RequestLineOk(verb, "/broadcast", version) && AllWellFormed(hs)
    requires LastLength(hs, Decimal(n)) && n <= 65536 && |PrintHead(verb, "/broadcast", version, hs)| <= 2048
    requires IsCut(chunks, PrintHead(verb, "/broadcast", version, hs) + sent)
    ensures var reply := Outcome(SERVER_HANDLERS, PrintHead(verb, "/broadcast", version, hs) + sent, chunks);
            && (reply == Stalled("POST /broadcast") <==> |sent| < n)
            && (reply.Handled? <==> |sent| >= n)
  {
    hide PrintHead, AllWellFormed, RequestLineOk, Outcome, ToUpper, IsCut, Respond, Decimal, SameText;
    var b, rest := OutcomeIsReply(SERVER_HANDLERS, verb, "/broadcast", version, hs, sent, chunks);
    var got := GotWithHead(PrintHead(verb, "/broadcast", version, hs), sent, b, rest);
    LengthDeclared(hs, n);
    VerbFree(verb, "/broadcast", version);
    KeyServed(verb, "/broadcast");
    BodyReply(verb, version, hs, n, got, rest);
  }

  lemma VerbFree(verb: string, path: string, version: string)
    requires RequestLineOk(verb, path, version)
    ensures Free(verb, {' '})
  {}

  lemma BodyReply(verb: string, version: string, hs: seq<Header>, n: nat, got: string, rest: string)
    requires RequestLineOk(verb, "/broadcast", version) && AllWellFormed(hs) && DeclaresLength(hs, n) && n <= 65536
    requires ToUpper(verb) + " " + "/broadcast" == "POST /broadcast"
    ensures Respond(SERVER_HANDLERS, PrintHead(verb, "/broadcast", version, hs) + got, rest) ==
            if |got| >= n then Handled("POST /broadcast", Some(got))
            else if |got| + |rest| >= n then Handled("POST /broadcast", Some(got + rest[..n - |got|]))
            else Stalled("POST /broadcast")
  {
    hide PrintHead, Parse, HeaderMap, ToUpper, AllWellFormed, RequestLineOk, Stoi, DeclaresLength;
    ParseUndoesPrint(verb, "/broadcast", version, hs, got);
    DeclaredLength(hs, n);
    var head := PrintHead(verb, "/broadcast", version, hs);
    assert (head + got)[|head|..] == got;
  }

  // ---------- Lengths that are refused ----------

  /**
   Whatever a known request gives as its length: without a digit behind the white
   space and the sign, or with a number that does not fit an int, it ends the
   program; with one that is negative or above 65536 it is refused; and what
   follows the digits does not matter.
   */
  lemma AnyLengthIff(verb: string, path: string, version: string, hs: seq<Header>, got: string, rest: string,
                     spaces: string, sign: string, digits: string, after: string)
    requires RequestLineOk(verb, path, version) && AllWellFormed(hs)
    requires LastLength(hs, spaces + (sign + (digits + after)))
    requires (forall c :: c in spaces ==> IsSpace(c)) && sign in {"", "+", "-"} && AllDigits(digits)
    requires after != "" ==> !IsDigit(after[0])
    requires digits == "" && sign == "" && after != "" ==> !IsSpace(after[0]) && after[0] != '+' && after[0] != '-'
    requires ToUpper(verb) + " " + path in SERVER_HANDLERS
    ensures var reply := Respond(SERVER_HANDLERS, PrintHead(verb, path, version, hs) + got, rest);
            var fits := digits != "" && -0x8000_0000 <= Reading(sign, digits) <= 0x7fff_ffff;
            && (reply == Crashed <==> !fits)
            && (reply == BodyTooLarge <==> fits && (Reading(sign, digits) < 0 || Reading(sign, digits) > 65536))
  {
    hide PrintHead, Parse, HeaderMap, ToUpper, AllWellFormed, RequestLineOk, Stoi, Value, LastLength, SERVER_HANDLERS;
    ParseUndoesPrint(verb, path, version, hs, got);
    LengthFound(hs, spaces + (sign + (digits + after)));
    ValueWithReturn(spaces, sign, digits, after);
    if digits == "" && sign == "" && after == "" {
      assert spaces + ("" + ("" + ("" + "\r"))) == (spaces + "\r") + ("" + ("" + ""));
      StoiReads(spaces + "\r", "", "", "");
    } else {
      StoiReads(spaces, sign, digits, after + "\r");
    }
  }

  lemma ValueWithReturn(spaces: string, sign: string, digits: string, after: string)
    ensures spaces + (sign + (digits + after)) + "\r" == spaces + (sign + (digits + (after + "\r")))
  {}

  // ---------- Requests that are refused ----------

  /** A buffer without two spaces is a bad request. */
  lemma NoSecondSpaceIsBad(handlers: map<string, bool>, buffer: string, rest: string)
    requires forall j :: !IsSecondSpace(buffer, j)
    ensures Respond(handlers, buffer, rest) == BadRequest
  {
    hide Parse, Stoi, IsSecondSpace;
    NoSecondSpace(buffer);
  }

  /** One with two spaces and a line feed behind them is a bad request exactly if it ends in the middle of a header. */
  lemma CutShortIff(handlers: map<string, bool>, verb: string, path: string, version: string,
                    lines: seq<Line>, tail: Line, rest: string)
    requires RequestLineOk(verb, path, version) && LinesOk(lines) && LineOk(tail)
    ensures var buffer := verb + " " + (path + " " + (version + "\n" + (LinesText(lines) + LineText(tail))));
            Respond(handlers, buffer, rest) == BadRequest <==> AllNamed(lines) && tail.Named?
  {
    hide Parse, Stoi, ByLines, LinesText, LineText, ToUpper, RequestLineOk, LinesOk, LineOk, AllNamed;
    ParseByLines(verb, path, version, lines, tail);
    ByLinesIff(lines, tail, map[]);
  }
}
