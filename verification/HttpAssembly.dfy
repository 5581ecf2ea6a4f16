/**
 What the C++ HTTP handler makes of a stream that arrives in chunks: the limits
 of the header read, and the reply to a request by its Content-Length.
 */
module HttpAssembly {
  import opened Sequences
  import opened Text
  import opened HttpScanner

  const HDR_CHUNK_SIZE := 256
  const HDR_MAX_SIZE := 2048
  const BODY_CHUNK_SIZE := 64
  const BODY_MAX_SIZE := 65536

  // ---------- What the handler computes ----------

  /** What became of the header read: parsing began with this buffer, the request was dropped, or data ran out. */
  datatype Phase = Parsing(buffer: string) | Dropped | Starved

  /** do_read_header on the chunks that its reads return. */
  function HeaderPhase(buffer: string, chunks: seq<string>): Phase
    decreases |chunks|
  {
    if chunks == [] then Starved
    else
      var b := buffer + chunks[0];
      if Find(b, BLANK, 0).Some? then Parsing(b)
      else if |b| >= HDR_MAX_SIZE then Dropped
      else HeaderPhase(b, chunks[1..])
  }

  /** What the handler does with a request; Undefined where the program has no defined behaviour. */
  datatype Reply =
    | NoReply
    | BadRequest
    | NotFound
    | BodyTooLarge
    | Crashed                                       // stoi throws and nothing catches it
    | Undefined
    | Stalled(key: string)                          // the body never arrives in full
    | Handled(key: string, body: Option<string>)    // the handler ran; the body, if it asked for it

  /** do_handle_request on the buffer; rest is what the peer still sends.  handlers says who reads the body. */
  function Respond(handlers: map<string, bool>, buffer: string, rest: string): Reply {
    match Parse(buffer)
    case Invalid => BadRequest
    case PastEnd => Undefined
    case Request(verb, path, headers, offset) =>
      var key := verb + " " + path;
      if key !in handlers then NotFound
      else if "content-length" !in headers then Handled(key, if handlers[key] then Some("") else None)
      else
        match Stoi(headers["content-length"])
        case None => Crashed
        case Some(size) =>
          if size < 0 || size > BODY_MAX_SIZE then BodyTooLarge
          else if !handlers[key] then Handled(key, None)
          else if offset.None? || offset.value > |buffer| then Undefined
          else
            var missing := size - (|buffer| - offset.value);
            if missing <= 0 then Handled(key, Some(buffer[offset.value..]))
            else if missing <= |rest| then Handled(key, Some(buffer[offset.value..] + rest[..missing]))
            else Stalled(key)
  }

  /** The reply to a stream that the header read takes in as these chunks. */
  function Outcome(handlers: map<string, bool>, stream: string, chunks: seq<string>): Reply {
    match HeaderPhase("", chunks)
    case Parsing(b) => if |b| <= |stream| then Respond(handlers, b, stream[|b|..]) else NoReply
    case _ => NoReply
  }

  // ---------- The limits of the header read ----------

  /** chunks is a way to cut the stream s into reads of 1 to 256 bytes. */
  predicate IsCut(chunks: seq<string>, s: string) {
    Flatten(chunks) == s && forall i :: 0 <= i < |chunks| ==> 1 <= |chunks[i]| <= 256
  }

  lemma CutRest(chunks: seq<string>)
    requires chunks != [] && forall i :: 0 <= i < |chunks| ==> 1 <= |chunks[i]| <= HDR_CHUNK_SIZE
    ensures IsCut(chunks[1..], Flatten(chunks[1..]))
    ensures 1 <= |chunks[0]| <= HDR_CHUNK_SIZE
  {}

  lemma NoBlankInPrefix(b: string, rest: string)
    requires Find(b + rest, BLANK, 0).None?
    ensures Find(b, BLANK, 0).None?
  {
    if Find(b, BLANK, 0).Some? { FindStable(b, rest, BLANK); }
  }

  /** Parsing begins with a prefix of the stream of at most 2303 bytes that holds the first blank line. */
  lemma {:induction false} ParsingHasTheBlank(buffer: string, chunks: seq<string>)
    requires |buffer| < HDR_MAX_SIZE && IsCut(chunks, Flatten(chunks))
    requires HeaderPhase(buffer, chunks).Parsing?
    ensures var s := buffer + Flatten(chunks); var b := HeaderPhase(buffer, chunks).buffer;
            && |b| <= |s| && b == s[..|b|] && |b| <= 2303
            && Find(s, BLANK, 0).Some? && Find(s, BLANK, 0).value + 4 <= |b|
    decreases |chunks|
  {
    hide Find;
    CutRest(chunks);
    var b, rest := buffer + chunks[0], Flatten(chunks[1..]);
    assert b + rest == buffer + Flatten(chunks);
    if Find(b, BLANK, 0).Some? {
      FindStable(b, rest, BLANK);
      OccursWithin(b);
      assert (b + rest)[..|b|] == b;
    } else {
      ParsingHasTheBlank(b, chunks[1..]);
    }
  }

  lemma OccursWithin(b: string)
    requires Find(b, BLANK, 0).Some?
    ensures Find(b, BLANK, 0).value + 4 <= |b|
  {}

  /** A header block that ends by byte 2048 reaches the parser, however the stream is cut. */
  lemma {:induction false} EarlyBlankIsParsed(buffer: string, chunks: seq<string>, e: nat)
    requires |buffer| < HDR_MAX_SIZE && IsCut(chunks, Flatten(chunks))
    requires Find(buffer + Flatten(chunks), BLANK, 0) == Some(e) && |buffer| < e + 4 <= HDR_MAX_SIZE
    ensures HeaderPhase(buffer, chunks).Parsing?
    decreases |chunks|
  {
    hide Find;
    OccursWithin(buffer + Flatten(chunks));
    CutRest(chunks);
    var b, rest := buffer + chunks[0], Flatten(chunks[1..]);
    assert b + rest == buffer + Flatten(chunks);
    FindInPrefix(b, rest, BLANK, e);
    if Find(b, BLANK, 0).None? { EarlyBlankIsParsed(b, chunks[1..], e); }
  }

  /** s cut into pieces of 256 bytes. */
  function Pieces(s: string): seq<string>
    decreases |s|
  {
    if s == "" then [] else if |s| <= HDR_CHUNK_SIZE then [s] else [s[..HDR_CHUNK_SIZE]] + Pieces(s[HDR_CHUNK_SIZE..])
  }

  lemma {:induction false} PiecesCut(s: string)
    ensures IsCut(Pieces(s), s)
    decreases |s|
  {
    if |s| > HDR_CHUNK_SIZE {
      PiecesCut(s[HDR_CHUNK_SIZE..]);
      assert s == s[..HDR_CHUNK_SIZE] + s[HDR_CHUNK_SIZE..];
    } else if s != "" {
      assert Flatten([s]) == s + Flatten([]) == s;
    }
  }

  /** Reading a stream whose first 2048 bytes hold no blank line in full pieces ends in a drop. */
  lemma {:induction false} PiecesDrop(buffer: string, s: string)
    requires |buffer| % HDR_CHUNK_SIZE == 0 && |buffer| < HDR_MAX_SIZE && |buffer| + |s| >= HDR_MAX_SIZE
    requires Find((buffer + s)[..HDR_MAX_SIZE], BLANK, 0).None?
    ensures HeaderPhase(buffer, Pieces(s)).Dropped?
    decreases |s|
  {
    hide Find;
    var n := HDR_CHUNK_SIZE;
    assert |buffer| <= HDR_MAX_SIZE - n;
    var b := buffer + s[..n];
    assert Pieces(s)[0] == s[..n] by { if |s| == n { assert s[..n] == s; } }
    assert (buffer + s)[..HDR_MAX_SIZE] == b + (buffer + s)[..HDR_MAX_SIZE][|b|..];
    NoBlankInPrefix(b, (buffer + s)[..HDR_MAX_SIZE][|b|..]);
    if |b| < HDR_MAX_SIZE {
      assert |s| > n;
      assert Pieces(s)[1..] == Pieces(s[n..]);
      assert b + s[n..] == buffer + s;
      PiecesDrop(b, s[n..]);
    }
  }

  /** A header block is parsed under every cutting of the stream exactly when it ends by byte 2048. */
  lemma ParsedUnderEveryCutIff(s: string)
    requires Find(s, BLANK, 0).Some?
    ensures (forall chunks :: IsCut(chunks, s) ==> HeaderPhase("", chunks).Parsing?)
            <==> Find(s, BLANK, 0).value + 4 <= 2048
  {
    hide Find;
    var e := Find(s, BLANK, 0).value;
    if e + 4 <= HDR_MAX_SIZE {
      forall chunks | IsCut(chunks, s) ensures HeaderPhase("", chunks).Parsing? {
        assert "" + s == s;
        EarlyBlankIsParsed("", chunks, e);
      }
    } else {
      OccursWithin(s);
      PiecesCut(s);
      var head, rest := s[..HDR_MAX_SIZE], s[HDR_MAX_SIZE..];
      assert s == head + rest && "" + s == s;
      FindInPrefix(head, rest, BLANK, e);
      PiecesDrop("", s);
      assert !HeaderPhase("", Pieces(s)).Parsing?;
    }
  }

  /** Seven full reads, one of 255 bytes, and the rest in full reads: 2047 bytes are read before the last. */
  function LateCut(s: string): seq<string>
    requires |s| >= 2047
  {
    LateStart(s) + Pieces(s[2047..])
  }

  function LateStart(s: string): seq<string>
    requires |s| >= 2047
  {
    Pieces(s[..1792]) + [s[1792..2047]]
  }

  /** The first part of the late cut holds 2047 bytes, so one more read is made. */
  lemma LateStartIsCut(s: string)
    requires |s| >= 2047
    ensures IsCut(LateStart(s), s[..2047])
  {
    PiecesCut(s[..1792]);
    FlattenConcat(Pieces(s[..1792]), [s[1792..2047]]);
    assert Flatten([s[1792..2047]]) == s[1792..2047] + Flatten([]) == s[1792..2047];
    assert s[..1792] + s[1792..2047] == s[..2047];
  }

  lemma LateCutIsCut(s: string)
    requires |s| >= 2047
    ensures IsCut(LateCut(s), s)
  {
    LateStartIsCut(s);
    PiecesCut(s[2047..]);
    FlattenConcat(LateStart(s), Pieces(s[2047..]));
    assert s == s[..2047] + s[2047..];
  }

  /** Reading on through chunks that stay below the limit and hold no blank line. */
  lemma {:induction false} ReadThrough(buffer: string, first: seq<string>, more: seq<string>)
    requires |buffer| + |Flatten(first)| < HDR_MAX_SIZE
    requires Find(buffer + Flatten(first), BLANK, 0).None?
    ensures HeaderPhase(buffer, first + more) == HeaderPhase(buffer + Flatten(first), more)
    decreases |first|
  {
    hide Find;
    if first == [] {
      assert first + more == more && buffer + Flatten(first) == buffer;
    } else {
      var b, rest := buffer + first[0], Flatten(first[1..]);
      assert buffer + Flatten(first) == b + rest;
      NoBlankInPrefix(b, rest);
      assert (first + more)[1..] == first[1..] + more;
      ReadThrough(b, first[1..], more);
    }
  }

  /** A header block is parsed under some cutting of the stream exactly when it ends by byte 2303. */
  lemma ParsedUnderSomeCutIff(s: string)
    ensures (exists chunks :: IsCut(chunks, s) && HeaderPhase("", chunks).Parsing?)
            <==> Find(s, BLANK, 0).Some? && Find(s, BLANK, 0).value + 4 <= 2303
  {
    hide Find;
    assert "" + s == s;
    if chunks :| IsCut(chunks, s) && HeaderPhase("", chunks).Parsing? {
      ParsingHasTheBlank("", chunks);
    }
    if Find(s, BLANK, 0).Some? && Find(s, BLANK, 0).value + 4 <= 2303 {
      var e := Find(s, BLANK, 0).value;
      if e + 4 <= HDR_MAX_SIZE {
        PiecesCut(s);
        EarlyBlankIsParsed("", Pieces(s), e);
      } else {
        LateBlankIsParsed(s, e);
      }
    }
  }

  /** The next piece is the whole rest, or 256 bytes of it. */
  lemma NextPiece(b: string, rest: string, e: nat)
    requires Find(b + rest, BLANK, 0) == Some(e) && |b| == 2047 && |b| < e + 4 <= 2303
    ensures HeaderPhase(b, Pieces(rest)).Parsing?
  {
    hide Find, OccursAt;
    OccursWithin(b + rest);
    var n := if |rest| <= HDR_CHUNK_SIZE then |rest| else HDR_CHUNK_SIZE;
    assert rest != "" && Pieces(rest)[0] == rest[..n] by { if |rest| == n { assert rest[..n] == rest; } }
    assert b + rest == (b + rest[..n]) + rest[n..];
    FindInPrefix(b + rest[..n], rest[n..], BLANK, e);
  }

  lemma LateCutReads(s: string)
    requires |s| >= 2047 && Find(s[..2047], BLANK, 0).None?
    ensures HeaderPhase("", LateCut(s)) == HeaderPhase(s[..2047], Pieces(s[2047..]))
  {
    hide Find, Pieces, LateStart, HeaderPhase;
    LateStartIsCut(s);
    assert "" + Flatten(LateStart(s)) == s[..2047];
    ReadThrough("", LateStart(s), Pieces(s[2047..]));
  }

  lemma BlankIn(b: string, rest: string, e: nat)
    requires Find(b + rest, BLANK, 0) == Some(e)
    ensures e + 4 <= |b| || Find(b, BLANK, 0).None?
  {
    FindInPrefix(b, rest, BLANK, e);
  }

  lemma LateBlankIsParsed(s: string, e: nat)
    requires Find(s, BLANK, 0) == Some(e) && 2048 < e + 4 <= 2303
    ensures |s| >= 2047 && IsCut(LateCut(s), s) && HeaderPhase("", LateCut(s)).Parsing?
  {
    hide *;
    OccursWithin(s);
    LateCutIsCut(s);
    var b, rest := s[..2047], s[2047..];
    assert Find(b + rest, BLANK, 0) == Some(e) by { assert s == b + rest; }
    BlankIn(b, rest, e);
    LateCutReads(s);
    NextPiece(b, rest, e);
  }

  // ---------- When the behaviour is defined ----------

  /** The server's handlers, and whether they ask for the body. */
  const SERVER_HANDLERS := map["GET /connections" := false, "GET /sse" := false, "OPTIONS /connections" := false,
                               "OPTIONS /sse" := false, "POST /broadcast" := true]

  lemma ServerKeysArePlain()
    ensures PlainKeys(SERVER_HANDLERS)
  {}

  /** No handler key holds a line feed, as none of the server's does. */
  predicate PlainKeys(handlers: map<string, bool>) {
    forall key :: key in handlers ==> '\n' !in key
  }

  lemma UpperKeepsLineFeed(s: string)
    ensures '\n' in ToUpper(s) <==> '\n' in s
  {
    if '\n' in s {
      var i :| 0 <= i < |s| && s[i] == '\n';
      assert ToUpper(s)[i] == '\n';
    }
    if '\n' in ToUpper(s) {
      var i :| 0 <= i < |s| && ToUpper(s)[i] == '\n';
      assert Upper(s[i]) == '\n';
    }
  }

  lemma NoLineFeedBefore(buffer: string, sp: nat, j: nat, key: string)
    requires sp < j <= |buffer| && buffer[sp] == ' '
    requires '\n' !in key && key == ToUpper(buffer[..sp]) + " " + buffer[sp + 1..j]
    ensures forall k :: 0 <= k < j ==> buffer[k] != '\n'
  {
    PartsOfKey(ToUpper(buffer[..sp]), buffer[sp + 1..j]);
    UpperKeepsLineFeed(buffer[..sp]);
    hide ToUpper;
    forall k | 0 <= k < j ensures buffer[k] != '\n' {
      if k < sp { assert buffer[..sp][k] == buffer[k]; }
      if k > sp { assert buffer[sp + 1..j][k - sp - 1] == buffer[k]; }
    }
  }

  lemma PartsOfKey(verb: string, path: string)
    requires '\n' !in verb + " " + path
    ensures '\n' !in verb && '\n' !in path
  {
    assert forall k :: 0 <= k < |verb| ==> verb[k] == (verb + " " + path)[k];
    assert forall k :: 0 <= k < |path| ==> path[k] == (verb + " " + path)[|verb| + 1 + k];
  }

  lemma RequestParts(buffer: string, j: nat)
    requires IsSecondSpace(buffer, j) && Parse(buffer).Request?
    ensures var sp := Until(buffer, {' '});
            sp < j && Parse(buffer).verb == ToUpper(buffer[..sp]) && Parse(buffer).path == buffer[sp + 1..j]
  {
    ParseFromSpaces(buffer, j);
    hide Parse, Until, IsSecondSpace, Scan, ToUpper;
  }

  lemma PlainKey(handlers: map<string, bool>, key: string)
    requires PlainKeys(handlers) && key in handlers
    ensures '\n' !in key
  {}

  lemma FirstSpace(buffer: string)
    ensures var sp := Until(buffer, {' '}); sp < |buffer| ==> buffer[sp] == ' '
  {}

  /** A request whose key has a handler has its two spaces before the blank line. */
  lemma KeyIsPlain(handlers: map<string, bool>, buffer: string, e: nat) returns (j: nat)
    requires PlainKeys(handlers) && OccursAt(buffer, BLANK, e)
    requires Parse(buffer).Request? && Parse(buffer).verb + " " + Parse(buffer).path in handlers
    ensures j < e && IsSecondSpace(buffer, j)
  {
    hide *;
    ParseNeedsSpaces(buffer);
    BlankAt(buffer, e);
    FirstSpace(buffer);
    var sp := Until(buffer, {' '});
    j := sp + 1 + Until(buffer[sp + 1..], {' '});
    SecondSpaceIn(buffer, j);
    RequestParts(buffer, j);
    PlainKey(handlers, Parse(buffer).verb + " " + Parse(buffer).path);
    NoLineFeedBefore(buffer, sp, j, Parse(buffer).verb + " " + Parse(buffer).path);
  }

  /**
   On a buffer that holds the blank line, as every buffer that is parsed does,
   what the handler does is undefined exactly if the scan of the request line
   leaves the buffer, that is, if no line feed follows the second space.
   */
  lemma UndefinedIff(handlers: map<string, bool>, buffer: string, rest: string)
    requires PlainKeys(handlers) && Find(buffer, BLANK, 0).Some?
    ensures Respond(handlers, buffer, rest) == Undefined <==> RunsPast(buffer)
  {
    hide Stoi, RunsPast, PlainKeys, Parse, OccursAt;
    PastEndIff(buffer);
    var p := Parse(buffer);
    if p.Request? && p.verb + " " + p.path in handlers {
      var e := Find(buffer, BLANK, 0).value;
      var j := KeyIsPlain(handlers, buffer, e);
      TwoSpacesParse(buffer, e, j);
      OccursWithin(buffer);
    }
  }

  /** With two spaces before the blank line a request is neither malformed nor undefined, whatever the keys. */
  lemma TwoSpacesAreServed(handlers: map<string, bool>, buffer: string, rest: string, e: nat, j: nat)
    requires Find(buffer, BLANK, 0) == Some(e) && j < e && IsSecondSpace(buffer, j)
    ensures Respond(handlers, buffer, rest) != Undefined && Respond(handlers, buffer, rest) != BadRequest
  {
    hide Stoi, Parse, IsSecondSpace, OccursAt;
    TwoSpacesParse(buffer, e, j);
    OccursWithin(buffer);
  }

  /** A stream that is parsed and leaves the program undefined, whatever the handlers and the rest. */
  lemma UndefinedReached(handlers: map<string, bool>, rest: string)
    ensures var s := "\r\n\r\na b c"; HeaderPhase("", [s]) == Parsing(s) && Respond(handlers, s, rest) == Undefined
  {
    hide Parse, Find;
    var s := "\r\n\r\na b c";
    PastEndReached();
    assert "" + s == s;
  }

  // ---------- Well-formed requests, whatever the chunks ----------

  /** The request names a Content-Length of n, in its last header of that name. */
  ghost predicate DeclaresLength(hs: seq<Header>, n: nat) {
    exists i :: 0 <= i < |hs| && LastNamed(hs, i, "content-length") && hs[i].value == Decimal(n)
  }

  lemma DeclaredLength(hs: seq<Header>, n: nat)
    requires DeclaresLength(hs, n)
    ensures var headers := HeaderMap(hs, map[]);
            "content-length" in headers && Stoi(headers["content-length"]) == if n < 0x8000_0000 then Some(n) else None
  {
    hide Stoi, Decimal;
    var i :| 0 <= i < |hs| && LastNamed(hs, i, "content-length") && hs[i].value == Decimal(n);
    LastHeaderWins(hs, map[], "content-length");
    StoiOfDecimal(n, "\r");
  }

  /**
   What the handler of a well-formed request is given, when parsing begins with
   the prefix b of the stream: everything b holds behind the head, and at least
   the declared length.
   */
  lemma WellFormedReply(handlers: map<string, bool>, verb: string, path: string, version: string, hs: seq<Header>,
                        n: nat, sent: string, b: string, rest: string)
    requires RequestLineOk(verb, path, version) && AllWellFormed(hs) && DeclaresLength(hs, n) && n <= BODY_MAX_SIZE
    requires b + rest == PrintHead(verb, path, version, hs) + sent && |PrintHead(verb, path, version, hs)| <= |b|
    requires n <= |sent|
    ensures var head := PrintHead(verb, path, version, hs);
            var key := ToUpper(verb) + " " + path;
            Respond(handlers, b, rest) ==
              if key !in handlers then NotFound
              else Handled(key, if !handlers[key] then None
                                else Some(sent[..if |b| - |head| > n then |b| - |head| else n]))
  {
    hide PrintHead, Parse, Stoi, HeaderMap, ToUpper, AllWellFormed, RequestLineOk, DeclaresLength;
    var head := PrintHead(verb, path, version, hs);
    var got := b[|head|..];
    assert b == head + got by { assert b[..|head|] == (b + rest)[..|head|] == head; }
    assert got + rest == sent by { assert (b + rest)[|head|..] == sent && (b + rest)[|head|..] == got + rest; }
    ParseUndoesPrint(verb, path, version, hs, got);
    DeclaredLength(hs, n);
    ReplyBody(got, rest, n);
  }

  lemma ReplyBody(got: string, rest: string, n: nat)
    requires n <= |got| + |rest|
    ensures n <= |got| ==> got == (got + rest)[..|got|]
    ensures n > |got| ==> got + rest[..n - |got|] == (got + rest)[..n]
  {}

  /** A declared length is refused exactly if it is above the limit, and ends the program if it does not fit an int. */
  lemma LengthLimitsIff(handlers: map<string, bool>, verb: string, path: string, version: string, hs: seq<Header>,
                        n: nat, got: string, rest: string)
    requires RequestLineOk(verb, path, version) && AllWellFormed(hs) && DeclaresLength(hs, n)
    requires ToUpper(verb) + " " + path in handlers
    ensures var reply := Respond(handlers, PrintHead(verb, path, version, hs) + got, rest);
            && (reply == BodyTooLarge <==> 65536 < n < 0x8000_0000)
            && (reply == Crashed <==> n >= 0x8000_0000)
  {
    hide PrintHead, Parse, Stoi, HeaderMap, ToUpper, AllWellFormed, RequestLineOk, DeclaresLength;
    ParseUndoesPrint(verb, path, version, hs, got);
    DeclaredLength(hs, n);
  }

  /** Without a Content-Length the handler's body is empty, whatever has been sent behind the head. */
  lemma NoLengthNoBody(handlers: map<string, bool>, verb: string, path: string, version: string, hs: seq<Header>,
                       got: string, rest: string)
    requires RequestLineOk(verb, path, version) && AllWellFormed(hs)
    requires forall i :: 0 <= i < |hs| ==> ToLower(hs[i].name) != "content-length"
    requires ToUpper(verb) + " " + path in handlers
    ensures var key := ToUpper(verb) + " " + path;
            Respond(handlers, PrintHead(verb, path, version, hs) + got, rest) ==
              Handled(key, if handlers[key] then Some("") else None)
  {
    hide PrintHead, Parse, Stoi, HeaderMap, ToUpper, ToLower, AllWellFormed, RequestLineOk;
    ParseUndoesPrint(verb, path, version, hs, got);
    LastHeaderWins(hs, map[], "content-length");
  }

  /**
   For every cutting of a well-formed request whose head ends by byte 2048 and
   whose sender sends exactly the declared body, parsing begins, and the handler
   of the same key is given exactly that body.
   */
  lemma EveryCutGivesTheBody(handlers: map<string, bool>, verb: string, path: string, version: string, hs: seq<Header>,
                             body: string, chunks: seq<string>)
    requires RequestLineOk(verb, path, version) && AllWellFormed(hs)
    requires DeclaresLength(hs, |body|) && |body| <= 65536
    requires |PrintHead(verb, path, version, hs)| <= 2048
    requires IsCut(chunks, PrintHead(verb, path, version, hs) + body)
    ensures var s := PrintHead(verb, path, version, hs) + body;
            var key := ToUpper(verb) + " " + path;
            Outcome(handlers, s, chunks) ==
              if key !in handlers then NotFound else Handled(key, if handlers[key] then Some(body) else None)
  {
    hide PrintHead, AllWellFormed, RequestLineOk, DeclaresLength, Find, Respond, ToUpper;
    var head := PrintHead(verb, path, version, hs);
    var s := head + body;
    OffsetIsFirstBlank(verb, path, version, hs, body);
    HeadLength(verb, path, version, hs);
    assert "" + s == s;
    EarlyBlankIsParsed("", chunks, |head| - 4);
    ParsingHasTheBlank("", chunks);
    var b := HeaderPhase("", chunks).buffer;
    assert b + s[|b|..] == s;
    WellFormedReply(handlers, verb, path, version, hs, |body|, body, b, s[|b|..]);
    assert body[..|body|] == body;
  }

  lemma HeadLength(verb: string, path: string, version: string, hs: seq<Header>)
    ensures |PrintHead(verb, path, version, hs)| >= 4
  {}

  /**
   The body is cut at the declared length only by what has been read: if the
   sender sends more, the handler is given exactly the declared length when and
   only when the header reads took in no more than that.
   */
  lemma ExactBodyIff(handlers: map<string, bool>, verb: string, path: string, version: string, hs: seq<Header>,
                     n: nat, sent: string, b: string, rest: string)
    requires RequestLineOk(verb, path, version) && AllWellFormed(hs) && DeclaresLength(hs, n) && n <= BODY_MAX_SIZE
    requires b + rest == PrintHead(verb, path, version, hs) + sent && |PrintHead(verb, path, version, hs)| <= |b|
    requires n <= |sent| && ToUpper(verb) + " " + path in handlers && handlers[ToUpper(verb) + " " + path]
    ensures Respond(handlers, b, rest) == Handled(ToUpper(verb) + " " + path, Some(sent[..n]))
            <==> |b| <= |PrintHead(verb, path, version, hs)| + n
  {
    hide PrintHead, AllWellFormed, RequestLineOk, DeclaresLength, Respond, ToUpper;
    WellFormedReply(handlers, verb, path, version, hs, n, sent, b, rest);
    assert |b| + |rest| == |PrintHead(verb, path, version, hs)| + |sent| by {
      assert |b + rest| == |PrintHead(verb, path, version, hs) + sent|;
    }
    var kept := |b| - |PrintHead(verb, path, version, hs)|;
    if kept > n { assert |sent[..kept]| != |sent[..n]|; }
  }

  // ---------- Exactly the declared body, over all cuttings ----------

  /** The read that completes the head holds at most 255 bytes behind it. */
  lemma {:induction false} ParsingIsPrompt(buffer: string, chunks: seq<string>, e: nat)
    requires |buffer| < HDR_MAX_SIZE && IsCut(chunks, Flatten(chunks)) && HeaderPhase(buffer, chunks).Parsing?
    requires Find(buffer + Flatten(chunks), BLANK, 0) == Some(e) && |buffer| < e + 4
    ensures |HeaderPhase(buffer, chunks).buffer| <= e + 4 + HDR_CHUNK_SIZE - 1
    decreases |chunks|
  {
    hide Find;
    CutRest(chunks);
    var b, rest := buffer + chunks[0], Flatten(chunks[1..]);
    assert b + rest == buffer + Flatten(chunks);
    FindInPrefix(b, rest, BLANK, e);
    if Find(b, BLANK, 0).None? { ParsingIsPrompt(b, chunks[1..], e); }
  }

  /** The cutting in which one read holds the bytes i to j, and all others are full. */
  function CutAround(s: string, i: nat, j: nat): seq<string>
    requires i <= j <= |s|
  {
    Pieces(s[..i]) + ([s[i..j]] + Pieces(s[j..]))
  }

  lemma CutAroundIsCut(s: string, i: nat, j: nat)
    requires i < j <= |s| && j - i <= HDR_CHUNK_SIZE
    ensures IsCut(CutAround(s, i, j), s)
  {
    PiecesCut(s[..i]);
    PiecesCut(s[j..]);
    assert s == s[..i] + (s[i..j] + s[j..]);
    CutAroundFlat(s, i, j);
    hide Pieces, Flatten;
    var pieces := CutAround(s, i, j);
    var n := |Pieces(s[..i])|;
    forall k | 0 <= k < |pieces| ensures 1 <= |pieces[k]| <= HDR_CHUNK_SIZE {
      if k < n { assert pieces[k] == Pieces(s[..i])[k]; }
      if k > n { assert pieces[k] == Pieces(s[j..])[k - n - 1]; }
    }
  }

  lemma CutAroundFlat(s: string, i: nat, j: nat)
    requires i <= j <= |s|
    ensures Flatten(CutAround(s, i, j)) == Flatten(Pieces(s[..i])) + (s[i..j] + Flatten(Pieces(s[j..])))
  {
    hide Pieces;
    var more := [s[i..j]] + Pieces(s[j..]);
    assert more[0] == s[i..j] && more[1..] == Pieces(s[j..]);
    FlattenConcat(Pieces(s[..i]), more);
  }

  /** The reads before that one are read through. */
  lemma CutAroundReads(s: string, i: nat, j: nat)
    requires i < HDR_MAX_SIZE && i <= j <= |s| && Find(s[..i], BLANK, 0).None?
    ensures HeaderPhase("", CutAround(s, i, j)) == HeaderPhase(s[..i], [s[i..j]] + Pieces(s[j..]))
  {
    hide Find, Pieces, HeaderPhase;
    PiecesFlat(s[..i]);
    assert "" + s[..i] == s[..i];
    ReadThrough("", Pieces(s[..i]), [s[i..j]] + Pieces(s[j..]));
  }

  lemma PieceCompletes(b: string, piece: string, more: seq<string>)
    requires Find(b + piece, BLANK, 0).Some?
    ensures HeaderPhase(b, [piece] + more) == Parsing(b + piece)
  {
    hide Find;
  }

  /** In that cutting, with the last byte of the head in that read, parsing begins with all of the read. */
  lemma CutAroundParses(s: string, i: nat, j: nat)
    requires 3 <= i < HDR_MAX_SIZE && i < j <= |s| && Find(s, BLANK, 0) == Some(i - 3)
    ensures HeaderPhase("", CutAround(s, i, j)) == Parsing(s[..j])
  {
    hide Find, Pieces, HeaderPhase, CutAround;
    assert s[..i] + s[i..] == s && s[..j] + s[j..] == s && s[..i] + s[i..j] == s[..j];
    FindInPrefix(s[..i], s[i..], BLANK, i - 3);
    FindInPrefix(s[..j], s[j..], BLANK, i - 3);
    CutAroundReads(s, i, j);
    PieceCompletes(s[..i], s[i..j], Pieces(s[j..]));
  }

  lemma PiecesFlat(s: string)
    ensures Flatten(Pieces(s)) == s
  {
    PiecesCut(s);
  }

  /** The body that is given when parsing begins with the prefix of the stream that ends at j. */
  lemma OutcomeAt(handlers: map<string, bool>, verb: string, path: string, version: string, hs: seq<Header>,
                  n: nat, sent: string, chunks: seq<string>)
    requires RequestLineOk(verb, path, version) && AllWellFormed(hs) && DeclaresLength(hs, n) && n <= BODY_MAX_SIZE
    requires n <= |sent| && ToUpper(verb) + " " + path in handlers && handlers[ToUpper(verb) + " " + path]
    requires HeaderPhase("", chunks).Parsing?
    requires var s := PrintHead(verb, path, version, hs) + sent; var b := HeaderPhase("", chunks).buffer;
             |PrintHead(verb, path, version, hs)| <= |b| <= |s| && b == s[..|b|]
    ensures Outcome(handlers, PrintHead(verb, path, version, hs) + sent, chunks) ==
              Handled(ToUpper(verb) + " " + path, Some(sent[..n]))
            <==> |HeaderPhase("", chunks).buffer| <= |PrintHead(verb, path, version, hs)| + n
  {
    hide PrintHead, AllWellFormed, RequestLineOk, DeclaresLength, Respond, ToUpper, HeaderPhase;
    var s, b := PrintHead(verb, path, version, hs) + sent, HeaderPhase("", chunks).buffer;
    assert b + s[|b|..] == s;
    ExactBodyIff(handlers, verb, path, version, hs, n, sent, b, s[|b|..]);
  }

  /**
   For a head that ends by byte 2048, the handler is given exactly the declared
   bytes under every cutting of the stream if and only if no more are sent, or at
   least 255 are declared, which is what one read can take in behind the head.
   */
  lemma ExactBodyUnderEveryCutIff(handlers: map<string, bool>, verb: string, path: string, version: string,
                                  hs: seq<Header>, n: nat, sent: string)
    requires RequestLineOk(verb, path, version) && AllWellFormed(hs) && DeclaresLength(hs, n) && n <= 65536
    requires n <= |sent| && ToUpper(verb) + " " + path in handlers && handlers[ToUpper(verb) + " " + path]
    requires |PrintHead(verb, path, version, hs)| <= 2048
    ensures var s := PrintHead(verb, path, version, hs) + sent;
            (forall chunks :: IsCut(chunks, s) ==>
               Outcome(handlers, s, chunks) == Handled(ToUpper(verb) + " " + path, Some(sent[..n])))
            <==> |sent| == n || n >= 255
  {
    hide PrintHead, AllWellFormed, RequestLineOk, DeclaresLength, ToUpper, HeaderPhase, Find, IsCut, Outcome, CutAround;
    var head := PrintHead(verb, path, version, hs);
    var s := head + sent;
    HeadLength(verb, path, version, hs);
    OffsetIsFirstBlank(verb, path, version, hs, sent);
    if |sent| == n || n >= 255 {
      forall chunks | IsCut(chunks, s)
        ensures Outcome(handlers, s, chunks) == Handled(ToUpper(verb) + " " + path, Some(sent[..n]))
      {
        CutReaches(chunks, s, |head| - 4);
        OutcomeAt(handlers, verb, path, version, hs, n, sent, chunks);
      }
    } else {
      var j := |head| + n + 1;
      var chunks := CutAround(s, |head| - 1, j);
      CutAroundIsCut(s, |head| - 1, j);
      CutAroundParses(s, |head| - 1, j);
      OutcomeAt(handlers, verb, path, version, hs, n, sent, chunks);
    }
  }

  /** Every cutting of a stream with an early blank line leads to a parse of little more than the head. */
  lemma CutReaches(chunks: seq<string>, s: string, e: nat)
    requires IsCut(chunks, s) && Find(s, BLANK, 0) == Some(e) && e + 4 <= HDR_MAX_SIZE
    ensures HeaderPhase("", chunks).Parsing?
    ensures var b := HeaderPhase("", chunks).buffer;
            e + 4 <= |b| <= |s| && b == s[..|b|] && |b| <= e + 4 + HDR_CHUNK_SIZE - 1
  {
    hide Find, HeaderPhase;
    assert "" + s == s;
    EarlyBlankIsParsed("", chunks, e);
    ParsingHasTheBlank("", chunks);
    ParsingIsPrompt("", chunks, e);
  }
}
