/**
 The Node server's reading of one connection: chunks are appended to a buffer,
 the request line is looked for, and a POST is handled once its body is complete.
 Chunks are ASCII, so that bytes and characters are the same.
 */
module NodePost {
  import opened Sequences
  import opened Text
  import H = HttpScanner

  // ---------- The Content-Length pattern ----------

  const NAME := "content-length:"

  /** Whether the header name stands at position i, in any case. */
  predicate NameAt(s: string, i: nat) {
    i + |NAME| <= |s| && ToLower(s[i..i + |NAME|]) == NAME
  }

  /** White space, at least one digit, a carriage return: the digits. */
  function DigitsIn(rest: string): (r: Option<string>)
    ensures r.Some? ==> AllDigits(r.value)
  {
    var value := rest[Blanks(rest)..];
    var n := DigitRun(value);
    if n > 0 && n < |value| && value[n] == '\r' then Some(value[..n]) else None
  }

  /** The digits of a match at position i. */
  function DigitsAt(s: string, i: nat): (r: Option<string>)
    ensures r.Some? ==> AllDigits(r.value)
  {
    if NameAt(s, i) then DigitsIn(s[i + |NAME|..]) else None
  }

  /** headers.match(/content-length:\s*(\d+)\r/i) from position i on: the leftmost match decides. */
  function Match(s: string, i: nat): (r: Option<string>)
    ensures r.Some? ==> AllDigits(r.value)
    decreases |s| - i
  {
    if DigitsAt(s, i).Some? then DigitsAt(s, i)
    else if i >= |s| then None
    else Match(s, i + 1)
  }

  function ContentLength(headers: string): Option<nat> {
    match Match(headers, 0)
    case None => None
    case Some(digits) => Some(Value(digits))
  }

  predicate NoMatchBefore(s: string, i: nat, k: nat) {
    forall j :: i <= j < k ==> DigitsAt(s, j).None?
  }

  /** The pattern is not anchored: the first place where it fits decides. */
  lemma {:induction false} LeftmostDecides(s: string, i: nat, k: nat)
    requires i <= k && DigitsAt(s, k).Some? && NoMatchBefore(s, i, k)
    ensures Match(s, i) == DigitsAt(s, k)
    decreases k - i
  {
    if i < k {
      assert DigitsAt(s, i).None?;
      assert k < |s| by { assert NameAt(s, k); }
      LeftmostDecides(s, i + 1, k);
    }
  }

  lemma NoMatchAtEnd(s: string)
    ensures DigitsAt(s, |s|).None?
  {}

  lemma {:induction false} NoMatchIff(s: string, i: nat)
    requires i <= |s|
    ensures Match(s, i).None? <==> NoMatchBefore(s, i, |s|)
    decreases |s| - i
  {
    hide DigitsAt;
    NoMatchAtEnd(s);
    if DigitsAt(s, i).None? && i < |s| { NoMatchIff(s, i + 1); }
  }

  lemma DigitsHere(spaces: string, digits: string, after: string)
    requires (forall c :: c in spaces ==> IsSpace(c)) && digits != "" && AllDigits(digits)
    ensures DigitsIn(spaces + (digits + ("\r" + after))) == Some(digits)
  {
    var value := digits + ("\r" + after);
    assert IsDigit(digits[0]);
    BlanksThen(spaces, value);
    DigitRunOf(digits, "\r" + after);
    assert value[..|digits|] == digits && value[|digits|] == '\r';
  }

  /** What the pattern takes at a position: the name in any case, white space, digits, a carriage return. */
  ghost predicate Fits(rest: string, name: string, spaces: string, digits: string, after: string) {
    && rest == name + (spaces + (digits + ("\r" + after))) && SameText(name, "Content-Length:")
    && (forall c :: c in spaces ==> IsSpace(c)) && digits != "" && AllDigits(digits)
  }

  lemma NameLower()
    ensures ToLower("Content-Length:") == NAME
  {}

  lemma NameIs(name: string)
    ensures SameText(name, "Content-Length:") <==> ToLower(name) == NAME
    ensures SameText(name, "Content-Length:") ==> |name| == |NAME|
  {
    NameLower();
    hide ToLower;
    SameTextIff(name, "Content-Length:");
    assert |ToLower("Content-Length:")| == |"Content-Length:"|;
  }

  lemma FitsGives(s: string, i: nat, name: string, spaces: string, digits: string, after: string)
    requires i <= |s| && Fits(s[i..], name, spaces, digits, after)
    ensures DigitsAt(s, i) == Some(digits)
  {
    NameIs(name);
    hide ToLower, DigitsIn, SameText, IsSpace;
    var rest := spaces + (digits + ("\r" + after));
    DigitsHere(spaces, digits, after);
    assert s == s[..i] + (name + rest);
    NameHere(s[..i], name, rest);
  }

  lemma GivesFits(s: string, i: nat) returns (name: string, spaces: string, after: string)
    requires DigitsAt(s, i).Some?
    ensures i <= |s| && Fits(s[i..], name, spaces, DigitsAt(s, i).value, after)
  {
    name := s[i..i + |NAME|];
    var rest := s[i + |NAME|..];
    assert s[i..] == name + rest;
    NameIs(name);
    hide ToLower, SameText;
    spaces, after := DigitsParts(rest);
  }

  lemma DigitsParts(rest: string) returns (spaces: string, after: string)
    requires DigitsIn(rest).Some?
    ensures rest == spaces + (DigitsIn(rest).value + ("\r" + after)) && DigitsIn(rest).value != ""
    ensures forall c :: c in spaces ==> IsSpace(c)
  {
    var k := Blanks(rest);
    var value := rest[k..];
    var n := DigitRun(value);
    spaces, after := rest[..k], value[n + 1..];
    BlanksAre(rest);
    assert value == value[..n] + ("\r" + after);
  }

  lemma {:induction false} BlanksAre(s: string)
    ensures forall c :: c in s[..Blanks(s)] ==> IsSpace(c)
  {
    if s != "" && IsSpace(s[0]) {
      BlanksAre(s[1..]);
      assert s[..Blanks(s)] == [s[0]] + s[1..][..Blanks(s[1..])];
    }
  }

  /** The pattern matches exactly where it fits, with the digits that it takes there. */
  lemma FitsIff(s: string, i: nat, digits: string)
    requires i <= |s|
    ensures DigitsAt(s, i) == Some(digits) <==>
            exists name, spaces, after :: Fits(s[i..], name, spaces, digits, after)
  {
    hide DigitsAt, Fits;
    if DigitsAt(s, i) == Some(digits) { var name, spaces, after := GivesFits(s, i); }
    if name, spaces, after :| Fits(s[i..], name, spaces, digits, after) {
      FitsGives(s, i, name, spaces, digits, after);
    }
  }

  lemma NameHere(before: string, name: string, rest: string)
    requires |name| == |NAME| && ToLower(name) == NAME
    ensures DigitsAt(before + (name + rest), |before|) == DigitsIn(rest)
  {
    hide ToLower, DigitsIn;
    var s, k := before + (name + rest), |before|;
    assert s[k..k + |NAME|] == name && s[k + |NAME|..] == rest;
  }

  /** A header line "Content-Length: n" is read as n, unless the pattern fits somewhere before it. */
  lemma DeclaredLength(before: string, name: string, spaces: string, n: nat, after: string)
    requires |name| == |NAME| && ToLower(name) == NAME && forall c :: c in spaces ==> IsSpace(c)
    requires NoMatchBefore(before + (name + (spaces + (Decimal(n) + ("\r" + after)))), 0, |before|)
    ensures ContentLength(before + (name + (spaces + (Decimal(n) + ("\r" + after))))) == Some(n)
  {
    hide Decimal, ToLower, Match, DigitsAt, DigitsIn, IsSpace, NoMatchBefore;
    var rest := spaces + (Decimal(n) + ("\r" + after));
    DigitsHere(spaces, Decimal(n), after);
    NameHere(before, name, rest);
    LeftmostDecides(before + (name + rest), 0, |before|);
    ValueOfDecimal(n);
  }

  // ---------- One event ----------

  /** What handleRequest does; the body is the message of a broadcast. */
  datatype Reaction = ClientError | Cors | Broadcast(message: string) | Count | Subscribe | NotFound

  function HandleRequest(verb: string, path: Option<string>, body: string): Reaction {
    if verb == "" || path.None? || path.value == "" then ClientError
    else if verb == "OPTIONS" then Cors
    else if verb == "POST" && path.value == "/broadcast" then Broadcast(body)
    else if path.value == "/connections" then Count
    else if path.value == "/sse" then Subscribe
    else NotFound
  }

  datatype Action = Wait | LengthRequired | Handle(reaction: Reaction)

  /** The first two parts of a text split at spaces. */
  function FirstPart(s: string): string { s[..Until(s, {' '})] }

  function SecondPart(s: string): Option<string> {
    var n := Until(s, {' '});
    if n == |s| then None else Some(FirstPart(s[n + 1..]))
  }

  function HandlePost(buffer: string): Action {
    match Find(buffer, H.BLANK, 0)
    case None => Wait
    case Some(e) =>
      var headers := buffer[..e + 4];
      match ContentLength(headers)
      case None => LengthRequired
      case Some(n) =>
        if |buffer| - |headers| != n then Wait
        else Handle(HandleRequest(FirstPart(headers), SecondPart(headers), buffer[|headers|..]))
  }

  /** String.prototype.slice(0, end): a negative end counts from the back. */
  function SliceTo(s: string, end: int): string {
    if end < 0 then (if -end <= |s| then s[..|s| + end] else "")
    else if end <= |s| then s[..end] else s
  }

  /**
   The scan of a chunk for line feeds, from position i on; it indexes the chunk
   and slices the whole buffer.  A request that is not a POST is handled at once.
   */
  function ScanChunk(buffer: string, chunk: string, i: nat, header: string): (string, Option<Reaction>)
    decreases |chunk| - i
  {
    if i >= |chunk| then (header, None)
    else if chunk[i] != '\n' then ScanChunk(buffer, chunk, i + 1, header)
    else
      var line := SliceTo(buffer, i - 1);
      if FirstPart(line) != "POST" then (line, Some(HandleRequest(FirstPart(line), SecondPart(line), "")))
      else ScanChunk(buffer, chunk, i + 1, line)
  }

  /** The connection; header is empty as long as no line has been found. */
  datatype State = State(buffer: string, header: string, listening: bool)

  const START := State("", "", true)

  function OnData(s: State, chunk: string): (State, Action) {
    var buffer := s.buffer + chunk;
    var (header, other) := if s.header == "" then ScanChunk(buffer, chunk, 0, "") else (s.header, None);
    if other.Some? then (State(buffer, header, false), Handle(other.value))
    else (State(buffer, header, HandlePost(buffer) != LengthRequired), HandlePost(buffer))
  }

  /** The actions on a sequence of data events; none once the listener is gone or the socket destroyed. */
  function Actions(s: State, chunks: seq<string>): seq<Action>
    decreases |chunks|
  {
    if chunks == [] || !s.listening then []
    else var (t, action) := OnData(s, chunks[0]); [action] + Actions(t, chunks[1..])
  }

  class Connection {
    var buffer: string
    var header: string
    var listening: bool

    function View(): State
      reads this
    {
      State(buffer, header, listening)
    }

    constructor ()
      ensures View() == START
    {
      buffer, header, listening := "", "", true;
    }

    /** The 'data' event. */
    method ParseData(chunk: string) returns (action: Action)
      requires listening
      modifies this
      ensures (View(), action) == OnData(old(View()), chunk)
    {
      buffer := buffer + chunk;
      if header == "" {
        for i := 0 to |chunk|
          invariant buffer == old(buffer) + chunk && listening
          invariant ScanChunk(buffer, chunk, 0, "") == ScanChunk(buffer, chunk, i, header)
        {
          if chunk[i] == '\n' {
            header := SliceTo(buffer, i - 1);
            var verb := FirstPart(header);
            if verb != "POST" {
              listening := false;
              return Handle(HandleRequest(verb, SecondPart(header), ""));
            }
          }
        }
      }
      action := HandlePost(buffer);
      if action == LengthRequired { listening := false; }
    }
  }

  // ---------- Posts in any number of chunks ----------

  /** The first chunk of a POST holds the whole request line. */
  predicate BeginsPost(chunk: string) {
    |chunk| >= 5 && chunk[..5] == "POST " && '\n' in chunk
  }

  lemma PostPart(line: string)
    requires |line| >= 4 && line[..4] == "POST" && (|line| > 4 ==> line[4] == ' ')
    ensures FirstPart(line) == "POST"
  {
    assert line[0] == line[..4][0] && line[1] == line[..4][1] && line[2] == line[..4][2] && line[3] == line[..4][3];
    UntilIs(line, {' '}, 4);
  }

  /** In such a chunk every line feed gives a header that starts with POST. */
  lemma {:induction false} ScanPost(chunk: string, i: nat, header: string)
    requires |chunk| >= 5 && chunk[..5] == "POST " && i <= |chunk|
    requires header != "" || exists j :: i <= j < |chunk| && chunk[j] == '\n'
    ensures var (header', other) := ScanChunk(chunk, chunk, i, header); header' != "" && other.None?
    decreases |chunk| - i
  {
    if i < |chunk| {
      if chunk[i] == '\n' {
        assert chunk[0] == chunk[..5][0] && chunk[1] == chunk[..5][1] && chunk[2] == chunk[..5][2]
               && chunk[3] == chunk[..5][3] && chunk[4] == chunk[..5][4];
        var line := SliceTo(chunk, i - 1);
        assert line[..4] == chunk[..5][..4];
        PostPart(line);
        ScanPost(chunk, i + 1, line);
      } else {
        ScanPost(chunk, i + 1, header);
      }
    }
  }

  /** From then on the chunks only extend the buffer. */
  function PostActions(buffer: string, chunks: seq<string>): seq<Action>
    decreases |chunks|
  {
    if chunks == [] then []
    else
      var b := buffer + chunks[0];
      [HandlePost(b)] + if HandlePost(b) == LengthRequired then [] else PostActions(b, chunks[1..])
  }

  lemma {:induction false} HeaderKnown(s: State, chunks: seq<string>)
    requires s.header != "" && s.listening
    ensures Actions(s, chunks) == PostActions(s.buffer, chunks)
    decreases |chunks|
  {
    hide HandlePost;
    if chunks != [] && HandlePost(s.buffer + chunks[0]) != LengthRequired {
      HeaderKnown(OnData(s, chunks[0]).0, chunks[1..]);
    }
  }

  lemma PostFromStart(chunks: seq<string>)
    requires chunks != [] && BeginsPost(chunks[0])
    ensures Actions(START, chunks) == PostActions("", chunks)
  {
    hide HandlePost;
    assert "" + chunks[0] == chunks[0];
    ScanPost(chunks[0], 0, "");
    if HandlePost(chunks[0]) != LengthRequired { HeaderKnown(OnData(START, chunks[0]).0, chunks[1..]); }
  }

  /** Some chunk ends at position target of the stream. */
  predicate CutsAt(chunks: seq<string>, base: nat, target: nat)
    decreases |chunks|
  {
    chunks != [] && (base + |chunks[0]| == target || CutsAt(chunks[1..], base + |chunks[0]|, target))
  }

  predicate NoneEmpty(chunks: seq<string>) {
    forall i :: 0 <= i < |chunks| ==> chunks[i] != ""
  }

  lemma RestNotEmpty(chunks: seq<string>)
    requires NoneEmpty(chunks) && chunks != []
    ensures NoneEmpty(chunks[1..])
  {}

  lemma {:induction false} CutsAhead(chunks: seq<string>, base: nat, target: nat)
    requires NoneEmpty(chunks) && CutsAt(chunks, base, target)
    ensures base < target <= base + |Flatten(chunks)|
    decreases |chunks|
  {
    if base + |chunks[0]| != target { CutsAhead(chunks[1..], base + |chunks[0]|, target); }
  }

  lemma {:induction false} CutsAtEnd(chunks: seq<string>, base: nat)
    requires chunks != []
    ensures CutsAt(chunks, base, base + |Flatten(chunks)|)
    decreases |chunks|
  {
    if chunks[1..] == [] {
      assert Flatten(chunks) == chunks[0];
    } else {
      CutsAtEnd(chunks[1..], base + |chunks[0]|);
    }
  }

  /** The reactions among the actions. */
  function Handled(actions: seq<Action>): seq<Reaction> {
    if actions == [] then []
    else (if actions[0].Handle? then [actions[0].reaction] else []) + Handled(actions[1..])
  }

  /** What a prefix of the stream is taken for depends on its length alone: offset and length stay put under append. */
  lemma PrefixDecides(b: string, rest: string)
    ensures match Find(b + rest, H.BLANK, 0)
            case None => HandlePost(b) == Wait
            case Some(e) =>
              && e + 4 <= |b + rest| && var head := (b + rest)[..e + 4];
              if |b| < e + 4 then HandlePost(b) == Wait
              else if ContentLength(head).None? then HandlePost(b) == LengthRequired
              else if |b| != e + 4 + ContentLength(head).value then HandlePost(b) == Wait
              else HandlePost(b) == Handle(HandleRequest(FirstPart(head), SecondPart(head), b[e + 4..]))
  {
    hide ContentLength, HandleRequest, FirstPart, SecondPart;
    var s := b + rest;
    if Find(s, H.BLANK, 0).Some? {
      var e := Find(s, H.BLANK, 0).value;
      FindInPrefix(b, rest, H.BLANK, e);
      if e + 4 <= |b| { assert s[..e + 4] == b[..e + 4]; }
    } else if Find(b, H.BLANK, 0).Some? {
      FindStable(b, rest, H.BLANK);
    }
  }

  /** The reactions to a stream whose header block ends at position h and declares n bytes. */
  lemma {:induction false} HandledAtCut(buffer: string, chunks: seq<string>, h: nat, n: nat)
    requires NoneEmpty(chunks)
    requires var s := buffer + Flatten(chunks);
             4 <= h <= |s| && Find(s, H.BLANK, 0) == Some(h - 4) && ContentLength(s[..h]) == Some(n)
    ensures var s := buffer + Flatten(chunks);
            if CutsAt(chunks, |buffer|, h + n) then
              h + n <= |s| && Handled(PostActions(buffer, chunks)) ==
                [HandleRequest(FirstPart(s[..h]), SecondPart(s[..h]), s[h..h + n])]
            else Handled(PostActions(buffer, chunks)) == []
    decreases |chunks|
  {
    hide HandlePost, ContentLength, HandleRequest, FirstPart, SecondPart, Find, NoneEmpty;
    if chunks != [] {
      var b, rest := buffer + chunks[0], chunks[1..];
      RestNotEmpty(chunks);
      var s := buffer + Flatten(chunks);
      assert s == b + Flatten(rest);
      PrefixDecides(b, Flatten(rest));
      HandledAtCut(b, rest, h, n);
      if CutsAt(chunks, |buffer|, h + n) { CutsAhead(chunks, |buffer|, h + n); }
      if |b| == h + n {
        assert b[h..] == s[h..h + n];
        if CutsAt(rest, |b|, h + n) { CutsAhead(rest, |b|, h + n); }
      }
      assert PostActions(buffer, chunks)[1..] == PostActions(b, rest);
    }
  }

  /** A stream whose header block declares no length, or that has no header block, gets no reaction. */
  lemma {:induction false} NothingHandled(buffer: string, chunks: seq<string>)
    requires NoneEmpty(chunks)
    requires var s := buffer + Flatten(chunks); var e := Find(s, H.BLANK, 0);
             e.Some? ==> e.value + 4 <= |s| && ContentLength(s[..e.value + 4]).None?
    ensures Handled(PostActions(buffer, chunks)) == []
    ensures Find(buffer + Flatten(chunks), H.BLANK, 0).Some? && chunks != [] ==>
              PostActions(buffer, chunks)[|PostActions(buffer, chunks)| - 1] == LengthRequired
    ensures Find(buffer + Flatten(chunks), H.BLANK, 0).None? ==> LengthRequired !in PostActions(buffer, chunks)
    decreases |chunks|
  {
    hide HandlePost, ContentLength, Find, NoneEmpty;
    if chunks != [] {
      var b, rest := buffer + chunks[0], chunks[1..];
      RestNotEmpty(chunks);
      assert buffer + Flatten(chunks) == b + Flatten(rest);
      PrefixDecides(b, Flatten(rest));
      NothingHandled(b, rest);
      if HandlePost(b) != LengthRequired {
        assert PostActions(buffer, chunks) == [Wait] + PostActions(b, rest);
        if rest == [] { FullPrefix(b, rest); }
      }
    }
  }

  lemma FullPrefix(b: string, rest: seq<string>)
    requires rest == []
    ensures b + Flatten(rest) == b
  {}

  // ---------- The main results ----------

  /**
   A POST is handled at most once, and it is handled exactly if some chunk ends
   where the declared body ends; then with exactly that body.
   */
  lemma PostHandledIff(chunks: seq<string>, h: nat, n: nat)
    requires NoneEmpty(chunks) && chunks != [] && BeginsPost(chunks[0])
    requires var s := Flatten(chunks);
             4 <= h <= |s| && Find(s, H.BLANK, 0) == Some(h - 4) && ContentLength(s[..h]) == Some(n)
    ensures var s := Flatten(chunks);
            if CutsAt(chunks, 0, h + n) then
              h + n <= |s| && Handled(Actions(START, chunks)) ==
                [HandleRequest(FirstPart(s[..h]), SecondPart(s[..h]), s[h..h + n])]
            else Handled(Actions(START, chunks)) == []
  {
    hide Find, ContentLength, HandleRequest, FirstPart, SecondPart, Actions, PostActions, Handled, CutsAt;
    PostFromStart(chunks);
    assert "" + Flatten(chunks) == Flatten(chunks);
    HandledAtCut("", chunks, h, n);
  }

  /** Without a Content-Length the answer is 411, once and last, and nothing is ever handled. */
  lemma NoLengthIsRefused(chunks: seq<string>, h: nat)
    requires NoneEmpty(chunks) && chunks != [] && BeginsPost(chunks[0])
    requires var s := Flatten(chunks);
             4 <= h <= |s| && Find(s, H.BLANK, 0) == Some(h - 4) && ContentLength(s[..h]).None?
    ensures var actions := Actions(START, chunks);
            Handled(actions) == [] && |actions| > 0 && actions[|actions| - 1] == LengthRequired
  {
    hide Find, ContentLength, HandlePost, Actions, Handled;
    PostFromStart(chunks);
    assert "" + Flatten(chunks) == Flatten(chunks);
    NothingHandled("", chunks);
  }

  /** The head of a POST up to its i-th header. */
  function HeadBefore(path: string, version: string, hs: seq<H.Header>, i: nat): string
    requires i <= |hs|
  {
    "POST " + path + " " + version + "\r\n" + H.PrintHeaders(hs[..i])
  }

  /** The i-th header declares n, and the pattern fits nowhere before it. */
  predicate FirstDeclares(path: string, version: string, hs: seq<H.Header>, i: nat, n: nat) {
    && i < |hs| && ToLower(hs[i].name) == "content-length" && hs[i].value == Decimal(n)
    && NoMatchBefore(H.PrintHead("POST", path, version, hs), 0, |HeadBefore(path, version, hs, i)|)
  }

  lemma {:induction false} HeadersConcat(xs: seq<H.Header>, ys: seq<H.Header>)
    ensures H.PrintHeaders(xs + ys) == H.PrintHeaders(xs) + H.PrintHeaders(ys)
    decreases |xs|
  {
    if xs == [] {
      assert xs + ys == ys;
    } else {
      var line := xs[0].name + ": " + xs[0].value + "\r\n";
      assert (xs + ys)[0] == xs[0] && (xs + ys)[1..] == xs[1..] + ys;
      HeadersConcat(xs[1..], ys);
      assert H.PrintHeaders(xs + ys) == line + (H.PrintHeaders(xs[1..]) + H.PrintHeaders(ys));
      assert H.PrintHeaders(xs) == line + H.PrintHeaders(xs[1..]);
    }
  }

  /** The head, taken apart at its i-th header. */
  lemma HeadAt(path: string, version: string, hs: seq<H.Header>, i: nat)
    requires i < |hs|
    ensures H.PrintHead("POST", path, version, hs) ==
            HeadBefore(path, version, hs, i) +
            ((hs[i].name + ":") + (" " + (hs[i].value + ("\r" + ("\n" + H.PrintHeaders(hs[i + 1..]) + "\r\n")))))
  {
    hide H.PrintHeaders;
    HeadersConcat(hs[..i], hs[i..]);
    assert hs[..i] + hs[i..] == hs;
    HeadersFrom(hs, i);
    var line := hs[i].name + ": " + hs[i].value + "\r\n";
    var more := H.PrintHeaders(hs[i + 1..]);
    HeaderSplit(hs[i].name, hs[i].value, more);
    var first := "POST " + path + " " + version + "\r\n";
    assert "POST" + " " + path + " " + version + "\r\n" == first;
    assert first + (H.PrintHeaders(hs[..i]) + (line + more)) + "\r\n" ==
      HeadBefore(path, version, hs, i) + (line + more + "\r\n");
  }

  lemma HeadersFrom(hs: seq<H.Header>, i: nat)
    requires i < |hs|
    ensures H.PrintHeaders(hs[i..]) == hs[i].name + ": " + hs[i].value + "\r\n" + H.PrintHeaders(hs[i + 1..])
  {
    assert hs[i..][0] == hs[i] && hs[i..][1..] == hs[i + 1..];
  }

  lemma HeaderSplit(name: string, value: string, more: string)
    ensures name + ": " + value + "\r\n" + more + "\r\n" ==
            (name + ":") + (" " + (value + ("\r" + ("\n" + more + "\r\n"))))
  {}

  /** The length that is read off the head is the one its first fitting line declares. */
  lemma FirstDeclaredLength(path: string, version: string, hs: seq<H.Header>, i: nat, n: nat)
    requires FirstDeclares(path, version, hs, i, n)
    ensures ContentLength(H.PrintHead("POST", path, version, hs)) == Some(n)
  {
    hide H.PrintHead, H.PrintHeaders, HeadBefore, ContentLength, NoMatchBefore, Decimal;
    NameWithColon(hs[i].name);
    hide ToLower;
    HeadAt(path, version, hs, i);
    DeclaredLength(HeadBefore(path, version, hs, i), hs[i].name + ":", " ", n,
                   "\n" + H.PrintHeaders(hs[i + 1..]) + "\r\n");
  }

  lemma NameWithColon(name: string)
    requires ToLower(name) == "content-length"
    ensures |name + ":"| == |NAME| && ToLower(name + ":") == NAME
  {
    assert |name| == |ToLower(name)|;
    assert ToLower(name + ":") == ToLower(name) + ":";
  }

  /**
   A complete broadcast is published exactly once, with exactly its body, however
   its stream is cut, if the first line in which the length pattern fits declares it.
   */
  lemma ExactPostBroadcasts(version: string, hs: seq<H.Header>, i: nat, body: string, chunks: seq<string>)
    requires Free(version, {'\n'}) && H.AllWellFormed(hs) && FirstDeclares("/broadcast", version, hs, i, |body|)
    requires NoneEmpty(chunks) && chunks != [] && BeginsPost(chunks[0])
    requires Flatten(chunks) == H.PrintHead("POST", "/broadcast", version, hs) + body
    ensures Handled(Actions(START, chunks)) == [Broadcast(body)]
  {
    hide H.PrintHead, Find, ContentLength, FirstPart, SecondPart, Actions, Handled, H.AllWellFormed;
    hide CutsAt, BeginsPost, NoneEmpty, FirstDeclares;
    var head := H.PrintHead("POST", "/broadcast", version, hs);
    FirstDeclaredLength("/broadcast", version, hs, i, |body|);
    PrintedParts("/broadcast", version, hs);
    H.OffsetIsFirstBlank("POST", "/broadcast", version, hs, body);
    CompletePost(chunks, head, body);
  }

  lemma CompletePost(chunks: seq<string>, head: string, body: string)
    requires NoneEmpty(chunks) && chunks != [] && BeginsPost(chunks[0]) && Flatten(chunks) == head + body
    requires |head| >= 4 && Find(head + body, H.BLANK, 0) == Some(|head| - 4) && ContentLength(head) == Some(|body|)
    ensures Handled(Actions(START, chunks)) == [HandleRequest(FirstPart(head), SecondPart(head), body)]
  {
    hide *;
    HeadAndBody(head, body);
    PostHandledAtEnd(chunks, head + body, |head|, |body|);
  }

  lemma HeadAndBody(head: string, body: string)
    ensures |head + body| == |head| + |body|
    ensures (head + body)[..|head|] == head && (head + body)[|head|..] == body
  {}

  lemma PostHandledAtEnd(chunks: seq<string>, s: string, h: nat, n: nat)
    requires NoneEmpty(chunks) && chunks != [] && BeginsPost(chunks[0]) && s == Flatten(chunks)
    requires 4 <= h && |s| == h + n && Find(s, H.BLANK, 0) == Some(h - 4) && ContentLength(s[..h]) == Some(n)
    ensures Handled(Actions(START, chunks)) == [HandleRequest(FirstPart(s[..h]), SecondPart(s[..h]), s[h..])]
  {
    hide *;
    CutsAtEnd(chunks, 0);
    PostHandledIff(chunks, h, n);
    assert s[h..h + n] == s[h..];
  }

  lemma PrintedParts(path: string, version: string, hs: seq<H.Header>)
    requires Free(path, {' '})
    ensures var head := H.PrintHead("POST", path, version, hs);
            |head| >= 4 && FirstPart(head) == "POST" && SecondPart(head) == Some(path)
  {
    var rest := " " + version + "\r\n" + H.PrintHeaders(hs) + "\r\n";
    var head := H.PrintHead("POST", path, version, hs);
    assert head == "POST" + (" " + (path + rest));
    UntilAfter("POST", " " + (path + rest), {' '});
    assert (" " + (path + rest))[1..] == path + rest;
    UntilAfter(path, rest, {' '});
  }
}
