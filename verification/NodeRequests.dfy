/**
 Which reaction the Node server comes to, for every cutting of the stream.  The
 scan for the request line indexes the chunk that holds its line feed but slices
 the whole buffer, so a line that ends in a later chunk is cut short by the bytes
 that came before.
 */
module NodeRequests {
  import opened Sequences
  import opened Text
  import H = HttpScanner
  import opened NodePost

  // ---------- The chunk with the first line feed ----------

  /** The chunks before the one that holds the first line feed. */
  function Before(chunks: seq<string>): (k: nat)
    ensures k <= |chunks|
    ensures forall j :: 0 <= j < k ==> '\n' !in chunks[j]
    ensures k < |chunks| ==> '\n' in chunks[k]
  {
    if chunks == [] || '\n' in chunks[0] then 0 else 1 + Before(chunks[1..])
  }

  function Waits(k: nat): seq<Action> {
    seq(k, _ => Wait)
  }

  lemma NoBlankWithoutLine(buffer: string)
    requires '\n' !in buffer
    ensures HandlePost(buffer) == Wait
  {
    hide ContentLength, HandleRequest;
    if Find(buffer, H.BLANK, 0).Some? { H.BlankAt(buffer, Find(buffer, H.BLANK, 0).value); }
  }

  lemma {:induction false} ScanNothing(buffer: string, chunk: string, i: nat, header: string)
    requires '\n' !in chunk[if i <= |chunk| then i else |chunk|..]
    ensures ScanChunk(buffer, chunk, i, header) == (header, None)
    decreases |chunk| - i
  {
    if i < |chunk| {
      assert chunk[i] == chunk[i..][0];
      assert chunk[i + 1..] == chunk[i..][1..];
      ScanNothing(buffer, chunk, i + 1, header);
    }
  }

  lemma NotInConcat(s: string, t: string)
    requires '\n' !in s && '\n' !in t
    ensures '\n' !in s + t
  {}

  /** A chunk without a line feed, before the first one, is waited over. */
  lemma WaitsOver(buffer: string, chunks: seq<string>)
    requires '\n' !in buffer && chunks != [] && '\n' !in chunks[0]
    ensures Actions(State(buffer, "", true), chunks) ==
            [Wait] + Actions(State(buffer + chunks[0], "", true), chunks[1..])
  {
    hide HandlePost;
    assert chunks[0][0..] == chunks[0];
    ScanNothing(buffer + chunks[0], chunks[0], 0, "");
    NotInConcat(buffer, chunks[0]);
    NoBlankWithoutLine(buffer + chunks[0]);
  }

  lemma OneChunkMore(buffer: string, chunks: seq<string>, k: nat)
    requires 0 < k <= |chunks|
    ensures buffer + chunks[0] + Flatten(chunks[1..][..k - 1]) == buffer + Flatten(chunks[..k])
    ensures chunks[1..][k - 1..] == chunks[k..]
  {
    assert chunks[..k][0] == chunks[0] && chunks[..k][1..] == chunks[1..][..k - 1];
  }

  lemma OneWaitMore(k: nat, actions: seq<Action>)
    requires k > 0
    ensures [Wait] + (Waits(k - 1) + actions) == Waits(k) + actions
  {}

  /** The server waits for the chunk with the first line feed. */
  lemma {:induction false} WaitsForLine(buffer: string, chunks: seq<string>)
    requires '\n' !in buffer
    ensures var k := Before(chunks);
            Actions(State(buffer, "", true), chunks) ==
              Waits(k) + Actions(State(buffer + Flatten(chunks[..k]), "", true), chunks[k..])
    decreases |chunks|
  {
    hide Actions;
    var k := Before(chunks);
    if k == 0 {
      assert chunks[..0] == [] && chunks[0..] == chunks && buffer + "" == buffer;
      assert Waits(0) + Actions(State(buffer, "", true), chunks) == Actions(State(buffer, "", true), chunks);
    } else {
      var b := buffer + chunks[0];
      WaitsOver(buffer, chunks);
      NotInConcat(buffer, chunks[0]);
      WaitsForLine(b, chunks[1..]);
      hide Flatten, Waits, Before;
      OneChunkMore(buffer, chunks, k);
      OneWaitMore(k, Actions(State(buffer + Flatten(chunks[..k]), "", true), chunks[k..]));
    }
  }

  /** The scan skips to the first line feed. */
  lemma {:induction false} ScanSkips(buffer: string, chunk: string, i: nat, j: nat, header: string)
    requires i <= j < |chunk| && chunk[j] == '\n' && forall k :: i <= k < j ==> chunk[k] != '\n'
    ensures ScanChunk(buffer, chunk, i, header) == ScanChunk(buffer, chunk, j, header)
    decreases j - i
  {
    if i < j { ScanSkips(buffer, chunk, i + 1, j, header); }
  }

  // ---------- Requests that are not POSTs ----------

  /** The chunk with the first line feed, and what came before it. */
  ghost predicate LineEndsIn(chunks: seq<string>, before: string, chunk: string, j: nat) {
    var k := Before(chunks);
    && k < |chunks| && before == Flatten(chunks[..k]) && chunk == chunks[k]
    && j < |chunk| && chunk[j] == '\n' && forall i :: 0 <= i < j ==> chunk[i] != '\n'
  }

  /** The line that the server takes for the request line. */
  function LineTaken(before: string, chunk: string, j: nat): string {
    SliceTo(before + chunk, j - 1)
  }

  /** If that line is not a POST's, the request is handled, once, and nothing that follows is looked at. */
  lemma HandledAtLine(chunks: seq<string>, before: string, chunk: string, j: nat)
    requires LineEndsIn(chunks, before, chunk, j)
    requires FirstPart(LineTaken(before, chunk, j)) != "POST"
    ensures var line := LineTaken(before, chunk, j);
            Actions(START, chunks) ==
              Waits(Before(chunks)) + [Handle(HandleRequest(FirstPart(line), SecondPart(line), ""))]
  {
    hide HandleRequest, FirstPart, SecondPart, HandlePost, SliceTo;
    var k := Before(chunks);
    WaitsForLine("", chunks);
    assert "" + Flatten(chunks[..k]) == before;
    ScanSkips(before + chunk, chunk, 0, j, "");
    var rest := chunks[k..];
    assert rest[0] == chunk;
  }

  /** The parts of the beginning of a request, cut after m characters. */
  lemma PartsCut(verb: string, path: string, more: string, m: nat)
    requires Free(verb, {' '}) && Free(path, {' '}) && m <= |verb| + 1 + |path| + 1 + |more|
    ensures var line := (verb + (" " + (path + (" " + more))))[..m];
            if m <= |verb| then FirstPart(line) == verb[..m] && SecondPart(line) == None
            else FirstPart(line) == verb
                 && SecondPart(line) == Some(if m - |verb| - 1 <= |path| then path[..m - |verb| - 1] else path)
  {
    var s := verb + (" " + (path + (" " + more)));
    var line := s[..m];
    if m <= |verb| {
      assert line == verb[..m];
      UntilIs(line, {' '}, m);
    } else {
      UntilIs(line, {' '}, |verb|);
      assert line[..|verb|] == verb;
      var tail := line[|verb| + 1..];
      var n := m - |verb| - 1;
      assert tail == (path + (" " + more))[..n];
      if n <= |path| {
        assert tail == path[..n];
        UntilIs(tail, {' '}, n);
        assert tail[..n] == tail;
      } else {
        UntilIs(tail, {' '}, |path|);
        assert tail[..|path|] == path;
      }
    }
  }

  /** The beginning of a request: its line and what follows that. */
  function Printed(verb: string, path: string, version: string, more: string): string {
    verb + (" " + (path + (" " + (version + ("\r\n" + more)))))
  }

  lemma LineFeedAt(verb: string, path: string, version: string, more: string)
    requires H.RequestLineOk(verb, path, version)
    ensures var s := Printed(verb, path, version, more); var n := |verb| + |path| + |version| + 3;
            n < |s| && s[n] == '\n' && forall i :: 0 <= i < n ==> s[i] != '\n'
  {
    var s := Printed(verb, path, version, more);
    forall i | 0 <= i < |verb| + |path| + |version| + 3 ensures s[i] != '\n' {
      if i < |verb| { assert s[i] == verb[i]; }
      else if |verb| < i <= |verb| + |path| { assert s[i] == path[i - |verb| - 1]; }
      else if |verb| + |path| + 1 < i <= |verb| + |path| + |version| + 1 {
        assert s[i] == version[i - |verb| - |path| - 2];
      }
    }
  }

  lemma NotBefore(before: string, rest: string, n: nat)
    requires '\n' !in before && n < |before + rest| && (before + rest)[n] == '\n'
    ensures |before| <= n && rest[n - |before|] == '\n'
  {
    assert forall i :: 0 <= i < |before| ==> (before + rest)[i] == before[i] && before[i] in before;
  }

  lemma InFirst(chunk: string, rest: string, j: nat)
    requires '\n' in chunk && j < |chunk + rest| && forall i :: 0 <= i < j ==> (chunk + rest)[i] != '\n'
    ensures j < |chunk| && chunk[j] == (chunk + rest)[j]
  {
    var i :| 0 <= i < |chunk| && chunk[i] == '\n';
    assert (chunk + rest)[i] == '\n';
  }

  lemma StreamAt(chunks: seq<string>, k: nat)
    requires k < |chunks|
    ensures Flatten(chunks) == Flatten(chunks[..k]) + (chunks[k] + Flatten(chunks[k + 1..]))
  {
    hide Flatten;
    var tail := chunks[k..];
    FlattenConcat(chunks[..k], tail);
    FlattenFirst(tail);
    assert chunks[..k] + tail == chunks && tail[1..] == chunks[k + 1..];
  }

  lemma FlattenFirst(chunks: seq<string>)
    requires chunks != []
    ensures Flatten(chunks) == chunks[0] + Flatten(chunks[1..])
  {}

  lemma {:induction false} LineIsThere(chunks: seq<string>)
    requires '\n' in Flatten(chunks)
    ensures Before(chunks) < |chunks|
    decreases |chunks|
  {
    if '\n' !in chunks[0] {
      var s := Flatten(chunks);
      var n :| 0 <= n < |s| && s[n] == '\n';
      NotBefore(chunks[0], Flatten(chunks[1..]), n);
      LineIsThere(chunks[1..]);
    }
  }

  lemma LineFeedBehind(before: string, chunk: string, rest: string, n: nat) returns (j: nat)
    requires '\n' !in before && '\n' in chunk && n < |before + (chunk + rest)|
    requires var s := before + (chunk + rest); s[n] == '\n' && forall i :: 0 <= i < n ==> s[i] != '\n'
    ensures |before| + j == n && j < |chunk| && chunk[j] == '\n' && forall i :: 0 <= i < j ==> chunk[i] != '\n'
  {
    var tail := chunk + rest;
    NotBefore(before, tail, n);
    j := n - |before|;
    assert forall i :: 0 <= i < j ==> tail[i] == (before + tail)[|before| + i];
    InFirst(chunk, rest, j);
    assert forall i :: 0 <= i < j ==> chunk[i] == tail[i];
  }

  lemma PrefixOf(before: string, chunk: string, rest: string)
    ensures var s := before + (chunk + rest);
            |before + chunk| <= |s| && before + chunk == s[..|before + chunk|]
  {}

  /** The first line feed of the stream, in its chunk. */
  lemma LineFeedInChunk(chunks: seq<string>, s: string, n: nat) returns (before: string, chunk: string, j: nat)
    requires Flatten(chunks) == s && n < |s| && s[n] == '\n' && forall i :: 0 <= i < n ==> s[i] != '\n'
    ensures LineEndsIn(chunks, before, chunk, j) && |before| + j == n
    ensures |before + chunk| <= |s| && before + chunk == s[..|before + chunk|]
  {
    hide Flatten;
    assert s[n] in s;
    LineIsThere(chunks);
    var k := Before(chunks);
    StreamAt(chunks, k);
    NoLineIn(chunks, k);
    before, chunk := Flatten(chunks[..k]), chunks[k];
    var rest := Flatten(chunks[k + 1..]);
    j := LineFeedBehind(before, chunk, rest, n);
    PrefixOf(before, chunk, rest);
  }

  lemma {:induction false} NoLineIn(chunks: seq<string>, k: nat)
    requires k <= |chunks| && forall j :: 0 <= j < k ==> '\n' !in chunks[j]
    ensures '\n' !in Flatten(chunks[..k])
    decreases k
  {
    if k > 0 {
      assert chunks[..k][1..] == chunks[1..][..k - 1];
      assert forall j :: 0 <= j < k - 1 ==> chunks[1..][j] == chunks[j + 1];
      NoLineIn(chunks[1..], k - 1);
      NotInConcat(chunks[0], Flatten(chunks[1..][..k - 1]));
    }
  }

  /** How many characters of the stream the server takes for the request line: its line feed is at j of its chunk. */
  function TakenLength(before: string, chunk: string, j: nat): nat
    requires j < |chunk|
  {
    if j == 0 then |before| + |chunk| - 1 else j - 1
  }

  lemma LineTakenIs(before: string, chunk: string, j: nat, s: string)
    requires j < |chunk| && |before + chunk| <= |s| && before + chunk == s[..|before + chunk|]
    ensures TakenLength(before, chunk, j) <= |s| && LineTaken(before, chunk, j) == s[..TakenLength(before, chunk, j)]
  {
    var b, m := before + chunk, TakenLength(before, chunk, j);
    assert b[..m] == s[..m];
  }

  /** The answer to the parts that the server has taken. */
  ghost predicate AnswersTo(actions: seq<Action>, waits: nat, reaction: Reaction) {
    actions == Waits(waits) + [Handle(reaction)]
  }

  /** No method begins with POST, except POST, so that no part of one is taken for a POST. */
  predicate Other(verb: string) {
    !(|verb| >= 4 && verb[..4] == "POST")
  }

  lemma OtherParts(verb: string, m: nat)
    requires Other(verb) && m <= |verb|
    ensures verb[..m] != "POST" && verb != "POST"
  {
    assert |"POST"| == 4 && (m == 4 ==> verb[..m] == verb[..4]) && (|verb| == 4 ==> verb == verb[..4]);
  }

  /**
   A request that is not a POST, under any cutting: the server waits for the chunk
   with the first line feed and then answers, once and for all, the method and the
   path as far as it has taken them.
   */
  lemma RequestTaken(verb: string, path: string, version: string, more: string, chunks: seq<string>)
    returns (before: string, chunk: string, j: nat)
    requires H.RequestLineOk(verb, path, version) && Other(verb)
    requires Flatten(chunks) == Printed(verb, path, version, more)
    ensures LineEndsIn(chunks, before, chunk, j) && |before| + j == |verb| + |path| + |version| + 3
    ensures var m := TakenLength(before, chunk, j);
            AnswersTo(Actions(START, chunks), Before(chunks),
                      if m <= |verb| then HandleRequest(verb[..m], None, "")
                      else if m - |verb| - 1 <= |path| then HandleRequest(verb, Some(path[..m - |verb| - 1]), "")
                      else HandleRequest(verb, Some(path), ""))
  {
    hide HandleRequest, HandlePost, FirstPart, SecondPart, Actions, LineTaken;
    var s := Printed(verb, path, version, more);
    LineFeedAt(verb, path, version, more);
    before, chunk, j := LineFeedInChunk(chunks, s, |verb| + |path| + |version| + 3);
    var m := TakenLength(before, chunk, j);
    LineTakenIs(before, chunk, j, s);
    assert Free(verb, {' '}) && Free(path, {' '});
    hide H.RequestLineOk, Free;
    PartsCut(verb, path, version + ("\r\n" + more), m);
    OtherParts(verb, if m <= |verb| then m else |verb|);
    HandledAtLine(chunks, before, chunk, j);
  }

  /** The line feed is the first of its chunk, or no more came before that chunk than the version and one character. */
  predicate TakenWhole(version: string, before: string, j: nat) {
    j == 0 || |before| <= |version| + 1
  }

  /** Then, and only then, the method and the whole path are taken. */
  lemma TakenWholeIff(verb: string, path: string, version: string, before: string, chunk: string, j: nat)
    requires j < |chunk| && |before| + j == |verb| + |path| + |version| + 3
    ensures TakenWhole(version, before, j) <==> TakenLength(before, chunk, j) >= |verb| + 1 + |path|
  {}

  /** What the server does with a request that is not a POST, by its method and path. */
  lemma Reactions(verb: string, path: string)
    requires verb != "POST"
    ensures HandleRequest(verb, Some(path), "") ==
            if verb == "" || path == "" then ClientError
            else if verb == "OPTIONS" then Cors
            else if path == "/connections" then Count
            else if path == "/sse" then Subscribe
            else NotFound
    ensures forall v: string :: HandleRequest(v, None, "") == ClientError
  {}

  /**
   A request that is taken whole, as every one is whose line is in the first chunk,
   is answered by its method and path, and nothing behind its line is looked at.
   */
  lemma WholeRequestAnswered(verb: string, path: string, version: string, more: string, chunks: seq<string>,
                             before: string, chunk: string, j: nat)
    requires H.RequestLineOk(verb, path, version) && Other(verb)
    requires Flatten(chunks) == Printed(verb, path, version, more) && LineEndsIn(chunks, before, chunk, j)
    requires TakenWhole(version, before, j)
    ensures AnswersTo(Actions(START, chunks), Before(chunks),
                      if verb == "" || path == "" then ClientError
                      else if verb == "OPTIONS" then Cors
                      else if path == "/connections" then Count
                      else if path == "/sse" then Subscribe
                      else NotFound)
  {
    hide HandleRequest, Actions, H.RequestLineOk;
    var b, c, i := RequestTaken(verb, path, version, more, chunks);
    SameLineFeed(chunk, i, j);
    TakenWholeIff(verb, path, version, before, chunk, j);
    OtherParts(verb, |verb|);
    Reactions(verb, path);
    assert path[..|path|] == path;
  }

  lemma SameLineFeed(chunk: string, i: nat, j: nat)
    requires i < |chunk| && chunk[i] == '\n' && forall k :: 0 <= k < i ==> chunk[k] != '\n'
    requires j < |chunk| && chunk[j] == '\n' && forall k :: 0 <= k < j ==> chunk[k] != '\n'
    ensures i == j
  {}

  /** A line that ends in the first chunk is taken whole. */
  lemma FirstChunkTaken(version: string, chunks: seq<string>, before: string, chunk: string, j: nat)
    requires chunks != [] && '\n' in chunks[0] && LineEndsIn(chunks, before, chunk, j)
    ensures Before(chunks) == 0 && before == "" && TakenWhole(version, before, j)
  {}

  /**
   A subscriber's request gets its stream under exactly those cuttings: the line
   feed begins its chunk, or no more came before that chunk than the length of the
   protocol version and one.
   */
  lemma SubscribedIff(version: string, more: string, chunks: seq<string>, before: string, chunk: string, j: nat)
    requires Free(version, {'\n'}) && Flatten(chunks) == Printed("GET", "/sse", version, more)
    requires LineEndsIn(chunks, before, chunk, j)
    ensures Handle(Subscribe) in Actions(START, chunks) <==> TakenWhole(version, before, j)
  {
    hide Actions, HandleRequest;
    var b, c, i := RequestTaken("GET", "/sse", version, more, chunks);
    SameLineFeed(chunk, i, j);
    TakenWholeIff("GET", "/sse", version, before, chunk, j);
    var m := TakenLength(before, chunk, j);
    CutShortSse(m);
    assert "/sse"[..4] == "/sse";
  }

  lemma CutShortSse(m: nat)
    ensures m <= 3 ==> HandleRequest("GET"[..m], None, "") == ClientError
    ensures 3 < m < 8 ==> HandleRequest("GET", Some("/sse"[..m - 4]), "") != Subscribe
    ensures HandleRequest("GET", Some("/sse"), "") == Subscribe
  {
    if 3 < m < 8 { assert |"/sse"[..m - 4]| < 4; }
  }

  /** The count is served under the same cuttings. */
  lemma CountedIff(version: string, more: string, chunks: seq<string>, before: string, chunk: string, j: nat)
    requires Free(version, {'\n'}) && Flatten(chunks) == Printed("GET", "/connections", version, more)
    requires LineEndsIn(chunks, before, chunk, j)
    ensures Handle(Count) in Actions(START, chunks) <==> TakenWhole(version, before, j)
  {
    hide Actions, HandleRequest;
    var b, c, i := RequestTaken("GET", "/connections", version, more, chunks);
    SameLineFeed(chunk, i, j);
    TakenWholeIff("GET", "/connections", version, before, chunk, j);
    var m := TakenLength(before, chunk, j);
    CutShortConnections(m);
    assert "/connections"[..12] == "/connections";
  }

  lemma CutShortConnections(m: nat)
    ensures m <= 3 ==> HandleRequest("GET"[..m], None, "") == ClientError
    ensures 3 < m < 16 ==> HandleRequest("GET", Some("/connections"[..m - 4]), "") != Count
    ensures HandleRequest("GET", Some("/connections"), "") == Count
  {
    if 3 < m < 16 { assert |"/connections"[..m - 4]| < 12; }
  }

  /** A subscriber that gets a 404: its line is cut in two. */
  lemma CutLineMissed() returns (chunks: seq<string>)
    ensures Flatten(chunks) == "GET /sse HTTP/1.1\r\n\r\n" && Actions(START, chunks) == [Wait, Handle(ClientError)]
  {
    chunks := ["GET /sse HTTP/1.", "1\r\n\r\n"];
    assert Flatten(chunks) == "GET /sse HTTP/1." + ("1\r\n\r\n" + "") by {
      assert chunks[1..] == ["1\r\n\r\n"] && chunks[1..][1..] == [];
    }
    assert Before(chunks) == 1 by { assert '\n' !in chunks[0] && chunks[1..][0][2] == '\n'; }
    assert Flatten(chunks[..1]) == chunks[0] by { assert chunks[..1][1..] == []; }
    assert LineEndsIn(chunks, chunks[0], chunks[1], 2);
    assert LineTaken(chunks[0], chunks[1], 2) == "G";
    assert FirstPart("G") == "G" && SecondPart("G") == None by { UntilIs("G", {' '}, 1); }
    HandledAtLine(chunks, chunks[0], chunks[1], 2);
    assert Waits(1) == [Wait];
  }

  // ---------- POSTs ----------

  predicate StartsPost(s: string) {
    |s| >= 5 && s[..5] == "POST "
  }

  /** In the chunk with the first line feed none stands at the positions one to four. */
  predicate Late(chunk: string) {
    forall i :: 0 <= i < |chunk| && chunk[i] == '\n' ==> i == 0 || i >= 5
  }

  lemma PostLetters(s: string)
    requires StartsPost(s)
    ensures s[0] == 'P' && s[1] == 'O' && s[2] == 'S' && s[3] == 'T' && s[4] == ' '
  {
    assert s[0] == s[..5][0] && s[1] == s[..5][1] && s[2] == s[..5][2] && s[3] == s[..5][3] && s[4] == s[..5][4];
  }

  /** The line that is taken at the line feed at i is a POST's, unless that is at one to four. */
  lemma PostLine(before: string, chunk: string, i: nat)
    requires i < |chunk| && chunk[i] == '\n' && StartsPost(before + chunk) && (chunk[0] == '\n' ==> |before| >= 5)
    ensures var line := SliceTo(before + chunk, i - 1);
            if i == 0 || i >= 5 then FirstPart(line) == "POST"
            else FirstPart(line) != "POST" && HandleRequest(FirstPart(line), SecondPart(line), "") == ClientError
  {
    var b := before + chunk;
    PostLetters(b);
    var line := SliceTo(b, i - 1);
    if i == 0 || i >= 5 {
      assert line[..4] == "POST";
      PostPart(line);
    } else {
      assert line == b[..i - 1];
      UntilIs(line, {' '}, i - 1);
    }
  }

  lemma {:induction false} ScanLate(before: string, chunk: string, i: nat, header: string)
    requires i <= |chunk| && StartsPost(before + chunk) && (chunk != "" && chunk[0] == '\n' ==> |before| >= 5)
    requires forall q :: i <= q < |chunk| && chunk[q] == '\n' ==> q == 0 || q >= 5
    requires header != "" || exists q :: i <= q < |chunk| && chunk[q] == '\n'
    ensures var (header', other) := ScanChunk(before + chunk, chunk, i, header); header' != "" && other.None?
    decreases |chunk| - i
  {
    hide HandleRequest, FirstPart, SecondPart, SliceTo, StartsPost;
    if i < |chunk| {
      if chunk[i] == '\n' {
        var line := SliceTo(before + chunk, i - 1);
        PostLine(before, chunk, i);
        assert line != "" by { assert |FirstPart(line)| == 4; PartOf(line); }
        ScanLate(before, chunk, i + 1, line);
      } else {
        ScanLate(before, chunk, i + 1, header);
      }
    }
  }

  lemma PartOf(line: string)
    ensures |FirstPart(line)| <= |line|
  {}

  lemma {:induction false} ScanEarly(before: string, chunk: string, i: nat, header: string)
    requires i <= |chunk| && StartsPost(before + chunk) && (chunk != "" && chunk[0] == '\n' ==> |before| >= 5)
    requires exists q :: i <= q < |chunk| && chunk[q] == '\n' && 0 < q < 5
    ensures ScanChunk(before + chunk, chunk, i, header).1 == Some(ClientError)
    decreases |chunk| - i
  {
    hide HandleRequest, FirstPart, SecondPart, SliceTo, StartsPost;
    if chunk[i] == '\n' {
      PostLine(before, chunk, i);
      if i == 0 { ScanEarly(before, chunk, i + 1, SliceTo(before + chunk, i - 1)); }
    } else {
      ScanEarly(before, chunk, i + 1, header);
    }
  }

  lemma {:induction false} PostWaits(buffer: string, chunks: seq<string>)
    requires '\n' !in buffer
    ensures var k := Before(chunks);
            PostActions(buffer, chunks) == Waits(k) + PostActions(buffer + Flatten(chunks[..k]), chunks[k..])
    decreases |chunks|
  {
    hide HandlePost;
    var k := Before(chunks);
    if k == 0 {
      assert chunks[..0] == [] && chunks[0..] == chunks && buffer + "" == buffer;
      assert Waits(0) + PostActions(buffer, chunks) == PostActions(buffer, chunks);
    } else {
      var b := buffer + chunks[0];
      NotInConcat(buffer, chunks[0]);
      NoBlankWithoutLine(b);
      PostWaits(b, chunks[1..]);
      assert PostActions(buffer, chunks) == [Wait] + PostActions(b, chunks[1..]);
      hide PostActions, Flatten, Waits, Before;
      OneChunkMore(buffer, chunks, k);
      OneWaitMore(k, PostActions(buffer + Flatten(chunks[..k]), chunks[k..]));
    }
  }

  /** The event that brings the first line feed. */
  lemma PostEvent(before: string, chunks: seq<string>)
    requires chunks != [] && '\n' in chunks[0] && StartsPost(before + chunks[0])
    requires chunks[0][0] == '\n' ==> |before| >= 5
    ensures Late(chunks[0]) ==> Actions(State(before, "", true), chunks) == PostActions(before, chunks)
    ensures !Late(chunks[0]) ==> Actions(State(before, "", true), chunks) == [Handle(ClientError)]
  {
    hide HandlePost, HandleRequest, StartsPost;
    var chunk := chunks[0];
    if Late(chunk) {
      ScanLate(before, chunk, 0, "");
      var t := OnData(State(before, "", true), chunk).0;
      if HandlePost(before + chunk) != LengthRequired { HeaderKnown(t, chunks[1..]); }
    } else {
      ScanEarly(before, chunk, 0, "");
    }
  }

  lemma PostStands(s: string, before: string, chunk: string, j: nat)
    requires StartsPost(s) && |before + chunk| <= |s| && before + chunk == s[..|before + chunk|]
    requires j < |chunk| && chunk[j] == '\n'
    requires forall i :: 0 <= i < j ==> chunk[i] != '\n'
    requires '\n' !in before
    ensures StartsPost(before + chunk) && (chunk[0] == '\n' ==> |before| >= 5)
  {
    PostLetters(s);
    var b := before + chunk;
    assert b[|before| + j] == '\n' && s[|before| + j] == '\n';
    assert |before| + j >= 5;
    assert b[..5] == s[..5];
  }

  /**
   A stream that begins with POST is read as one under exactly those cuttings in
   which the chunk with the first line feed has none at its positions one to four;
   otherwise it is answered as a client error, and nothing else is looked at.
   */
  lemma PostTakenIff(chunks: seq<string>, before: string, chunk: string, j: nat)
    requires StartsPost(Flatten(chunks)) && LineEndsIn(chunks, before, chunk, j)
    ensures if Late(chunk) then Actions(START, chunks) == PostActions("", chunks)
            else AnswersTo(Actions(START, chunks), Before(chunks), ClientError)
  {
    hide Actions, PostActions, StartsPost, Late;
    var k := Before(chunks);
    WaitsForLine("", chunks);
    PostWaits("", chunks);
    assert "" + Flatten(chunks[..k]) == before;
    StreamAt(chunks, k);
    NoLineIn(chunks, k);
    PrefixOf(before, chunk, Flatten(chunks[k + 1..]));
    PostStands(Flatten(chunks), before, chunk, j);
    assert chunks[k..][0] == chunk && chunk[j] in chunk;
    PostEvent(before, chunks[k..]);
  }

  /**
   A POST under any cutting into chunks that are not empty: it is handled, once and
   with exactly its body, if and only if no line feed of the chunk with the first
   one stands at its positions one to four and some chunk ends where the declared
   body ends.
   */
  lemma AnyPostHandledIff(chunks: seq<string>, before: string, chunk: string, j: nat, h: nat, n: nat)
    requires NoneEmpty(chunks) && StartsPost(Flatten(chunks)) && LineEndsIn(chunks, before, chunk, j)
    requires var s := Flatten(chunks);
             4 <= h <= |s| && Find(s, H.BLANK, 0) == Some(h - 4) && ContentLength(s[..h]) == Some(n)
    ensures var s := Flatten(chunks);
            if !Late(chunk) then Handled(Actions(START, chunks)) == [ClientError]
            else if CutsAt(chunks, 0, h + n) then
              h + n <= |s| && Handled(Actions(START, chunks)) ==
                [HandleRequest(FirstPart(s[..h]), SecondPart(s[..h]), s[h..h + n])]
            else Handled(Actions(START, chunks)) == []
  {
    hide Find, ContentLength, HandleRequest, FirstPart, SecondPart, Actions, PostActions, CutsAt, StartsPost, Late;
    PostTakenIff(chunks, before, chunk, j);
    if Late(chunk) {
      assert "" + Flatten(chunks) == Flatten(chunks);
      HandledAtCut("", chunks, h, n);
    } else {
      HandledAfterWaits(Before(chunks), ClientError);
    }
  }

  lemma {:induction false} HandledAfterWaits(k: nat, reaction: Reaction)
    ensures Handled(Waits(k) + [Handle(reaction)]) == [reaction]
  {
    var actions := Waits(k) + [Handle(reaction)];
    if k > 0 {
      HandledAfterWaits(k - 1, reaction);
      assert actions[1..] == Waits(k - 1) + [Handle(reaction)];
    } else {
      assert actions == [Handle(reaction)] && actions[1..] == [];
    }
  }

  /** What the server does with a complete POST, by its path. */
  lemma PostReactions(path: string, body: string)
    ensures HandleRequest("POST", Some(path), body) ==
            if path == "" then ClientError
            else if path == "/broadcast" then Broadcast(body)
            else if path == "/connections" then Count
            else if path == "/sse" then Subscribe
            else NotFound
  {}

  /**
   A complete POST whose length is declared first in a header is answered by its
   path, once, however its stream is cut, if it is taken as a POST at all.
   */
  lemma CompletePostAnswered(path: string, version: string, hs: seq<H.Header>, i: nat, body: string,
                             chunks: seq<string>, before: string, chunk: string, j: nat)
    requires H.RequestLineOk("POST", path, version) && H.AllWellFormed(hs)
    requires FirstDeclares(path, version, hs, i, |body|)
    requires NoneEmpty(chunks) && Flatten(chunks) == H.PrintHead("POST", path, version, hs) + body
    requires LineEndsIn(chunks, before, chunk, j)
    ensures Handled(Actions(START, chunks)) ==
            [if !Late(chunk) || path == "" then ClientError
             else if path == "/broadcast" then Broadcast(body)
             else if path == "/connections" then Count
             else if path == "/sse" then Subscribe
             else NotFound]
  {
    hide H.PrintHead, Find, ContentLength, FirstPart, SecondPart, Actions, Handled, H.AllWellFormed, HandleRequest;
    hide CutsAt, NoneEmpty, FirstDeclares, Late, LineEndsIn, StartsPost;
    var head := H.PrintHead("POST", path, version, hs);
    HeadStartsPost(path, version, hs, body);
    FirstDeclaredLength(path, version, hs, i, |body|);
    assert Free(path, {' '});
    PrintedParts(path, version, hs);
    H.OffsetIsFirstBlank("POST", path, version, hs, body);
    HeadAndBody(head, body);
    SomeChunk(chunks, before, chunk, j);
    CutsAtEnd(chunks, 0);
    AnyPostHandledIff(chunks, before, chunk, j, |head|, |body|);
    assert (head + body)[|head|..|head| + |body|] == body;
    PostReactions(path, body);
  }

  lemma HeadStartsPost(path: string, version: string, hs: seq<H.Header>, body: string)
    ensures StartsPost(H.PrintHead("POST", path, version, hs) + body)
  {
    var rest := path + " " + version + "\r\n" + H.PrintHeaders(hs) + "\r\n" + body;
    assert H.PrintHead("POST", path, version, hs) + body == "POST " + rest;
    assert ("POST " + rest)[..5] == "POST ";
  }

  lemma SomeChunk(chunks: seq<string>, before: string, chunk: string, j: nat)
    requires LineEndsIn(chunks, before, chunk, j)
    ensures chunks != []
  {}
}
