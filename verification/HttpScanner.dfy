/**
 The C++ request parser: what parse_request makes of a buffer, stated on the
 text still to be read, and its inverse, the printing of a request.
 */
module HttpScanner {
  import opened Sequences
  import opened Text

  type Headers = map<string, string>

  /** How the header scan ends: at a line without a colon, at the end of the buffer, or by an exception. */
  datatype Scanned =
    | Closed(headers: Headers, consumed: nat)
    | Open(headers: Headers)
    | Broken

  function Shift(r: Scanned, k: nat): Scanned {
    if r.Closed? then r.(consumed := r.consumed + k) else r
  }

  /** What the scan meets first: a header line, a line without a colon, the end of the buffer, or a header cut short. */
  datatype Met = Field(name: string, value: string, next: nat) | Stop(next: nat) | RunsOut | CutShort

  function Meets(rest: string): (m: Met)
    ensures m.Field? || m.Stop? ==> 0 < m.next <= |rest|
  {
    var n := Until(rest, {':', '\n'});
    if n == |rest| then RunsOut
    else if rest[n] == '\n' then Stop(n + 1)
    else
      var spaced := rest[n + 1..];
      var value := spaced[Spaces(spaced)..];
      var e := Until(value, {'\n'});
      if e == |value| then CutShort else Field(rest[..n], value[..e], |rest| - |value| + e + 1)
  }

  /** Lines with a colon become headers; the first line without one ends the block. */
  function Scan(rest: string, headers: Headers): (r: Scanned)
    ensures r.Closed? ==> r.consumed <= |rest|
    decreases |rest|
  {
    match Meets(rest)
    case RunsOut => Open(headers)
    case Stop(next) => Closed(headers, next)
    case CutShort => Broken
    case Field(name, value, next) => Shift(Scan(rest[next..], headers[ToLower(name) := value]), next)
  }

  /**
   The outcome of parse_request.  PastEnd: the scan for the end of the request
   line met none and moved its iterator beyond the end of the buffer, where the
   behaviour of the program is undefined.
   */
  datatype Parsed =
    | Request(verb: string, path: string, headers: Headers, bodyOffset: Option<nat>)
    | Invalid
    | PastEnd

  function Parse(buffer: string): Parsed {
    var sp := Until(buffer, {' '});
    if sp + 1 >= |buffer| then Invalid else ParsePath(buffer[..sp], buffer[sp + 1..], |buffer|)
  }

  /** The rest of the buffer from the path on; length is that of the whole buffer. */
  function ParsePath(verb: string, tail: string, length: nat): Parsed
    requires |tail| <= length
  {
    var pe := Until(tail, {' '});
    if pe == |tail| then Invalid else ParseVersion(verb, tail[..pe], tail[pe + 1..], length)
  }

  function ParseVersion(verb: string, path: string, line: string, length: nat): Parsed
    requires |line| <= length
  {
    var nl := Until(line, {'\n'});
    if nl == |line| then PastEnd else ParseBlock(verb, path, line[nl + 1..], length)
  }

  function ParseBlock(verb: string, path: string, block: string, length: nat): Parsed
    requires |block| <= length
  {
    match Scan(block, map[])
    case Broken => Invalid
    case Open(headers) => Request(ToUpper(verb), path, headers, None)
    case Closed(headers, n) => Request(ToUpper(verb), path, headers, Some(length - |block| + n))
  }

  // ---------- Printing ----------

  datatype Header = Header(name: string, value: string)

  predicate WellFormed(h: Header) {
    && Free(h.name, {':', '\n'})
    && Free(h.value, {'\n'})
    && (h.value != "" ==> h.value[0] != ' ')
  }

  predicate AllWellFormed(hs: seq<Header>) {
    forall i :: 0 <= i < |hs| ==> WellFormed(hs[i])
  }

  function PrintHeaders(hs: seq<Header>): string {
    if hs == [] then "" else hs[0].name + ": " + hs[0].value + "\r\n" + PrintHeaders(hs[1..])
  }

  /** The head of a request, up to and with the empty line. */
  function PrintHead(verb: string, path: string, version: string, hs: seq<Header>): string {
    verb + " " + path + " " + version + "\r\n" + PrintHeaders(hs) + "\r\n"
  }

  predicate RequestLineOk(verb: string, path: string, version: string) {
    Free(verb, {' ', '\n'}) && Free(path, {' ', '\n'}) && Free(version, {'\n'})
  }

  /** The header map: names in lower case, values with the carriage return that ended their line. */
  function HeaderMap(hs: seq<Header>, headers: Headers): Headers {
    if hs == [] then headers
    else HeaderMap(hs[1..], headers[ToLower(hs[0].name) := hs[0].value + "\r"])
  }

  /** hs[i] is the last header of this name. */
  ghost predicate LastNamed(hs: seq<Header>, i: int, key: string)
    requires 0 <= i < |hs|
  {
    ToLower(hs[i].name) == key && forall j :: i < j < |hs| ==> ToLower(hs[j].name) != key
  }

  /** hs[i] is the last header called so, in any case. */
  ghost predicate LastCalled(hs: seq<Header>, i: int, name: string)
    requires 0 <= i < |hs|
  {
    SameText(hs[i].name, name) && forall j :: i < j < |hs| ==> !SameText(hs[j].name, name)
  }

  /** The last header of a name decides. */
  lemma {:induction false} LastHeaderWins(hs: seq<Header>, headers: Headers, key: string)
    ensures key in HeaderMap(hs, headers) <==> key in headers || exists i :: 0 <= i < |hs| && ToLower(hs[i].name) == key
    ensures forall i :: 0 <= i < |hs| && LastNamed(hs, i, key) ==> HeaderMap(hs, headers)[key] == hs[i].value + "\r"
    ensures key in headers && (forall i :: 0 <= i < |hs| ==> ToLower(hs[i].name) != key) ==>
              HeaderMap(hs, headers)[key] == headers[key]
    decreases |hs|
  {
    if hs != [] {
      var more := hs[1..];
      LastHeaderWins(more, headers[ToLower(hs[0].name) := hs[0].value + "\r"], key);
      assert forall i :: 0 < i < |hs| ==> hs[i] == more[i - 1];
      assert forall i :: 0 <= i < |more| ==> more[i] == hs[i + 1];
    }
  }

  /** A header line, by its parts. */
  lemma MeetsColon(rest: string, name: string, spaced: string, value: string, after: string)
    requires Until(rest, {':', '\n'}) == |name| < |rest| && rest[|name|] == ':'
    requires rest[..|name|] == name && rest[|name| + 1..] == spaced
    requires spaced[Spaces(spaced)..] == value + after
    requires after != "" && Until(value + after, {'\n'}) == |value|
    ensures Meets(rest) == Field(name, value, |rest| - |after| + 1) && rest[|rest| - |after| + 1..] == after[1..]
  {
    hide Until, Spaces;
    ValueThen(value, after);
    RestBehind(rest, |name| + 1, spaced, Spaces(spaced), value, after);
  }

  lemma ValueThen(value: string, after: string)
    ensures (value + after)[..|value|] == value && (value + after)[|value|..] == after
  {}

  lemma RestBehind(rest: string, n: nat, spaced: string, k: nat, value: string, after: string)
    requires n <= |rest| && rest[n..] == spaced && k <= |spaced| && spaced[k..] == value + after && after != ""
    ensures rest[|rest| - |after| + 1..] == after[1..]
  {
    ValueThen(value, after);
    assert rest[n..][k..] == rest[n + k..];
    assert rest[n + k..][|value|..] == rest[n + k + |value|..];
  }

  predicate AllSpaces(s: string) { forall i :: 0 <= i < |s| ==> s[i] == ' ' }

  lemma {:induction false} SpacesThen(s: string, t: string)
    requires AllSpaces(s) && t != "" && t[0] != ' '
    ensures Spaces(s + t) == |s| && (s + t)[|s|..] == t
  {
    if s == "" {
      assert s + t == t;
    } else {
      assert (s + t)[1..] == s[1..] + t;
      SpacesThen(s[1..], t);
    }
  }

  /** A header line, taken apart at its colon and behind its spaces, whatever its value. */
  lemma ScanParts(name: string, spaces: string, value: string, rest: string, headers: Headers)
    requires Free(name, {':', '\n'}) && AllSpaces(spaces) && Free(value, {'\n'}) && (value != "" ==> value[0] != ' ')
    ensures var text := name + (":" + (spaces + (value + ("\n" + rest))));
            Scan(text, headers) == Shift(Scan(rest, headers[ToLower(name) := value]), |text| - |rest|)
  {
    hide Meets, Spaces, Until, Free, AllSpaces, ToLower;
    var after := "\n" + rest;
    var spaced := spaces + (value + after);
    UntilAfter(name, ":" + spaced, {':', '\n'});
    assert (":" + spaced)[1..] == spaced;
    assert (value + after)[0] != ' ';
    SpacesThen(spaces, value + after);
    UntilAfter(value, after, {'\n'});
    assert after[1..] == rest;
    MeetsColon(name + (":" + spaced), name, spaced, value, after);
  }

  lemma ScanHeader(h: Header, rest: string, headers: Headers)
    requires WellFormed(h)
    ensures var line := h.name + ": " + h.value + "\r\n";
            Scan(line + rest, headers) == Shift(Scan(rest, headers[ToLower(h.name) := h.value + "\r"]), |line|)
  {
    var line := h.name + ": " + h.value + "\r\n";
    var value := h.value + "\r";
    assert line + rest == h.name + (":" + (" " + (value + ("\n" + rest))));
    assert Free(value, {'\n'});
    hide Scan, Free, ToLower;
    ScanParts(h.name, " ", value, rest, headers);
  }

  lemma {:induction false} ScanPrinted(hs: seq<Header>, body: string, headers: Headers)
    requires AllWellFormed(hs)
    ensures Scan(PrintHeaders(hs) + "\r\n" + body, headers) == Closed(HeaderMap(hs, headers), |PrintHeaders(hs)| + 2)
    decreases |hs|
  {
    if hs == [] {
      var text := "\r\n" + body;
      assert "" + "\r\n" + body == text;
      UntilIs(text, {':', '\n'}, 1);
    } else {
      var line := hs[0].name + ": " + hs[0].value + "\r\n";
      var rest := PrintHeaders(hs[1..]) + "\r\n" + body;
      assert PrintHeaders(hs) + "\r\n" + body == line + rest;
      ScanHeader(hs[0], rest, headers);
      ScanPrinted(hs[1..], body, headers[ToLower(hs[0].name) := hs[0].value + "\r"]);
    }
  }

  /** A request line is split at its two spaces and at the line feed. */
  lemma SplitRequestLine(buffer: string, verb: string, path: string, version: string, block: string)
    requires Free(verb, {' '}) && Free(path, {' '}) && Free(version, {'\n'})
    requires buffer == verb + " " + (path + " " + (version + "\n" + block))
    ensures Until(buffer, {' '}) == |verb| < |buffer| && buffer[..|verb|] == verb
    ensures var tail := buffer[|verb| + 1..];
            && Until(tail, {' '}) == |path| < |tail| && tail[..|path|] == path
            && tail[|path| + 1..] == version + "\n" + block
    ensures var line := version + "\n" + block;
            Until(line, {'\n'}) == |version| < |line| && line[|version| + 1..] == block
  {
    hide Until, Free;
    var line := version + ("\n" + block);
    var tail := path + (" " + line);
    assert buffer == verb + (" " + tail);
    UntilAfter(verb, " " + tail, {' '});
    assert (" " + tail)[1..] == tail;
    UntilAfter(path, " " + line, {' '});
    assert (" " + line)[1..] == line;
    UntilAfter(version, "\n" + block, {'\n'});
    assert ("\n" + block)[1..] == block;
  }

  /** The same text, grouped as the parser takes it apart. */
  lemma HeadThenBody(verb: string, path: string, version: string, headers: string, body: string)
    ensures verb + " " + path + " " + version + "\r\n" + headers + "\r\n" + body ==
            verb + " " + (path + " " + (version + "\r" + "\n" + (headers + "\r\n" + body)))
  {
    var block := headers + "\r\n" + body;
    assert version + "\r\n" + headers + "\r\n" + body == version + "\r" + "\n" + block;
    assert path + " " + version + "\r\n" + headers + "\r\n" + body ==
      path + " " + (version + "\r\n" + headers + "\r\n" + body);
  }

  lemma ParseBuffer(buffer: string, verb: string, path: string, version: string, block: string)
    requires Free(verb, {' '}) && Free(path, {' '}) && Free(version, {'\n'})
    requires buffer == verb + " " + (path + " " + (version + "\n" + block))
    ensures |buffer| >= |block| && Parse(buffer) == ParseBlock(verb, path, block, |buffer|)
  {
    hide Until, Free, ParseBlock;
    SplitRequestLine(buffer, verb, path, version, block);
  }

  lemma ParsePrinted(buffer: string, verb: string, path: string, version: string, hs: seq<Header>,
                     body: string, block: string)
    requires Free(verb, {' '}) && Free(path, {' '}) && Free(version, {'\n'}) && AllWellFormed(hs)
    requires block == PrintHeaders(hs) + "\r\n" + body
    requires buffer == verb + " " + (path + " " + (version + "\n" + block))
    ensures |buffer| >= |body|
    ensures Parse(buffer) == Request(ToUpper(verb), path, HeaderMap(hs, map[]), Some(|buffer| - |body|))
  {
    hide Parse, Scan, Free, HeaderMap, PrintHeaders, ToUpper;
    ParseBuffer(buffer, verb, path, version, block);
    ScanPrinted(hs, body, map[]);
  }

  lemma CarriageReturn(version: string)
    requires Free(version, {'\n'})
    ensures Free(version + "\r", {'\n'})
  {}

  /**
   parse_request undoes printing: the method comes back in upper case, the path
   unchanged, the headers as a map, and the body begins where the head ends.
   */
  lemma ParseUndoesPrint(verb: string, path: string, version: string, hs: seq<Header>, body: string)
    requires RequestLineOk(verb, path, version) && AllWellFormed(hs)
    ensures var head := PrintHead(verb, path, version, hs);
            Parse(head + body) == Request(ToUpper(verb), path, HeaderMap(hs, map[]), Some(|head|))
  {
    CarriageReturn(version);
    var head, block := PrintHead(verb, path, version, hs), PrintHeaders(hs) + "\r\n" + body;
    HeadThenBody(verb, path, version, PrintHeaders(hs), body);
    hide Parse, AllWellFormed, HeaderMap, PrintHeaders, ToUpper;
    ParsePrinted(head + body, verb, path, version + "\r", hs, body, block);
  }

  // ---------- The end of the header block ----------

  const BLANK := "\r\n\r\n"

  /** In a line and what follows, the only place before the rest where the blank line can be is the line's end. */
  lemma BlankInLine(line: string, rest: string, j: int)
    requires Free(line, {'\n'}) && OccursAt(line + "\r\n" + rest, BLANK, j) && j < |line| + 2
    ensures j == |line| && |rest| >= 2 && rest[..2] == "\r\n"
  {
    var text := line + "\r\n" + rest;
    assert text[j] == text[j..j + 4][0] && text[j + 1] == text[j..j + 4][1]
           && text[j + 2] == text[j..j + 4][2] && text[j + 3] == text[j..j + 4][3];
    assert text[|line|] == '\r' && text[|line| + 1] == '\n';
    if j == |line| { assert rest[0] == text[j + 2] && rest[1] == text[j + 3]; }
  }

  lemma OccursInRest(line: string, rest: string, j: int)
    requires j >= |line| + 2
    ensures OccursAt(line + "\r\n" + rest, BLANK, j) <==> OccursAt(rest, BLANK, j - |line| - 2)
  {
    var text, k := line + "\r\n" + rest, j - |line| - 2;
    assert text[|line| + 2..] == rest;
    if k + 4 <= |rest| { assert text[j..j + 4] == rest[k..k + 4]; }
  }

  /** The first blank line of a text that begins with a line. */
  lemma BlankFirst(line: string, rest: string)
    requires Free(line, {'\n'}) && |rest| >= 2 && rest[..2] == "\r\n"
    ensures Find(line + "\r\n" + rest, BLANK, 0) == Some(|line|)
  {
    BlankHere(line, rest);
    forall j | 0 <= j < |line| ensures !OccursAt(line + "\r\n" + rest, BLANK, j) {
      if OccursAt(line + "\r\n" + rest, BLANK, j) { BlankInLine(line, rest, j); }
    }
    FindIs(line + "\r\n" + rest, BLANK, 0, |line|);
  }

  lemma RestFound(line: string, rest: string, r: nat)
    requires Free(line, {'\n'}) && |rest| >= 2 && rest[..2] != "\r\n" && Find(rest, BLANK, 0) == Some(r)
    ensures Find(line + "\r\n" + rest, BLANK, 0) == Some(|line| + 2 + r)
  {
    hide OccursAt, Find, Free;
    var text := line + "\r\n" + rest;
    OccursInRest(line, rest, |line| + 2 + r);
    forall j | 0 <= j < |line| + 2 + r ensures !OccursAt(text, BLANK, j) {
      if j < |line| + 2 {
        if OccursAt(text, BLANK, j) { BlankInLine(line, rest, j); }
      } else {
        OccursInRest(line, rest, j);
      }
    }
    FindIs(text, BLANK, 0, |line| + 2 + r);
  }

  lemma BlankHere(line: string, rest: string)
    requires |rest| >= 2 && rest[..2] == "\r\n"
    ensures OccursAt(line + "\r\n" + rest, BLANK, |line|)
  {
    var text, n := line + "\r\n" + rest, |line|;
    assert text[n..n + 4] == "\r\n" + rest[..2];
  }

  lemma {:induction false} BlankAfterHeaders(line: string, hs: seq<Header>, body: string)
    requires Free(line, {'\n'}) && AllWellFormed(hs)
    ensures Find(line + "\r\n" + (PrintHeaders(hs) + "\r\n" + body), BLANK, 0) == Some(|line| + |PrintHeaders(hs)|)
    decreases |hs|
  {
    hide Find;
    var rest := PrintHeaders(hs) + "\r\n" + body;
    if hs == [] {
      assert rest == "\r\n" + body && rest[..2] == "\r\n";
      BlankFirst(line, rest);
    } else {
      var h := hs[0];
      var first := h.name + ": " + h.value;
      assert rest == first + "\r\n" + (PrintHeaders(hs[1..]) + "\r\n" + body);
      BlankAfterHeaders(first, hs[1..], body);
      assert rest[1] == first[1] != '\n';
      RestFound(line, rest, |first| + |PrintHeaders(hs[1..])|);
    }
  }

  /** The body offset is the position after the first empty line, the one the header loop waits for. */
  lemma OffsetIsFirstBlank(verb: string, path: string, version: string, hs: seq<Header>, body: string)
    requires RequestLineOk(verb, path, version) && AllWellFormed(hs)
    ensures var head := PrintHead(verb, path, version, hs);
            Find(head + body, BLANK, 0) == Some(|head| - 4)
  {
    var line := verb + " " + path + " " + version;
    assert Free(line, {'\n'});
    BlankAfterHeaders(line, hs, body);
    assert PrintHead(verb, path, version, hs) + body == line + "\r\n" + (PrintHeaders(hs) + "\r\n" + body);
  }

  // ---------- Leaving the buffer ----------

  /** Position j holds the second space of the text. */
  ghost predicate IsSecondSpace(s: string, j: int) {
    0 <= j < |s| && s[j] == ' '
    && exists i :: 0 <= i < j && s[i] == ' ' && forall k :: 0 <= k < j && k != i ==> s[k] != ' '
  }

  /** The text has a second space, and no line feed behind it. */
  ghost predicate RunsPast(s: string) {
    exists j :: IsSecondSpace(s, j) && NoLineFeedAfter(s, j)
  }

  predicate NoLineFeedAfter(s: string, j: int) {
    0 <= j < |s| && '\n' !in s[j + 1..]
  }

  lemma UntilBefore(s: string, stops: set<char>, k: nat)
    requires k < |s| && s[k] in stops
    ensures Until(s, stops) <= k
  {}

  /** The two searches for a space find the first and the second. */
  lemma SecondSpaceAt(buffer: string, j: nat)
    requires IsSecondSpace(buffer, j)
    ensures var sp := Until(buffer, {' '});
            sp < j && sp + 1 + Until(buffer[sp + 1..], {' '}) == j
  {
    var i :| 0 <= i < j && buffer[i] == ' ' && forall k :: 0 <= k < j && k != i ==> buffer[k] != ' ';
    UntilIs(buffer, {' '}, i);
    UntilIs(buffer[i + 1..], {' '}, j - i - 1);
  }

  lemma SecondSpaceFound(buffer: string, sp: nat, j: nat)
    requires sp == Until(buffer, {' '}) && sp < j < |buffer| && j == sp + 1 + Until(buffer[sp + 1..], {' '})
    ensures IsSecondSpace(buffer, j)
  {
    var tail := buffer[sp + 1..];
    assert buffer[j] == tail[j - sp - 1];
    forall k | 0 <= k < j && k != sp ensures buffer[k] != ' ' {
      if k > sp { assert buffer[k] == tail[k - sp - 1]; }
    }
    assert buffer[sp] == ' ';
  }

  lemma VersionPastEndIff(verb: string, path: string, line: string, length: nat)
    requires |line| <= length
    ensures ParseVersion(verb, path, line, length).PastEnd? <==> '\n' !in line
  {
    hide Scan, ToUpper;
    var nl := Until(line, {'\n'});
    if k :| 0 <= k < |line| && line[k] == '\n' { UntilBefore(line, {'\n'}, k); }
  }

  /** The parse, once the two spaces are known. */
  lemma ParseFromSpaces(buffer: string, j: nat)
    requires IsSecondSpace(buffer, j)
    ensures var sp := Until(buffer, {' '});
            sp < j && Parse(buffer) == ParseVersion(buffer[..sp], buffer[sp + 1..j], buffer[j + 1..], |buffer|)
  {
    hide *;
    SecondSpaceAt(buffer, j);
    SecondSpaceIn(buffer, j);
    var sp := Until(buffer, {' '});
    ParseFromPath(buffer, sp);
    PathFromSpace(buffer, sp, j);
  }

  lemma ParseFromPath(buffer: string, sp: nat)
    requires sp == Until(buffer, {' '}) && sp + 1 < |buffer|
    ensures Parse(buffer) == ParsePath(buffer[..sp], buffer[sp + 1..], |buffer|)
  {
    hide Until, ParsePath;
  }

  lemma PathFromSpace(buffer: string, sp: nat, j: nat)
    requires sp < j < |buffer| && sp + 1 + Until(buffer[sp + 1..], {' '}) == j
    ensures ParsePath(buffer[..sp], buffer[sp + 1..], |buffer|) ==
            ParseVersion(buffer[..sp], buffer[sp + 1..j], buffer[j + 1..], |buffer|)
  {
    hide Until, ParseVersion;
    var tail := buffer[sp + 1..];
    assert tail[..j - sp - 1] == buffer[sp + 1..j] && tail[j - sp..] == buffer[j + 1..];
  }

  lemma ParseNeedsSpaces(buffer: string)
    requires !Parse(buffer).Invalid?
    ensures var sp := Until(buffer, {' '});
            sp < |buffer| && IsSecondSpace(buffer, sp + 1 + Until(buffer[sp + 1..], {' '}))
  {
    hide Until, ParseVersion, IsSecondSpace;
    var sp := Until(buffer, {' '});
    SecondSpaceFound(buffer, sp, sp + 1 + Until(buffer[sp + 1..], {' '}));
  }

  /** The scan for the end of the request line leaves the buffer exactly if no line feed follows the second space. */
  lemma PastEndIff(buffer: string)
    ensures Parse(buffer).PastEnd? <==> RunsPast(buffer)
  {
    hide Parse, ParseVersion, Until, IsSecondSpace;
    if Parse(buffer).PastEnd? {
      ParseNeedsSpaces(buffer);
      var sp := Until(buffer, {' '});
      var j := sp + 1 + Until(buffer[sp + 1..], {' '});
      SecondSpaceIn(buffer, j);
      ParseFromSpaces(buffer, j);
      VersionPastEndIff(buffer[..sp], buffer[sp + 1..j], buffer[j + 1..], |buffer|);
    }
    if j :| IsSecondSpace(buffer, j) && NoLineFeedAfter(buffer, j) {
      SecondSpaceIn(buffer, j);
      ParseFromSpaces(buffer, j);
      var sp := Until(buffer, {' '});
      VersionPastEndIff(buffer[..sp], buffer[sp + 1..j], buffer[j + 1..], |buffer|);
    }
  }

  lemma SecondSpaceIn(s: string, j: int)
    requires IsSecondSpace(s, j)
    ensures 0 <= j < |s| && s[j] == ' '
  {}

  /** A text that holds the blank line, and so reaches the parser, and makes it leave the buffer. */
  lemma PastEndReached()
    ensures var buffer := "\r\n\r\na b c"; Find(buffer, BLANK, 0) == Some(0) && Parse(buffer).PastEnd?
  {
    var buffer := "\r\n\r\na b c";
    assert buffer[0..4] == BLANK;
    FindIs(buffer, BLANK, 0, 0);
    assert IsSecondSpace(buffer, 7) by {
      assert buffer[5] == ' ' && forall k :: 0 <= k < 7 && k != 5 ==> buffer[k] != ' ';
    }
    assert buffer[8..] == "c";
    PastEndIff(buffer);
  }

  lemma SpacesBefore(s: string, k: nat)
    requires k < |s| && s[k] != ' '
    ensures Spaces(s) <= k
  {}

  lemma MeetsField(rest: string, n: nat, value: string)
    requires n == Until(rest, {':', '\n'}) < |rest| && rest[n] == ':'
    requires value == rest[n + 1..][Spaces(rest[n + 1..])..] && Until(value, {'\n'}) < |value|
    ensures Meets(rest).Field? && Meets(rest).next == |rest| - |value| + Until(value, {'\n'}) + 1
  {
    hide Until, Spaces;
  }

  /** Where a header line ends that begins before the empty line. */
  lemma HeaderLineEnds(rest: string, n: nat, q: nat)
    requires n == Until(rest, {':', '\n'}) && n + 1 < q <= |rest| && rest[n] == ':' && rest[q - 1] == '\n'
    ensures Meets(rest).Field? && Meets(rest).next <= q
  {
    hide Until, Spaces, Meets;
    var spaced := rest[n + 1..];
    SpacesBefore(spaced, q - n - 2);
    var k := Spaces(spaced);
    var value := spaced[k..];
    assert value == rest[n + 1 + k..] && value[q - n - 2 - k] == '\n';
    UntilBefore(value, {'\n'}, q - n - 2 - k);
    MeetsField(rest, n, value);
  }

  lemma MeetsByEmptyLine(rest: string, q: nat)
    requires q + 2 <= |rest| && rest[q] == '\r' && rest[q + 1] == '\n' && (q > 0 ==> rest[q - 1] == '\n')
    ensures var m := Meets(rest);
            (m.Stop? && m.next <= q + 2) || (m.Field? && m.next <= q)
  {
    if q == 0 {
      UntilIs(rest, {':', '\n'}, 1);
    } else {
      UntilBefore(rest, {':', '\n'}, q - 1);
      hide Until;
      var n := Until(rest, {':', '\n'});
      if rest[n] == ':' { HeaderLineEnds(rest, n, q); }
    }
  }

  /** An empty line that begins at q: the scan ends there at the latest. */
  lemma {:induction false} ScanEndsByEmptyLine(rest: string, headers: Headers, q: nat)
    requires q + 2 <= |rest| && rest[q] == '\r' && rest[q + 1] == '\n' && (q > 0 ==> rest[q - 1] == '\n')
    ensures Scan(rest, headers).Closed? && Scan(rest, headers).consumed <= q + 2
    decreases |rest|
  {
    hide Meets, ToLower;
    MeetsByEmptyLine(rest, q);
    var m := Meets(rest);
    if m.Field? { ScanEndsByEmptyLine(rest[m.next..], headers[ToLower(m.name) := m.value], q - m.next); }
  }

  /**
   With two spaces before the blank line the parse always succeeds, and the body
   begins at the end of that blank line at the latest.
   */
  lemma TwoSpacesParse(buffer: string, e: nat, j: nat)
    requires OccursAt(buffer, BLANK, e) && j < e && IsSecondSpace(buffer, j)
    ensures Parse(buffer).Request? && Parse(buffer).bodyOffset.Some? && Parse(buffer).bodyOffset.value <= e + 4
  {
    hide Parse, Until, IsSecondSpace, ParseVersion;
    ParseFromSpaces(buffer, j);
    BlankAt(buffer, e);
    var sp := Until(buffer, {' '});
    LineParses(buffer[..sp], buffer[sp + 1..j], buffer[j + 1..], |buffer|, e - j - 1);
  }

  lemma BlankAt(s: string, e: nat)
    requires OccursAt(s, BLANK, e)
    ensures e + 4 <= |s| && s[e] == '\r' && s[e + 1] == '\n' && s[e + 2] == '\r' && s[e + 3] == '\n'
  {
    var t := s[e..e + 4];
    assert s[e] == t[0] && s[e + 1] == t[1] && s[e + 2] == t[2] && s[e + 3] == t[3];
  }

  lemma LineParses(verb: string, path: string, line: string, length: nat, e: nat)
    requires |line| <= length && e + 4 <= |line|
    requires line[e] == '\r' && line[e + 1] == '\n' && line[e + 2] == '\r' && line[e + 3] == '\n'
    ensures var p := ParseVersion(verb, path, line, length);
            p.Request? && p.bodyOffset.Some? && p.bodyOffset.value <= length - |line| + e + 4
  {
    hide Scan, ToUpper;
    UntilBefore(line, {'\n'}, e + 1);
    var nl := Until(line, {'\n'});
    var block := line[nl + 1..];
    ScanEndsByEmptyLine(block, map[], e + 2 - nl - 1);
  }

  // ---------- Lines without a colon ----------

  /** Header lines as they stand, each ended by a line feed. */
  function RawLines(lines: seq<string>): string {
    if lines == [] then "" else lines[0] + "\n" + RawLines(lines[1..])
  }

  predicate HasColon(line: string) { ':' in line }

  lemma ScanColonless(line: string, rest: string, headers: Headers)
    requires Free(line, {'\n'}) && !HasColon(line)
    ensures Scan(line + "\n" + rest, headers) == Closed(headers, |line| + 1)
  {
    var text := line + "\n" + rest;
    assert text == line + ("\n" + rest);
    UntilAfter(line, "\n" + rest, {':', '\n'});
  }

  /** The parts of a line with a colon. */
  lemma LineParts(line: string) returns (name: string, spaces: string, value: string)
    requires Free(line, {'\n'}) && HasColon(line)
    ensures line == name + ":" + spaces + value
    ensures Free(name, {':', '\n'}) && AllSpaces(spaces) && Free(value, {'\n'}) && (value != "" ==> value[0] != ' ')
  {
    hide Spaces, Until, Free, AllSpaces, HasColon;
    var n := Until(line, {':', '\n'});
    ColonInside(line, n);
    FreeParts(line, n, n + 1);
    name := line[..n];
    spaces, value := ValueParts(line[n + 1..]);
    assert line == name + ":" + line[n + 1..];
    assert name + ":" + (spaces + value) == name + ":" + spaces + value;
  }

  lemma ValueParts(after: string) returns (spaces: string, value: string)
    requires Free(after, {'\n'})
    ensures after == spaces + value
    ensures AllSpaces(spaces) && Free(value, {'\n'}) && (value != "" ==> value[0] != ' ')
  {
    var k := Spaces(after);
    spaces, value := after[..k], after[k..];
  }

  lemma ColonInside(line: string, n: nat)
    requires Free(line, {'\n'}) && HasColon(line) && n == Until(line, {':', '\n'})
    ensures n < |line| && line[n] == ':' && Free(line[..n], {':', '\n'})
  {
    var c :| 0 <= c < |line| && line[c] == ':';
    assert n <= c;
  }

  lemma FreeParts(line: string, i: nat, j: nat)
    requires Free(line, {'\n'}) && i <= |line| && j <= |line|
    ensures Free(line[..i], {'\n'}) && Free(line[j..], {'\n'})
  {}

  /** A line with a colon is consumed whole, whatever it holds, and the scan goes on behind it. */
  lemma ScanColonLine(line: string, rest: string, headers: Headers) returns (headers': Headers)
    requires Free(line, {'\n'}) && HasColon(line)
    ensures Scan(line + "\n" + rest, headers) == Shift(Scan(rest, headers'), |line| + 1)
  {
    var name, spaces, value := LineParts(line);
    hide Scan, Free, AllSpaces, HasColon, ToLower;
    assert line + "\n" + rest == name + (":" + (spaces + (value + ("\n" + rest))));
    headers' := headers[ToLower(name) := value];
    ScanParts(name, spaces, value, rest, headers);
  }

  /**
   On a block of lines that ends in an empty line the scan never fails, and it
   finds the body behind that empty line if and only if every line has a colon;
   otherwise it stops too early.
   */
  lemma {:induction false} BlockEndsRightIffColons(lines: seq<string>, body: string, headers: Headers)
    requires forall i :: 0 <= i < |lines| ==> Free(lines[i], {'\n'})
    ensures var r := Scan(RawLines(lines) + ("\r\n" + body), headers);
            && r.Closed?
            && (r.consumed == |RawLines(lines)| + 2 <==> forall i :: 0 <= i < |lines| ==> HasColon(lines[i]))
            && r.consumed <= |RawLines(lines)| + 2
    decreases |lines|
  {
    assert Free("\r", {'\n'}) && !HasColon("\r");
    hide Scan, HasColon;
    var ending := "\r\n" + body;
    if lines == [] {
      assert RawLines(lines) + ending == "\r" + "\n" + body;
      ScanColonless("\r", body, headers);
    } else {
      var rest := RawLines(lines[1..]) + ending;
      FirstRawLine(lines, ending);
      hide RawLines;
      if HasColon(lines[0]) {
        var headers' := ScanColonLine(lines[0], rest, headers);
        BlockEndsRightIffColons(lines[1..], body, headers');
        assert forall i :: 0 < i < |lines| ==> lines[i] == lines[1..][i - 1];
        assert (forall i :: 0 <= i < |lines| ==> HasColon(lines[i]))
          <==> forall i :: 0 <= i < |lines| - 1 ==> HasColon(lines[1..][i]);
      } else {
        ScanColonless(lines[0], rest, headers);
      }
    }
  }

  lemma FirstRawLine(lines: seq<string>, ending: string)
    requires lines != []
    ensures RawLines(lines) + ending == lines[0] + "\n" + (RawLines(lines[1..]) + ending)
    ensures |RawLines(lines)| == |lines[0]| + 1 + |RawLines(lines[1..])|
  {
    var first, more := lines[0] + "\n", RawLines(lines[1..]);
    assert RawLines(lines) == first + more;
    hide RawLines;
    assert (first + more) + ending == first + (more + ending);
  }

  // ---------- Any buffer, by its lines ----------

  /** A line without its line feed, taken apart at its first colon and behind its spaces, if it has a colon. */
  datatype Line = Named(name: string, spaces: string, value: string) | Bare(text: string)

  predicate LineOk(l: Line) {
    match l
    case Named(name, spaces, value) =>
      Free(name, {':', '\n'}) && AllSpaces(spaces) && Free(value, {'\n'}) && (value != "" ==> value[0] != ' ')
    case Bare(text) => Free(text, {':', '\n'})
  }

  predicate LinesOk(lines: seq<Line>) {
    forall i :: 0 <= i < |lines| ==> LineOk(lines[i])
  }

  function LineText(l: Line): string {
    match l
    case Named(name, spaces, value) => name + (":" + (spaces + value))
    case Bare(text) => text
  }

  function LinesText(lines: seq<Line>): string {
    if lines == [] then "" else LineText(lines[0]) + "\n" + LinesText(lines[1..])
  }

  /** What a block of lines means; the tail has no line feed. */
  function ByLines(lines: seq<Line>, tail: Line, headers: Headers): Scanned {
    if lines == [] then (if tail.Named? then Broken else Open(headers))
    else
      match lines[0]
      case Bare(text) => Closed(headers, |text| + 1)
      case Named(name, _, value) =>
        Shift(ByLines(lines[1..], tail, headers[ToLower(name) := value]), |LineText(lines[0])| + 1)
  }

  lemma ScanTail(tail: Line, headers: Headers)
    requires LineOk(tail)
    ensures Scan(LineText(tail), headers) == if tail.Named? then Broken else Open(headers)
  {
    hide Until, Spaces, ToLower;
    var text := LineText(tail);
    if tail.Named? {
      var after := tail.spaces + tail.value;
      UntilAfter(tail.name, ":" + after, {':', '\n'});
      assert (":" + after)[1..] == after;
      CutInHeader(text, tail.name, after);
    } else {
      UntilIs(text, {':', '\n'}, |text|);
    }
  }

  lemma CutInHeader(text: string, name: string, after: string)
    requires Until(text, {':', '\n'}) == |name| < |text| && text[|name|] == ':' && text[|name| + 1..] == after
    requires forall i :: 0 <= i < |after| ==> after[i] != '\n'
    ensures Meets(text) == CutShort
  {
    hide Until, Spaces;
    var value := after[Spaces(after)..];
    UntilIs(value, {'\n'}, |value|);
  }

  lemma ScanBare(text: string, rest: string, headers: Headers)
    requires Free(text, {':', '\n'})
    ensures Scan(text + "\n" + rest, headers) == Closed(headers, |text| + 1)
  {
    hide Scan;
    FreeOfColon(text);
    ScanColonless(text, rest, headers);
  }

  lemma FreeOfColon(text: string)
    requires Free(text, {':', '\n'})
    ensures Free(text, {'\n'}) && !HasColon(text)
  {}

  /** The first line of a block. */
  lemma ScanLine(l: Line, rest: string, headers: Headers)
    requires LineOk(l)
    ensures Scan(LineText(l) + "\n" + rest, headers) ==
            match l
            case Bare(text) => Closed(headers, |text| + 1)
            case Named(name, _, value) => Shift(Scan(rest, headers[ToLower(name) := value]), |LineText(l)| + 1)
  {
    hide Scan, ToLower, Free, AllSpaces;
    match l
    case Bare(text) => ScanBare(text, rest, headers);
    case Named(name, spaces, value) =>
      LineGrouped(name, spaces, value, rest);
      ScanParts(name, spaces, value, rest, headers);
  }

  lemma LineGrouped(name: string, spaces: string, value: string, rest: string)
    ensures name + (":" + (spaces + value)) + "\n" + rest == name + (":" + (spaces + (value + ("\n" + rest))))
  {}

  lemma FirstLineThenRest(lines: seq<Line>, tail: string)
    requires lines != []
    ensures LinesText(lines) + tail == LineText(lines[0]) + "\n" + (LinesText(lines[1..]) + tail)
  {
    hide LineText;
  }

  /** The scan, character by character, computes what its lines mean. */
  lemma {:induction false} ScanByLines(lines: seq<Line>, tail: Line, headers: Headers)
    requires LinesOk(lines) && LineOk(tail)
    ensures Scan(LinesText(lines) + LineText(tail), headers) == ByLines(lines, tail, headers)
    decreases |lines|
  {
    hide Scan, ToLower, LineText, LineOk;
    if lines == [] {
      assert "" + LineText(tail) == LineText(tail);
      ScanTail(tail, headers);
    } else {
      var l, rest := lines[0], LinesText(lines[1..]) + LineText(tail);
      FirstLineThenRest(lines, LineText(tail));
      hide LinesText;
      ScanLine(l, rest, headers);
      if l.Named? { ScanByLines(lines[1..], tail, headers[ToLower(l.name) := l.value]); }
    }
  }

  predicate AllNamed(lines: seq<Line>) {
    forall i :: 0 <= i < |lines| ==> lines[i].Named?
  }

  /** How a block ends: at its first line without a colon, at the end of the buffer, or in the middle of a header. */
  lemma {:induction false} ByLinesIff(lines: seq<Line>, tail: Line, headers: Headers)
    ensures var r := ByLines(lines, tail, headers);
            && (r.Closed? <==> !AllNamed(lines))
            && (r.Broken? <==> AllNamed(lines) && tail.Named?)
            && (r.Open? <==> AllNamed(lines) && tail.Bare?)
    decreases |lines|
  {
    hide ToLower;
    if lines != [] && lines[0].Named? {
      ByLinesIff(lines[1..], tail, headers[ToLower(lines[0].name) := lines[0].value]);
      assert forall i :: 0 < i < |lines| ==> lines[i] == lines[1..][i - 1];
    }
  }

  /** Every text is such a block. */
  lemma {:induction false} TextHasLines(block: string) returns (lines: seq<Line>, tail: Line)
    ensures LinesOk(lines) && LineOk(tail) && LinesText(lines) + LineText(tail) == block
    decreases |block|
  {
    hide LineOk, LineText;
    var n := Until(block, {'\n'});
    var first := LineHasParts(block[..n]);
    if n == |block| {
      lines, tail := [], first;
      assert block[..n] == block && LinesText([]) + LineText(first) == LineText(first);
    } else {
      var more;
      more, tail := TextHasLines(block[n + 1..]);
      lines := [first] + more;
      assert lines[1..] == more && block == block[..n] + "\n" + block[n + 1..];
      assert LinesText(lines) == LineText(first) + "\n" + LinesText(more);
    }
  }

  lemma LineHasParts(line: string) returns (l: Line)
    requires '\n' !in line
    ensures LineOk(l) && LineText(l) == line
  {
    assert Free(line, {'\n'});
    if HasColon(line) {
      var name, spaces, value := LineParts(line);
      l := Named(name, spaces, value);
      assert name + ":" + spaces + value == name + (":" + (spaces + value));
    } else {
      l := Bare(line);
    }
  }

  /** A buffer without a second space is invalid. */
  lemma NoSecondSpace(buffer: string)
    requires forall j :: !IsSecondSpace(buffer, j)
    ensures Parse(buffer) == Invalid
  {
    hide IsSecondSpace, ParseVersion, Until;
    if Parse(buffer) != Invalid { ParseNeedsSpaces(buffer); }
  }

  /**
   With two spaces and a line feed behind them a buffer is invalid exactly if it
   ends in the middle of a header and all its lines have colons; otherwise the
   method, the path, the headers and the body offset are these.
   */
  lemma ParseByLines(verb: string, path: string, version: string, lines: seq<Line>, tail: Line)
    requires RequestLineOk(verb, path, version) && LinesOk(lines) && LineOk(tail)
    ensures var block := LinesText(lines) + LineText(tail);
            var buffer := verb + " " + (path + " " + (version + "\n" + block));
            Parse(buffer) ==
              match ByLines(lines, tail, map[])
              case Broken => Invalid
              case Open(headers) => Request(ToUpper(verb), path, headers, None)
              case Closed(headers, n) => Request(ToUpper(verb), path, headers, Some(|buffer| - |block| + n))
  {
    hide Parse, Scan, LinesText, LineText, ToUpper, ByLines, LinesOk, LineOk;
    var block := LinesText(lines) + LineText(tail);
    assert Free(verb, {' '}) && Free(path, {' '});
    ParseBuffer(verb + " " + (path + " " + (version + "\n" + block)), verb, path, version, block);
    ScanByLines(lines, tail, map[]);
  }
}
