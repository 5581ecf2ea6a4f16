/**
 The Nim server's reading of pipelined requests, on the bytes still to come, and
 the printing it undoes.  recvLine, recv, split, parseUntil, skipWhiteSpace,
 parseInt and normalize are those of its standard library.
 */
module NimRequests {
  import opened Sequences
  import opened Text
  import opened EventStream
  import H = HttpScanner

  type Headers = map<string, string>

  // ---------- The library ----------

  /**
   recvLine: a line ends in CRLF, CR or LF; an empty line is returned as CRLF; if
   the peer has gone before the line ends, the result is empty and the rest lost.
   */
  function RecvLine(s: string): (r: (string, string))
    ensures r.0 != "" ==> |r.1| < |s|
  {
    var n := LineLength(s);
    if n == |s| then ("", "") else (if n == 0 then "\r\n" else s[..n], AfterBreak(s[n..]))
  }

  function Split(line: string): seq<string>
    decreases |line|
  {
    var n := Until(line, {' '});
    if n == |line| then [line] else [line[..n]] + Split(line[n + 1..])
  }

  /** Lower case, without underscores. */
  function Normalize(s: string): string {
    if s == "" then "" else (if s[0] == '_' then "" else [Lower(s[0])]) + Normalize(s[1..])
  }

  function Underscores(s: string): (n: nat)
    ensures n <= |s|
  {
    if s == "" || s[0] != '_' then 0 else 1 + Underscores(s[1..])
  }

  /** The digits at the front of s, each with any underscores behind it: their value and extent. */
  function ScanInt(s: string, acc: int): (r: (int, nat))
    ensures r.1 <= |s|
    decreases |s|
  {
    if s == "" || !IsDigit(s[0]) then (acc, 0)
    else
      var k := 1 + Underscores(s[1..]);
      var (v, n) := ScanInt(s[k..], 10 * acc + DigitValue(s[0]));
      (v, k + n)
  }

  /** parseInt: the number and how many characters it takes, none if there is no number. */
  function ParseInt(s: string): (r: (int, nat))
    ensures r.1 <= |s|
  {
    var signed := s != "" && (s[0] == '-' || s[0] == '+');
    var (v, n) := ScanInt(if signed then s[1..] else s, 0);
    if n == 0 then (0, 0) else if signed then (if s[0] == '-' then -v else v, n + 1) else (v, n)
  }

  // ---------- Parsing ----------

  /** parseHeader; None where it would read beyond the end of the line. */
  function ParseHeader(line: string): Option<(string, string)> {
    var n := Until(line, {':'});
    if n == |line| then None
    else
      var rest := line[n + 1..];
      var value := rest[Blanks(rest)..];
      Some((line[..n], value[..Until(value, {'\r', '\n'})]))
  }

  datatype Protocol = Version(major: int, minor: int) | NotHttp | PastEnd

  function ParseProtocol(protocol: string): Protocol {
    if |protocol| < 5 || ToLower(protocol[..5]) != "http/" then NotHttp
    else
      var (major, n) := ParseInt(protocol[5..]);
      if 5 + n + 1 > |protocol| then PastEnd
      else Version(major, ParseInt(protocol[5 + n + 1..]).0)
  }

  /** Whether the connection is kept after a request. */
  predicate Persistent(major: int, minor: int, connection: string) {
    || (major == 1 && minor == 1 && Normalize(connection) != "close")
    || (major == 1 && minor == 0 && Normalize(connection) == "keep-alive")
  }

  const METHODS := {"get", "post", "head", "put", "delete", "trace", "options", "connect", "patch"}

  datatype Called = Called(verb: string, path: string, major: int, minor: int, headers: Headers, body: string)

  /** What the client sees and the callback is given, in order. */
  datatype Effect = Callback(request: Called) | BadRequest | Continue | ExpectationFailed

  /** Closed by the loop; Failed by an assertion or exception; Undefined beyond the end of a string. */
  datatype Ending = Closed | Failed | Undefined

  /** One round of the loop: it ends the connection, or goes on with the rest of the stream. */
  datatype Turn = Stop(events: seq<Effect>, ending: Ending) | Next(events: seq<Effect>, rest: string)

  datatype Block = Block(headers: Headers, rest: string) | Gone | Odd

  function ReadHeaders(s: string, headers: Headers): (b: Block)
    ensures b.Block? ==> |b.rest| < |s|
    decreases |s|
  {
    var (line, rest) := RecvLine(s);
    if line == "" then Gone
    else if line == "\r\n" then Block(headers, rest)
    else
      match ParseHeader(line)
      case None => Odd
      case Some((key, value)) => ReadHeaders(rest, headers[ToLower(key) := value])
  }

  /** A missing header reads as the empty string. */
  function Get(headers: Headers, key: string): string {
    if key in headers then headers[key] else ""
  }

  function Expectation(headers: Headers): seq<Effect> {
    if "expect" !in headers then []
    else if ToLower(headers["expect"]) == "100-continue" then [Continue]
    else [ExpectationFailed]
  }

  function Finish(request: Called, before: seq<Effect>, rest: string): Turn {
    var events := before + [if Normalize(request.verb) in METHODS then Callback(request) else BadRequest];
    if Persistent(request.major, request.minor, Get(request.headers, "connection")) then Next(events, rest)
    else Stop(events, Closed)
  }

  function Serve(verb: string, path: string, protocol: string, headers: Headers, rest: string): (t: Turn)
    ensures t.Next? ==> |t.rest| <= |rest|
  {
    match ParseProtocol(protocol)
    case NotHttp => Next([BadRequest], rest)
    case PastEnd => Stop([], Undefined)
    case Version(major, minor) =>
      if Normalize(verb) != "post" then Finish(Called(verb, path, major, minor, headers, ""), [], rest)
      else if "content-length" !in headers then Next(Expectation(headers) + [BadRequest], rest)
      else
        var (n, used) := ParseInt(headers["content-length"]);
        if used == 0 then
          Finish(Called(verb, path, major, minor, headers, ""), Expectation(headers) + [BadRequest], rest)
        else if n < 0 || n > |rest| then Stop(Expectation(headers), Failed)
        else Finish(Called(verb, path, major, minor, headers, rest[..n]), Expectation(headers), rest[n..])
  }

  function Turned(s: string): (t: Turn)
    ensures t.Next? ==> |t.rest| < |s|
  {
    var (line, rest) := RecvLine(s);
    if line == "" then Stop([], Closed)
    else
      var parts := Split(line);
      if |parts| != 3 then Next([BadRequest], rest)
      else
        match ReadHeaders(rest, map[])
        case Gone => Stop([], Closed)
        case Odd => Stop([], Undefined)
        case Block(headers, rest') => Serve(parts[0], parts[1], parts[2], headers, rest')
  }

  /** processClient with a callback that does not close the connection. */
  function Process(s: string): (seq<Effect>, Ending)
    decreases |s|
  {
    match Turned(s)
    case Stop(events, ending) => (events, ending)
    case Next(events, rest) => (events + Process(rest).0, Process(rest).1)
  }

  // ---------- Requests in print ----------

  datatype Request = Request(verb: string, path: string, major: nat, minor: nat, headers: seq<H.Header>, body: string)

  predicate Word(s: string) { Clean(s) && Free(s, {' '}) }

  predicate HeaderOk(h: H.Header) {
    Clean(h.name) && Free(h.name, {':'}) && Clean(h.value) && (h.value != "" ==> !IsSpace(h.value[0]))
  }

  predicate HeadersOk(hs: seq<H.Header>) {
    forall i :: 0 <= i < |hs| ==> HeaderOk(hs[i])
  }

  /** The header table: names in lower case, the last value of each. */
  function Table(hs: seq<H.Header>, headers: Headers): Headers {
    if hs == [] then headers else Table(hs[1..], headers[ToLower(hs[0].name) := hs[0].value])
  }

  ghost predicate DeclaresLength(hs: seq<H.Header>, n: nat) {
    exists i :: 0 <= i < |hs| && H.LastNamed(hs, i, "content-length") && hs[i].value == Decimal(n)
  }

  /** Any method may have a body of the length declared last; only a POST without one must declare that. */
  ghost predicate Framed(r: Request) {
    && Word(r.verb) && Word(r.path) && r.verb != "" && HeadersOk(r.headers)
    && (DeclaresLength(r.headers, |r.body|) || (r.body == "" && Normalize(r.verb) != "post"))
  }

  function WithoutUnderscores(s: string): string {
    if s == "" then "" else (if s[0] == '_' then "" else [s[0]]) + WithoutUnderscores(s[1..])
  }

  /** The nine methods, in any case and with any underscores. */
  ghost predicate Known(verb: string) {
    var m := WithoutUnderscores(verb);
    || SameText(m, "GET") || SameText(m, "POST") || SameText(m, "HEAD") || SameText(m, "PUT") || SameText(m, "DELETE")
    || SameText(m, "TRACE") || SameText(m, "OPTIONS") || SameText(m, "CONNECT") || SameText(m, "PATCH")
  }

  ghost predicate WellFormed(r: Request) {
    Framed(r) && Known(r.verb)
  }

  /** The loop takes the whole request: it reads the body of no method but POST. */
  predicate Whole(r: Request) { Normalize(r.verb) == "post" || r.body == "" }

  /** The request as the callback is given it. */
  function Seen(r: Request): Request {
    if Normalize(r.verb) == "post" then r else r.(body := "")
  }

  /** The part of it that is left in the stream. */
  function LeftOver(r: Request): string {
    if Normalize(r.verb) == "post" then "" else r.body
  }

  function PrintVersion(major: nat, minor: nat): string {
    "HTTP/" + (Decimal(major) + ("." + Decimal(minor)))
  }

  /** The request as sent, its headers in the format of addHeaders. */
  function Print(r: Request): string {
    H.PrintHead(r.verb, r.path, PrintVersion(r.major, r.minor), r.headers) + r.body
  }

  function ToCall(r: Request): Called {
    Called(r.verb, r.path, r.major, r.minor, Table(r.headers, map[]), r.body)
  }

  function Events(r: Request): seq<Effect> {
    (if Normalize(r.verb) == "post" then Expectation(Table(r.headers, map[])) else []) + [Callback(ToCall(r))]
  }

  predicate Keeps(r: Request) {
    Persistent(r.major, r.minor, Get(Table(r.headers, map[]), "connection"))
  }
}
