/** The Nim server's loops: a connection read line by line, and headers added to a message. */
module NimServer {
  import opened Sequences
  import opened Text
  import opened NimRequests
  import H = HttpScanner

  /** The bytes a peer still sends before it disconnects. */
  class AsyncSocket {
    var incoming: string
    var closed: bool

    constructor (stream: string)
      ensures incoming == stream && !closed
    {
      incoming, closed := stream, false;
    }

    method ReceiveLine() returns (line: string)
      modifies `incoming
      ensures (line, incoming) == RecvLine(old(incoming))
    {
      line := RecvLine(incoming).0;
      incoming := RecvLine(incoming).1;
    }

    /** size bytes, or fewer if the peer disconnects before. */
    method Receive(size: nat) returns (data: string)
      modifies `incoming
      ensures data + incoming == old(incoming)
      ensures |data| == if size <= |old(incoming)| then size else |old(incoming)|
    {
      var n := if size <= |incoming| then size else |incoming|;
      data, incoming := incoming[..n], incoming[n..];
    }

    method Close()
      modifies `closed
      ensures closed
    {
      closed := true;
    }
  }

  /** The header lines of a table, each ended by CRLF. */
  method AddHeaders(msg: string, headers: seq<H.Header>) returns (msg': string)
    ensures msg' == msg + H.PrintHeaders(headers)
  {
    msg' := msg;
    for i := 0 to |headers|
      invariant msg' + H.PrintHeaders(headers[i..]) == msg + H.PrintHeaders(headers)
    {
      ghost var more := H.PrintHeaders(headers[i + 1..]);
      assert headers[i..][1..] == headers[i + 1..];
      assert H.PrintHeaders(headers[i..]) == headers[i].name + ": " + headers[i].value + "\r\n" + more;
      msg' := msg' + (headers[i].name + ": " + headers[i].value + "\r\n");
    }
    assert H.PrintHeaders(headers[|headers|..]) == "";
  }

  /** How the loop over the header lines ends. */
  datatype Reading = Complete | Lost | OutOfLine

  method ReadHeaderLines(client: AsyncSocket) returns (r: Reading, headers: Headers)
    modifies client`incoming
    ensures match ReadHeaders(old(client.incoming), map[])
            case Block(table, rest) => r == Complete && headers == table && client.incoming == rest
            case Gone => r == Lost
            case Odd => r == OutOfLine
  {
    hide ParseHeader, ToLower;
    headers := map[];
    while true
      invariant ReadHeaders(client.incoming, headers) == ReadHeaders(old(client.incoming), map[])
      decreases |client.incoming|
    {
      var line := client.ReceiveLine();
      if line == "" { return Lost, headers; }
      if line == "\r\n" { return Complete, headers; }
      var kv := ParseHeader(line);
      if kv.None? { return OutOfLine, headers; }
      headers := headers[ToLower(kv.value.0) := kv.value.1];
    }
  }

  /** The end of a round: the callback or an error reply, then the decision about the connection. */
  method Conclude(client: AsyncSocket, request: Called, before: seq<Effect>) returns (events: seq<Effect>, kept: bool)
    modifies client`closed
    ensures var t := Finish(request, before, client.incoming);
            events == t.events && kept == t.Next? && (t.Stop? ==> t.ending == Closed)
    ensures client.closed == (old(client.closed) || !kept)
  {
    hide Normalize;
    events := before;
    if Normalize(request.verb) in METHODS {
      events := events + [Callback(request)];
    } else {
      events := events + [BadRequest];
    }
    var connection := Get(request.headers, "connection");
    kept := (request.major == 1 && request.minor == 1 && Normalize(connection) != "close")
            || (request.major == 1 && request.minor == 0 && Normalize(connection) == "keep-alive");
    if !kept { client.Close(); }
  }

  /** One round of processClient. */
  method Round(client: AsyncSocket) returns (events: seq<Effect>, ending: Option<Ending>)
    requires !client.closed
    modifies client
    ensures match Turned(old(client.incoming))
            case Stop(es, end) => events == es && ending == Some(end) && (end == Closed ==> client.closed)
            case Next(es, rest) => events == es && ending == None && client.incoming == rest && !client.closed
  {
    hide ReadHeaders, Normalize, Split, ParseProtocol, ParseInt, Expectation, RecvLine, Finish;
    var line := client.ReceiveLine();
    if line == "" { client.Close(); return [], Some(Closed); }
    var parts := Split(line);
    if |parts| != 3 { return [BadRequest], None; }
    var read, headers := ReadHeaderLines(client);
    if read == Lost { client.Close(); return [], Some(Closed); }
    if read == OutOfLine { return [], Some(Undefined); }
    events, ending := Answer(client, parts[0], parts[1], parts[2], headers);
  }

  /** The part of the round behind the header lines. */
  method Answer(client: AsyncSocket, verb: string, path: string, protocol: string, headers: Headers)
    returns (events: seq<Effect>, ending: Option<Ending>)
    requires !client.closed
    modifies client
    ensures match Serve(verb, path, protocol, headers, old(client.incoming))
            case Stop(es, end) => events == es && ending == Some(end) && (end == Closed ==> client.closed)
            case Next(es, rest) => events == es && ending == None && client.incoming == rest && !client.closed
  {
    hide Normalize, ParseProtocol, ParseInt, Expectation;
    var version := ParseProtocol(protocol);
    if version.NotHttp? { return [BadRequest], None; }
    if version.PastEnd? { return [], Some(Undefined); }
    events := [];
    var body := "";
    if Normalize(verb) == "post" {
      events := Expectation(headers);
      if "content-length" !in headers { return events + [BadRequest], None; }
      var (length, used) := ParseInt(headers["content-length"]);
      if used == 0 {
        events := events + [BadRequest];
      } else {
        if length < 0 { return events, Some(Failed); }
        body := client.Receive(length);
        if |body| != length { return events, Some(Failed); }
        assert client.incoming == old(client.incoming)[length..] && body == old(client.incoming)[..length];
      }
    }
    var kept;
    events, kept := Conclude(client, Called(verb, path, version.major, version.minor, headers, body), events);
    ending := if kept then None else Some(Closed);
  }

  /** The loop over one connection, with a callback that leaves it open. */
  method ProcessClient(client: AsyncSocket) returns (events: seq<Effect>, ending: Ending)
    requires !client.closed
    modifies client
    ensures (events, ending) == Process(old(client.incoming))
    ensures ending == Closed ==> client.closed
  {
    hide Turned;
    events, ending := [], Closed;
    ghost var stream := client.incoming;
    assert [] + Process(stream).0 == Process(stream).0;
    while !client.closed
      invariant client.closed ==> (events, ending) == Process(stream) && ending == Closed
      invariant !client.closed ==> Process(stream).0 == events + Process(client.incoming).0
      invariant !client.closed ==> Process(stream).1 == Process(client.incoming).1
      decreases !client.closed, |client.incoming|
    {
      ghost var before := events;
      var more, end := Round(client);
      events := events + more;
      assert events + Process(client.incoming).0 == before + (more + Process(client.incoming).0);
      if end.Some? {
        ending := end.value;
        return;
      }
    }
  }
}
