/**
 The C++ HTTP handler as a connection: its buffer grows chunk by chunk, its
 parser moves an iterator over it, and its callbacks are called in turn.
 */
module HttpHandler {
  import opened Sequences
  import opened Text
  import opened HttpScanner
  import opened HttpAssembly

  /** The peer's bytes, delivered in pieces of any size the reader has room for. */
  class Socket {
    var arriving: string             // sent by the peer, not yet read

    constructor (stream: string)
      ensures arriving == stream
    {
      arriving := stream;
    }

    /** async_read_some: between 1 and max bytes, or an error when the peer has closed. */
    method ReadSome(max: nat) returns (ok: bool, chunk: string)
      requires max > 0
      modifies this
      ensures ok <==> old(arriving) != ""
      ensures ok ==> 1 <= |chunk| <= max && old(arriving) == chunk + arriving
      ensures !ok ==> arriving == ""
    {
      ok, chunk := arriving != "", "";
      if ok {
        var n :| 1 <= n <= max && n <= |arriving|;
        chunk, arriving := arriving[..n], arriving[n..];
      }
    }
  }

  predicate Sized(chunks: seq<string>) {
    forall i :: 0 <= i < |chunks| ==> 1 <= |chunks[i]| <= HDR_CHUNK_SIZE
  }

  lemma NoneSized()
    ensures Sized([])
  {}

  lemma SizedCons(chunk: string, more: seq<string>)
    requires 1 <= |chunk| <= HDR_CHUNK_SIZE && Sized(more)
    ensures Sized([chunk] + more) && Flatten([chunk] + more) == chunk + Flatten(more)
  {
    assert ([chunk] + more)[1..] == more;
  }

  /** Reads that were not made, behind those that were, change nothing once the header read has ended. */
  lemma CutExtended(chunks: seq<string>, left: string)
    requires Sized(chunks)
    ensures IsCut(chunks + Pieces(left), Flatten(chunks) + left)
    ensures !HeaderPhase("", chunks).Starved? || left == "" ==>
              HeaderPhase("", chunks + Pieces(left)) == HeaderPhase("", chunks)
  {
    hide HeaderPhase, Pieces;
    PiecesCut(left);
    FlattenConcat(chunks, Pieces(left));
    if left == "" { NoPieces(); assert chunks + [] == chunks; }
    PhaseKept("", chunks, Pieces(left));
  }

  lemma NoPieces()
    ensures Pieces("") == []
  {}

  lemma {:induction false} PhaseKept(buffer: string, chunks: seq<string>, more: seq<string>)
    ensures !HeaderPhase(buffer, chunks).Starved? ==> HeaderPhase(buffer, chunks + more) == HeaderPhase(buffer, chunks)
    decreases |chunks|
  {
    if chunks != [] {
      assert (chunks + more)[1..] == chunks[1..] + more;
      PhaseKept(buffer + chunks[0], chunks[1..], more);
    }
  }

  // ---------- The scanner's positions ----------

  lemma ShiftIs(r: Scanned, k: nat)
    ensures Shift(r, 0) == r
    ensures Shift(r, k) == match r { case Closed(h, n) => Closed(h, n + k) case _ => r }
  {}

  lemma ShiftTwice(r: Scanned, j: nat, k: nat)
    ensures Shift(Shift(r, j), k) == Shift(r, j + k)
  {}

  /** The iterator has gone over a name, a colon, spaces and a value, to the end of the line. */
  lemma AtLineEnd(buffer: string, start: nat, colon: nat, value: nat, end: nat, headers: Headers)
    requires start <= colon < value <= end < |buffer| && buffer[colon] == ':' && buffer[end] == '\n'
    requires Free(buffer[start..colon], {':', '\n'}) && AllSpaces(buffer[colon + 1..value])
    requires buffer[value] != ' ' && Free(buffer[value..end], {'\n'})
    ensures Scan(buffer[start..], headers) ==
            Shift(Scan(buffer[end + 1..], headers[ToLower(buffer[start..colon]) := buffer[value..end]]),
                  end + 1 - start)
  {
    hide Scan, Free, AllSpaces, ToLower;
    var name, spaces := buffer[start..colon], buffer[colon + 1..value];
    var text, rest := buffer[value..end], buffer[end + 1..];
    assert buffer[start..] == name + (":" + (spaces + (text + ("\n" + rest))));
    ScanParts(name, spaces, text, rest, headers);
  }

  lemma SpacesIs(s: string, n: nat)
    requires n <= |s| && AllSpaces(s[..n]) && (n < |s| ==> s[n] != ' ')
    ensures Spaces(s) == n
  {
    var m := Spaces(s);
    assert forall i :: 0 <= i < n ==> s[i] == s[..n][i];
  }

  lemma RunsOut(s: string, stops: set<char>)
    requires Free(s, stops)
    ensures Until(s, stops) == |s|
  {
    UntilIs(s, stops, |s|);
  }

  lemma EmptyFree(buffer: string, i: nat, stops: set<char>)
    requires i <= |buffer|
    ensures Free(buffer[i..i], stops)
  {}

  lemma ScanBroken(rest: string, n: nat, spaced: string, value: string, headers: Headers)
    requires Until(rest, {':', '\n'}) == n < |rest| && rest[n] == ':'
    requires spaced == rest[n + 1..] && value == spaced[Spaces(spaced)..]
    requires value == "" || Until(value, {'\n'}) == |value|
    ensures Scan(rest, headers) == Broken
  {
    hide Until, Spaces, ToLower;
  }

  /** The buffer ends before a value, or before the end of its line. */
  lemma AtBufferEnd(buffer: string, start: nat, colon: nat, value: nat, headers: Headers)
    requires start <= colon < value <= |buffer| && buffer[colon] == ':'
    requires Free(buffer[start..colon], {':', '\n'}) && AllSpaces(buffer[colon + 1..value])
    requires value < |buffer| ==> buffer[value] != ' ' && Free(buffer[value..], {'\n'})
    ensures Scan(buffer[start..], headers) == Broken
  {
    hide *;
    ColonAt(buffer, start, colon);
    SpacesAt(buffer, colon + 1, value);
    if value < |buffer| { RunsOut(buffer[value..], {'\n'}); }
    ScanBroken(buffer[start..], colon - start, buffer[colon + 1..], buffer[value..], headers);
  }

  lemma ColonAt(buffer: string, start: nat, colon: nat)
    requires start <= colon < |buffer| && buffer[colon] == ':' && Free(buffer[start..colon], {':', '\n'})
    ensures Until(buffer[start..], {':', '\n'}) == colon - start
    ensures buffer[start..][colon - start] == ':' && buffer[start..][colon - start + 1..] == buffer[colon + 1..]
  {
    hide Until, Free;
    assert buffer[start..] == buffer[start..colon] + (":" + buffer[colon + 1..]);
    UntilAfter(buffer[start..colon], ":" + buffer[colon + 1..], {':', '\n'});
  }

  lemma SpacesAt(buffer: string, start: nat, value: nat)
    requires start <= value <= |buffer| && AllSpaces(buffer[start..value])
    requires value < |buffer| ==> buffer[value] != ' '
    ensures Spaces(buffer[start..]) == value - start && buffer[start..][value - start..] == buffer[value..]
  {
    assert buffer[start..][..value - start] == buffer[start..value];
    SpacesIs(buffer[start..], value - start);
  }

  /** The iterator meets a line feed, or the end of the buffer, before any colon. */
  lemma AtBlockEnd(buffer: string, start: nat, end: nat, headers: Headers)
    requires start <= end <= |buffer| && Free(buffer[start..end], {':', '\n'})
    requires end < |buffer| ==> buffer[end] == '\n'
    ensures Scan(buffer[start..], headers) == if end < |buffer| then Closed(headers, end + 1 - start) else Open(headers)
  {
    var rest := buffer[start..];
    assert forall i :: 0 <= i < end - start ==> rest[i] == buffer[start..end][i];
    UntilIs(rest, {':', '\n'}, end - start);
  }

  lemma FreeOneMore(buffer: string, i: nat, j: nat, stops: set<char>)
    requires i <= j < |buffer| && Free(buffer[i..j], stops) && buffer[j] !in stops
    ensures Free(buffer[i..j + 1], stops)
  {
    assert buffer[i..j + 1] == buffer[i..j] + [buffer[j]];
  }

  lemma SpacesOneMore(buffer: string, i: nat, j: nat)
    requires i <= j < |buffer| && AllSpaces(buffer[i..j]) && buffer[j] == ' '
    ensures AllSpaces(buffer[i..j + 1])
  {
    assert buffer[i..j + 1] == buffer[i..j] + [buffer[j]];
  }

  lemma LineFeedAt(buffer: string, start: nat, end: nat)
    requires start <= end <= |buffer| && Free(buffer[start..end], {'\n'}) && (end < |buffer| ==> buffer[end] == '\n')
    ensures Until(buffer[start..], {'\n'}) == end - start
  {
    assert forall i :: 0 <= i < end - start ==> buffer[start..][i] == buffer[start..end][i];
    UntilIs(buffer[start..], {'\n'}, end - start);
  }

  /** The parse of a request line, by positions in the buffer. */
  lemma ParseAt(buffer: string, split: nat, pathEnd: nat, lineEnd: nat)
    requires split == Until(buffer, {' '}) && split + 1 < |buffer|
    requires pathEnd == split + 1 + Until(buffer[split + 1..], {' '}) && pathEnd < |buffer|
    requires lineEnd == pathEnd + 1 + Until(buffer[pathEnd + 1..], {'\n'})
    ensures Parse(buffer) ==
            if lineEnd == |buffer| then PastEnd
            else ParseBlock(buffer[..split], buffer[split + 1..pathEnd], buffer[lineEnd + 1..], |buffer|)
  {
    hide Until, ParseBlock, ParseVersion, ParsePath;
    PathAt(buffer, buffer[..split], split + 1, pathEnd);
    VersionAt(buffer, buffer[..split], buffer[split + 1..pathEnd], pathEnd + 1, lineEnd);
  }

  lemma PathAt(buffer: string, verb: string, start: nat, pathEnd: nat)
    requires start <= |buffer| && pathEnd == start + Until(buffer[start..], {' '}) && pathEnd < |buffer|
    ensures ParsePath(verb, buffer[start..], |buffer|) ==
            ParseVersion(verb, buffer[start..pathEnd], buffer[pathEnd + 1..], |buffer|)
  {
    hide Until, ParseVersion;
    var tail := buffer[start..];
    assert tail[..pathEnd - start] == buffer[start..pathEnd] && tail[pathEnd - start + 1..] == buffer[pathEnd + 1..];
  }

  lemma VersionAt(buffer: string, verb: string, path: string, start: nat, lineEnd: nat)
    requires start <= |buffer| && lineEnd == start + Until(buffer[start..], {'\n'})
    ensures ParseVersion(verb, path, buffer[start..], |buffer|) ==
            if lineEnd == |buffer| then PastEnd else ParseBlock(verb, path, buffer[lineEnd + 1..], |buffer|)
  {
    hide Until, ParseBlock;
    if lineEnd < |buffer| { assert buffer[start..][lineEnd - start + 1..] == buffer[lineEnd + 1..]; }
  }

  // ---------- The connection ----------

  /** What parse_request returns or throws; RanPast where its iterator leaves the buffer. */
  datatype Info = Info(verb: string, path: string, headers: Headers) | Threw | RanPast

  class HttpHandler {
    const socket: Socket
    const handlers: map<string, bool>
    var buffer: string
    var buffered: nat
    var bodyOffset: Option<nat>        // None while nothing has been assigned to it
    var hasBody: bool

    constructor (socket: Socket, handlers: map<string, bool>)
      ensures this.socket == socket && this.handlers == handlers
      ensures buffer == "" && buffered == 0 && bodyOffset == None
    {
      this.socket, this.handlers := socket, handlers;
      buffer, buffered, bodyOffset, hasBody := "", 0, None, false;
    }

    /** The two inner loops of parse_request: over the spaces behind a colon, and over the value. */
    method ParseValue(colon: nat) returns (ok: bool, captureStart: nat, it: nat)
      requires colon < |buffer|
      ensures colon < captureStart <= it <= |buffer| && AllSpaces(buffer[colon + 1..captureStart])
      ensures captureStart < |buffer| ==> buffer[captureStart] != ' '
      ensures Free(buffer[captureStart..it], {'\n'})
      ensures if ok then it < |buffer| && buffer[it] == '\n' else it == |buffer|
    {
      it := colon + 1;
      while true
        invariant colon < it <= |buffer|
        invariant AllSpaces(buffer[colon + 1..it])
        decreases |buffer| - it
      {
        if it == |buffer| { return false, it, it; }
        if buffer[it] != ' ' { break; }
        SpacesOneMore(buffer, colon + 1, it);
        it := it + 1;
      }
      captureStart := it;
      while true
        invariant captureStart <= it <= |buffer|
        invariant Free(buffer[captureStart..it], {'\n'})
        decreases |buffer| - it
      {
        if it == |buffer| { return false, captureStart, it; }
        if buffer[it] == '\n' { break; }
        FreeOneMore(buffer, captureStart, it, {'\n'});
        it := it + 1;
      }
      ok := true;
    }

    /** The header lines from position start on: the outer loop of parse_request. */
    method ParseHeaders(start: nat) returns (ok: bool, headers: Headers)
      requires start <= |buffer|
      modifies `bodyOffset
      ensures match Scan(buffer[start..], map[])
              case Broken => !ok && bodyOffset == old(bodyOffset)
              case Open(h) => ok && headers == h && bodyOffset == old(bodyOffset)
              case Closed(h, n) => ok && headers == h && bodyOffset == Some(start + n)
    {
      hide Scan, Shift, Free, AllSpaces, ToLower;
      headers := map[];
      var captureStart, it := start, start;
      ghost var block := Scan(buffer[start..], map[]);
      ShiftIs(block, 0);
      EmptyFree(buffer, start, {':', '\n'});
      while it < |buffer|
        invariant start <= captureStart <= it <= |buffer|
        invariant Free(buffer[captureStart..it], {':', '\n'})
        invariant block == Shift(Scan(buffer[captureStart..], headers), captureStart - start)
        invariant bodyOffset == old(bodyOffset)
        decreases |buffer| - it
      {
        if buffer[it] == ':' {
          var header := ToLower(buffer[captureStart..it]);
          var found, value, end := ParseValue(it);
          if !found {
            assert buffer[value..] == buffer[value..end];
            AtBufferEnd(buffer, captureStart, it, value, headers);
            ShiftIs(Broken, captureStart - start);
            return false, headers;
          }
          AtLineEnd(buffer, captureStart, it, value, end, headers);
          headers := headers[header := buffer[value..end]];
          ShiftTwice(Scan(buffer[end + 1..], headers), end + 1 - captureStart, captureStart - start);
          it := end + 1;
          captureStart := it;
          EmptyFree(buffer, it, {':', '\n'});
        } else if buffer[it] == '\n' {
          // The search for a second line feed stands on the first and takes it for the second.
          AtBlockEnd(buffer, captureStart, it, headers);
          ShiftIs(Scan(buffer[captureStart..], headers), captureStart - start);
          it := it + 1;
          bodyOffset := Some(it);
          return true, headers;
        } else {
          FreeOneMore(buffer, captureStart, it, {':', '\n'});
          it := it + 1;
        }
      }
      AtBlockEnd(buffer, captureStart, it, headers);
      ShiftIs(Open(headers), captureStart - start);
      ok := true;
    }

    /** The scan for the line feed that ends the request line. */
    method SkipLine(start: nat) returns (it: nat)
      requires start <= |buffer|
      ensures it == start + Until(buffer[start..], {'\n'})
    {
      hide Until, Free;
      it := start;
      EmptyFree(buffer, start, {'\n'});
      while it != |buffer|
        invariant start <= it <= |buffer|
        invariant Free(buffer[start..it], {'\n'})
        decreases |buffer| - it
      {
        if buffer[it] == '\n' { break; }
        FreeOneMore(buffer, start, it, {'\n'});
        it := it + 1;
      }
      LineFeedAt(buffer, start, it);
    }

    /** The request line: its method in upper case, its path, and the position behind it. */
    method ParseRequestLine() returns (info: Info, next: nat)
      ensures match info
              case Info(verb, path, _) =>
                exists split: nat :: next <= |buffer| && split <= |buffer| && verb == ToUpper(buffer[..split])
                  && Parse(buffer) == ParseBlock(buffer[..split], path, buffer[next..], |buffer|)
              case Threw => Parse(buffer) == Invalid
              case RanPast => Parse(buffer) == PastEnd
    {
      hide Scan, Until, Free, AllSpaces, ToLower, ToUpper, ParseBlock, ParseVersion;
      next := 0;
      var splitPos := Until(buffer, {' '});
      if splitPos == |buffer| { return Threw, 0; }
      ghost var split := splitPos;
      var verb := ToUpper(buffer[..splitPos]);
      splitPos := splitPos + 1;
      if |buffer| == splitPos { return Threw, 0; }
      var pathEnd := splitPos + Until(buffer[splitPos..], {' '});
      if pathEnd == |buffer| { return Threw, 0; }
      var path := buffer[splitPos..pathEnd];
      var it := SkipLine(pathEnd + 1);
      ParseAt(buffer, split, pathEnd, it);
      hide Parse;
      if it == |buffer| { return RanPast, 0; }
      info, next := Info(verb, path, map[]), it + 1;
    }

    method ParseRequest() returns (info: Info)
      modifies `bodyOffset, `hasBody
      ensures match Parse(buffer)
              case Request(verb, path, headers, offset) =>
                && info == Info(verb, path, headers) && hasBody == ("content-length" in headers)
                && bodyOffset == if offset.Some? then offset else old(bodyOffset)
              case Invalid => info.Threw?
              case PastEnd => info.RanPast?
    {
      hide Scan, Parse, ToUpper;
      var next;
      info, next := ParseRequestLine();
      if !info.Info? { return; }
      var ok, headers := ParseHeaders(next);
      if !ok { return Threw; }
      hasBody := "content-length" in headers;
      info := info.(headers := headers);
    }

    /** Reads until remaining more bytes have come, never beyond them. */
    method DoReadBody(remaining: int) returns (ok: bool, ghost chunks: seq<string>)
      requires remaining > 0
      modifies `buffer, socket
      ensures ok <==> remaining <= |old(socket.arriving)|
      ensures ok ==> buffer == old(buffer) + old(socket.arriving)[..remaining]
                     && socket.arriving == old(socket.arriving)[remaining..]
      ensures !ok ==> socket.arriving == ""
      ensures Flatten(chunks) + socket.arriving == old(socket.arriving) && Sized(chunks)
      decreases remaining
    {
      var got, chunk := socket.ReadSome(if remaining < BODY_CHUNK_SIZE then remaining else BODY_CHUNK_SIZE);
      if !got { return false, []; }
      buffer := buffer + chunk;
      var newRemaining := remaining - |chunk|;
      if newRemaining <= 0 {
        ok, chunks := true, [chunk];
      } else {
        ghost var more;
        ok, more := DoReadBody(newRemaining);
        chunks := [chunk] + more;
      }
    }

    /** The body as a handler's callback gets it; rest is what was still to arrive. */
    method ReadBody(size: int) returns (body: Option<string>, ghost chunks: seq<string>)
      requires buffered == |buffer| && hasBody && bodyOffset.Some? && bodyOffset.value <= |buffer|
      modifies `buffer, socket
      ensures var offset := old(bodyOffset.value); var missing := size - (|old(buffer)| - offset);
              body == if missing <= 0 then Some(old(buffer)[offset..])
                      else if missing <= |old(socket.arriving)| then
                        Some(old(buffer)[offset..] + old(socket.arriving)[..missing])
                      else None
      ensures Flatten(chunks) + socket.arriving == old(socket.arriving) && Sized(chunks)
      ensures body.None? ==> socket.arriving == ""
    {
      var bufferedBodySize := buffered - bodyOffset.value;
      var remaining := size - bufferedBodySize;
      if remaining <= 0 {
        body, chunks := Some(buffer[bodyOffset.value..]), [];
      } else {
        var ok;
        ok, chunks := DoReadBody(remaining);
        if ok {
          ghost var missing := old(socket.arriving)[..remaining];
          assert (old(buffer) + missing)[bodyOffset.value..] == old(buffer)[bodyOffset.value..] + missing;
        }
        body := if ok then Some(buffer[bodyOffset.value..]) else None;
      }
    }

    method DoHandleRequest() returns (reply: Reply, ghost chunks: seq<string>)
      requires buffered == |buffer| && bodyOffset == None
      modifies this, socket
      ensures reply == Respond(handlers, old(buffer), old(socket.arriving))
      ensures buffered == old(buffered)
      ensures Flatten(chunks) + socket.arriving == old(socket.arriving) && Sized(chunks)
    {
      hide Parse, Stoi, Sized;
      chunks := [];
      NoneSized();
      var info := ParseRequest();
      if info.Threw? { return BadRequest, []; }
      if info.RanPast? { return Undefined, []; }
      var key := info.verb + " " + info.path;
      if key !in handlers { return NotFound, []; }
      if !hasBody { return Handled(key, if handlers[key] then Some("") else None), []; }
      var size := Stoi(info.headers["content-length"]);
      if size.None? { return Crashed, []; }
      // The number becomes unsigned: a negative one is beyond every limit.
      if size.value < 0 || size.value > BODY_MAX_SIZE { return BodyTooLarge, []; }
      if !handlers[key] { return Handled(key, None), []; }
      if bodyOffset.None? || bodyOffset.value > |buffer| { return Undefined, []; }
      var body;
      body, chunks := ReadBody(size.value);
      reply := if body.Some? then Handled(key, body) else Stalled(key);
    }

    /**
     Reads until the blank line has come, the limit is reached or the data ends.
     chunks are all reads of the connection from here on, the body's included.
     */
    method DoReadHeader() returns (reply: Reply, ghost chunks: seq<string>)
      requires buffered == |buffer| < HDR_MAX_SIZE && bodyOffset == None
      modifies this, socket
      ensures Flatten(chunks) + socket.arriving == old(socket.arriving) && Sized(chunks)
      ensures buffered <= HDR_MAX_SIZE + HDR_CHUNK_SIZE - 1
      ensures HeaderPhase(old(buffer), chunks).Starved? ==> socket.arriving == "" && reply == NoReply
      ensures HeaderPhase(old(buffer), chunks).Dropped? ==> reply == NoReply
      ensures HeaderPhase(old(buffer), chunks).Parsing? ==>
                var b := HeaderPhase(old(buffer), chunks).buffer;
                var s := old(buffer) + old(socket.arriving);
                |b| <= |s| && reply == Respond(handlers, b, s[|b|..])
      decreases HDR_MAX_SIZE - buffered
    {
      hide Respond, Sized, Find;
      NoneSized();
      ghost var before, stream := buffer, socket.arriving;
      var ok, chunk := socket.ReadSome(HDR_CHUNK_SIZE);
      if !ok { return NoReply, []; }
      buffer := buffer + chunk;
      buffered := buffered + |chunk|;
      ghost var more: seq<string> := [];
      assert (before + stream)[|buffer|..] == socket.arriving && before + stream == buffer + socket.arriving;
      if Find(buffer, BLANK, 0).Some? {
        reply, more := DoHandleRequest();
      } else if buffered >= HDR_MAX_SIZE {
        reply := NoReply;
      } else {
        reply, more := DoReadHeader();
      }
      chunks := [chunk] + more;
      SizedCons(chunk, more);
      assert chunks[1..] == more;
    }

    /**
     Whatever the pieces in which the stream arrives, the reply is the outcome of
     some cutting of it into reads of 1 to 256 bytes.
     */
    method Start() returns (reply: Reply, ghost cut: seq<string>)
      requires buffer == "" && buffered == 0 && bodyOffset == None
      modifies this, socket
      ensures IsCut(cut, old(socket.arriving))
      ensures reply == Outcome(handlers, old(socket.arriving), cut)
    {
      hide Respond, Sized, HeaderPhase, Pieces;
      ghost var stream, chunks := socket.arriving, [];
      reply, chunks := DoReadHeader();
      assert "" + stream == stream;
      cut := chunks + Pieces(socket.arriving);
      CutExtended(chunks, socket.arriving);
    }
  }
}
