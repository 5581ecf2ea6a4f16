/**
 The Twisted server: the subscriber set, and the publishing of a posted body
 line by line.
 */
module PythonSse {
  import opened Sequences
  import opened EventStream
  import opened Framing

  /** str.splitlines: split at LF, CR and CRLF; a final line break adds no empty line. */
  function SplitLines(body: string): seq<string>
    decreases |body|
  {
    if body == "" then []
    else
      var n := LineLength(body);
      if n == |body| then [body] else [body[..n]] + SplitLines(AfterBreak(body[n..]))
  }

  lemma {:induction false} SplitLinesClean(body: string)
    ensures AllClean(SplitLines(body))
    ensures SplitLines(body) == [] <==> body == ""
    decreases |body|
  {
    hide Clean;
    if body != "" {
      var n := LineLength(body);
      LineIsClean(body);
      if n == |body| {
        assert body[..n] == body;
      } else {
        SplitLinesClean(AfterBreak(body[n..]));
      }
    }
  }

  /** The posted text with every line break made a line feed. */
  function Normalised(body: string): string
    decreases |body|
  {
    if body == "" then ""
    else if IsBreak(body[0]) then "\n" + Normalised(AfterBreak(body))
    else [body[0]] + Normalised(body[1..])
  }

  lemma {:induction false} NormalisedPrefix(s: string, t: string)
    requires Clean(s)
    ensures Normalised(s + t) == s + Normalised(t)
  {
    if s == "" {
      assert s + t == t;
    } else {
      assert (s + t)[1..] == s[1..] + t && (s + t)[0] == s[0];
      NormalisedPrefix(s[1..], t);
      assert [s[0]] + (s[1..] + Normalised(t)) == s + Normalised(t);
    }
  }

  /** Without one final line feed. */
  function Chomp(text: string): string {
    if text != "" && text[|text| - 1] == '\n' then text[..|text| - 1] else text
  }

  lemma ChompSuffix(s: string, t: string)
    requires t != ""
    ensures Chomp(s + t) == s + Chomp(t)
  {}

  lemma CleanLast(s: string)
    requires Clean(s)
    ensures Chomp(s) == s
  {
    if s != "" {
      CleanConcat(s[..|s| - 1], [s[|s| - 1]]);
      assert s[..|s| - 1] + [s[|s| - 1]] == s;
    }
  }

  lemma BreakNormalised(rest: string)
    requires rest != "" && IsBreak(rest[0])
    ensures Normalised(rest) == "\n" + Normalised(AfterBreak(rest))
  {}

  lemma SplitFirstLine(body: string) returns (line: string, after: string)
    requires body != "" && LineLength(body) < |body|
    ensures |after| < |body| && SplitLines(body) == [line] + SplitLines(after)
    ensures Clean(line) && Normalised(body) == line + "\n" + Normalised(after)
  {
    var n := LineLength(body);
    LineIsClean(body);
    line := body[..n];
    after := AfterBreak(body[n..]);
    BreakNormalised(body[n..]);
    hide Clean, Normalised;
    assert body == line + body[n..];
    NormalisedPrefix(line, body[n..]);
    assert line + ("\n" + Normalised(after)) == line + "\n" + Normalised(after);
  }

  lemma UnbrokenLine(body: string)
    requires body != "" && LineLength(body) == |body|
    ensures SplitLines(body) == [body] && Normalised(body) == body && Chomp(body) == body
  {
    LineIsClean(body);
    assert body[..|body|] == body && body + "" == body;
    NormalisedPrefix(body, "");
    CleanLast(body);
  }

  /** The data of a body's event is the body with every line break made a line feed and a final one dropped. */
  lemma {:induction false} JoinIsNormalised(body: string)
    ensures Join(SplitLines(body)) == Chomp(Normalised(body))
    ensures Normalised(body) == "" <==> body == ""
    decreases |body|
  {
    if body != "" {
      if LineLength(body) == |body| {
        UnbrokenLine(body);
      } else {
        var line, after := SplitFirstLine(body);
        JoinIsNormalised(after);
        SplitLinesClean(after);
        hide SplitLines, Normalised, Clean, LineLength;
        var more := SplitLines(after);
        assert ([line] + more)[1..] == more;
        if after == "" {
          assert Chomp(line + "\n") == line;
          assert line + "\n" + "" == line + "\n";
        } else {
          ChompSuffix(line + "\n", Normalised(after));
        }
      }
    }
  }

  lemma {:induction false} NormalisedIsSame(body: string)
    ensures Normalised(body) == body <==> '\r' !in body
    ensures |Normalised(body)| <= |body|
    decreases |body|
  {
    if body != "" {
      var rest := if IsBreak(body[0]) then AfterBreak(body) else body[1..];
      NormalisedIsSame(rest);
      assert body == [body[0]] + body[1..];
      if body[0] == '\n' {
        assert rest == body[1..];
      } else if body[0] == '\r' {
        assert Normalised(body)[0] == '\n';
      } else {
        assert Normalised(body)[1..] == Normalised(rest);
      }
    }
  }

  /** The event's data is the posted text itself exactly when that has no CR and does not end in LF. */
  lemma DataIsBodyIff(body: string)
    ensures Join(SplitLines(body)) == body <==> '\r' !in body && (body == "" || body[|body| - 1] != '\n')
  {
    hide Normalised, SplitLines, Join;
    JoinIsNormalised(body);
    NormalisedIsSame(body);
  }

  // ---------- Histories ----------

  /** A request subscribes, the subscriber of an index is removed, a body is posted. */
  datatype Step = Arrive | Leave(index: int) | Post(body: string)

  /** The subscribers by the order of their joining, and what every one of them was ever written. */
  datatype Room = Room(members: set<int>, logs: seq<string>)

  const EMPTY := Room({}, [])

  /** Every member's log gets the frame of the lines. */
  function Written(members: set<int>, logs: seq<string>, lines: seq<string>): (r: seq<string>)
    ensures |r| == |logs|
  {
    seq(|logs|, i requires 0 <= i < |logs| => if i in members then logs[i] + LinesFrame(lines) else logs[i])
  }

  function Apply(room: Room, step: Step): Room {
    match step
    case Arrive => Room(room.members + {|room.logs|}, room.logs + [GREETING])
    case Leave(i) => room.(members := room.members - {i})
    case Post(body) => room.(logs := Written(room.members, room.logs, SplitLines(body)))
  }

  function After(h: seq<Step>): Room {
    if h == [] then EMPTY else Apply(After(h[..|h| - 1]), h[|h| - 1])
  }

  /** The number of subscribers that have joined; the next one gets this index. */
  function Joined(h: seq<Step>): nat {
    if h == [] then 0 else Joined(h[..|h| - 1]) + if h[|h| - 1].Arrive? then 1 else 0
  }

  /** Subscribers are removed, any number of times, once they have joined. */
  predicate Sensible(h: seq<Step>) {
    h == [] ||
    (Sensible(h[..|h| - 1]) && (h[|h| - 1].Leave? ==> 0 <= h[|h| - 1].index < Joined(h[..|h| - 1])))
  }

  /** The bodies posted after the subscriber of this index joined and before it was removed. */
  function Heard(h: seq<Step>, i: nat): seq<string> {
    if h == [] then []
    else
      var past := h[..|h| - 1];
      Heard(past, i) + if h[|h| - 1].Post? && i < Joined(past) && Leave(i) !in past then [h[|h| - 1].body] else []
  }

  function Posts(h: seq<Step>): seq<string> {
    if h == [] then [] else Posts(h[..|h| - 1]) + if h[|h| - 1].Post? then [h[|h| - 1].body] else []
  }

  lemma LastIn(h: seq<Step>, x: Step)
    requires h != []
    ensures x in h <==> x in h[..|h| - 1] || h[|h| - 1] == x
  {
    assert h == h[..|h| - 1] + [h[|h| - 1]];
  }

  lemma {:induction false} AllHaveLogs(h: seq<Step>)
    ensures |After(h).logs| == Joined(h) && forall i :: i in After(h).members ==> 0 <= i < Joined(h)
  {
    if h != [] { AllHaveLogs(h[..|h| - 1]); }
  }

  lemma {:induction false} NotEarly(h: seq<Step>, i: nat)
    requires Sensible(h) && i >= Joined(h)
    ensures Leave(i) !in h && Heard(h, i) == []
  {
    if h != [] {
      LastIn(h, Leave(i));
      NotEarly(h[..|h| - 1], i);
    }
  }

  /** A subscriber is in the set from its joining until its removal. */
  lemma {:induction false} MembersAreThere(h: seq<Step>, i: nat)
    requires Sensible(h) && i < Joined(h)
    ensures i in After(h).members <==> Leave(i) !in h
  {
    var past := h[..|h| - 1];
    LastIn(h, Leave(i));
    AllHaveLogs(past);
    if i < Joined(past) {
      MembersAreThere(past, i);
    } else {
      NotEarly(past, i);
    }
  }

  lemma {:induction false} AllLinesAppend(bodies: seq<string>, body: string)
    ensures AllLines(bodies + [body]) == AllLines(bodies) + [SplitLines(body)]
  {
    hide SplitLines;
    if bodies == [] {
      assert bodies + [body] == [body];
    } else {
      assert (bodies + [body])[1..] == bodies[1..] + [body];
      AllLinesAppend(bodies[1..], body);
    }
  }

  /** A subscriber was written exactly the frames of the bodies posted while it was in the set. */
  lemma {:induction false} LogsAreHeard(h: seq<Step>, i: nat)
    requires Sensible(h) && i < Joined(h)
    ensures |After(h).logs| == Joined(h) && After(h).logs[i] == GREETING + LinesFrames(AllLines(Heard(h, i)))
  {
    hide SplitLines, LinesFrame, LinesFrames, AllLines;
    var past, last := h[..|h| - 1], h[|h| - 1];
    AllHaveLogs(h);
    AllHaveLogs(past);
    if i < Joined(past) {
      LogsAreHeard(past, i);
      MembersAreThere(past, i);
      if last.Post? && Leave(i) !in past {
        OneMoreFrame(Heard(past, i), last.body);
      } else {
        assert Heard(h, i) == Heard(past, i);
      }
    } else {
      NotEarly(past, i);
      NoFrames();
    }
  }

  lemma OneMoreFrame(bodies: seq<string>, body: string)
    ensures GREETING + LinesFrames(AllLines(bodies + [body]))
            == GREETING + LinesFrames(AllLines(bodies)) + LinesFrame(SplitLines(body))
  {
    hide SplitLines, LinesFrame, LinesFrames, AllLines;
    AllLinesAppend(bodies, body);
    LinesFramesAppend(AllLines(bodies), SplitLines(body));
  }

  lemma NoFrames()
    ensures GREETING + LinesFrames(AllLines([])) == GREETING
  {}

  /** What a subscriber hears is one contiguous slice of the posts, up to the last one if it is still there. */
  lemma {:induction false} HeardIsSlice(h: seq<Step>, i: nat) returns (start: nat)
    requires Sensible(h) && i < Joined(h)
    ensures start + |Heard(h, i)| <= |Posts(h)|
    ensures Heard(h, i) == Posts(h)[start..start + |Heard(h, i)|]
    ensures Leave(i) !in h ==> Heard(h, i) == Posts(h)[start..]
  {
    var past := h[..|h| - 1];
    LastIn(h, Leave(i));
    if i < Joined(past) {
      start := HeardIsSlice(past, i);
      var more := if h[|h| - 1].Post? then [h[|h| - 1].body] else [];
      assert Posts(h) == Posts(past) + more;
      assert Heard(h, i) == Heard(past, i) + if Leave(i) !in past then more else [];
      hide Posts, Heard, Joined, Sensible;
      SliceGrows(Posts(past), start, Heard(past, i), more);
    } else {
      NotEarly(past, i);
      start := |Posts(past)|;
    }
  }

  // ---------- The server ----------

  /** A subscriber's request: what was written to it since its response head. */
  class Request {
    var log: string
    ghost var posts: seq<seq<string>>   // the lines of every body published to it

    constructor ()
      ensures log == "" && posts == []
    {
      log := "";
      posts := [];
    }

    method Write(text: string)
      modifies `log
      ensures log == old(log) + text
    {
      log := log + text;
    }

    ghost predicate Valid()
      reads this
    {
      log == GREETING + LinesFrames(posts)
    }
  }

  lemma {:induction false} LinesFramesAppend(posts: seq<seq<string>>, post: seq<string>)
    ensures LinesFrames(posts + [post]) == LinesFrames(posts) + LinesFrame(post)
  {
    if posts == [] {
      assert posts + [post] == [post];
    } else {
      assert (posts + [post])[1..] == posts[1..] + [post];
      LinesFramesAppend(posts[1..], post);
    }
  }

  /** The indices of the subscribers. */
  ghost function Members(all: seq<Request>, subscribers: set<Request>): set<int> {
    set i | 0 <= i < |all| && all[i] in subscribers
  }

  lemma MembersGrow(all: seq<Request>, subscribers: set<Request>, request: Request)
    requires request !in all
    ensures Members(all + [request], subscribers + {request}) == Members(all, subscribers) + {|all|}
  {
    var more := all + [request];
    assert more[|all|] == request && forall i :: 0 <= i < |all| ==> more[i] == all[i];
  }

  class Subscribe {
    var subscribers: set<Request>
    ghost var all: seq<Request>         // every request that has subscribed, in order

    constructor ()
      ensures subscribers == {} && all == [] && Valid() && View() == EMPTY
    {
      subscribers, all := {}, [];
    }

    ghost predicate Valid()
      reads this, all
    {
      && (forall r :: r in all ==> r.Valid())
      && (forall r :: r in subscribers ==> r in all)
      && forall i, j :: 0 <= i < j < |all| ==> all[i] != all[j]
    }

    ghost function View(): Room
      reads this, all
    {
      Room(Members(all, subscribers),
           seq(|all|, i requires 0 <= i < |all| reads this, all => all[i].log))
    }

    /** render_GET: the subscriber is added, then greeted. */
    method RenderGet(request: Request)
      requires Valid() && request !in subscribers && request.log == "" && request.posts == []
      modifies this, request
      ensures Valid() && subscribers == old(subscribers) + {request}
      ensures request.posts == [] && all == old(all) + [request]
      ensures View() == Apply(old(View()), Arrive)
    {
      ghost var before := View();
      assert request !in all;
      Add(request);
      request.Write(":ok\n\n");
      all := all + [request];
      assert request.log == GREETING == GREETING + LinesFrames([]);
      forall i | 0 <= i < |before.logs| ensures all[i] == old(all)[i] && all[i].log == before.logs[i] {
        assert all[i] in old(all);
      }
      assert View().logs == before.logs + [GREETING];
      MembersGrow(old(all), old(subscribers), request);
    }

    method Add(request: Request)
      modifies `subscribers
      ensures subscribers == old(subscribers) + {request}
    {
      subscribers := subscribers + {request};
    }

    /** Called once the request has finished; harmless if it is not subscribed. */
    method Remove(subscriber: Request)
      requires Valid()
      modifies `subscribers
      ensures Valid() && subscribers == old(subscribers) - {subscriber}
      ensures forall i :: 0 <= i < |all| && all[i] == subscriber ==> View() == Apply(old(View()), Leave(i))
    {
      ghost var before := View();
      if subscriber in subscribers {
        subscribers := subscribers - {subscriber};
      }
      forall i | 0 <= i < |all| && all[i] == subscriber ensures View() == Apply(before, Leave(i)) {
        assert View().members == before.members - {i};
      }
    }

    /** publish_to_all: every subscriber, in any order, is written the frame of these lines once. */
    method PublishToAll(lines: seq<string>)
      requires Valid()
      modifies subscribers
      ensures Valid()
      ensures forall r :: r in subscribers ==>
                r.log == old(r.log) + LinesFrame(lines) && r.posts == old(r.posts) + [lines]
      ensures View() == old(View()).(logs := Written(old(View()).members, old(View()).logs, lines))
    {
      hide LinesFrame, LinesFrames;
      ghost var before := View();
      var todo := subscribers;
      while todo != {}
        invariant todo <= subscribers
        invariant forall r :: r in todo ==> r.log == old(r.log) && r.posts == old(r.posts)
        invariant forall r :: r in subscribers - todo ==>
                    r.log == old(r.log) + LinesFrame(lines) && r.posts == old(r.posts) + [lines]
        decreases |todo|
      {
        var subscriber :| subscriber in todo;
        WriteLines(subscriber, lines);
        subscriber.posts := subscriber.posts + [lines];
        todo := todo - {subscriber};
      }
      forall r | r in all ensures r.Valid() {
        assert old(r.Valid());
        if r in subscribers { LinesFramesAppend(old(r.posts), lines); }
      }
      assert View().members == before.members;
      assert View().logs == Written(before.members, before.logs, lines);
    }

    static method WriteLines(subscriber: Request, lines: seq<string>)
      modifies subscriber`log
      ensures subscriber.log == old(subscriber.log) + LinesFrame(lines)
    {
      for i := 0 to |lines|
        invariant subscriber.log + LinesFrame(lines[i..]) == old(subscriber.log) + LinesFrame(lines)
      {
        assert lines[i..][1..] == lines[i + 1..];
        ghost var rest := LinesFrame(lines[i + 1..]);
        ghost var before := subscriber.log;
        subscriber.Write("data: " + lines[i] + "\n");
        assert before + ("data: " + lines[i] + "\n" + rest) == subscriber.log + rest;
      }
      assert lines[|lines|..] == [];
      subscriber.Write("\n\n");
    }

    /** render_POST of the broadcast resource: the body is split into lines and published. */
    method RenderPost(body: string)
      requires Valid()
      modifies subscribers
      ensures Valid()
      ensures forall r :: r in subscribers ==> r.posts == old(r.posts) + [SplitLines(body)]
      ensures View() == Apply(old(View()), Post(body))
    {
      PublishToAll(SplitLines(body));
    }
  }

  /** What a subscriber's EventSource dispatches for the bodies published to it, whatever the chunks. */
  lemma SubscriberReads(bodies: seq<string>, chunks: seq<string>)
    requires Flatten(chunks) == GREETING + LinesFrames(AllLines(bodies))
    ensures ReadAll(READY, chunks) == Expected(bodies)
  {
    AllLinesClean(bodies);
    LinesStreamDecodes(AllLines(bodies), chunks);
    PostedIsExpected(bodies);
  }

  function AllLines(bodies: seq<string>): seq<seq<string>> {
    if bodies == [] then [] else [SplitLines(bodies[0])] + AllLines(bodies[1..])
  }

  /** One message event per body that is not empty, in order, with the normalised body as its data. */
  function Expected(bodies: seq<string>): seq<Event> {
    if bodies == [] then []
    else (if bodies[0] == "" then [] else [Message(Chomp(Normalised(bodies[0])))]) + Expected(bodies[1..])
  }

  lemma {:induction false} AllLinesClean(bodies: seq<string>)
    ensures forall post :: post in AllLines(bodies) ==> AllClean(post)
  {
    if bodies != [] {
      SplitLinesClean(bodies[0]);
      AllLinesClean(bodies[1..]);
    }
  }

  lemma {:induction false} PostedIsExpected(bodies: seq<string>)
    ensures Posted(AllLines(bodies)) == Expected(bodies)
  {
    if bodies != [] {
      SplitLinesClean(bodies[0]);
      JoinIsNormalised(bodies[0]);
      PostedIsExpected(bodies[1..]);
      assert AllLines(bodies)[1..] == AllLines(bodies[1..]);
    }
  }

  // ---------- End to end ----------

  /** However its stream is cut, a subscriber reads one event per non-empty body that it heard, in order. */
  lemma SubscriberReadsWhatItHeard(h: seq<Step>, i: nat, chunks: seq<string>)
    requires Sensible(h) && i < Joined(h) && i < |After(h).logs| && Flatten(chunks) == After(h).logs[i]
    ensures ReadAll(READY, chunks) == Expected(Heard(h, i))
  {
    hide Heard, After, Sensible, Joined, AllLines, LinesFrames, Expected;
    LogsAreHeard(h, i);
    SubscriberReads(Heard(h, i), chunks);
  }

  /** The body is given back as it was posted. */
  predicate Survives(body: string) {
    body != "" && '\r' !in body && body[|body| - 1] != '\n'
  }

  predicate AllSurvive(bodies: seq<string>) {
    bodies == [] || (Survives(bodies[0]) && AllSurvive(bodies[1..]))
  }

  lemma SurvivesIff(body: string)
    requires body != ""
    ensures Chomp(Normalised(body)) == body <==> Survives(body)
  {
    hide Chomp, Normalised, SplitLines, Join;
    JoinIsNormalised(body);
    DataIsBodyIff(body);
  }

  lemma {:induction false} ExpectedIff(bodies: seq<string>)
    ensures |Expected(bodies)| <= |bodies| == |Messages(bodies)|
    ensures Expected(bodies) == Messages(bodies) <==> AllSurvive(bodies)
  {
    hide Survives, Chomp, Normalised;
    if bodies != [] {
      var body, more := bodies[0], bodies[1..];
      ExpectedIff(more);
      if body != "" {
        SurvivesIff(body);
        assert Expected(bodies)[1..] == Expected(more) && Messages(bodies)[1..] == Messages(more);
        assert Messages(bodies) == [Message(body)] + Messages(more);
      } else {
        assert !Survives(body) by { EmptyIsLost(); }
      }
    }
  }

  lemma EmptyIsLost()
    ensures !Survives("")
  {}

  /**
   A subscriber reads exactly the bodies posted between its joining and its
   removal if and only if none of them is empty, contains a CR or ends in LF.
   */
  lemma SubscriberReadsExactlyIff(h: seq<Step>, i: nat, chunks: seq<string>)
    requires Sensible(h) && i < Joined(h) && i < |After(h).logs| && Flatten(chunks) == After(h).logs[i]
    ensures ReadAll(READY, chunks) == Messages(Heard(h, i)) <==> AllSurvive(Heard(h, i))
  {
    hide Heard, After, Sensible, Joined, Expected, AllSurvive;
    SubscriberReadsWhatItHeard(h, i, chunks);
    ExpectedIff(Heard(h, i));
  }
}
