/**
 When the Nim server keeps a connection, against section 6.3 of RFC 7230: the
 close option ends it; otherwise HTTP/1.1 and later keep it, and HTTP/1.0 keeps
 it if the keep-alive option is given.  The options of a message are those of
 all its Connection lines (sections 3.2.2 and 6.1); the server looks at the last.
 */
module NimPersistence {
  import opened Text
  import opened NimRequests
  import opened NimPipeline
  import H = HttpScanner

  // ---------- The requirement ----------

  predicate IsOws(c: char) { c == ' ' || c == '\t' }

  function TrimLeft(s: string): (t: string)
    ensures |t| <= |s|
  {
    if s != "" && IsOws(s[0]) then TrimLeft(s[1..]) else s
  }

  function TrimRight(s: string): string
    decreases |s|
  {
    if s != "" && IsOws(s[|s| - 1]) then TrimRight(s[..|s| - 1]) else s
  }

  /** The connection options: the comma-separated elements, without case and surrounding white space. */
  function Options(value: string): seq<string>
    decreases |value|
  {
    var n := Until(value, {','});
    var first := ToLower(TrimRight(TrimLeft(value[..n])));
    if n == |value| then [first] else [first] + Options(value[n + 1..])
  }

  predicate Later(major: int, minor: int) { major > 1 || (major == 1 && minor >= 1) }

  /** The options of a message: those of all its Connection lines. */
  function AllOptions(hs: seq<H.Header>): seq<string> {
    if hs == [] then []
    else (if ToLower(hs[0].name) == "connection" then Options(hs[0].value) else []) + AllOptions(hs[1..])
  }

  predicate RfcPersistent(major: int, minor: int, options: seq<string>) {
    "close" !in options && (Later(major, minor) || (major == 1 && minor == 0 && "keep-alive" in options))
  }

  // ---------- Lists of options ----------

  /** One element of a list: an option within white space. */
  datatype Element = Element(before: string, option: string, after: string)

  predicate White(s: string) {
    forall i :: 0 <= i < |s| ==> s[i] in {' ', '\t'}
  }

  predicate ElementOk(e: Element) {
    && White(e.before) && White(e.after) && Free(e.option, {','})
    && (e.option != "" ==> e.option[0] !in {' ', '\t'} && e.option[|e.option| - 1] !in {' ', '\t'})
  }

  function PrintElement(e: Element): string { e.before + (e.option + e.after) }

  function PrintList(es: seq<Element>): string
    requires es != []
  {
    PrintElement(es[0]) + if |es| == 1 then "" else "," + PrintList(es[1..])
  }

  lemma {:induction false} TrimLeftSkips(w: string, s: string)
    requires White(w)
    ensures TrimLeft(w + s) == TrimLeft(s)
  {
    if w == "" {
      assert w + s == s;
    } else {
      assert (w + s)[1..] == w[1..] + s;
      TrimLeftSkips(w[1..], s);
    }
  }

  lemma {:induction false} TrimRightSkips(s: string, w: string)
    requires White(w)
    ensures TrimRight(s + w) == TrimRight(s)
    decreases |w|
  {
    if w == "" {
      assert s + w == s;
    } else {
      var last := |w| - 1;
      assert (s + w)[..|s + w| - 1] == s + w[..last];
      TrimRightSkips(s, w[..last]);
    }
  }

  lemma ElementTrimmed(e: Element)
    requires ElementOk(e)
    ensures TrimRight(TrimLeft(PrintElement(e))) == e.option && Free(PrintElement(e), {','})
  {
    TrimLeftSkips(e.before, e.option + e.after);
    if e.option == "" {
      TrimLeftSkips(e.after, "");
      assert e.option + e.after == e.after + "";
    } else {
      assert TrimLeft(e.option + e.after) == e.option + e.after;
      TrimRightSkips(e.option, e.after);
    }
  }

  lemma Unsplit(first: string)
    requires Free(first, {','})
    ensures Options(first) == [ToLower(TrimRight(TrimLeft(first)))]
  {
    hide TrimLeft, TrimRight, ToLower;
    UntilIs(first, {','}, |first|);
    assert first[..|first|] == first;
  }

  lemma SplitOff(first: string, rest: string)
    requires Free(first, {','})
    ensures Options(first + ("," + rest)) == [ToLower(TrimRight(TrimLeft(first)))] + Options(rest)
  {
    hide TrimLeft, TrimRight, ToLower;
    UntilAfter(first, "," + rest, {','});
    assert ("," + rest)[1..] == rest;
  }

  /** Reading a printed list gives its options back, in lower case and without the white space around them. */
  lemma {:induction false} OptionsUndoPrint(es: seq<Element>)
    requires es != [] && forall i :: 0 <= i < |es| ==> ElementOk(es[i])
    ensures |Options(PrintList(es))| == |es|
    ensures forall i :: 0 <= i < |es| ==> Options(PrintList(es))[i] == ToLower(es[i].option)
    decreases |es|
  {
    hide PrintElement, ElementOk, TrimLeft, TrimRight, ToLower, Options;
    var first := PrintElement(es[0]);
    ElementTrimmed(es[0]);
    if |es| == 1 {
      assert PrintList(es) == first;
      Unsplit(first);
    } else {
      OptionsUndoPrint(es[1..]);
      SplitOff(first, PrintList(es[1..]));
    }
  }

  /** An option is given if and only if some element of the list is it, in any case. */
  lemma GivenIff(es: seq<Element>, option: string)
    requires es != [] && forall i :: 0 <= i < |es| ==> ElementOk(es[i])
    requires forall c :: c in option ==> c !in CAPITAL
    ensures option in Options(PrintList(es)) <==> exists i :: 0 <= i < |es| && SameText(es[i].option, option)
  {
    hide Options, PrintList, ToLower, SameText, ElementOk, CAPITAL;
    OptionsUndoPrint(es);
    forall i | 0 <= i < |es| ensures option == ToLower(es[i].option) <==> SameText(es[i].option, option) {
      ToLowerIff(es[i].option, option);
    }
    if option in Options(PrintList(es)) {
      var i :| 0 <= i < |es| && Options(PrintList(es))[i] == option;
      assert SameText(es[i].option, option);
    }
    if i :| 0 <= i < |es| && SameText(es[i].option, option) {
      assert Options(PrintList(es))[i] == option;
    }
  }

  // ---------- Plain values ----------

  /** One bare option: no comma and no white space. */
  predicate Bare(s: string) {
    forall i :: 0 <= i < |s| ==> s[i] != ',' && !IsOws(s[i])
  }

  lemma BareOptions(s: string)
    requires Bare(s)
    ensures Options(s) == [ToLower(s)]
  {
    UntilIs(s, {','}, |s|);
    assert s[..|s|] == s;
    assert TrimLeft(s) == s && TrimRight(s) == s;
  }

  /** A value whose lower case is bare is bare itself. */
  lemma LowerBare(s: string)
    requires Bare(ToLower(s))
    ensures Bare(s)
  {
    forall i | 0 <= i < |s| ensures s[i] != ',' && !IsOws(s[i]) {
      assert ToLower(s)[i] == Lower(s[i]);
    }
  }

  /** Normalizing loses underscores and nothing else. */
  lemma {:induction false} NormalizeIsLower(s: string)
    ensures '_' !in s ==> Normalize(s) == ToLower(s)
    ensures |Normalize(s)| <= |s|
    ensures '_' in s ==> |Normalize(s)| < |s|
    ensures Bare(Normalize(s)) ==> Bare(s)
  {
    if s != "" {
      NormalizeIsLower(s[1..]);
      assert s == [s[0]] + s[1..];
      if s[0] != '_' {
        var n := Normalize(s);
        assert n[0] == Lower(s[0]) && n[1..] == Normalize(s[1..]);
        if '_' !in s { assert ToLower(s) == [Lower(s[0])] + ToLower(s[1..]); }
        if Bare(n) {
          assert Bare(n[1..]) by { assert forall i :: 0 <= i < |n[1..]| ==> n[1..][i] == n[i + 1]; }
          assert forall i :: 0 < i < |s| ==> s[i] == s[1..][i - 1];
        }
      } else {
        assert Normalize(s) == Normalize(s[1..]);
        assert forall i :: 0 < i < |s| ==> s[i] == s[1..][i - 1];
      }
    }
  }

  /** The server recognises a bare option exactly if it is spelt without underscores, or is so after dropping them. */
  lemma RecognisedIff(value: string, option: string)
    requires Bare(option) && '_' !in option && ToLower(option) == option
    ensures Normalize(value) == option ==> Bare(value) && Options(value) == [ToLower(value)]
    ensures Normalize(value) == option ==> (option in Options(value) <==> '_' !in value)
    ensures ToLower(value) == option ==> Options(value) == [option]
    ensures ToLower(value) == option ==> Normalize(value) == option
  {
    NormalizeIsLower(value);
    if Normalize(value) == option {
      BareOptions(value);
      if '_' in value { UnderscoreKept(value); }
    }
    if ToLower(value) == option {
      LowerBare(value);
      BareOptions(value);
      if '_' in value { UnderscoreKept(value); }
    }
  }

  lemma UnderscoreKept(value: string)
    requires '_' in value
    ensures '_' in ToLower(value)
  {
    var i :| 0 <= i < |value| && value[i] == '_';
    assert ToLower(value)[i] == '_';
  }

  // ---------- The comparison ----------

  /** The options hold those of the last value, if there is one. */
  ghost predicate HoldLast(options: seq<string>, last: string) {
    last == "" || forall option :: option in Options(last) ==> option in options
  }

  /**
   Where the server, which looks at the last value, agrees with the requirement.
   HTTP/1.1: a close option is all there is to the last value, and none is made by
   dropping underscores.  HTTP/1.0: keep-alive without close is all there is to the
   last value, which is recognised neither beside a close option nor by dropping
   underscores.  Later versions: only if they ask for the close.  Earlier ones: always.
   */
  predicate Agrees(major: int, minor: int, last: string, options: seq<string>) {
    if major == 1 && minor == 1 then
      && ("close" in options ==> Normalize(last) == "close")
      && (Normalize(last) == "close" && '_' in last ==> "close" in options)
    else if major == 1 && minor == 0 then
      && ("keep-alive" in options && "close" !in options ==> Normalize(last) == "keep-alive")
      && (Normalize(last) == "keep-alive" ==> "close" !in options && ('_' in last ==> "keep-alive" in options))
    else if major > 1 || (major == 1 && minor > 1) then "close" in options
    else true
  }

  lemma PersistsByRfcIff(major: int, minor: int, last: string, options: seq<string>)
    requires HoldLast(options, last)
    ensures Persistent(major, minor, last) == RfcPersistent(major, minor, options)
            <==> Agrees(major, minor, last, options)
  {
    hide Options, ToLower;
    OptionNames();
    RecognisedIff(last, "close");
    RecognisedIff(last, "keep-alive");
    hide Normalize;
    assert last == "" ==> Normalize(last) == "" by { NormalizeIsLower(last); }
  }

  lemma OptionNames()
    ensures Bare("close") && '_' !in "close" && ToLower("close") == "close"
    ensures Bare("keep-alive") && '_' !in "keep-alive" && ToLower("keep-alive") == "keep-alive"
  {}

  /** For one bare option without underscores, or none, the versions 1.0 and 1.1 are treated as required. */
  lemma PlainValuesAgree(minor: int, value: string)
    requires Bare(value) && '_' !in value && 0 <= minor <= 1
    ensures Persistent(1, minor, value) == RfcPersistent(1, minor, Options(value))
  {
    hide Options, Normalize, ToLower;
    BareOptions(value);
    NormalizeIsLower(value);
    PersistsByRfcIff(1, minor, value, Options(value));
  }

  /** A list of options is not recognised: the close is missed. */
  lemma ListMissed()
    ensures Persistent(1, 1, "close, TE") && !RfcPersistent(1, 1, Options("close, TE"))
  {
    var value := "close, TE";
    UntilIs(value, {','}, 5);
    assert value[..5] == "close";
    assert TrimLeft("close") == "close" && TrimRight("close") == "close" && ToLower("close") == "close";
    assert "close" in Options(value);
    OptionNames();
    NormalizeIsLower(value);
    assert value[5] == ',' && !Bare(value);
  }

  // ---------- One request ----------

  /** The last Connection value, as the table has it. */
  function Connection(r: Request): string {
    Get(Table(r.headers, map[]), "connection")
  }

  predicate RfcKeeps(r: Request) {
    RfcPersistent(r.major, r.minor, AllOptions(r.headers))
  }

  predicate AgreesOn(r: Request) {
    Agrees(r.major, r.minor, Connection(r), AllOptions(r.headers))
  }

  /** What the table holds is the value of a line, whose options count, or was there before. */
  lemma {:induction false} TableHoldsLast(hs: seq<H.Header>, headers: Headers)
    ensures var last := Get(Table(hs, headers), "connection");
            HoldLast(AllOptions(hs), last) || last == Get(headers, "connection")
    decreases |hs|
  {
    hide Options, ToLower;
    if hs != [] {
      TableHoldsLast(hs[1..], headers[ToLower(hs[0].name) := hs[0].value]);
    }
  }

  /** A request keeps its connection as section 6.3 says exactly if the server agrees on its values and options. */
  lemma KeepsByRfcIff(r: Request)
    ensures Keeps(r) == RfcKeeps(r) <==> AgreesOn(r)
  {
    hide Options, Table, AllOptions, Persistent, RfcPersistent, Agrees;
    TableHoldsLast(r.headers, map[]);
    PersistsByRfcIff(r.major, r.minor, Connection(r), AllOptions(r.headers));
  }

  // ---------- Pipelined requests ----------

  /** The requests up to and with the first that section 6.3 makes the last of its connection. */
  function RfcServed(rs: seq<Request>): seq<Request> {
    if rs == [] then [] else [rs[0]] + if RfcKeeps(rs[0]) then RfcServed(rs[1..]) else []
  }

  /** The server agrees on every request that is served, except that nothing follows the last one sent. */
  predicate AgreesAlong(rs: seq<Request>) {
    forall i :: 0 <= i < |Served(rs)| && i < |rs| - 1 ==> AgreesOn(rs[i])
  }

  lemma AgreesAlongStep(rs: seq<Request>)
    requires |rs| > 1
    ensures AgreesAlong(rs) <==> AgreesOn(rs[0]) && (Keeps(rs[0]) ==> AgreesAlong(rs[1..]))
  {
    hide AgreesOn, Keeps;
    var more := rs[1..];
    if AgreesAlong(rs) && Keeps(rs[0]) {
      forall i | 0 <= i < |Served(more)| && i < |more| - 1 ensures AgreesOn(more[i]) { assert AgreesOn(rs[i + 1]); }
    }
    if AgreesOn(rs[0]) && (Keeps(rs[0]) ==> AgreesAlong(more)) {
      forall i | 0 <= i < |Served(rs)| && i < |rs| - 1 ensures AgreesOn(rs[i]) {
        if i > 0 { assert AgreesOn(more[i - 1]); }
      }
    }
  }

  /** The requests that are served are those section 6.3 selects exactly if the decisions agree along them. */
  lemma {:induction false} ServedByRfcIff(rs: seq<Request>)
    ensures Served(rs) == RfcServed(rs) <==> AgreesAlong(rs)
    decreases |rs|
  {
    if |rs| > 1 {
      var more := rs[1..];
      hide Keeps, RfcKeeps, AgreesAlong, AgreesOn;
      KeepsByRfcIff(rs[0]);
      AgreesAlongStep(rs);
      ServedByRfcIff(more);
      assert |Served(more)| > 0 && |RfcServed(more)| > 0;
      assert ([rs[0]] + Served(more))[1..] == Served(more) && ([rs[0]] + RfcServed(more))[1..] == RfcServed(more);
    }
  }

  lemma {:induction false} RfcServedIsPrefix(rs: seq<Request>)
    ensures |RfcServed(rs)| <= |rs| && RfcServed(rs) == rs[..|RfcServed(rs)|]
    decreases |rs|
  {
    hide RfcKeeps;
    if rs != [] {
      RfcServedIsPrefix(rs[1..]);
      if RfcKeeps(rs[0]) { assert [rs[0]] + RfcServed(rs[1..]) == rs[..|RfcServed(rs)|]; }
    }
  }

  /** Different prefixes of the requests show in the number of calls. */
  lemma EventsTell(rs: seq<Request>, j: nat, k: nat)
    requires j <= |rs| && k <= |rs| && AllEvents(rs[..j]) == AllEvents(rs[..k])
    ensures j == k
  {
    hide AllEvents, Calls, ToCall;
    OneCallEach(rs[..j]);
    OneCallEach(rs[..k]);
  }

  /**
   A stream of well-formed requests is served up to and with the first that
   section 6.3 makes the last of its connection, and then closed, if and only if
   the server's decision agrees with the requirement along the served requests,
   and those of them that have a body are POSTs.
   */
  lemma PipelineByRfcIff(rs: seq<Request>)
    requires (forall i :: 0 <= i < |rs| ==> WellFormed(rs[i])) && |rs| > 0
    ensures Process(PrintAll(rs)) == (AllEvents(RfcServed(rs)), Closed) <==> AgreesAlong(rs) && AllWhole(Served(rs))
  {
    hide WellFormed, Process, PrintAll, AllEvents, Served, RfcServed, AgreesAlong, Keeps, AllWhole;
    assert PrintAll(rs) + "" == PrintAll(rs);
    PipelineEndsIff(rs, "");
    ServedByRfcIff(rs);
    RfcServedIsPrefix(rs);
    if !AllWhole(Served(rs)) {
      PartShows(rs, "", |RfcServed(rs)|);
    } else if AllEvents(Served(rs)) == AllEvents(RfcServed(rs)) {
      EventsTell(rs, |Served(rs)|, |RfcServed(rs)|);
    }
  }

  /** What follows the first request that section 6.3 makes the last is then never read. */
  lemma PipelineEndsByRfc(rs: seq<Request>, tail: string)
    requires (forall i :: 0 <= i < |rs| ==> WellFormed(rs[i])) && |rs| > 0
    requires forall i :: 0 <= i < |Served(rs)| ==> AgreesOn(rs[i])
    requires tail == "" || exists i :: 0 <= i < |rs| && !RfcKeeps(rs[i])
    ensures Process(PrintAll(rs) + tail) == (AllEvents(RfcServed(rs)), Closed) <==> AllWhole(RfcServed(rs))
  {
    hide WellFormed, Process, PrintAll, AllEvents, Keeps, RfcKeeps, AgreesOn, Served, RfcServed, AllWhole;
    ServedByRfcIff(rs);
    if i :| 0 <= i < |rs| && !RfcKeeps(rs[i]) {
      KeepsByRfcIff(rs[i]);
      assert !Keeps(rs[if |Served(rs)| < |rs| then |Served(rs)| - 1 else i]);
    }
    PipelineEndsIff(rs, tail);
  }

  // ---------- A repeated Connection line ----------

  const FIRST_CLOSE := [H.Header("connection", "close"), H.Header("connection", "keep-alive")]

  lemma FirstCloseOk()
    ensures HeadersOk(FIRST_CLOSE)
  {
    hide HeaderOk;
    PlainHeader(FIRST_CLOSE[0]);
    PlainHeader(FIRST_CLOSE[1]);
  }

  lemma ConnectionName()
    ensures ToLower("connection") == "connection"
  {}

  lemma OptionOfEachLine(first: string, second: string)
    requires Bare(first) && Bare(second)
    ensures AllOptions([H.Header("connection", first), H.Header("connection", second)])
            == [ToLower(first), ToLower(second)]
  {
    ConnectionName();
    BareOptions(first);
    BareOptions(second);
    hide Options, ToLower, Bare;
    var hs := [H.Header("connection", first), H.Header("connection", second)];
    assert hs[1..] == [H.Header("connection", second)] && hs[1..][1..] == [];
    assert AllOptions(hs[1..]) == [ToLower(second)];
  }

  lemma FirstCloseOptions()
    ensures AllOptions(FIRST_CLOSE) == ["close", "keep-alive"]
  {
    OptionNames();
    hide AllOptions, ToLower, Bare;
    OptionOfEachLine("close", "keep-alive");
  }

  lemma FirstCloseTable()
    ensures Get(Table(FIRST_CLOSE, map[]), "connection") == "keep-alive"
  {
    ConnectionName();
    assert H.LastNamed(FIRST_CLOSE, 1, "connection");
    hide ToLower, Table;
    LastValueWins(FIRST_CLOSE, map[], 1, "connection");
  }

  lemma GetVerb()
    ensures Word("GET") && Word("/") && Normalize("GET") == "get"
  {
    PlainIsWord("GET");
    PlainIsWord("/");
  }

  lemma FirstCloseDecided(r: Request)
    requires r == Request("GET", "/", 1, 1, FIRST_CLOSE, "")
    ensures WellFormed(r) && Keeps(r) && !RfcKeeps(r) && Whole(r)
  {
    KnownIff(r.verb);
    GetVerb();
    FirstCloseOk();
    FirstCloseOptions();
    FirstCloseTable();
    OptionNames();
    hide Word, HeadersOk, Table, AllOptions, FIRST_CLOSE, Normalize, ToLower, Bare, Known;
    NormalizeIsLower("keep-alive");
  }

  /** Behind a close that is missed a further request is served. */
  lemma MissedCloseServes(r: Request, more: Request)
    requires WellFormed(r) && Keeps(r) && !RfcKeeps(r) && Whole(r) && WellFormed(more) && Whole(more)
    ensures Process(PrintAll([r, more])) == (AllEvents([r, more]), Closed) && RfcServed([r, more]) == [r]
  {
    hide WellFormed, Process, AllEvents, Keeps, RfcKeeps, Whole, PrintAll;
    var rs := [r, more];
    assert rs[1..] == [more] && [more][1..] == [];
    assert PrintAll(rs) + "" == PrintAll(rs);
    assert Served(rs) == rs;
    PipelineEndsIff(rs, "");
  }

  /** A close on an earlier line is missed, and a second request is served behind it. */
  lemma FirstCloseMissed() returns (r: Request)
    ensures r.headers == FIRST_CLOSE && WellFormed(r) && Keeps(r) && !RfcKeeps(r)
    ensures Process(PrintAll([r, r])) == (AllEvents([r, r]), Closed) && RfcServed([r, r]) == [r]
  {
    hide *;
    r := Request("GET", "/", 1, 1, FIRST_CLOSE, "");
    FirstCloseDecided(r);
    MissedCloseServes(r, r);
  }
}
