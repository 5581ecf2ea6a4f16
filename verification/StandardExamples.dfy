/**
 The examples of sections 9.2 and 9.2.6 of the HTML Standard, on the interpreter of
 the event stream, line by line; and what its fields mean for any value.
 */
module StandardExamples {
  import opened Text
  import opened EventStream

  /** A line of a name, a colon, an optional space and a value. */
  lemma FieldLine(b: Buffers, name: string, space: string, value: string)
    requires name != "" && ':' !in name && space in {"", " "} && (space == "" && value != "" ==> value[0] != ' ')
    ensures Line(b, name + (":" + (space + value))) == (Field(b, name, value), [])
  {
    hide Field;
    var rest := ":" + (space + value);
    NameBeforeColon(name, rest);
    assert (name + rest)[..|name|] == name && (name + rest)[|name| + 1..] == space + value;
    if space == " " { assert (space + value)[1..] == value; } else { assert space + value == value; }
  }

  lemma {:induction false} NameAlone(name: string)
    requires ':' !in name
    ensures NameLength(name) == |name|
  {
    if name != "" { NameAlone(name[1..]); }
  }

  /** What each field does to the buffers, whatever its value. */
  lemma FieldMeaning(b: Buffers, space: string, value: string)
    requires space in {"", " "} && (space == "" && value != "" ==> value[0] != ' ')
    ensures Line(b, "data" + (":" + (space + value))) == (Buffers(b.data + value + "\n", b.kind, b.id, b.retry), [])
    ensures Line(b, "event" + (":" + (space + value))) == (Buffers(b.data, value, b.id, b.retry), [])
    ensures Line(b, "id" + (":" + (space + value))) ==
            (Buffers(b.data, b.kind, if '\0' in value then b.id else value, b.retry), [])
    ensures Line(b, "retry" + (":" + (space + value))) ==
            (Buffers(b.data, b.kind, b.id, if value != "" && AllDigits(value) then value else b.retry), [])
  {
    hide Line;
    FieldLine(b, "data", space, value);
    FieldLine(b, "event", space, value);
    FieldLine(b, "id", space, value);
    FieldLine(b, "retry", space, value);
  }

  /** Any other field is ignored, and so is a comment. */
  lemma OthersIgnored(b: Buffers, name: string, space: string, value: string)
    requires name !in {"", "data", "event", "id", "retry"} && ':' !in name
    requires space in {"", " "} && (space == "" && value != "" ==> value[0] != ' ')
    ensures Line(b, name + (":" + (space + value))) == (b, [])
    ensures Line(b, ":" + value) == (b, [])
  {
    FieldLine(b, name, space, value);
  }

  /** A line without a colon is a field with the empty value. */
  lemma BareField(b: Buffers)
    ensures Line(b, "data") == (Buffers(b.data + "\n", b.kind, b.id, b.retry), [])
    ensures Line(b, "id") == (Buffers(b.data, b.kind, "", b.retry), [])
  {
    NameAlone("data");
    NameAlone("id");
    assert b.data + "" + "\n" == b.data + "\n";
  }

  lemma OneLineMore(b: Buffers, line: string, lines: seq<string>)
    ensures Interpret(b, [line] + lines) == Line(b, line).1 + Interpret(Line(b, line).0, lines)
  {
    assert ([line] + lines)[1..] == lines;
  }

  /** Lines that dispatch nothing. */
  lemma QuietLine(b: Buffers, line: string, b': Buffers, lines: seq<string>)
    requires Line(b, line) == (b', [])
    ensures Interpret(b, [line] + lines) == Interpret(b', lines)
  {
    hide Line, Interpret;
    OneLineMore(b, line, lines);
  }

  /** The empty line. */
  lemma BlankLine(b: Buffers, lines: seq<string>)
    ensures Interpret(b, [""] + lines) ==
            (if b.data == "" then []
             else [Event(if b.kind == "" then "message" else b.kind,
                         if b.data[|b.data| - 1] == '\n' then b.data[..|b.data| - 1] else b.data, b.id)])
            + Interpret(Buffers("", "", b.id, b.retry), lines)
  {
    OneLineMore(b, "", lines);
  }

  lemma NoMore(b: Buffers)
    ensures Interpret(b, []) == []
  {}

  /** One byte order mark at the start is dropped; without one the text is read whole. */
  lemma ByteOrderMark(s: string)
    ensures Decode(['\U{FEFF}'] + s) == Interpret(FRESH, Lines(s))
    ensures s == "" || s[0] != '\U{FEFF}' ==> Decode(s) == Interpret(FRESH, Lines(s))
  {
    hide Lines, Interpret;
    assert (['\U{FEFF}'] + s)[1..] == s;
  }

  /** Three data lines make one event of three lines. */
  lemma StockExample()
    ensures Interpret(FRESH, ["data: YHOO"] + (["data: +2"] + (["data: 10"] + ([""] + [])))) ==
            [Event("message", "YHOO\n+2\n10", "")]
  {
    hide Line, Interpret;
    StockTexts();
    var b1, b2 := Buffers("YHOO\n", "", "", ""), Buffers("YHOO\n+2\n", "", "", "");
    var b3 := Buffers("YHOO\n+2\n10\n", "", "", "");
    FieldMeaning(FRESH, " ", "YHOO");
    FieldMeaning(b1, " ", "+2");
    FieldMeaning(b2, " ", "10");
    QuietLine(FRESH, "data: YHOO", b1, ["data: +2"] + (["data: 10"] + ([""] + [])));
    QuietLine(b1, "data: +2", b2, ["data: 10"] + ([""] + []));
    QuietLine(b2, "data: 10", b3, [""] + []);
    BlankLine(b3, []);
    NoMore(Buffers("", "", "", ""));
  }

  lemma StockTexts()
    ensures "data" + (":" + (" " + "YHOO")) == "data: YHOO" && "data" + (":" + (" " + "+2")) == "data: +2"
    ensures "data" + (":" + (" " + "10")) == "data: 10"
    ensures "" + "YHOO" + "\n" == "YHOO\n" && "YHOO\n" + "+2" + "\n" == "YHOO\n+2\n"
    ensures "YHOO\n+2\n" + "10" + "\n" == "YHOO\n+2\n10\n"
    ensures "YHOO\n+2\n10\n"[..|"YHOO\n+2\n10\n"| - 1] == "YHOO\n+2\n10"
  {}

  /** An event of a given type does not lend it to the next. */
  lemma TypedExample()
    ensures Interpret(FRESH, ["event: add"] + (["data: 7"] + ([""] + (["data: 8"] + ([""] + []))))) ==
            [Event("add", "7", ""), Event("message", "8", "")]
  {
    hide Line, Interpret;
    TypedTexts();
    var l4 := ["data: 8"] + ([""] + []);
    var b1, b2, b3 := Buffers("", "add", "", ""), Buffers("7\n", "add", "", ""), Buffers("8\n", "", "", "");
    FieldMeaning(FRESH, " ", "add");
    FieldMeaning(b1, " ", "7");
    FieldMeaning(FRESH, " ", "8");
    QuietLine(FRESH, "event: add", b1, ["data: 7"] + ([""] + l4));
    QuietLine(b1, "data: 7", b2, [""] + l4);
    BlankLine(b2, l4);
    QuietLine(FRESH, "data: 8", b3, [""] + []);
    BlankLine(b3, []);
    NoMore(FRESH);
  }

  lemma TypedTexts()
    ensures "event" + (":" + (" " + "add")) == "event: add" && "data" + (":" + (" " + "7")) == "data: 7"
    ensures "data" + (":" + (" " + "8")) == "data: 8"
    ensures "" + "7" + "\n" == "7\n" && "" + "8" + "\n" == "8\n" && "7\n"[..1] == "7" && "8\n"[..1] == "8"
  {}

  function IdentifierEnd(): seq<string> { ["data:second"] + (["id"] + ([""] + (["data:  third"] + ([""] + [])))) }

  function IdentifierLines(): seq<string> {
    [": test stream"] + ([""] + (["data: first"] + (["id: 1"] + ([""] + IdentifierEnd()))))
  }

  /**
   A comment; an identifier that lasts until it is reset; one leading space that is
   dropped, and a second that is not.
   */
  lemma IdentifierExample()
    ensures Interpret(FRESH, IdentifierLines()) ==
            [Event("message", "first", "1"), Event("message", "second", ""), Event("message", " third", "")]
  {
    hide Line, Interpret;
    IdentifierTexts();
    EndOfExample();
    hide IdentifierEnd;
    var end := IdentifierEnd();
    var b1, b2 := Buffers("first\n", "", "", ""), Buffers("first\n", "", "1", "");
    OthersIgnored(FRESH, "x", " ", " test stream");
    QuietLine(FRESH, ": test stream", FRESH, [""] + (["data: first"] + (["id: 1"] + ([""] + end))));
    BlankLine(FRESH, ["data: first"] + (["id: 1"] + ([""] + end)));
    FieldMeaning(FRESH, " ", "first");
    QuietLine(FRESH, "data: first", b1, ["id: 1"] + ([""] + end));
    FieldMeaning(b1, " ", "1");
    QuietLine(b1, "id: 1", b2, [""] + end);
    BlankLine(b2, end);
  }

  lemma EndOfExample()
    ensures Interpret(Buffers("", "", "1", ""), IdentifierEnd()) ==
            [Event("message", "second", ""), Event("message", " third", "")]
  {
    hide Line, Interpret;
    IdentifierTexts();
    var third := ["data:  third"] + ([""] + []);
    var b3, b4, b5 := Buffers("", "", "1", ""), Buffers("second\n", "", "1", ""), Buffers("second\n", "", "", "");
    var b6 := Buffers(" third\n", "", "", "");
    FieldMeaning(b3, "", "second");
    QuietLine(b3, "data:second", b4, ["id"] + ([""] + third));
    BareField(b4);
    QuietLine(b4, "id", b5, [""] + third);
    BlankLine(b5, third);
    FieldMeaning(FRESH, " ", " third");
    QuietLine(FRESH, "data:  third", b6, [""] + []);
    BlankLine(b6, []);
    NoMore(FRESH);
  }

  lemma IdentifierTexts()
    ensures "data" + (":" + (" " + "first")) == "data: first" && "id" + (":" + (" " + "1")) == "id: 1"
    ensures "data" + (":" + ("" + "second")) == "data:second" && "data" + (":" + (" " + " third")) == "data:  third"
    ensures ":" + " test stream" == ": test stream"
    ensures "" + "first" + "\n" == "first\n" && "" + "second" + "\n" == "second\n" && "" + " third" + "\n" == " third\n"
    ensures "first\n"[..5] == "first" && "second\n"[..6] == "second" && " third\n"[..6] == " third"
    ensures '\0' !in "1"
  {}
}
