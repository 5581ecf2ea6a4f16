/** Character and text operations of the C, JavaScript, Go and Nim libraries the servers use. */
module Text {
  import opened Sequences

  /** C-locale tolower and toupper. */
  function Lower(c: char): char {
    if 'A' <= c <= 'Z' then (c as int + 32) as char else c
  }

  function Upper(c: char): char {
    if 'a' <= c <= 'z' then (c as int - 32) as char else c
  }

  function ToLower(s: string): (t: string)
    ensures |t| == |s|
  {
    seq(|s|, i requires 0 <= i < |s| => Lower(s[i]))
  }

  function ToUpper(s: string): (t: string)
    ensures |t| == |s|
  {
    seq(|s|, i requires 0 <= i < |s| => Upper(s[i]))
  }

  // ---------- Letter case ----------

  const SMALL := "abcdefghijklmnopqrstuvwxyz"
  const CAPITAL := "ABCDEFGHIJKLMNOPQRSTUVWXYZ"

  /** The same character, or the two cases of one ASCII letter. */
  ghost predicate SameLetter(c: char, d: char) {
    c == d || exists i :: 0 <= i < 26 && {c, d} == {SMALL[i], CAPITAL[i]}
  }

  /** The texts differ at most in the case of ASCII letters. */
  ghost predicate SameText(s: string, t: string) {
    |s| == |t| && forall i :: 0 <= i < |s| ==> SameLetter(s[i], t[i])
  }

  lemma LetterAt(i: int)
    requires 0 <= i < 26
    ensures SMALL[i] as int == 'a' as int + i && CAPITAL[i] as int == 'A' as int + i
  {}

  lemma LetterOf(c: char) returns (i: int)
    requires 'a' <= c <= 'z' || 'A' <= c <= 'Z'
    ensures 0 <= i < 26 && (if c <= 'Z' then CAPITAL[i] == c else SMALL[i] == c)
  {
    i := if c <= 'Z' then c as int - 'A' as int else c as int - 'a' as int;
    LetterAt(i);
  }

  lemma IsSmall(c: char)
    ensures c in SMALL <==> 'a' <= c <= 'z'
  {
    hide SMALL;
    if c in SMALL {
      var i :| 0 <= i < |SMALL| && SMALL[i] == c;
      SmallLength();
      LetterAt(i);
    }
    if 'a' <= c <= 'z' { var i := LetterOf(c); SmallLength(); }
  }

  lemma SmallLength()
    ensures |SMALL| == 26 == |CAPITAL|
  {}

  lemma IsCapital(c: char)
    ensures c in CAPITAL <==> 'A' <= c <= 'Z'
  {
    hide CAPITAL;
    if c in CAPITAL {
      var i :| 0 <= i < |CAPITAL| && CAPITAL[i] == c;
      SmallLength();
      LetterAt(i);
    }
    if 'A' <= c <= 'Z' { var i := LetterOf(c); SmallLength(); }
  }

  lemma SameLetterIff(c: char, d: char)
    ensures SameLetter(c, d) <==> Upper(c) == Upper(d)
    ensures SameLetter(c, d) <==> Lower(c) == Lower(d)
  {
    hide SMALL, CAPITAL;
    SmallLength();
    if c != d && SameLetter(c, d) {
      var i :| 0 <= i < 26 && {c, d} == {SMALL[i], CAPITAL[i]};
      LetterAt(i);
      assert c in {SMALL[i], CAPITAL[i]} && d in {SMALL[i], CAPITAL[i]};
    }
    if c != d && (Upper(c) == Upper(d) || Lower(c) == Lower(d)) {
      var i := LetterOf(c);
      LetterAt(i);
      assert {c, d} == {SMALL[i], CAPITAL[i]};
    }
  }

  /** toupper on a text: its only spelling without small letters. */
  lemma ToUpperIff(s: string, t: string)
    ensures t == ToUpper(s) <==> SameText(s, t) && forall c :: c in t ==> c !in SMALL
  {
    hide SameLetter, SMALL;
    if t == ToUpper(s) {
      forall i | 0 <= i < |s| ensures SameLetter(s[i], t[i]) && t[i] !in SMALL {
        SameLetterIff(s[i], t[i]);
        IsSmall(t[i]);
      }
    }
    if SameText(s, t) && forall c :: c in t ==> c !in SMALL {
      forall i | 0 <= i < |s| ensures t[i] == Upper(s[i]) {
        SameLetterIff(s[i], t[i]);
        assert t[i] in t;
        IsSmall(t[i]);
      }
    }
  }

  /** tolower on a text: its only spelling without capital letters. */
  lemma ToLowerIff(s: string, t: string)
    ensures t == ToLower(s) <==> SameText(s, t) && forall c :: c in t ==> c !in CAPITAL
  {
    hide SameLetter, CAPITAL;
    if t == ToLower(s) {
      forall i | 0 <= i < |s| ensures SameLetter(s[i], t[i]) && t[i] !in CAPITAL {
        SameLetterIff(s[i], t[i]);
        IsCapital(t[i]);
      }
    }
    if SameText(s, t) && forall c :: c in t ==> c !in CAPITAL {
      forall i | 0 <= i < |s| ensures t[i] == Lower(s[i]) {
        SameLetterIff(s[i], t[i]);
        assert t[i] in t;
        IsCapital(t[i]);
      }
    }
  }

  /** Two texts have the same upper, and the same lower, case exactly if they differ in case only. */
  lemma SameTextIff(s: string, t: string)
    ensures ToUpper(s) == ToUpper(t) <==> SameText(s, t)
    ensures ToLower(s) == ToLower(t) <==> SameText(s, t)
  {
    hide SameLetter;
    forall i | 0 <= i < |s| == |t|
      ensures SameLetter(s[i], t[i]) <==> ToUpper(s)[i] == ToUpper(t)[i]
      ensures SameLetter(s[i], t[i]) <==> ToLower(s)[i] == ToLower(t)[i]
    {
      SameLetterIff(s[i], t[i]);
    }
  }

  predicate IsDigit(c: char) { '0' <= c <= '9' }

  predicate AllDigits(s: string) {
    forall i :: 0 <= i < |s| ==> IsDigit(s[i])
  }

  function DigitValue(c: char): int
    requires IsDigit(c)
  {
    c as int - '0' as int
  }

  function Digit(d: int): (c: char)
    requires 0 <= d < 10
    ensures IsDigit(c) && DigitValue(c) == d
  {
    (d + '0' as int) as char
  }

  /** The decimal numeral of n. */
  function Decimal(n: nat): (s: string)
    ensures s != "" && AllDigits(s)
  {
    if n < 10 then [Digit(n)] else Decimal(n / 10) + [Digit(n % 10)]
  }

  /** The number a string of digits denotes. */
  function Value(s: string): (n: nat)
    requires AllDigits(s)
  {
    if s == "" then 0 else 10 * Value(s[..|s| - 1]) + DigitValue(s[|s| - 1])
  }

  lemma {:induction false} ValueOfDecimal(n: nat)
    ensures Value(Decimal(n)) == n
  {
    if n >= 10 {
      ValueOfDecimal(n / 10);
      var s := Decimal(n);
      assert s[..|s| - 1] == Decimal(n / 10);
    } else {
      assert [Digit(n)][..0] == "";
    }
  }

  /** How many leading characters satisfy the test: digits. */
  function DigitRun(s: string): (n: nat)
    ensures n <= |s| && AllDigits(s[..n])
    ensures n < |s| ==> !IsDigit(s[n])
  {
    if s == "" || !IsDigit(s[0]) then 0
    else
      var n := 1 + DigitRun(s[1..]);
      assert forall i :: 0 <= i < n ==> IsDigit(s[i]) by {
        forall i | 0 < i < n ensures IsDigit(s[i]) { assert s[i] == s[1..][..n - 1][i - 1]; }
      }
      n
  }

  lemma {:induction false} DigitRunOf(digits: string, rest: string)
    requires AllDigits(digits) && (rest != "" ==> !IsDigit(rest[0]))
    ensures DigitRun(digits + rest) == |digits|
  {
    if digits == "" {
      assert digits + rest == rest;
    } else {
      assert (digits + rest)[1..] == digits[1..] + rest;
      DigitRunOf(digits[1..], rest);
    }
  }

  // ---------- Searching ----------

  /** Whether pattern occurs in s at position i. */
  predicate OccursAt(s: string, pattern: string, i: int) {
    0 <= i && i + |pattern| <= |s| && s[i..i + |pattern|] == pattern
  }

  /** The first position from which pattern occurs in s, at or after i. */
  function Find(s: string, pattern: string, i: nat): (r: Option<nat>)
    ensures r.Some? ==> i <= r.value && OccursAt(s, pattern, r.value)
                        && forall j :: i <= j < r.value ==> !OccursAt(s, pattern, j)
    ensures r.None? ==> forall j :: i <= j ==> !OccursAt(s, pattern, j)
    decreases |s| - i
  {
    if OccursAt(s, pattern, i) then Some(i)
    else if i >= |s| then None
    else Find(s, pattern, i + 1)
  }

  /** Find is determined by what it promises. */
  lemma FindIs(s: string, pattern: string, i: nat, r: nat)
    requires i <= r && OccursAt(s, pattern, r) && forall j :: i <= j < r ==> !OccursAt(s, pattern, j)
    ensures Find(s, pattern, i) == Some(r)
  {
    assert OccursAt(s, pattern, r);
  }

  /** What has been found stays found as the text grows. */
  lemma FindStable(s: string, t: string, pattern: string)
    requires Find(s, pattern, 0).Some?
    ensures Find(s + t, pattern, 0) == Find(s, pattern, 0)
  {
    var r := Find(s, pattern, 0).value;
    assert (s + t)[r..r + |pattern|] == s[r..r + |pattern|];
    forall j | 0 <= j < r ensures !OccursAt(s + t, pattern, j) {
      assert !OccursAt(s, pattern, j);
      assert (s + t)[j..j + |pattern|] == s[j..j + |pattern|];
    }
    FindIs(s + t, pattern, 0, r);
  }

  lemma OccursInWhole(s: string, t: string, pattern: string, j: nat)
    ensures OccursAt(s, pattern, j) <==> j + |pattern| <= |s| && OccursAt(s + t, pattern, j)
  {
    if j + |pattern| <= |s| { assert (s + t)[j..j + |pattern|] == s[j..j + |pattern|]; }
  }

  /** The first occurrence in a text is the first one in each prefix that holds it, and the others hold none. */
  lemma FindInPrefix(s: string, t: string, pattern: string, r: nat)
    requires Find(s + t, pattern, 0) == Some(r)
    ensures Find(s, pattern, 0) == if r + |pattern| <= |s| then Some(r) else None
  {
    hide OccursAt;
    if Find(s, pattern, 0).Some? { FindStable(s, t, pattern); }
    OccursInWhole(s, t, pattern, r);
    forall j | 0 <= j < r ensures !OccursAt(s, pattern, j) { OccursInWhole(s, t, pattern, j); }
    if r + |pattern| <= |s| { FindIs(s, pattern, 0, r); }
  }

  /** How many leading characters are not in stops. */
  function Until(s: string, stops: set<char>): (n: nat)
    ensures n <= |s| && (n < |s| ==> s[n] in stops)
    ensures forall i :: 0 <= i < n ==> s[i] !in stops
  {
    if s == "" || s[0] in stops then 0
    else
      var n := 1 + Until(s[1..], stops);
      assert forall i :: 0 < i < n ==> s[i] == s[1..][i - 1];
      n
  }

  lemma UntilIs(s: string, stops: set<char>, n: nat)
    requires n <= |s| && (n < |s| ==> s[n] in stops)
    requires forall i :: 0 <= i < n ==> s[i] !in stops
    ensures Until(s, stops) == n
  {}

  /** No character of s is in stops. */
  predicate Free(s: string, stops: set<char>) {
    forall i :: 0 <= i < |s| ==> s[i] !in stops
  }

  lemma UntilAfter(s: string, rest: string, stops: set<char>)
    requires Free(s, stops) && rest != "" && rest[0] in stops
    ensures Until(s + rest, stops) == |s|
    ensures (s + rest)[..|s|] == s && (s + rest)[|s|..] == rest && (s + rest)[|s| + 1..] == rest[1..]
  {
    UntilIs(s + rest, stops, |s|);
  }

  /** How many leading spaces. */
  function Spaces(s: string): (n: nat)
    ensures n <= |s| && (n < |s| ==> s[n] != ' ')
    ensures forall i :: 0 <= i < n ==> s[i] == ' '
  {
    if s == "" || s[0] != ' ' then 0
    else
      var n := 1 + Spaces(s[1..]);
      assert forall i :: 0 < i < n ==> s[i] == s[1..][i - 1];
      n
  }

  // ---------- std::stoi ----------

  predicate IsSpace(c: char) { c == ' ' || '\t' <= c <= '\r' }

  /** White space is the blank, the tabs, the line feed, the form feed and the carriage return. */
  lemma IsSpaceIff(c: char)
    ensures IsSpace(c) <==> c in {' ', '\t', '\n', '\U{B}', '\U{C}', '\r'}
  {}

  function Blanks(s: string): (n: nat)
    ensures n <= |s|
  {
    if s == "" || !IsSpace(s[0]) then 0 else 1 + Blanks(s[1..])
  }

  lemma {:induction false} BlanksThen(spaces: string, rest: string)
    requires (forall c :: c in spaces ==> IsSpace(c)) && (rest != "" ==> !IsSpace(rest[0]))
    ensures Blanks(spaces + rest) == |spaces| && (spaces + rest)[|spaces|..] == rest
  {
    if spaces == "" {
      assert spaces + rest == rest;
    } else {
      assert IsSpace(spaces[0]) && (spaces + rest)[1..] == spaces[1..] + rest;
      BlanksThen(spaces[1..], rest);
    }
  }

  /** The number at the front of s, after white space and a sign; None where stoi throws. */
  function Stoi(s: string): Option<int> {
    var t := s[Blanks(s)..];
    var signed := t != "" && (t[0] == '-' || t[0] == '+');
    var digits := if signed then t[1..] else t;
    var n := DigitRun(digits);
    if n == 0 then None
    else
      var m: int := Value(digits[..n]);
      var v := if signed && t[0] == '-' then -m else m;
      if -0x8000_0000 <= v < 0x8000_0000 then Some(v) else None
  }

  /** A printed number is read back, whatever follows it, exactly if it fits the width of int. */
  lemma StoiOfDecimal(n: nat, rest: string)
    requires rest != "" ==> !IsDigit(rest[0])
    ensures Stoi(Decimal(n) + rest) == if n < 0x8000_0000 then Some(n) else None
  {
    var s := Decimal(n) + rest;
    var d := Decimal(n);
    assert IsDigit(d[0]) && s[0] == d[0];
    assert s[0..] == s;
    DigitRunOf(d, rest);
    assert s[..|d|] == d;
    ValueOfDecimal(n);
  }

  /** The number that a sign and digits denote. */
  function Reading(sign: string, digits: string): int
    requires AllDigits(digits)
  {
    var n: int := Value(digits);
    if sign == "-" then -n else n
  }

  /** A number is read after white space and a sign, up to the first character that is no digit. */
  lemma StoiReads(spaces: string, sign: string, digits: string, rest: string)
    requires (forall c :: c in spaces ==> IsSpace(c)) && sign in {"", "+", "-"} && AllDigits(digits)
    requires rest != "" ==> !IsDigit(rest[0])
    requires digits == "" && sign == "" && rest != "" ==> !IsSpace(rest[0]) && rest[0] != '+' && rest[0] != '-'
    ensures Stoi(spaces + (sign + (digits + rest))) ==
            if digits == "" then None
            else
              var v := Reading(sign, digits);
              if -0x8000_0000 <= v <= 0x7fff_ffff then Some(v) else None
  {
    hide Blanks, DigitRun, Value;
    var t := sign + (digits + rest);
    SignedText(sign, digits, rest);
    BlanksThen(spaces, t);
    DigitRunOf(digits, rest);
    assert (digits + rest)[..|digits|] == digits;
  }

  lemma SignedText(sign: string, digits: string, rest: string)
    requires sign in {"", "+", "-"} && AllDigits(digits)
    requires digits == "" && sign == "" && rest != "" ==> !IsSpace(rest[0]) && rest[0] != '+' && rest[0] != '-'
    ensures var t := sign + (digits + rest);
            && (t != "" ==> !IsSpace(t[0]))
            && (sign == "" ==> t == digits + rest && (t != "" ==> t[0] != '+' && t[0] != '-'))
            && (sign != "" ==> t != "" && t[0] == sign[0] && t[1..] == digits + rest)
  {
    var t := sign + (digits + rest);
    if digits != "" { assert IsDigit(digits[0]) && (digits + rest)[0] == digits[0]; }
    if sign == "" { assert t == digits + rest; } else { assert t[1..] == digits + rest; }
  }
}
