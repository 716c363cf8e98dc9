/**
 * The pieces of Python's string handling the script relies on:
 * `str.strip()`, `str.split(':')` and `int(str)` in base 10.
 */
module Text {
  import opened Results

  /** Python's `str.isspace()`: the characters `str.strip()` discards. */
  predicate IsSpace(c: char) {
    ('\U{9}' <= c <= '\U{D}') || ('\U{1C}' <= c <= '\U{20}') ||
    c == '\U{85}' || c == '\U{A0}' || c == '\U{1680}' ||
    ('\U{2000}' <= c <= '\U{200A}') ||
    c == '\U{2028}' || c == '\U{2029}' || c == '\U{202F}' || c == '\U{205F}' || c == '\U{3000}'
  }

  /** Which whitespace a strip discards: `str.strip()` drops every character
      `IsSpace` accepts, while `int()` skips the same set less the four ASCII
      separator controls U+001C..U+001F, which it treats as ordinary
      characters. */
  datatype Blanks = StrBlanks | IntBlanks

  predicate IsBlank(b: Blanks, c: char) {
    IsSpace(c) && (b == StrBlanks || !('\U{1C}' <= c <= '\U{1F}'))
  }

  /** Leading blanks dropped. */
  function StripLeft(b: Blanks, s: string): string
  {
    if s != [] && IsBlank(b, s[0]) then StripLeft(b, s[1..]) else s
  }

  /** Trailing blanks dropped. */
  function StripRight(b: Blanks, s: string): string
  {
    if s != [] && IsBlank(b, s[|s| - 1]) then StripRight(b, s[..|s| - 1]) else s
  }

  /** Blanks dropped at both ends. */
  function StripBlanks(b: Blanks, s: string): (t: string)
  {
    StripRight(b, StripLeft(b, s))
  }

  /** `s.strip()`. */
  function Strip(s: string): string
  {
    StripBlanks(StrBlanks, s)
  }

  /** A left strip drops a prefix made only of blanks, and what it keeps does
      not start with a blank. */
  lemma {:induction false} StripLeftSpec(b: Blanks, s: string)
    ensures |StripLeft(b, s)| <= |s| && StripLeft(b, s) == s[|s| - |StripLeft(b, s)|..]
    ensures StripLeft(b, s) == [] || !IsBlank(b, StripLeft(b, s)[0])
    ensures forall i :: 0 <= i < |s| - |StripLeft(b, s)| ==> IsBlank(b, s[i])
    decreases |s|
  {
    if s != [] && IsBlank(b, s[0]) {
      StripLeftSpec(b, s[1..]);
    }
  }

  /** A right strip drops a suffix made only of blanks, and what it keeps does
      not end with a blank. */
  lemma {:induction false} StripRightSpec(b: Blanks, s: string)
    ensures |StripRight(b, s)| <= |s| && StripRight(b, s) == s[..|StripRight(b, s)|]
    ensures StripRight(b, s) == [] || !IsBlank(b, StripRight(b, s)[|StripRight(b, s)| - 1])
    ensures forall i :: |StripRight(b, s)| <= i < |s| ==> IsBlank(b, s[i])
    decreases |s|
  {
    if s != [] && IsBlank(b, s[|s| - 1]) {
      StripRightSpec(b, s[..|s| - 1]);
    }
  }

  /** A strip keeps a piece of the string, leaves no blank at either end,
      and strips a string to nothing exactly when it is all blanks. */
  lemma StripBlanksSpec(b: Blanks, s: string)
    ensures |StripBlanks(b, s)| <= |s|
    ensures StripBlanks(b, s) == [] || (!IsBlank(b, StripBlanks(b, s)[0]) && !IsBlank(b, StripBlanks(b, s)[|StripBlanks(b, s)| - 1]))
    ensures StripBlanks(b, s) == [] <==> forall i :: 0 <= i < |s| ==> IsBlank(b, s[i])
  {
    var l := StripLeft(b, s);
    StripLeftSpec(b, s);
    StripRightSpec(b, l);
    if StripBlanks(b, s) == [] {
      assert l == [];
    } else {
      assert StripBlanks(b, s)[0] == l[0] == s[|s| - |l|];
    }
  }

  /** `strip()` leaves no whitespace at either end, and strips a string to
      nothing exactly when it is all whitespace. */
  lemma StripSpec(s: string)
    ensures Strip(s) == [] || (!IsSpace(Strip(s)[0]) && !IsSpace(Strip(s)[|Strip(s)| - 1]))
    ensures Strip(s) == [] <==> forall i :: 0 <= i < |s| ==> IsSpace(s[i])
  {
    StripBlanksSpec(StrBlanks, s);
  }

  /** A string with non-blank ends is left alone by both strips. */
  lemma {:induction false} StripKeeps(s: string)
    requires s != [] && !IsSpace(s[0]) && !IsSpace(s[|s| - 1])
    ensures Strip(s) == s && StripBlanks(IntBlanks, s) == s
  {
    assert StripLeft(StrBlanks, s) == s && StripLeft(IntBlanks, s) == s;
    assert StripRight(StrBlanks, s) == s && StripRight(IntBlanks, s) == s;
  }

  /** The two strips differ only on the four separator controls: on a string
      without them they agree. */
  lemma {:induction false} StripsAgree(s: string)
    requires forall i :: 0 <= i < |s| ==> !('\U{1C}' <= s[i] <= '\U{1F}')
    ensures Strip(s) == StripBlanks(IntBlanks, s)
  {
    var l := StripLeft(StrBlanks, s);
    LeftAgree(s);
    StripLeftSpec(StrBlanks, s);
    RightAgree(l);
  }

  lemma {:induction false} LeftAgree(s: string)
    requires forall i :: 0 <= i < |s| ==> !('\U{1C}' <= s[i] <= '\U{1F}')
    ensures StripLeft(StrBlanks, s) == StripLeft(IntBlanks, s)
    decreases |s|
  {
    if s != [] {
      LeftAgree(s[1..]);
    }
  }

  lemma {:induction false} RightAgree(s: string)
    requires forall i :: 0 <= i < |s| ==> !('\U{1C}' <= s[i] <= '\U{1F}')
    ensures StripRight(StrBlanks, s) == StripRight(IntBlanks, s)
    decreases |s|
  {
    if s != [] {
      RightAgree(s[..|s| - 1]);
    }
  }

  /** `s.split(sep)`: the maximal runs between separators, always at least one
      (possibly empty) piece. */
  function Split(s: string, sep: char): (parts: seq<string>)
    ensures |parts| >= 1
    decreases |s|
  {
    if s == [] then [""]
    else
      var rest := Split(s[1..], sep);
      if s[0] == sep then [""] + rest
      else [[s[0]] + rest[0]] + rest[1..]
  }

  /** No piece contains the separator. */
  lemma {:induction false} SplitPieces(s: string, sep: char)
    ensures forall i :: 0 <= i < |Split(s, sep)| ==> sep !in Split(s, sep)[i]
    decreases |s|
  {
    if s != [] {
      SplitPieces(s[1..], sep);
    }
  }

  /** Splitting loses nothing: joining the pieces back gives the string. */
  lemma {:induction false} SplitJoin(s: string, sep: char)
    ensures Join(Split(s, sep), sep) == s
    decreases |s|
  {
    if s != [] {
      var rest := Split(s[1..], sep);
      SplitJoin(s[1..], sep);
      assert [s[0]] + s[1..] == s;
      if s[0] == sep {
        assert ([""] + rest)[1..] == rest;
      } else {
        var parts := [[s[0]] + rest[0]] + rest[1..];
        if |rest| > 1 {
          assert parts[1..] == rest[1..];
        }
      }
    }
  }

  /** `sep.join(parts)`, the inverse of `Split`. */
  function Join(parts: seq<string>, sep: char): string
    requires |parts| >= 1
    decreases |parts|
  {
    if |parts| == 1 then parts[0] else parts[0] + [sep] + Join(parts[1..], sep)
  }

  lemma {:induction false} SplitNoSeparator(a: string, sep: char)
    requires sep !in a
    ensures Split(a, sep) == [a]
    decreases |a|
  {
    if a != [] {
      SplitNoSeparator(a[1..], sep);
      assert [a[0]] + a[1..] == a;
    }
  }

  /** A separator after a separator-free prefix cuts exactly that prefix off. */
  lemma {:induction false} SplitAtFirst(a: string, b: string, sep: char)
    requires sep !in a
    ensures Split(a + [sep] + b, sep) == [a] + Split(b, sep)
    decreases |a|
  {
    var s := a + [sep] + b;
    if a == [] {
      assert s[1..] == b;
    } else {
      assert s[1..] == a[1..] + [sep] + b;
      SplitAtFirst(a[1..], b, sep);
      assert [a[0]] + a[1..] == a;
    }
  }

  predicate IsDigit(c: char) {
    '0' <= c <= '9'
  }

  function DigitOf(c: char): (d: nat)
    requires IsDigit(c)
    ensures d < 10
  {
    c as int - '0' as int
  }

  function DigitChar(d: nat): (c: char)
    requires d < 10
    ensures IsDigit(c) && DigitOf(c) == d
  {
    ('0' as int + d) as char
  }

  /** What Python's `int()` accepts after its sign: decimal digits, with single
      underscores allowed between two digits (`"1_000"`). */
  predicate DigitRun(b: string)
    decreases |b|
  {
    |b| > 0 && IsDigit(b[0]) &&
    (|b| == 1 || (if b[1] == '_' then DigitRun(b[2..]) else DigitRun(b[1..])))
  }

  /** The base-10 value of a digit run; underscores carry no value. */
  function DigitsValue(b: string): nat
    decreases |b|
  {
    if b == [] then 0
    else if IsDigit(b[|b| - 1]) then 10 * DigitsValue(b[..|b| - 1]) + DigitOf(b[|b| - 1])
    else DigitsValue(b[..|b| - 1])
  }

  /** Python's `int(field)` for base 10: surrounding whitespace is skipped
      (not the separator controls U+001C..U+001F, which `int()` rejects), one
      optional sign is allowed, and the rest must be a digit run. `None`
      stands for the `ValueError` it raises otherwise. */
  function ParseInt(field: string): (r: Option<int>)
    ensures r.Some? ==> StripBlanks(IntBlanks, field) != []
    ensures r.Some? && r.value < 0 ==> StripBlanks(IntBlanks, field)[0] == '-'
  {
    var t := StripBlanks(IntBlanks, field);
    if |t| > 0 && (t[0] == '-' || t[0] == '+') then
      if DigitRun(t[1..]) then
        Some(if t[0] == '-' then -(DigitsValue(t[1..]) as int) else DigitsValue(t[1..]))
      else None
    else if DigitRun(t) then Some(DigitsValue(t))
    else None
  }

  /** The shortest decimal spelling of `n`, as Python's `str(n)` gives it. */
  function Decimal(n: nat): (d: string)
    ensures |d| >= 1 && forall i :: 0 <= i < |d| ==> IsDigit(d[i])
    ensures DigitsValue(d) == n
    decreases n
  {
    if n < 10 then [DigitChar(n)]
    else
      var d := Decimal(n / 10) + [DigitChar(n % 10)];
      assert d[..|d| - 1] == Decimal(n / 10);
      d
  }

  lemma {:induction false} AllDigitsIsRun(b: string)
    requires |b| > 0 && forall i :: 0 <= i < |b| ==> IsDigit(b[i])
    ensures DigitRun(b)
    decreases |b|
  {
    if |b| > 1 {
      AllDigitsIsRun(b[1..]);
    }
  }

  /** `int(str(n)) == n`. */
  lemma {:induction false} ParseDecimal(n: nat)
    ensures ParseInt(Decimal(n)) == Some(n)
  {
    var d := Decimal(n);
    StripKeeps(d);
    AllDigitsIsRun(d);
  }

  /** `int("-" + str(n)) == -n`: a leading minus sign is accepted. */
  lemma {:induction false} ParseNegative(n: nat)
    ensures ParseInt("-" + Decimal(n)) == Some(-(n as int))
  {
    var d := Decimal(n);
    var t := "-" + d;
    StripKeeps(t);
    assert t[1..] == d;
    AllDigitsIsRun(d);
  }

  /** `int()` skips a space but not a separator control that `strip()`
      would drop: `int(" 5")` is 5, `int("\x1f5")` raises `ValueError`. */
  lemma SeparatorNotSkipped()
    ensures ParseInt(" 5") == Some(5)
    ensures Strip("\U{1F}5") == "5" && ParseInt("\U{1F}5") == None
  {
    assert StripLeft(IntBlanks, " 5") == StripLeft(IntBlanks, "5") == "5";
    assert StripLeft(StrBlanks, "\U{1F}5") == StripLeft(StrBlanks, "5") == "5";
    assert StripBlanks(IntBlanks, "\U{1F}5") == "\U{1F}5";
    assert DigitRun("5");
    assert DigitsValue("5") == 10 * DigitsValue("") + DigitOf('5');
  }
}
