/**
 * `time_to_seconds`: a colon-separated timestamp, most significant field
 * first, read as a sum of fields weighted by powers of 60.
 */
module Timestamps {
  import opened Results
  import opened Text

  function Pow60(i: nat): (p: nat)
    ensures p >= 1
  {
    if i == 0 then 1 else 60 * Pow60(i - 1)
  }

  function Reverse<T>(s: seq<T>): (r: seq<T>)
    ensures |r| == |s|
  {
    if s == [] then [] else Reverse(s[1..]) + [s[0]]
  }

  /** `sum(p * 60**(i + k) for k, p in enumerate(rev))`. */
  function PositionalSum(rev: seq<int>, i: nat): int
  {
    if rev == [] then 0 else rev[0] * Pow60(i) + PositionalSum(rev[1..], i + 1)
  }

  /** Horner's rule over the fields as written: shift by 60, add the next field. */
  function Horner(parts: seq<int>): int
  {
    if parts == [] then 0 else 60 * Horner(parts[..|parts| - 1]) + parts[|parts| - 1]
  }

  /** `[int(p) for p in fields]`; `None` when some field is not an integer. */
  function ParseFields(fields: seq<string>): (r: Option<seq<int>>)
    ensures r.Some? ==> |r.value| == |fields|
  {
    if fields == [] then Some([])
    else
      var head, tail := ParseInt(fields[0]), ParseFields(fields[1..]);
      if head.Some? && tail.Some? then Some([head.value] + tail.value) else None
  }

  /** The list comprehension succeeds exactly when every field is an integer,
      and then holds their values in order. */
  lemma {:induction false} ParseFieldsSpec(fields: seq<string>)
    ensures ParseFields(fields).Some? <==> forall i :: 0 <= i < |fields| ==> ParseInt(fields[i]).Some?
    ensures ParseFields(fields).Some? ==>
              forall i :: 0 <= i < |fields| ==> ParseInt(fields[i]) == Some(ParseFields(fields).value[i])
    decreases |fields|
  {
    if fields != [] {
      ParseFieldsSpec(fields[1..]);
      assert forall i :: 1 <= i < |fields| ==> fields[i] == fields[1..][i - 1];
    }
  }

  /** Fields that each parse give the list of their values. */
  lemma {:induction false} ParseFieldsAll(fields: seq<string>, parts: seq<int>)
    requires |fields| == |parts|
    requires forall i :: 0 <= i < |fields| ==> ParseInt(fields[i]) == Some(parts[i])
    ensures ParseFields(fields) == Some(parts)
    decreases |fields|
  {
    if fields != [] {
      ParseFieldsAll(fields[1..], parts[1..]);
      assert [parts[0]] + parts[1..] == parts;
    }
  }

  /** `time_to_seconds(timestr)`; `None` stands for the `ValueError` of `int()`. */
  function TimeToSeconds(timestr: string): (r: Option<int>)
    ensures Strip(timestr) == [] ==> r == None
  {
    var fields := Split(Strip(timestr), ':');
    match ParseFields(fields)
    case None => None
    case Some(parts) => Some(PositionalSum(Reverse(parts), 0))
  }

  /** `time_to_seconds` raises exactly when some field of the stripped string
      is not an integer. */
  lemma {:induction false} TimeToSecondsDefined(timestr: string, fields: seq<string>)
    requires fields == Split(Strip(timestr), ':')
    ensures TimeToSeconds(timestr).Some? <==>
              forall i :: 0 <= i < |fields| ==> ParseInt(fields[i]).Some?
  {
    ParseFieldsSpec(fields);
  }

  lemma {:induction false} PositionalSumShift(rev: seq<int>, i: nat)
    ensures PositionalSum(rev, i + 1) == 60 * PositionalSum(rev, i)
    decreases |rev|
  {
    if rev != [] {
      PositionalSumShift(rev[1..], i + 1);
      calc {
        PositionalSum(rev, i + 1);
        rev[0] * (60 * Pow60(i)) + PositionalSum(rev[1..], i + 2);
        { assert rev[0] * (60 * Pow60(i)) == 60 * (rev[0] * Pow60(i)); }
        60 * (rev[0] * Pow60(i)) + 60 * PositionalSum(rev[1..], i + 1);
      }
    }
  }

  /** Weighting the reversed fields by 60^i is Horner's rule on the fields
      as written. */
  lemma {:induction false} PositionalIsHorner(parts: seq<int>)
    ensures PositionalSum(Reverse(parts), 0) == Horner(parts)
    decreases |parts|
  {
    if parts != [] {
      var init, last := parts[..|parts| - 1], parts[|parts| - 1];
      ReverseSnoc(init, last);
      assert parts == init + [last];
      var rev := Reverse(parts);
      assert rev[1..] == Reverse(init);
      PositionalSumShift(Reverse(init), 0);
      PositionalIsHorner(init);
    }
  }

  lemma {:induction false} ReverseSnoc<T>(s: seq<T>, x: T)
    ensures Reverse(s + [x]) == [x] + Reverse(s)
    decreases |s|
  {
    if s != [] {
      assert (s + [x])[1..] == s[1..] + [x];
      ReverseSnoc(s[1..], x);
    }
  }

  /** A well-formed timestamp is worth Horner's rule over its fields. */
  lemma {:induction false} TimeToSecondsIsHorner(timestr: string, parts: seq<int>)
    requires ParseFields(Split(Strip(timestr), ':')) == Some(parts)
    ensures TimeToSeconds(timestr) == Some(Horner(parts))
  {
    PositionalIsHorner(parts);
  }

  /** Two decimal digits, leading zero included: the `MM` and `SS` of a clock time. */
  function TwoDigits(n: nat): (d: string)
    requires n < 100
    ensures |d| == 2 && forall i :: 0 <= i < |d| ==> IsDigit(d[i])
  {
    [DigitChar(n / 10), DigitChar(n % 10)]
  }

  /** `int("07") == 7`: a leading zero is accepted. */
  lemma {:induction false} ParseTwoDigits(n: nat)
    requires n < 100
    ensures ParseInt(TwoDigits(n)) == Some(n)
  {
    var d := TwoDigits(n);
    StripKeeps(d);
    assert d[1..] == [d[1]];
    assert DigitRun(d);
    assert d[..1] == [d[0]];
    assert DigitsValue(d[..1]) == n / 10;
  }

  /** `H:MM:SS`, the clock form a spreadsheet shows. */
  function ClockTime(h: nat, m: nat, s: nat): string
    requires m < 60 && s < 60
  {
    Decimal(h) + ":" + TwoDigits(m) + ":" + TwoDigits(s)
  }

  lemma {:induction false} SplitThree(a: string, b: string, c: string, sep: char)
    requires sep !in a && sep !in b && sep !in c
    ensures Split(a + [sep] + b + [sep] + c, sep) == [a, b, c]
  {
    assert a + [sep] + b + [sep] + c == a + [sep] + (b + [sep] + c);
    SplitAtFirst(a, b + [sep] + c, sep);
    SplitAtFirst(b, c, sep);
    SplitNoSeparator(c, sep);
  }

  lemma {:induction false} DigitsHaveNoColon(d: string)
    requires forall i :: 0 <= i < |d| ==> IsDigit(d[i])
    ensures ':' !in d
  {
  }

  /** A clock time has no blank ends, so `strip()` leaves it alone. */
  lemma {:induction false} ClockTimeStripped(h: nat, m: nat, s: nat)
    requires m < 60 && s < 60
    ensures Strip(ClockTime(h, m, s)) == ClockTime(h, m, s)
  {
    var str := ClockTime(h, m, s);
    assert str[0] == Decimal(h)[0] && str[|str| - 1] == TwoDigits(s)[1];
    StripKeeps(str);
  }

  lemma {:induction false} ClockTimeSplit(h: nat, m: nat, s: nat)
    requires m < 60 && s < 60
    ensures Split(ClockTime(h, m, s), ':') == [Decimal(h), TwoDigits(m), TwoDigits(s)]
  {
    var hh, mm, ss := Decimal(h), TwoDigits(m), TwoDigits(s);
    assert ClockTime(h, m, s) == hh + [':'] + mm + [':'] + ss;
    DigitsHaveNoColon(hh);
    DigitsHaveNoColon(mm);
    DigitsHaveNoColon(ss);
    SplitThree(hh, mm, ss, ':');
  }

  /** The three fields of a clock time are exactly its hours, minutes and seconds. */
  lemma {:induction false} ClockTimeFields(h: nat, m: nat, s: nat)
    requires m < 60 && s < 60
    ensures Split(Strip(ClockTime(h, m, s)), ':') == [Decimal(h), TwoDigits(m), TwoDigits(s)]
  {
    ClockTimeSplit(h, m, s);
    ClockTimeStripped(h, m, s);
  }

  /** The value form of `TimeToSecondsIsHorner`, for callers that know the sum. */
  lemma {:induction false} WorthHorner(timestr: string, parts: seq<int>, v: int)
    requires ParseFields(Split(Strip(timestr), ':')) == Some(parts)
    requires Horner(parts) == v
    ensures TimeToSeconds(timestr) == Some(v)
  {
    TimeToSecondsIsHorner(timestr, parts);
  }

  lemma {:induction false} HornerThree(a: int, b: int, c: int)
    ensures Horner([a, b, c]) == a * 3600 + b * 60 + c
  {
    assert [a, b, c][..2] == [a, b];
    assert [a, b][..1] == [a];
    assert [a][..0] == [];
    assert Horner([a]) == a;
    assert Horner([a, b]) == 60 * a + b;
    assert Horner([a, b, c]) == 60 * (60 * a + b) + c;
  }

  /** A timestamp of one integer field is worth that many seconds. */
  lemma {:induction false} OneField(x: string, a: string, pa: int)
    requires Split(Strip(x), ':') == [a]
    requires ParseInt(a) == Some(pa)
    ensures TimeToSeconds(x) == Some(pa)
  {
    ParseFieldsAll([a], [pa]);
    assert [pa][..0] == [];
    WorthHorner(x, [pa], pa);
  }

  /** A timestamp of two integer fields is worth minutes and seconds. */
  lemma {:induction false} TwoFields(x: string, a: string, b: string, pa: int, pb: int)
    requires Split(Strip(x), ':') == [a, b]
    requires ParseInt(a) == Some(pa) && ParseInt(b) == Some(pb)
    ensures TimeToSeconds(x) == Some(pa * 60 + pb)
  {
    ParseFieldsAll([a, b], [pa, pb]);
    assert [pa, pb][..1] == [pa];
    assert [pa][..0] == [];
    assert Horner([pa]) == pa;
    assert Horner([pa, pb]) == 60 * pa + pb;
    WorthHorner(x, [pa, pb], pa * 60 + pb);
  }

  /** A timestamp of three integer fields is worth hours, minutes and seconds. */
  lemma {:induction false} ThreeFields(x: string, a: string, b: string, c: string, pa: int, pb: int, pc: int)
    requires Split(Strip(x), ':') == [a, b, c]
    requires ParseInt(a) == Some(pa) && ParseInt(b) == Some(pb) && ParseInt(c) == Some(pc)
    ensures TimeToSeconds(x) == Some(pa * 3600 + pb * 60 + pc)
  {
    ParseFieldsAll([a, b, c], [pa, pb, pc]);
    HornerThree(pa, pb, pc);
    WorthHorner(x, [pa, pb, pc], pa * 3600 + pb * 60 + pc);
  }

  /** Parsing a clock time gives back its number of seconds. */
  lemma {:induction false} ClockTimeRoundTrip(h: nat, m: nat, s: nat)
    requires m < 60 && s < 60
    ensures TimeToSeconds(ClockTime(h, m, s)) == Some(h * 3600 + m * 60 + s)
  {
    ClockTimeFields(h, m, s);
    ParseDecimal(h);
    ParseTwoDigits(m);
    ParseTwoDigits(s);
    ThreeFields(ClockTime(h, m, s), Decimal(h), TwoDigits(m), TwoDigits(s), h, m, s);
  }

  /** `time_to_seconds("1:02:03") == 3723`. */
  lemma {:induction false} HoursMinutesSeconds()
    ensures TimeToSeconds("1:02:03") == Some(3723)
  {
    assert Decimal(1) == "1";
    assert TwoDigits(2) == "02";
    assert TwoDigits(3) == "03";
    assert ClockTime(1, 2, 3) == "1:02:03";
    ClockTimeRoundTrip(1, 2, 3);
  }

  /** A single field is read as plain seconds: `time_to_seconds("5") == 5`. */
  lemma {:induction false} SingleField(n: nat)
    ensures TimeToSeconds(Decimal(n)) == Some(n)
  {
    var d := Decimal(n);
    assert Split(Strip(d), ':') == [d] by {
      StripKeeps(d);
      DigitsHaveNoColon(d);
      SplitNoSeparator(d, ':');
    }
    ParseDecimal(n);
    OneField(d, d, n);
  }

  lemma {:induction false} NegativeStripped(n: nat)
    ensures Strip("-" + Decimal(n)) == "-" + Decimal(n)
  {
    StripKeeps("-" + Decimal(n));
  }

  lemma {:induction false} NegativeSplit(n: nat)
    ensures Split("-" + Decimal(n), ':') == ["-" + Decimal(n)]
  {
    DigitsHaveNoColon(Decimal(n));
    assert ':' !in "-" + Decimal(n);
    SplitNoSeparator("-" + Decimal(n), ':');
  }

  /** `int()` takes a sign, so a negative single field is not rejected. */
  lemma {:induction false} NegativeSeconds(n: nat)
    ensures TimeToSeconds("-" + Decimal(n)) == Some(-(n as int))
  {
    NegativeStripped(n);
    NegativeSplit(n);
    ParseNegative(n);
    OneField("-" + Decimal(n), "-" + Decimal(n), -(n as int));
  }

  lemma {:induction false} MinutesNegativeStripped(m: nat, n: nat)
    ensures Strip(Decimal(m) + ":-" + Decimal(n)) == Decimal(m) + ":-" + Decimal(n)
  {
    var x := Decimal(m) + ":-" + Decimal(n);
    assert x[0] == Decimal(m)[0] && x[|x| - 1] == Decimal(n)[|Decimal(n)| - 1];
    StripKeeps(x);
  }

  lemma {:induction false} MinutesNegativeSplit(m: nat, n: nat)
    ensures Split(Decimal(m) + ":-" + Decimal(n), ':') == [Decimal(m), "-" + Decimal(n)]
  {
    var a, b := Decimal(m), "-" + Decimal(n);
    assert Decimal(m) + ":-" + Decimal(n) == a + [':'] + b;
    DigitsHaveNoColon(a);
    DigitsHaveNoColon(Decimal(n));
    assert ':' !in b;
    SplitAtFirst(a, b, ':');
    SplitNoSeparator(b, ':');
  }

  /** A negative seconds field is subtracted from the minutes. */
  lemma {:induction false} NegativeField(m: nat, n: nat)
    ensures TimeToSeconds(Decimal(m) + ":-" + Decimal(n)) == Some(60 * m - n)
  {
    MinutesNegativeStripped(m, n);
    MinutesNegativeSplit(m, n);
    ParseDecimal(m);
    ParseNegative(n);
    TwoFields(Decimal(m) + ":-" + Decimal(n), Decimal(m), "-" + Decimal(n), m, -(n as int));
  }

  /** `time_to_seconds("-5") == -5` and `time_to_seconds("1:-30") == 30`. */
  lemma {:induction false} SignedExamples()
    ensures TimeToSeconds("-5") == Some(-5)
    ensures TimeToSeconds("1:-30") == Some(30)
  {
    assert "-" + Decimal(5) == "-5";
    NegativeSeconds(5);
    assert Decimal(1) + ":-" + Decimal(30) == "1:-30";
    NegativeField(1, 30);
  }

  /** A blank timestamp (the empty string included) is malformed. */
  lemma {:induction false} BlankIsMalformed(blank: string)
    requires forall i :: 0 <= i < |blank| ==> IsSpace(blank[i])
    ensures TimeToSeconds(blank) == None
  {
    StripSpec(blank);
    assert Split([], ':') == [""];
    assert ParseInt("") == None;
  }

  lemma {:induction false} EmptyFieldSplit()
    ensures Split("1::2", ':') == ["1", "", "2"]
  {
    assert "1::2" == "1" + [':'] + "" + [':'] + "2";
    SplitThree("1", "", "2", ':');
  }

  /** An empty field between two colons is malformed. */
  lemma {:induction false} EmptyFieldIsMalformed()
    ensures TimeToSeconds("1::2") == None
  {
    assert Strip("1::2") == "1::2" by {
      StripKeeps("1::2");
    }
    EmptyFieldSplit();
    assert ParseInt("") == None;
    TimeToSecondsDefined("1::2", ["1", "", "2"]);
  }

  /** A separator control is dropped by the outer `strip()` but not by
      `int()`: `time_to_seconds("\x1f5")` is 5, while
      `time_to_seconds("1:\x1f5")` raises `ValueError`. */
  lemma {:induction false} SeparatorInField()
    ensures TimeToSeconds("\U{1F}5") == Some(5)
    ensures TimeToSeconds("1:\U{1F}5") == None
  {
    SeparatorNotSkipped();
    SplitNoSeparator("5", ':');
    assert Decimal(5) == "5";
    ParseDecimal(5);
    OneField("\U{1F}5", "5", 5);
    assert Strip("1:\U{1F}5") == "1:\U{1F}5" by {
      StripKeeps("1:\U{1F}5");
    }
    assert "1:\U{1F}5" == "1" + [':'] + "\U{1F}5";
    SplitAtFirst("1", "\U{1F}5", ':');
    SplitNoSeparator("\U{1F}5", ':');
    TimeToSecondsDefined("1:\U{1F}5", ["1", "\U{1F}5"]);
  }
}
