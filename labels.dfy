/**
 * The `YYYY-Www` and `YYYY-MM` labels that preselect the weekly and monthly
 * reports, and the `split`/`parseInt` code that reads a year, a week and a
 * month back out of them.
 */
module Labels {
  import opened Wrappers
  import opened Calendar
  import opened DateRanges

  predicate IsDigit(c: char) {
    '0' <= c <= '9'
  }

  predicate AllDigits(s: string) {
    forall i :: 0 <= i < |s| ==> IsDigit(s[i])
  }

  function DigitChar(n: nat): (c: char)
    requires n < 10
    ensures IsDigit(c)
    ensures c == '0' <==> n == 0
  {
    ('0' as int + n) as char
  }

  function DigitValue(c: char): (n: nat)
    requires IsDigit(c)
    ensures n < 10
  {
    c as int - '0' as int
  }

  /** `String(n)` for a non-negative integer: decimal, no leading zeros. */
  function NatToString(n: nat): (s: string)
    ensures |s| >= 1 && AllDigits(s)
    ensures |s| > 1 ==> s[0] != '0'
    ensures s[0] == '0' <==> n == 0
  {
    if n < 10 then [DigitChar(n)] else NatToString(n / 10) + [DigitChar(n % 10)]
  }

  /** `String(n)` for any integer. */
  function IntToString(n: int): (s: string)
    ensures |s| >= 1
    ensures s[0] == '-' <==> n < 0
    ensures n >= 0 ==> AllDigits(s)
  {
    if n < 0 then "-" + NatToString(-n) else NatToString(n)
  }

  /** `s.padStart(2, '0')`. */
  function PadStart2(s: string): (r: string)
    ensures |r| == if |s| < 2 then 2 else |s|
  {
    if |s| == 0 then "00" else if |s| == 1 then "0" + s else s
  }

  /** The number a string of digits denotes. */
  function DigitsValue(ds: string): nat
    requires AllDigits(ds)
  {
    if |ds| == 0 then 0 else DigitsValue(ds[..|ds| - 1]) * 10 + DigitValue(ds[|ds| - 1])
  }

  /** The longest prefix of `s` made of digits. */
  function LeadingDigits(s: string): (r: string)
    ensures AllDigits(r) && r <= s
    ensures |r| < |s| ==> !IsDigit(s[|r|])
  {
    if |s| == 0 || !IsDigit(s[0]) then [] else [s[0]] + LeadingDigits(s[1..])
  }

  /**
   * `parseInt(s)` for a string without leading white space or sign: the value
   * of its leading digits, `None` (NaN) when it has none.
   */
  function ParseInt(s: string): (r: Option<int>)
    ensures r.None? <==> |s| == 0 || !IsDigit(s[0])
    ensures r.Some? ==> r.value >= 0
  {
    var ds := LeadingDigits(s);
    if ds == [] then None else Some(DigitsValue(ds))
  }

  /** `s.split(sep)` for a one-character separator. */
  function Split(s: string, sep: char): (parts: seq<string>)
    ensures |parts| >= 1
  {
    if |s| == 0 then [""]
    else
      var rest := Split(s[1..], sep);
      if s[0] == sep then [""] + rest else [[s[0]] + rest[0]] + rest[1..]
  }

  /** `parts[k]`: `None` is the `undefined` of an index past the end. */
  function Part(parts: seq<string>, k: nat): (p: Option<string>)
    ensures p.None? <==> k >= |parts|
    ensures p.Some? ==> p.value == parts[k]
  {
    if k < |parts| then Some(parts[k]) else None
  }

  /** `parseInt` of a part that may be `undefined`, which is NaN. */
  function ParsePart(p: Option<string>): (r: Option<int>)
    ensures p.None? ==> r.None?
    ensures r.Some? ==> r.value >= 0
  {
    if p.None? then None else ParseInt(p.value)
  }

  /** Days since January 1st of the same year: `Math.floor((now - startOfYear) / day)`. */
  function DayOfYear(d: Date): (n: int)
    requires Valid(d)
    ensures 0 <= n < YearLength(d.year)
  {
    DaysBeforeMonthMonotone(d.year, d.month, 13);
    DaysBeforeMonthStep(d.year, 12);
    Ordinal(d) - Ordinal(Date(d.year, 1, 1))
  }

  /** `Math.ceil((days + 1) / 7)` in `getCurrentWeek`: weeks counted from January 1st. */
  function WeekNumberAsWritten(d: Date): (w: int)
    requires Valid(d)
    ensures 1 <= w <= 53
  {
    (DayOfYear(d) + 1 + 6) / 7
  }

  /** The week that `getCurrentWeek` numbers 1 need not be the one `getDatesForWeek` lists: Monday 1970-01-05 is left out. */
  lemma WeekNumberAsWrittenMissesToday()
    ensures var d := Date(1970, 1, 5);
      WeekNumberAsWritten(d) == 1
      && forall i :: 0 <= i < 7 ==> AddDays(WeekStart(1970, WeekNumberAsWritten(d)), i) != d
  {
    var d := Date(1970, 1, 5);
    assert DayOfYear(d) == 4;
    assert Weekday(Date(1970, 1, 1)) == 4;
    assert Ordinal(WeekStart(1970, 1)) == -3;
  }

  /**
   * The week number that `getDatesForWeek` reads back as the week holding
   * `d`: the Mondays-first weeks, week 1 holding January 1st.
   */
  function WeekNumber(d: Date): (w: int)
    requires Valid(d)
    ensures 1 <= w <= 54
  {
    var jan1 := Date(d.year, 1, 1);
    var daysOffset := if Weekday(jan1) == 0 then 7 else Weekday(jan1);
    (DayOfYear(d) + daysOffset - 1) / 7 + 1
  }

  /** The week the label names holds `d`. */
  lemma WeekNumberHoldsToday(d: Date)
    requires Valid(d)
    ensures exists k :: 0 <= k < 7 && AddDays(WeekStart(d.year, WeekNumber(d)), k) == d
  {
    var jan1 := Date(d.year, 1, 1);
    var daysOffset := if Weekday(jan1) == 0 then 7 else Weekday(jan1);
    var n := DayOfYear(d) + daysOffset - 1;
    var start := WeekStart(d.year, WeekNumber(d));
    assert Ordinal(start) == Ordinal(jan1) + (n / 7) * 7 - (daysOffset - 1);
    var k := n % 7;
    assert n == (n / 7) * 7 + k;
    assert Ordinal(AddDays(start, k)) == Ordinal(d);
    LessIsChronological(AddDays(start, k), d);
  }

  /** The label of week `week` of `year`: the year, `-W` and the week number padded to two digits. */
  function WeekLabelFor(year: int, week: nat): string {
    IntToString(year) + "-W" + PadStart2(NatToString(week))
  }

  /** `getCurrentWeek()` as written, with weeks counted from January 1st. */
  function WeekLabelAsWritten(d: Date): string
    requires Valid(d)
  {
    WeekLabelFor(d.year, WeekNumberAsWritten(d))
  }

  /** The corrected default week label, numbered as `getDatesForWeek` reads it. */
  function WeekLabel(d: Date): string
    requires Valid(d)
  {
    WeekLabelFor(d.year, WeekNumber(d))
  }

  /** The month picker's default: the year, `-` and the two-digit one-based month. */
  function MonthLabel(d: Date): string
    requires Valid(d)
  {
    IntToString(d.year) + "-" + PadStart2(NatToString(d.month))
  }

  datatype Selection = Selection(year: Option<int>, index: Option<int>)

  /** `parseInt(s.split('-')[0])` and `parseInt(s.split('W')[1])`. */
  function ParseWeekLabel(s: string): (r: Selection)
    ensures r.year.Some? ==> r.year.value >= 0
    ensures r.index.Some? ==> r.index.value >= 0
    ensures r.year.None? <==> |s| == 0 || !IsDigit(s[0])
  {
    Selection(ParsePart(Part(Split(s, '-'), 0)), ParsePart(Part(Split(s, 'W'), 1)))
  }

  /** `parseInt(s.split('-')[0])` and `parseInt(s.split('-')[1]) - 1` (NaN stays NaN). */
  function ParseMonthLabel(s: string): (r: Selection)
    ensures r.year.Some? ==> r.year.value >= 0
    ensures r.index.Some? ==> r.index.value >= -1
    ensures r.year.None? <==> |s| == 0 || !IsDigit(s[0])
  {
    var month := ParsePart(Part(Split(s, '-'), 1));
    Selection(ParsePart(Part(Split(s, '-'), 0)), if month.None? then None else Some(month.value - 1))
  }

  lemma {:induction false} DigitsValueOfNatToString(n: nat)
    ensures DigitsValue(NatToString(n)) == n
  {
    if n >= 10 {
      var s := NatToString(n / 10);
      var t := s + [DigitChar(n % 10)];
      assert t[..|t| - 1] == s;
      DigitsValueOfNatToString(n / 10);
    }
  }

  lemma {:induction false} LeadingZero(ds: string)
    requires AllDigits(ds)
    ensures DigitsValue("0" + ds) == DigitsValue(ds)
    decreases |ds|
  {
    if |ds| > 0 {
      var init := ds[..|ds| - 1];
      assert ("0" + ds)[..|ds|] == "0" + init;
      LeadingZero(init);
    }
  }

  lemma {:induction false} LeadingDigitsOfDigits(ds: string, rest: string)
    requires AllDigits(ds)
    requires rest == [] || !IsDigit(rest[0])
    ensures LeadingDigits(ds + rest) == ds
    decreases |ds|
  {
    if |ds| > 0 {
      assert (ds + rest)[1..] == ds[1..] + rest;
      LeadingDigitsOfDigits(ds[1..], rest);
    }
  }

  lemma {:induction false} SplitWithout(s: string, sep: char)
    requires sep !in s
    ensures Split(s, sep) == [s]
    decreases |s|
  {
    if |s| > 0 {
      assert sep !in s[1..] by { assert forall c :: c in s[1..] ==> c in s; }
      SplitWithout(s[1..], sep);
      assert [s[0]] + s[1..] == s;
    }
  }

  lemma {:induction false} SplitAtFirst(a: string, b: string, sep: char)
    requires sep !in a
    ensures Split(a + [sep] + b, sep) == [a] + Split(b, sep)
    decreases |a|
  {
    if |a| > 0 {
      assert (a + [sep] + b)[1..] == a[1..] + [sep] + b;
      assert sep !in a[1..] by { assert forall c :: c in a[1..] ==> c in a; }
      SplitAtFirst(a[1..], b, sep);
      assert [a[0]] + a[1..] == a;
    } else {
      assert (a + [sep] + b)[1..] == b;
    }
  }

  /** A two-digit-padded number parses back to itself. */
  lemma ParsePadded(n: nat)
    ensures ParseInt(PadStart2(NatToString(n))) == Some(n)
  {
    var s := NatToString(n);
    DigitsValueOfNatToString(n);
    if |s| == 1 {
      LeadingZero(s);
    }
    LeadingDigitsOfDigits(PadStart2(s), []);
    assert PadStart2(s) + [] == PadStart2(s);
  }

  /** A week label reads back as the same year and week number, for every week number. */
  lemma WeekLabelForRoundTrip(year: int, week: nat)
    requires year >= 0
    ensures ParseWeekLabel(WeekLabelFor(year, week)) == Selection(Some(year), Some(week))
  {
    var y := NatToString(year);
    var p := PadStart2(NatToString(week));
    var text := WeekLabelFor(year, week);
    assert text == y + ['-'] + (['W'] + p);
    assert text == (y + ['-']) + ['W'] + p;
    assert '-' !in y && 'W' !in y && 'W' !in y + ['-'];
    assert 'W' !in p by { assert AllDigits(p); }
    SplitAtFirst(y, ['W'] + p, '-');
    SplitWithout(['W'] + p, '-');
    SplitAtFirst(y + ['-'], p, 'W');
    SplitWithout(p, 'W');
    DigitsValueOfNatToString(year);
    LeadingDigitsOfDigits(y, []);
    assert y + [] == y;
    ParsePadded(week);
  }

  /** The label `getCurrentWeek` builds reads back as the year and its own week number. */
  lemma WeekLabelAsWrittenRoundTrip(d: Date)
    requires Valid(d) && d.year >= 0
    ensures ParseWeekLabel(WeekLabelAsWritten(d)) == Selection(Some(d.year), Some(WeekNumberAsWritten(d)))
  {
    WeekLabelForRoundTrip(d.year, WeekNumberAsWritten(d));
  }

  /** The corrected label reads back as the year and the week that holds the date. */
  lemma WeekLabelRoundTrip(d: Date)
    requires Valid(d) && d.year >= 0
    ensures ParseWeekLabel(WeekLabel(d)) == Selection(Some(d.year), Some(WeekNumber(d)))
  {
    WeekLabelForRoundTrip(d.year, WeekNumber(d));
  }

  /** The default month label reads back as the same year and zero-based month. */
  lemma MonthLabelRoundTrip(d: Date)
    requires Valid(d) && d.year >= 0
    ensures ParseMonthLabel(MonthLabel(d)) == Selection(Some(d.year), Some(d.month - 1))
  {
    var y := NatToString(d.year);
    var p := PadStart2(NatToString(d.month));
    assert MonthLabel(d) == y + ['-'] + p;
    assert '-' !in y;
    assert '-' !in p by { assert AllDigits(p); }
    SplitAtFirst(y, p, '-');
    SplitWithout(p, '-');
    DigitsValueOfNatToString(d.year);
    LeadingDigitsOfDigits(y, []);
    assert y + [] == y;
    ParsePadded(d.month);
  }
}
