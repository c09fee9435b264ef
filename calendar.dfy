/**
 * Calendar dates as the dashboard uses them: the `YYYY-MM-DD` keys of the
 * history map, and the day arithmetic that JavaScript's `Date` performs when
 * the code calls `setDate(getDate() + k)` or builds `new Date(y, m, d)` with
 * an out-of-range day.  A date is a (year, month, day) triple in the proleptic
 * Gregorian calendar; `Ordinal` numbers days from 1970-01-01, which is the
 * JavaScript time value divided by the length of a day.
 */
module Calendar {

  datatype Date = Date(year: int, month: int, day: int)

  predicate IsLeapYear(y: int) {
    (y % 4 == 0 && y % 100 != 0) || y % 400 == 0
  }

  /** `new Date(year, month + 1, 0).getDate()` for a one-based month. */
  function DaysInMonth(y: int, m: int): (n: int)
    requires 1 <= m <= 12
    ensures 28 <= n <= 31
    ensures n == 29 <==> m == 2 && IsLeapYear(y)
    ensures n == 28 <==> m == 2 && !IsLeapYear(y)
  {
    if m == 2 then (if IsLeapYear(y) then 29 else 28)
    else if m == 4 || m == 6 || m == 9 || m == 11 then 30
    else 31
  }

  function YearLength(y: int): int {
    if IsLeapYear(y) then 366 else 365
  }

  predicate Valid(d: Date) {
    1 <= d.month <= 12 && 1 <= d.day <= DaysInMonth(d.year, d.month)
  }

  /** Days of year `y` before the first of month `m` (m == 13: the whole year). */
  function DaysBeforeMonth(y: int, m: int): (n: int)
    requires 1 <= m <= 13
  {
    var leap := if IsLeapYear(y) && m > 2 then 1 else 0;
    leap +
    (if m == 1 then 0 else if m == 2 then 31 else if m == 3 then 59
     else if m == 4 then 90 else if m == 5 then 120 else if m == 6 then 151
     else if m == 7 then 181 else if m == 8 then 212 else if m == 9 then 243
     else if m == 10 then 273 else if m == 11 then 304 else if m == 12 then 334
     else 365)
  }

  lemma DaysBeforeMonthStep(y: int, m: int)
    requires 1 <= m <= 12
    ensures DaysBeforeMonth(y, m + 1) == DaysBeforeMonth(y, m) + DaysInMonth(y, m)
    ensures DaysBeforeMonth(y, 13) == YearLength(y)
  {
  }

  lemma DaysBeforeMonthMonotone(y: int, m1: int, m2: int)
    requires 1 <= m1 < m2 <= 13
    ensures DaysBeforeMonth(y, m1) + DaysInMonth(y, m1) <= DaysBeforeMonth(y, m2)
  {
    DaysBeforeMonthStep(y, m1);
  }

  /** Days from 1970-01-01 to January 1st of year `y` (negative before 1970). */
  function DaysBeforeYear(y: int): int
    decreases if y >= 1970 then y - 1970 else 1970 - y
  {
    if y == 1970 then 0
    else if y > 1970 then DaysBeforeYear(y - 1) + YearLength(y - 1)
    else DaysBeforeYear(y + 1) - YearLength(y)
  }

  lemma DaysBeforeYearStep(y: int)
    ensures DaysBeforeYear(y + 1) == DaysBeforeYear(y) + YearLength(y)
  {
  }

  lemma {:induction false} DaysBeforeYearMonotone(y1: int, y2: int)
    requires y1 < y2
    ensures DaysBeforeYear(y1) + YearLength(y1) <= DaysBeforeYear(y2)
    decreases y2 - y1
  {
    DaysBeforeYearStep(y1);
    if y1 + 1 < y2 {
      DaysBeforeYearMonotone(y1 + 1, y2);
      DaysBeforeYearStep(y2 - 1);
    }
  }

  /** The day number of `d`: 0 for 1970-01-01. */
  function Ordinal(d: Date): int
    requires 1 <= d.month <= 12
  {
    DaysBeforeYear(d.year) + DaysBeforeMonth(d.year, d.month) + d.day - 1
  }

  /** JavaScript's `getDay()`: 0 for Sunday, ..., 6 for Saturday (1970-01-01 was a Thursday). */
  function Weekday(d: Date): (w: int)
    requires Valid(d)
    ensures 0 <= w < 7
  {
    (Ordinal(d) + 4) % 7
  }

  /** The order in which the history's `YYYY-MM-DD` keys sort as strings. */
  predicate Less(a: Date, b: Date) {
    a.year < b.year
    || (a.year == b.year && a.month < b.month)
    || (a.year == b.year && a.month == b.month && a.day < b.day)
  }

  /** The key order and the chronological order (`Date` comparison) agree. */
  lemma LessIsChronological(a: Date, b: Date)
    requires Valid(a) && Valid(b)
    ensures Less(a, b) <==> Ordinal(a) < Ordinal(b)
    ensures Ordinal(a) == Ordinal(b) <==> a == b
  {
    if Less(a, b) {
      OrdinalStrictlyIncreasing(a, b);
    } else if Less(b, a) {
      OrdinalStrictlyIncreasing(b, a);
    }
  }

  lemma OrdinalStrictlyIncreasing(a: Date, b: Date)
    requires Valid(a) && Valid(b) && Less(a, b)
    ensures Ordinal(a) < Ordinal(b)
  {
    if a.year < b.year {
      DaysBeforeMonthStep(a.year, 12);
      DaysBeforeMonthMonotone(a.year, a.month, 13);
      DaysBeforeYearMonotone(a.year, b.year);
    } else if a.month < b.month {
      DaysBeforeMonthMonotone(a.year, a.month, b.month);
    }
  }

  /** The day after `d`, as `setDate(getDate() + 1)` computes it. */
  function Next(d: Date): (r: Date)
    requires Valid(d)
    ensures Valid(r) && Ordinal(r) == Ordinal(d) + 1
  {
    DaysBeforeMonthStep(d.year, d.month);
    DaysBeforeYearStep(d.year);
    if d.day < DaysInMonth(d.year, d.month) then Date(d.year, d.month, d.day + 1)
    else if d.month < 12 then Date(d.year, d.month + 1, 1)
    else Date(d.year + 1, 1, 1)
  }

  /** The day before `d`, as `setDate(getDate() - 1)` computes it. */
  function Prev(d: Date): (r: Date)
    requires Valid(d)
    ensures Valid(r) && Ordinal(r) == Ordinal(d) - 1
  {
    DaysBeforeYearStep(d.year - 1);
    if d.day > 1 then Date(d.year, d.month, d.day - 1)
    else if d.month > 1 then
      DaysBeforeMonthStep(d.year, d.month - 1);
      Date(d.year, d.month - 1, DaysInMonth(d.year, d.month - 1))
    else
      DaysBeforeMonthStep(d.year - 1, 12);
      Date(d.year - 1, 12, 31)
  }

  lemma NextPrev(d: Date)
    requires Valid(d)
    ensures Next(Prev(d)) == d && Prev(Next(d)) == d
  {
    LessIsChronological(Next(Prev(d)), d);
    LessIsChronological(Prev(Next(d)), d);
  }

  /** `k` days after `d` (before it when `k` is negative), as `setDate(getDate() + k)`. */
  function AddDays(d: Date, k: int): (r: Date)
    requires Valid(d)
    ensures Valid(r) && Ordinal(r) == Ordinal(d) + k
    decreases if k >= 0 then k else -k
  {
    if k == 0 then d
    else if k > 0 then AddDays(Next(d), k - 1)
    else AddDays(Prev(d), k + 1)
  }

  /** One more day is the next day. */
  lemma AddDaysNext(d: Date, k: int)
    requires Valid(d)
    ensures AddDays(d, k + 1) == Next(AddDays(d, k))
  {
    LessIsChronological(AddDays(d, k + 1), Next(AddDays(d, k)));
  }

  /** 1970-01-01, day 0, was a Thursday. */
  lemma ThursdayEpoch()
    ensures Valid(Date(1970, 1, 1)) && Ordinal(Date(1970, 1, 1)) == 0 && Weekday(Date(1970, 1, 1)) == 4
  {
  }

  /** Moving `k` days moves the weekday by `k` modulo 7. */
  lemma WeekdayOffset(d: Date, e: Date, k: int)
    requires Valid(d) && Valid(e) && Ordinal(e) == Ordinal(d) + k
    ensures Weekday(e) == (Weekday(d) + k) % 7
  {
    ModSevenAdd(Ordinal(d) + 4, k);
  }

  lemma ModSevenAdd(a: int, k: int)
    ensures (a % 7 + k) % 7 == (a + k) % 7
  {
    var q := a / 7;
    assert a == 7 * q + a % 7;
    ModSevenShift(a % 7 + k, q);
  }

  lemma ModSevenShift(x: int, q: int)
    ensures (7 * q + x) % 7 == x % 7
  {
    var r := x % 7;
    var p := x / 7;
    assert x == 7 * p + r;
    assert 7 * q + x == 7 * (q + p) + r;
  }
}
