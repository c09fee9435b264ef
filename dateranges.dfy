/**
 * The three date-list builders of the dashboard's report dialog: the days of
 * a month, the days of an inclusive range, and the seven days of a numbered
 * week.  Each builds its list with a push loop, as the source does.
 */
module DateRanges {
  import opened Wrappers
  import opened Calendar

  /** The dates that lie between `start` and `end`, both included, for valid dates. */
  predicate InRange(d: Date, start: Date, end: Date)
    requires Valid(d) && Valid(start) && Valid(end)
  {
    Ordinal(start) <= Ordinal(d) <= Ordinal(end)
  }

  /** `getDatesForMonth(year, month)`: `month` is zero-based, as JavaScript's `getMonth()`. */
  method DatesForMonth(year: int, month: int) returns (dates: seq<Date>)
    requires 0 <= month < 12
    ensures |dates| == DaysInMonth(year, month + 1)
    ensures forall i :: 0 <= i < |dates| ==> dates[i] == Date(year, month + 1, i + 1) && Valid(dates[i])
    ensures forall i :: 0 <= i < |dates| - 1 ==> dates[i + 1] == Next(dates[i])
  {
    var daysInMonth := DaysInMonth(year, month + 1);
    dates := [];
    var day := 1;
    while day <= daysInMonth
      invariant 1 <= day <= daysInMonth + 1
      invariant |dates| == day - 1
      invariant forall i :: 0 <= i < |dates| ==> dates[i] == Date(year, month + 1, i + 1)
    {
      dates := dates + [Date(year, month + 1, day)];
      day := day + 1;
    }
  }

  /** Every date is valid and each one is the day after the one before it. */
  predicate Consecutive(dates: seq<Date>) {
    (forall i :: 0 <= i < |dates| ==> Valid(dates[i]))
    && (forall i :: 0 <= i < |dates| - 1 ==> dates[i + 1] == Next(dates[i]))
  }

  lemma ConsecutiveAppend(dates: seq<Date>, d: Date)
    requires Consecutive(dates) && Valid(d)
    requires dates != [] ==> Next(dates[|dates| - 1]) == d
    ensures Consecutive(dates + [d])
  {
    var r := dates + [d];
    assert forall i :: 0 <= i < |dates| ==> r[i] == dates[i];
  }

  /** The dates `start`, `start + 1`, ... are consecutive. */
  lemma DaysFromConsecutive(start: Date, dates: seq<Date>)
    requires Valid(start)
    requires forall i :: 0 <= i < |dates| ==> dates[i] == AddDays(start, i)
    ensures Consecutive(dates)
  {
    forall i | 0 <= i < |dates| - 1 ensures dates[i + 1] == Next(dates[i]) {
      AddDaysNext(start, i);
    }
  }

  lemma {:induction false} ConsecutiveOrdinals(dates: seq<Date>)
    requires dates != [] && Consecutive(dates)
    ensures forall i :: 0 <= i < |dates| ==> Ordinal(dates[i]) == Ordinal(dates[0]) + i
  {
    if |dates| > 1 {
      var init := dates[..|dates| - 1];
      assert Consecutive(init);
      ConsecutiveOrdinals(init);
      assert dates[|dates| - 1] == Next(init[|init| - 1]);
    }
  }

  /** A run of consecutive dates holds exactly the dates between its ends. */
  lemma ConsecutiveCovers(dates: seq<Date>)
    requires dates != [] && Consecutive(dates)
    ensures |dates| == Ordinal(dates[|dates| - 1]) - Ordinal(dates[0]) + 1
    ensures forall d :: Valid(d) ==> (d in dates <==> InRange(d, dates[0], dates[|dates| - 1]))
  {
    ConsecutiveOrdinals(dates);
    forall d | Valid(d) ensures d in dates <==> InRange(d, dates[0], dates[|dates| - 1]) {
      if InRange(d, dates[0], dates[|dates| - 1]) {
        var k := Ordinal(d) - Ordinal(dates[0]);
        LessIsChronological(dates[k], d);
      }
    }
  }

  /**
   * `getDatesInRange(startStr, endStr)`: `None` stands for a string that
   * `new Date` cannot parse (an empty date field), which makes every
   * comparison false and the list empty.
   */
  method DatesInRange(start: Option<Date>, end: Option<Date>) returns (dates: seq<Date>)
    requires start.Some? ==> Valid(start.value)
    requires end.Some? ==> Valid(end.value)
    ensures start.None? || end.None? ==> dates == []
    ensures Consecutive(dates)
    ensures start.Some? && end.Some? && Ordinal(start.value) > Ordinal(end.value) ==> dates == []
    ensures dates != [] ==> dates[0] == start.value && dates[|dates| - 1] == end.value
    ensures start.Some? && end.Some? ==>
      forall d :: Valid(d) ==> (d in dates <==> InRange(d, start.value, end.value))
  {
    dates := [];
    if start.None? || end.None? {
      return;
    }
    var first, last := start.value, end.value;
    var date := first;
    while Ordinal(date) <= Ordinal(last)
      invariant Valid(date)
      invariant Ordinal(date) == Ordinal(first) + |dates|
      invariant dates != [] ==> Ordinal(date) <= Ordinal(last) + 1
      invariant Consecutive(dates)
      invariant dates == [] ==> date == first
      invariant dates != [] ==> dates[0] == first && Next(dates[|dates| - 1]) == date
      decreases Ordinal(last) - Ordinal(date)
    {
      ConsecutiveAppend(dates, date);
      dates := dates + [date];
      date := Next(date);
    }
    if dates != [] {
      LessIsChronological(dates[|dates| - 1], last);
      ConsecutiveCovers(dates);
    } else {
      assert Ordinal(first) > Ordinal(last);
    }
  }

  /**
   * The Monday that `getDatesForWeek` takes as the first day of week `week`
   * of `year`: January 1st moved back to the Monday on or before it, then
   * forward by whole weeks.
   */
  function WeekStart(year: int, week: int): (r: Date)
    ensures Valid(r)
  {
    var jan1 := Date(year, 1, 1);
    var daysOffset := if Weekday(jan1) == 0 then 7 else Weekday(jan1);
    AddDays(jan1, (week - 1) * 7 - (daysOffset - 1))
  }

  lemma WeekStartIsMonday(year: int, week: int)
    ensures Weekday(WeekStart(year, week)) == 1
  {
    var jan1 := Date(year, 1, 1);
    var j := Weekday(jan1);
    var q := (Ordinal(jan1) + 4) / 7;
    assert Ordinal(jan1) + 4 == 7 * q + j;
    var k := if j == 0 then q + week - 2 else q + week - 1;
    assert Ordinal(WeekStart(year, week)) + 4 == 7 * k + 1;
    ModSevenShift(1, k);
  }

  /** Week 1 is the week that holds January 1st. */
  lemma JanuaryFirstInWeekOne(year: int, dates: seq<Date>)
    requires |dates| == 7
    requires forall i :: 0 <= i < 7 ==> dates[i] == AddDays(WeekStart(year, 1), i)
    ensures Date(year, 1, 1) in dates
  {
    var jan1 := Date(year, 1, 1);
    var daysOffset := if Weekday(jan1) == 0 then 7 else Weekday(jan1);
    LessIsChronological(dates[daysOffset - 1], jan1);
  }

  /** `getDatesForWeek(year, week)`: seven consecutive dates from a Monday. */
  method DatesForWeek(year: int, week: int) returns (dates: seq<Date>)
    ensures |dates| == 7
    ensures forall i :: 0 <= i < 7 ==> dates[i] == AddDays(WeekStart(year, week), i)
    ensures Consecutive(dates)
    ensures Weekday(dates[0]) == 1
  {
    var firstWeekStart := WeekStart(year, week);
    dates := [];
    for i := 0 to 7
      invariant |dates| == i
      invariant forall k :: 0 <= k < i ==> dates[k] == AddDays(firstWeekStart, k)
    {
      dates := dates + [AddDays(firstWeekStart, i)];
    }
    DaysFromConsecutive(firstWeekStart, dates);
    WeekStartIsMonday(year, week);
  }
}
