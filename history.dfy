/**
 * The aggregations over the stored history that the stats panel, the charts,
 * the heatmap and the reports show: the daily streak, the average of the last
 * seven tracked days, the seven calendar days up to today, the month's list
 * with its average, best run and buckets, the week-of-month trend and the
 * heatmap grid.  The clock's "today" is a parameter.
 */
module History {
  import opened Wrappers
  import opened Calendar
  import opened Metrics
  import opened Records

  /** The completion percentage of a tracked day. */
  function Percent(h: History, s: Settings, d: Date): (p: nat)
    requires Tracked(h) && d in h
  {
    CompletionPercent(CompletedCount(h[d].morningRoutine.value), RoutineTarget(s))
  }

  /** Every tracked day's count is within the target, so no percentage exceeds 100. */
  predicate WithinTarget(h: History, s: Settings)
    requires Tracked(h)
  {
    forall d :: d in h ==> CompletedCount(h[d].morningRoutine.value) <= RoutineTarget(s)
  }

  lemma PercentAtMostHundredWhenWithinTarget(h: History, s: Settings, d: Date)
    requires Tracked(h) && WithinTarget(h, s) && d in h
    ensures Percent(h, s, d) <= 100
  {
    PercentAtMostHundred(CompletedCount(h[d].morningRoutine.value), RoutineTarget(s));
  }

  /** A day that keeps the daily streak going: tracked and at 50% or more. */
  predicate Qualifies(h: History, s: Settings, d: Date)
    requires Tracked(h)
  {
    d in h && Active(Percent(h, s, d))
  }

  // Ordering the keys: `Object.keys(history).sort()`.  The keys are
  // `YYYY-MM-DD` strings, whose string order is `Less`.

  predicate SortedByDate(dates: seq<Date>) {
    forall i, j :: 0 <= i < j < |dates| ==> Less(dates[i], dates[j])
  }

  lemma LessTotal(a: Date, b: Date)
    ensures a == b || Less(a, b) || Less(b, a)
    ensures !(Less(a, b) && Less(b, a))
  {
  }

  lemma LessTransitive(a: Date, b: Date, c: Date)
    requires Less(a, b) && Less(b, c)
    ensures Less(a, c)
  {
  }

  lemma {:induction false} EarliestOf(keys: set<Date>) returns (m: Date)
    requires keys != {}
    ensures m in keys && forall d :: d in keys && d != m ==> Less(m, d)
    decreases |keys|
  {
    var x :| x in keys;
    var rest := keys - {x};
    if rest == {} {
      m := x;
      assert keys == {x};
    } else {
      var r := EarliestOf(rest);
      LessTotal(x, r);
      if Less(x, r) {
        m := x;
        forall d | d in keys && d != x
          ensures Less(x, d)
        {
          if d != r {
            LessTransitive(x, r, d);
          }
        }
      } else {
        m := r;
      }
    }
  }

  lemma EarliestExists(keys: set<Date>)
    requires keys != {}
    ensures exists m :: m in keys && forall d :: d in keys && d != m ==> Less(m, d)
  {
    var m := EarliestOf(keys);
  }

  function Earliest(keys: set<Date>): (m: Date)
    requires keys != {}
    ensures m in keys && forall d :: d in keys && d != m ==> Less(m, d)
  {
    EarliestExists(keys);
    var m :| m in keys && forall d :: d in keys && d != m ==> Less(m, d);
    m
  }

  /** The keys in ascending date order, each once. */
  function SortedKeys(keys: set<Date>): (r: seq<Date>)
    ensures |r| == |keys|
    ensures forall d :: d in r <==> d in keys
    decreases |keys|
  {
    if keys == {} then []
    else
      var m := Earliest(keys);
      [m] + SortedKeys(keys - {m})
  }

  lemma {:induction false} SortedKeysAscend(keys: set<Date>)
    ensures SortedByDate(SortedKeys(keys))
    decreases |keys|
  {
    if keys != {} {
      var m := Earliest(keys);
      SortedKeysAscend(keys - {m});
      var rest := SortedKeys(keys - {m});
      assert SortedKeys(keys) == [m] + rest;
      forall i, j | 0 <= i < j < |SortedKeys(keys)|
        ensures Less(SortedKeys(keys)[i], SortedKeys(keys)[j])
      {
        if i > 0 {
          assert SortedKeys(keys)[i] == rest[i - 1] && SortedKeys(keys)[j] == rest[j - 1];
        } else {
          assert rest[j - 1] in keys - {m};
        }
      }
    }
  }

  /** `dates.slice(-7)`. */
  function LastSeven(dates: seq<Date>): (r: seq<Date>)
    ensures |r| == if |dates| < 7 then |dates| else 7
    ensures forall d :: d in r ==> d in dates
  {
    if |dates| <= 7 then dates else dates[|dates| - 7..]
  }

  /** What is kept is a tail of `dates`, in its order: the last `|r|` of them. */
  lemma LastSevenIsTail(dates: seq<Date>)
    ensures LastSeven(dates) == dates[|dates| - |LastSeven(dates)|..]
    ensures forall i :: 0 <= i < |LastSeven(dates)| ==> LastSeven(dates)[i] == dates[|dates| - |LastSeven(dates)| + i]
  {
  }

  /** The seven dates kept are the latest tracked ones: every key left out is earlier than each kept. */
  lemma LastSevenAreLatest(keys: set<Date>)
    ensures forall d :: d in LastSeven(SortedKeys(keys)) ==> d in keys
    ensures forall d, e :: d in keys && d !in LastSeven(SortedKeys(keys)) && e in LastSeven(SortedKeys(keys)) ==> Less(d, e)
  {
    var all := SortedKeys(keys);
    SortedKeysAscend(keys);
    var kept := LastSeven(all);
    if |all| > 7 {
      var n := |all| - 7;
      forall d, e | d in keys && d !in kept && e in kept
        ensures Less(d, e)
      {
        assert forall k :: n <= k < |all| ==> all[k] == kept[k - n];
        var i :| 0 <= i < |all| && all[i] == d;
        var j :| 0 <= j < |kept| && kept[j] == e;
        assert kept[j] == all[n + j];
        assert i < n;
      }
    }
  }

  /** The percentages of the given tracked days, in order. */
  function Percents(h: History, s: Settings, dates: seq<Date>): (v: seq<nat>)
    requires Tracked(h) && forall d :: d in dates ==> d in h
    ensures |v| == |dates|
  {
    if |dates| == 0 then []
    else Percents(h, s, dates[..|dates| - 1]) + [Percent(h, s, dates[|dates| - 1])]
  }

  /** The `i`-th value is the `i`-th date's percentage. */
  lemma {:induction false} PercentsAt(h: History, s: Settings, dates: seq<Date>, i: nat)
    requires Tracked(h) && (forall d :: d in dates ==> d in h) && i < |dates|
    ensures Percents(h, s, dates)[i] == Percent(h, s, dates[i])
  {
    if i < |dates| - 1 {
      PercentsAt(h, s, dates[..|dates| - 1], i);
    }
  }

  lemma PercentsAtMostHundred(h: History, s: Settings, dates: seq<Date>)
    requires Tracked(h) && WithinTarget(h, s) && forall d :: d in dates ==> d in h
    ensures forall i :: 0 <= i < |dates| ==> Percents(h, s, dates)[i] <= 100
  {
    forall i | 0 <= i < |dates|
      ensures Percents(h, s, dates)[i] <= 100
    {
      PercentsAt(h, s, dates, i);
      PercentAtMostHundredWhenWithinTarget(h, s, dates[i]);
    }
  }

  /** The day `k` days before `today`. */
  function DaysBack(today: Date, k: nat): (d: Date)
    requires Valid(today)
    ensures Valid(d) && Ordinal(d) == Ordinal(today) - k
  {
    AddDays(today, -(k as int))
  }

  lemma DaysBackStep(today: Date, k: nat)
    requires Valid(today)
    ensures DaysBack(today, 0) == today
    ensures Prev(DaysBack(today, k)) == DaysBack(today, k + 1)
  {
    LessIsChronological(DaysBack(today, 0), today);
    LessIsChronological(Prev(DaysBack(today, k)), DaysBack(today, k + 1));
  }

  /** Today and the `n - 1` days before it all qualify. */
  predicate QualifyingRun(h: History, s: Settings, today: Date, n: nat)
    requires Tracked(h) && Valid(today)
  {
    forall k: nat :: k < n ==> Qualifies(h, s, DaysBack(today, k))
  }

  lemma QualifyingRunGrows(h: History, s: Settings, today: Date, n: nat)
    requires Tracked(h) && Valid(today)
    requires QualifyingRun(h, s, today, n) && Qualifies(h, s, DaysBack(today, n))
    ensures QualifyingRun(h, s, today, n + 1)
  {
  }

  /**
   * The streak on the stats panel: walking back from today, the number of
   * consecutive qualifying days, looking at 30 days at most.
   */
  method DailyStreak(h: History, s: Settings, today: Date) returns (streak: nat)
    requires Tracked(h) && Valid(today)
    ensures streak <= 30
    ensures QualifyingRun(h, s, today, streak)
    ensures streak < 30 ==> !Qualifies(h, s, DaysBack(today, streak))
  {
    streak := 0;
    var checkDate := today;
    DaysBackStep(today, 0);
    var i := 0;
    while i < 30
      invariant 0 <= i <= 30 && streak == i
      invariant Valid(checkDate) && checkDate == DaysBack(today, i)
      invariant QualifyingRun(h, s, today, streak)
    {
      if Qualifies(h, s, checkDate) {
        QualifyingRunGrows(h, s, today, streak);
        streak := streak + 1;
      } else {
        break;
      }
      DaysBackStep(today, i);
      checkDate := Prev(checkDate);
      i := i + 1;
    }
  }

  /** The percentages of the last seven tracked days, oldest first. */
  function LastSevenPercents(h: History, s: Settings): (v: seq<nat>)
    requires Tracked(h)
    ensures |v| <= 7
    ensures |v| == 0 <==> |h| == 0
  {
    Percents(h, s, LastSeven(SortedKeys(h.Keys)))
  }

  /** The weekly average on the stats panel: the rounded mean over the last seven tracked days, 0 with no history. */
  method TrackedWeekAverage(h: History, s: Settings) returns (average: nat)
    requires Tracked(h)
    ensures |h| == 0 ==> average == 0
    ensures |h| > 0 ==> average == Mean(LastSevenPercents(h, s))
  {
    var dates := SortedKeys(h.Keys);
    if |dates| == 0 {
      return 0;
    }
    var last7 := LastSeven(dates);
    ghost var values := LastSevenPercents(h, s);
    var total, count := 0, 0;
    for i := 0 to |last7|
      invariant count == i
      invariant total == Sum(values[..i])
    {
      SumOfLonger(values, i);
      PercentsAt(h, s, last7, i);
      total := total + Percent(h, s, last7[i]);
      count := count + 1;
    }
    assert values[..|last7|] == values;
    average := RoundDiv(total, count);
  }

  lemma TrackedWeekAverageAtMostHundred(h: History, s: Settings)
    requires Tracked(h) && WithinTarget(h, s) && |h| > 0
    ensures Mean(LastSevenPercents(h, s)) <= 100
  {
    PercentsAtMostHundred(h, s, LastSeven(SortedKeys(h.Keys)));
    MeanAtMost(LastSevenPercents(h, s), 100);
  }

  /**
   * The weekly report's figures over the last seven tracked days: no average
   * with no history, else the rounded mean, and the trailing run at 50% or more.
   */
  method WeekReport(h: History, s: Settings) returns (average: Option<nat>, streak: nat)
    requires Tracked(h)
    ensures average.None? <==> |h| == 0
    ensures average.Some? ==> average.value == Mean(LastSevenPercents(h, s))
    ensures streak <= |LastSevenPercents(h, s)| <= 7
    ensures RunAt(LastSevenPercents(h, s), |LastSevenPercents(h, s)| - streak, streak)
    ensures streak < |LastSevenPercents(h, s)| ==> !Active(LastSevenPercents(h, s)[|LastSevenPercents(h, s)| - streak - 1])
  {
    var v := LastSevenPercents(h, s);
    if |v| == 0 {
      average := None;
    } else {
      average := Some(Mean(v));
    }
    streak := TrailingStreak(v);
  }

  /** The chart value of a calendar day: its percentage when tracked, 0 otherwise. */
  function PercentOrZero(h: History, s: Settings, d: Date): (p: nat)
    requires Tracked(h)
    ensures d !in h ==> p == 0
    ensures d in h ==> p == Percent(h, s, d)
  {
    if d in h then Percent(h, s, d) else 0
  }

  /** The weekly chart's series: the seven calendar days ending today, oldest first. */
  method CalendarWeek(h: History, s: Settings, today: Date) returns (values: seq<nat>)
    requires Tracked(h) && Valid(today)
    ensures |values| == 7
    ensures forall j :: 0 <= j < 7 ==> values[j] == PercentOrZero(h, s, AddDays(today, j - 6))
  {
    values := [];
    var i := 6;
    while i >= 0
      invariant -1 <= i <= 6 && |values| == 6 - i
      invariant forall j :: 0 <= j < |values| ==> values[j] == PercentOrZero(h, s, AddDays(today, j - 6))
    {
      var date := AddDays(today, -i);
      values := values + [PercentOrZero(h, s, date)];
      i := i - 1;
    }
  }

  /** The weekly chart's figures: the series, its rounded mean over seven days and its trailing streak. */
  method WeeklyChart(h: History, s: Settings, today: Date) returns (values: seq<nat>, average: nat, streak: nat)
    requires Tracked(h) && Valid(today)
    ensures |values| == 7
    ensures forall j :: 0 <= j < 7 ==> values[j] == PercentOrZero(h, s, AddDays(today, j - 6))
    ensures average == Mean(values)
    ensures streak <= 7 && RunAt(values, 7 - streak, streak)
    ensures streak < 7 ==> !Active(values[6 - streak])
  {
    values := CalendarWeek(h, s, today);
    average := RoundDiv(Sum(values), 7);
    streak := TrailingStreak(values);
  }

  /** The dates of one month, in the order given. */
  function MonthDates(dates: seq<Date>, year: int, month: int): (r: seq<Date>)
    ensures |r| <= |dates|
    ensures forall d :: d in r <==> d in dates && d.year == year && d.month == month
  {
    if |dates| == 0 then []
    else
      var last := dates[|dates| - 1];
      MonthDates(dates[..|dates| - 1], year, month) + (if last.year == year && last.month == month then [last] else [])
  }

  /** Filtering by month keeps the dates in their order, so sorted keys stay sorted. */
  lemma {:induction false} MonthDatesKeepOrder(dates: seq<Date>, year: int, month: int)
    requires SortedByDate(dates)
    ensures SortedByDate(MonthDates(dates, year, month))
  {
    if |dates| > 0 {
      var init := dates[..|dates| - 1];
      var last := dates[|dates| - 1];
      assert SortedByDate(init);
      MonthDatesKeepOrder(init, year, month);
      var before := MonthDates(init, year, month);
      if last.year == year && last.month == month {
        var r := before + [last];
        assert MonthDates(dates, year, month) == r;
        forall i, j | 0 <= i < j < |r| ensures Less(r[i], r[j]) {
          if j == |r| - 1 {
            assert r[i] in init;
            var k :| 0 <= k < |init| && init[k] == r[i];
            assert dates[k] == r[i] && dates[|dates| - 1] == r[j];
          } else {
            assert r[i] == before[i] && r[j] == before[j];
          }
        }
      } else {
        assert MonthDates(dates, year, month) == before;
      }
    }
  }

  /** The monthly chart's dates are the month's tracked days in increasing date order. */
  lemma MonthChartInDateOrder(h: History, today: Date)
    ensures SortedByDate(MonthDates(SortedKeys(h.Keys), today.year, today.month))
  {
    SortedKeysAscend(h.Keys);
    MonthDatesKeepOrder(SortedKeys(h.Keys), today.year, today.month);
  }

  /** The figures of a tracked month: days, rounded mean, best run and the three buckets. */
  datatype MonthStats = MonthStats(days: nat, average: nat, best: nat, complete: nat, partial: nat, missed: nat)

  /**
   * The monthly chart block: nothing when the month has no tracked day;
   * otherwise the best run is the longest run at 50% or more in date order,
   * and complete, partial and missed split the days.
   */
  method MonthChart(h: History, s: Settings, today: Date) returns (stats: Option<MonthStats>)
    requires Tracked(h)
    ensures var v := Percents(h, s, MonthDates(SortedKeys(h.Keys), today.year, today.month));
      && (stats.None? <==> |v| == 0)
      && (stats.Some? ==>
        && stats.value.days == |v|
        && stats.value.average == Mean(v)
        && (exists i :: RunAt(v, i, stats.value.best))
        && (forall i, len :: RunAt(v, i, len) ==> len <= stats.value.best)
        && stats.value.complete == Count(v, IsComplete)
        && stats.value.partial == Count(v, IsPartial)
        && stats.value.missed == Count(v, IsMissed)
        && stats.value.complete + stats.value.partial + stats.value.missed == stats.value.days)
  {
    var monthDates := MonthDates(SortedKeys(h.Keys), today.year, today.month);
    if |monthDates| == 0 {
      return None;
    }
    var v := Percents(h, s, monthDates);
    var best := BestStreak(v);
    ChartBucketsPartition(v);
    stats := Some(MonthStats(|v|, Mean(v), best, Count(v, IsComplete), Count(v, IsPartial), Count(v, IsMissed)));
  }

  /** The monthly report's figures: its "missed" leaves out 0% days, and `untracked` is today's day of the month less the tracked days. */
  datatype MonthReportStats = MonthReportStats(days: nat, average: nat, best: nat, complete: nat, partial: nat, missed: nat, untracked: int)

  /** `keys` lists every tracked day once, in the order `Object.keys` gives: the report filters it unsorted. */
  ghost predicate Enumerates(keys: seq<Date>, h: History) {
    (forall d :: d in keys <==> d in h) && forall i, j :: 0 <= i < j < |keys| ==> keys[i] != keys[j]
  }

  method MonthReport(h: History, s: Settings, keys: seq<Date>, today: Date) returns (stats: Option<MonthReportStats>)
    requires Tracked(h) && Enumerates(keys, h)
    ensures var v := Percents(h, s, MonthDates(keys, today.year, today.month));
      && (stats.None? <==> |v| == 0)
      && (stats.Some? ==>
        && stats.value.days == |v|
        && stats.value.average == Mean(v)
        && (exists i :: RunAt(v, i, stats.value.best))
        && (forall i, len :: RunAt(v, i, len) ==> len <= stats.value.best)
        && stats.value.complete == Count(v, IsComplete)
        && stats.value.partial == Count(v, IsPartial)
        && stats.value.missed == Count(v, IsLow)
        && stats.value.complete + stats.value.partial + stats.value.missed == stats.value.days - Count(v, IsZero)
        && stats.value.untracked == today.day - stats.value.days)
  {
    var monthDates := MonthDates(keys, today.year, today.month);
    if |monthDates| == 0 {
      return None;
    }
    var v := Percents(h, s, monthDates);
    var best := BestStreak(v);
    ReportBucketsPartition(v);
    stats := Some(MonthReportStats(|v|, Mean(v), best, Count(v, IsComplete), Count(v, IsPartial), Count(v, IsLow), today.day - |v|));
  }

  // The week-of-month trend.

  /** The four weekly values after folding the days in order, from `[0, 0, 0, 0]`. */
  function Trend(days: seq<nat>, values: seq<nat>): (r: seq<nat>)
    requires |days| == |values|
    ensures |r| == 4
  {
    if |days| == 0 then [0, 0, 0, 0]
    else WeekStep(Trend(days[..|days| - 1], values[..|values| - 1]), days[|days| - 1], values[|values| - 1])
  }

  /** With every day at most `m`, every weekly value stays at most `m`. */
  lemma {:induction false} TrendAtMost(days: seq<nat>, values: seq<nat>, m: nat)
    requires |days| == |values|
    requires forall i :: 0 <= i < |values| ==> values[i] <= m
    ensures forall w :: 0 <= w < 4 ==> Trend(days, values)[w] <= m
  {
    if |days| > 0 {
      var prev := Trend(days[..|days| - 1], values[..|values| - 1]);
      TrendAtMost(days[..|days| - 1], values[..|values| - 1], m);
      var week := WeekOfMonth(days[|days| - 1]);
      if 0 <= week < 4 {
        RoundDivAtMost(prev[week] + values[|values| - 1], 2, m);
      }
    }
  }

  /** The value is a running halving, not a mean: one day at 100% shows as 50 for its week. */
  lemma TrendOfOneFullDay(day: nat)
    requires 1 <= day <= 28
    ensures Trend([day], [100])[WeekOfMonth(day)] == 50
  {
    assert [day][..0] == [] && [100][..0] == [];
  }

  /** Days from the 29th on fall in a fifth week, which the trend drops. */
  lemma TrendIgnoresLateDays(days: seq<nat>, values: seq<nat>, day: nat, value: nat)
    requires |days| == |values| && day >= 29
    ensures Trend(days + [day], values + [value]) == Trend(days, values)
  {
    assert (days + [day])[..|days|] == days;
    assert (values + [value])[..|values|] == values;
  }

  lemma TrendStep(days: seq<nat>, values: seq<nat>, i: nat)
    requires |days| == |values| && i < |days|
    ensures Trend(days[..i + 1], values[..i + 1]) == WeekStep(Trend(days[..i], values[..i]), days[i], values[i])
  {
    assert days[..i + 1][..i] == days[..i];
    assert values[..i + 1][..i] == values[..i];
  }

  /** The monthly trend chart's data, a fresh array of four. */
  method MonthTrend(h: History, s: Settings, monthDates: seq<Date>) returns (averages: array<nat>)
    requires Tracked(h) && forall d :: d in monthDates ==> d in h && Valid(d)
    ensures fresh(averages) && averages.Length == 4
    ensures averages[..] == Trend(DaysOf(monthDates), Percents(h, s, monthDates))
  {
    ghost var days, values := DaysOf(monthDates), Percents(h, s, monthDates);
    averages := new nat[4](_ => 0);
    ghost var current: seq<nat> := [0, 0, 0, 0];
    assert days[..0] == [] && values[..0] == [];
    for i := 0 to |monthDates|
      invariant |current| == 4 && forall w :: 0 <= w < 4 ==> averages[w] == current[w]
      invariant current == Trend(days[..i], values[..i])
    {
      var date := monthDates[i];
      var p := Percent(h, s, date);
      var week := WeekOfMonth(date.day);
      PercentsAt(h, s, monthDates, i);
      assert days[i] == date.day && values[i] == p;
      ghost var next := WeekStep(current, date.day, p);
      if 0 <= week < 4 {
        averages[week] := RoundDiv(averages[week] + p, 2);
      }
      TrendStep(days, values, i);
      current := next;
    }
    assert days[..|monthDates|] == days && values[..|monthDates|] == values;
    assert averages[..] == current;
  }

  /** The day-of-month of each date. */
  function DaysOf(dates: seq<Date>): (r: seq<nat>)
    requires forall d :: d in dates ==> Valid(d)
    ensures |r| == |dates|
    ensures forall i :: 0 <= i < |dates| ==> r[i] == dates[i].day
  {
    if |dates| == 0 then []
    else
      var last := dates[|dates| - 1];
      assert Valid(last);
      DaysOf(dates[..|dates| - 1]) + [last.day]
  }

  // The heatmap grid.

  datatype Cell = Blank | Day(day: nat, kind: CellClass)

  /** The class of one day of the grid: unmarked unless the day is among `monthDates`. */
  function CellOf(h: History, s: Settings, monthDates: seq<Date>, d: Date): (c: CellClass)
    requires Tracked(h) && forall e :: e in monthDates ==> e in h
    ensures d !in monthDates ==> c == Unmarked
    ensures d in monthDates ==> (c == Completed <==> IsComplete(Percent(h, s, d)))
    ensures d in monthDates ==> (c == Unmarked <==> IsZero(Percent(h, s, d)))
  {
    HeatmapClass(if d in monthDates then Some(Percent(h, s, d)) else None)
  }

  /**
   * The heatmap: hidden cells up to the weekday of the 1st (Sunday first),
   * then one cell per day of the month.
   */
  method Heatmap(h: History, s: Settings, monthDates: seq<Date>, year: int, month: int) returns (cells: seq<Cell>)
    requires Tracked(h) && forall e :: e in monthDates ==> e in h
    requires 1 <= month <= 12
    ensures |cells| == Weekday(Date(year, month, 1)) + DaysInMonth(year, month)
    ensures forall i :: 0 <= i < Weekday(Date(year, month, 1)) ==> cells[i] == Blank
    ensures forall i :: Weekday(Date(year, month, 1)) <= i < |cells| ==>
      var day := i - Weekday(Date(year, month, 1)) + 1;
      cells[i] == Day(day, CellOf(h, s, monthDates, Date(year, month, day)))
  {
    var startDay := Weekday(Date(year, month, 1));
    var totalDays := DaysInMonth(year, month);
    cells := [];
    for i := 0 to startDay
      invariant |cells| == i && forall j :: 0 <= j < i ==> cells[j] == Blank
    {
      cells := cells + [Blank];
    }
    for day := 1 to totalDays + 1
      invariant |cells| == startDay + day - 1
      invariant forall j :: 0 <= j < startDay ==> cells[j] == Blank
      invariant forall i :: startDay <= i < |cells| ==>
        cells[i] == Day(i - startDay + 1, CellOf(h, s, monthDates, Date(year, month, i - startDay + 1)))
    {
      var date := Date(year, month, day);
      cells := cells + [Day(day, CellOf(h, s, monthDates, date))];
    }
  }

  /** In a seven-column grid, each day's cell sits in the column of its weekday. */
  lemma HeatmapColumnIsWeekday(year: int, month: int, k: nat)
    requires 1 <= month <= 12 && k < DaysInMonth(year, month)
    ensures (Weekday(Date(year, month, 1)) + k) % 7 == Weekday(Date(year, month, k + 1))
  {
    assert Ordinal(Date(year, month, k + 1)) == Ordinal(Date(year, month, 1)) + k;
    WeekdayOffset(Date(year, month, 1), Date(year, month, k + 1), k);
  }
}
