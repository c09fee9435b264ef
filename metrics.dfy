/**
 * The arithmetic the dashboard repeats in every view: the rounded completion
 * percentage, rounded means, the complete/partial/missed buckets, the heatmap
 * cell class and the run lengths behind its streaks.  `Math.round` of a
 * non-negative ratio is rounding half up, done here on exact integers.
 */
module Metrics {
  import opened Wrappers

  /** `Math.round(num / den)` for a non-negative `num` and a positive `den`. */
  function RoundDiv(num: nat, den: nat): nat
    requires den > 0
  {
    (2 * num + den) / (2 * den)
  }

  /** The rounded quotient is the integer nearest to `num / den`, halves going up. */
  lemma RoundDivIsNearest(num: nat, den: nat)
    requires den > 0
    ensures 2 * den * RoundDiv(num, den) <= 2 * num + den < 2 * den * (RoundDiv(num, den) + 1)
  {
    var q, r := (2 * num + den) / (2 * den), (2 * num + den) % (2 * den);
    assert 2 * num + den == 2 * den * q + r;
  }

  lemma ProductMonotone(k: nat, a: int, b: int)
    requires a <= b
    ensures k * a <= k * b
  {
    assert k * b - k * a == k * (b - a);
  }

  lemma RoundDivMonotone(a: nat, b: nat, den: nat)
    requires den > 0 && a <= b
    ensures RoundDiv(a, den) <= RoundDiv(b, den)
  {
    var qa, qb := RoundDiv(a, den), RoundDiv(b, den);
    RoundDivIsNearest(a, den);
    RoundDivIsNearest(b, den);
    if qa > qb {
      ProductMonotone(2 * den, qb + 1, qa);
    }
  }

  lemma RoundDivAtMost(num: nat, den: nat, m: nat)
    requires den > 0 && num <= m * den
    ensures RoundDiv(num, den) <= m
  {
    var q := RoundDiv(num, den);
    RoundDivIsNearest(num, den);
    if q > m {
      ProductMonotone(2 * den, m + 1, q);
    }
  }

  lemma RoundDivExact(m: nat, den: nat)
    requires den > 0
    ensures RoundDiv(m * den, den) == m
  {
    var q := RoundDiv(m * den, den);
    RoundDivIsNearest(m * den, den);
    if q > m {
      ProductMonotone(2 * den, m + 1, q);
    } else if q < m {
      ProductMonotone(2 * den, q + 1, m);
    }
  }

  /**
   * `Math.round((completed / target) * 100)`: the completion percentage, with
   * the real quotient rounded half up.
   */
  function CompletionPercent(completed: nat, target: nat): nat
    requires target > 0
  {
    RoundDiv(100 * completed, target)
  }

  /** The percentage is `100 * completed / target` rounded to the nearest integer, halves going up. */
  lemma PercentIsNearest(completed: nat, target: nat)
    requires target > 0
    ensures 2 * target * CompletionPercent(completed, target) <= 200 * completed + target
    ensures 200 * completed + target < 2 * target * (CompletionPercent(completed, target) + 1)
  {
    RoundDivIsNearest(100 * completed, target);
  }

  lemma PercentOfNothing(target: nat)
    requires target > 0
    ensures CompletionPercent(0, target) == 0
  {
  }

  lemma PercentOfEverything(target: nat)
    requires target > 0
    ensures CompletionPercent(target, target) == 100
  {
    RoundDivExact(100, target);
  }

  lemma PercentMonotone(c1: nat, c2: nat, target: nat)
    requires target > 0 && c1 <= c2
    ensures CompletionPercent(c1, target) <= CompletionPercent(c2, target)
  {
    RoundDivMonotone(100 * c1, 100 * c2, target);
  }

  lemma PercentAtMostHundred(completed: nat, target: nat)
    requires 0 < target && completed <= target
    ensures CompletionPercent(completed, target) <= 100
  {
    RoundDivAtMost(100 * completed, target, 100);
  }

  /** The count covers every completed item, so a lowered target can push the percentage past 100. */
  lemma PercentCanExceedHundred()
    ensures CompletionPercent(7, 5) == 140
  {
  }

  /** For any realistic target the percentage is 100 exactly when every targeted item is done. */
  lemma PerfectIffAllDone(completed: nat, target: nat)
    requires 0 < target < 200
    ensures CompletionPercent(completed, target) == 100 <==> completed == target
  {
    if completed == target {
      PercentOfEverything(target);
    }
  }

  /** A day reaches 50% exactly when at least 99/200 of the target is done. */
  lemma HalfwayIff(completed: nat, target: nat)
    requires target > 0
    ensures CompletionPercent(completed, target) >= 50 <==> 200 * completed >= 99 * target
  {
    var p := CompletionPercent(completed, target);
    PercentIsNearest(completed, target);
    if p >= 50 {
      ProductMonotone(2 * target, 50, p);
    } else {
      ProductMonotone(2 * target, p + 1, 50);
    }
  }

  /** `v.reduce((a, b) => a + b, 0)`. */
  function Sum(v: seq<nat>): (total: nat)
    ensures forall i :: 0 <= i < |v| ==> v[i] <= total
    ensures |v| == 0 ==> total == 0
  {
    if |v| == 0 then 0 else Sum(v[..|v| - 1]) + v[|v| - 1]
  }

  lemma SumOfLonger(v: seq<nat>, i: nat)
    requires i < |v|
    ensures Sum(v[..i + 1]) == Sum(v[..i]) + v[i]
  {
    assert v[..i + 1][..i] == v[..i];
  }

  lemma {:induction false} SumAtMost(v: seq<nat>, m: nat)
    requires forall i :: 0 <= i < |v| ==> v[i] <= m
    ensures Sum(v) <= m * |v|
  {
    if |v| > 0 {
      SumAtMost(v[..|v| - 1], m);
    }
  }

  /** `Math.round(v.reduce((a, b) => a + b, 0) / v.length)`. */
  function Mean(v: seq<nat>): nat
    requires |v| > 0
  {
    RoundDiv(Sum(v), |v|)
  }

  lemma MeanAtMost(v: seq<nat>, m: nat)
    requires |v| > 0
    requires forall i :: 0 <= i < |v| ==> v[i] <= m
    ensures Mean(v) <= m
  {
    SumAtMost(v, m);
    RoundDivAtMost(Sum(v), |v|, m);
  }

  // The buckets of the monthly distribution (updateCharts) and of the monthly report.

  predicate IsComplete(p: nat) { p >= 90 }
  predicate IsPartial(p: nat) { 50 <= p < 90 }
  /** The chart's "missed": everything below 50, untouched days included. */
  predicate IsMissed(p: nat) { p < 50 }
  /** The report's "missed": below 50 but not zero. */
  predicate IsLow(p: nat) { 0 < p < 50 }
  predicate IsZero(p: nat) { p == 0 }

  /** `v.filter(f).length`. */
  function Count(v: seq<nat>, f: nat -> bool): (n: nat)
    ensures n <= |v|
  {
    if |v| == 0 then 0 else Count(v[..|v| - 1], f) + (if f(v[|v| - 1]) then 1 else 0)
  }

  /** Complete, partial and missed split the month's days: the doughnut's counts sum to the day count. */
  lemma {:induction false} ChartBucketsPartition(v: seq<nat>)
    ensures Count(v, IsComplete) + Count(v, IsPartial) + Count(v, IsMissed) == |v|
  {
    if |v| > 0 {
      ChartBucketsPartition(v[..|v| - 1]);
    }
  }

  /** The report's buckets leave out the 0% days. */
  lemma {:induction false} ReportBucketsPartition(v: seq<nat>)
    ensures Count(v, IsComplete) + Count(v, IsPartial) + Count(v, IsLow) == |v| - Count(v, IsZero)
  {
    if |v| > 0 {
      ReportBucketsPartition(v[..|v| - 1]);
    }
  }

  datatype CellClass = Completed | Partial | Missed | Unmarked

  /** The class a heatmap day gets: none when untracked, none at 0%. */
  function HeatmapClass(percent: Option<nat>): (c: CellClass)
    ensures percent.None? ==> c == Unmarked
    ensures percent.Some? ==> (c == Completed <==> IsComplete(percent.value))
    ensures percent.Some? ==> (c == Partial <==> IsPartial(percent.value))
    ensures percent.Some? ==> (c == Missed <==> IsLow(percent.value))
    ensures percent.Some? ==> (c == Unmarked <==> IsZero(percent.value))
  {
    match percent
    case None => Unmarked
    case Some(p) =>
      if p >= 90 then Completed
      else if p >= 50 then Partial
      else if p > 0 then Missed
      else Unmarked
  }

  // Runs of days at 50% or more.

  predicate Active(p: nat) { p >= 50 }

  /** `v[i..i+len]` lies inside `v` and every value in it is at 50% or more. */
  predicate RunAt(v: seq<nat>, i: int, len: int) {
    0 <= i && 0 <= len && i + len <= |v| && forall k :: i <= k < i + len ==> Active(v[k])
  }

  /** The weekly streak: the run of 50%-or-more values at the end of the list. */
  method TrailingStreak(values: seq<nat>) returns (streak: nat)
    ensures streak <= |values|
    ensures RunAt(values, |values| - streak, streak)
    ensures streak < |values| ==> !Active(values[|values| - streak - 1])
  {
    streak := 0;
    var i := |values| - 1;
    while i >= 0
      invariant -1 <= i < |values|
      invariant streak == |values| - 1 - i
      invariant RunAt(values, i + 1, streak)
    {
      if values[i] >= 50 {
        streak := streak + 1;
      } else {
        break;
      }
      i := i - 1;
    }
  }

  /** The monthly best streak: the longest run of 50%-or-more values, in list order. */
  method BestStreak(values: seq<nat>) returns (best: nat)
    ensures best <= |values|
    ensures exists i :: RunAt(values, i, best)
    ensures forall i, len :: RunAt(values, i, len) ==> len <= best
  {
    best := 0;
    var current := 0;
    ghost var at := 0;
    for k := 0 to |values|
      invariant 0 <= current <= k && 0 <= best <= k
      invariant RunAt(values, k - current, current)
      invariant current < k ==> !Active(values[k - current - 1])
      invariant RunAt(values, at, best) && at + best <= k
      invariant forall i, len :: RunAt(values, i, len) && i + len <= k ==> len <= best
    {
      NoLongerRunEndsHere(values, k, current);
      if values[k] >= 50 {
        current := current + 1;
        if current > best {
          best, at := current, k + 1 - current;
        }
      } else {
        current := 0;
      }
    }
  }

  /** A run that ends just after position `k` is at most one longer than the run ending at `k`. */
  lemma NoLongerRunEndsHere(values: seq<nat>, k: int, current: int)
    requires 0 <= current <= k < |values|
    requires RunAt(values, k - current, current)
    requires current < k ==> !Active(values[k - current - 1])
    ensures forall i, len :: RunAt(values, i, len) && i + len == k + 1 ==>
      len <= (if Active(values[k]) then current + 1 else 0)
  {
    forall i, len | RunAt(values, i, len) && i + len == k + 1
      ensures len <= (if Active(values[k]) then current + 1 else 0)
    {
      assert len > 0 ==> Active(values[k]);
      if current < k {
        assert !Active(values[k - current - 1]);
      }
    }
  }

  // The week-of-month trend in updateCharts.

  /** `Math.floor((date.getDate() - 1) / 7)`. */
  function WeekOfMonth(day: nat): (week: int)
    ensures 7 * week <= day - 1 < 7 * week + 7
    ensures 1 <= day ==> (0 <= week < 4 <==> day <= 28)
  {
    (day - 1) / 7
  }

  /** One step of the trend loop: the week's value becomes the rounded mean of itself and the day. */
  function WeekStep(averages: seq<nat>, day: nat, percent: nat): (r: seq<nat>)
    requires |averages| == 4
    ensures |r| == 4
  {
    var week := WeekOfMonth(day);
    if 0 <= week < 4 then averages[week := RoundDiv(averages[week] + percent, 2)] else averages
  }
}
