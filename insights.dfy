/**
 * Which insight the reports show: the threshold ladders of the daily, weekly
 * and monthly reports as total classifiers.  Only the choice of insight is
 * modelled, not its text.
 */
module Insights {
  import opened Wrappers
  import opened Metrics
  import opened Records

  // The daily report.

  datatype RoutineInsight = StartYourDay | PerfectExecution | StrongStart | GoodProgress | BuildingMomentum

  /** The routine insight for `completed` items against the effective target. */
  function RoutineInsightFor(completed: nat, target: nat): (r: RoutineInsight)
    requires target > 0
    ensures r == StartYourDay <==> completed == 0
    ensures r == PerfectExecution <==> completed > 0 && CompletionPercent(completed, target) == 100
    ensures r == StrongStart <==>
      completed > 0 && CompletionPercent(completed, target) != 100 && CompletionPercent(completed, target) >= 70
    ensures r == GoodProgress <==> completed > 0 && 40 <= CompletionPercent(completed, target) < 70
    ensures r == BuildingMomentum <==> completed > 0 && CompletionPercent(completed, target) < 40
  {
    var percent := CompletionPercent(completed, target);
    if completed == 0 then StartYourDay
    else if percent == 100 then PerfectExecution
    else if percent >= 70 then StrongStart
    else if percent >= 40 then GoodProgress
    else BuildingMomentum
  }

  /** Position on the ladder, 0 the lowest. */
  function RoutineRank(i: RoutineInsight): nat {
    match i
    case StartYourDay => 0
    case BuildingMomentum => 1
    case GoodProgress => 2
    case StrongStart => 3
    case PerfectExecution => 4
  }

  /** Within the target, doing more never moves the day down the ladder. */
  lemma RoutineInsightMonotone(c1: nat, c2: nat, target: nat)
    requires c1 <= c2 <= target && target > 0
    ensures RoutineRank(RoutineInsightFor(c1, target)) <= RoutineRank(RoutineInsightFor(c2, target))
  {
    PercentMonotone(c1, c2, target);
    PercentAtMostHundred(c2, target);
  }

  /** For any realistic target, "perfect" means exactly the targeted number of items done. */
  lemma PerfectIffAllTargetedDone(completed: nat, target: nat)
    requires 0 < target < 200
    ensures RoutineInsightFor(completed, target) == PerfectExecution <==> completed == target
  {
    PerfectIffAllDone(completed, target);
  }

  /** Going past the target is not "perfect": 8 of 7 is 114%, a strong start. */
  lemma OverTargetIsOnlyStrong()
    ensures RoutineInsightFor(8, 7) == StrongStart
  {
    assert CompletionPercent(8, 7) == 114;
  }

  datatype HydrationInsight = HydrationMaster | HydrationProgress | HydrationReminder

  /** Master exactly at the target, a reminder exactly when no glass was drunk short of it. */
  function HydrationInsightFor(water: nat, waterTarget: nat): (r: HydrationInsight)
    ensures r == HydrationMaster <==> water >= waterTarget
    ensures r == HydrationProgress <==> 0 < water < waterTarget
    ensures r == HydrationReminder <==> water == 0 && waterTarget > 0
  {
    if water >= waterTarget then HydrationMaster
    else if water > 0 then HydrationProgress
    else HydrationReminder
  }

  datatype ArcheryInsight = PracticeMaintained | ArcheryOpportunity

  function ArcheryInsightFor(sessions: nat): (r: ArcheryInsight)
    ensures r == PracticeMaintained <==> sessions > 0
  {
    if sessions > 0 then PracticeMaintained else ArcheryOpportunity
  }

  datatype SelfCareInsight = SelfCareComplete | SelfCareProgress

  /** The number of self-care routines done today, 0 to 2. */
  function SelfCareCount(c: SelfCare): (n: nat)
    ensures n <= 2
    ensures n == 2 <==> c.hair && c.face
    ensures n == 0 <==> !c.hair && !c.face
  {
    (if c.hair then 1 else 0) + (if c.face then 1 else 0)
  }

  /** No self-care insight at all when neither routine was done. */
  function SelfCareInsightFor(c: SelfCare): (r: Option<SelfCareInsight>)
    ensures r.None? <==> SelfCareCount(c) == 0
    ensures r == Some(SelfCareComplete) <==> c.hair && c.face
  {
    var n := SelfCareCount(c);
    if n == 2 then Some(SelfCareComplete)
    else if n == 1 then Some(SelfCareProgress)
    else None
  }

  /** The insights the daily report lists for the day on screen, in order. */
  datatype DailyInsights = DailyInsights(
    routine: RoutineInsight,
    hydration: HydrationInsight,
    archery: ArcheryInsight,
    selfCare: Option<SelfCareInsight>)

  function DailyInsightsFor(day: DayRecord, s: Settings): (r: DailyInsights)
    ensures r.routine == RoutineInsightFor(CompletedCount(day.morningRoutine), RoutineTarget(s))
    ensures r.hydration == HydrationInsightFor(day.consumption.water, s.waterTarget)
    ensures r.archery == PracticeMaintained <==> |day.archery| > 0
    ensures r.selfCare.None? <==> !day.selfCare.hair && !day.selfCare.face
  {
    DailyInsights(
      RoutineInsightFor(CompletedCount(day.morningRoutine), RoutineTarget(s)),
      HydrationInsightFor(day.consumption.water, s.waterTarget),
      ArcheryInsightFor(|day.archery|),
      SelfCareInsightFor(day.selfCare))
  }

  /** A fresh day opens with the start insight, the hydration reminder and the archery suggestion, and no self-care insight. */
  lemma FreshDayInsights(s: Settings)
    requires s.waterTarget > 0
    ensures DailyInsightsFor(DefaultDay(), s) == DailyInsights(StartYourDay, HydrationReminder, ArcheryOpportunity, None)
  {
    var r := DefaultRoutine();
    assert CompletedCount(r) == 0;
  }

  // The weekly and monthly reports.  `None` is a report with no tracked day.

  datatype WeeklyInsight = WeeklyTrackingStarting | ExceptionalWeek | SolidPerformance | BuildingConsistency | WeekStarting

  function WeeklyInsightFor(average: Option<nat>): (r: WeeklyInsight)
    ensures r == WeeklyTrackingStarting <==> average.None?
    ensures r == ExceptionalWeek <==> average.Some? && average.value >= 85
    ensures r == SolidPerformance <==> average.Some? && 70 <= average.value < 85
    ensures r == BuildingConsistency <==> average.Some? && 0 < average.value < 70
    ensures r == WeekStarting <==> average == Some(0)
  {
    match average
    case None => WeeklyTrackingStarting
    case Some(a) =>
      if a >= 85 then ExceptionalWeek
      else if a >= 70 then SolidPerformance
      else if a > 0 then BuildingConsistency
      else WeekStarting
  }

  function WeeklyRank(i: WeeklyInsight): nat {
    match i
    case WeeklyTrackingStarting => 0
    case WeekStarting => 1
    case BuildingConsistency => 2
    case SolidPerformance => 3
    case ExceptionalWeek => 4
  }

  lemma WeeklyInsightMonotone(a1: nat, a2: nat)
    requires a1 <= a2
    ensures WeeklyRank(WeeklyInsightFor(Some(a1))) <= WeeklyRank(WeeklyInsightFor(Some(a2)))
  {
  }

  datatype MonthlyInsight = MonthlyOverviewStarting | OutstandingMonth | SolidFoundation | ProgressTracking | MonthInProgress

  function MonthlyInsightFor(average: Option<nat>): (r: MonthlyInsight)
    ensures r == MonthlyOverviewStarting <==> average.None?
    ensures r == OutstandingMonth <==> average.Some? && average.value >= 80
    ensures r == SolidFoundation <==> average.Some? && 65 <= average.value < 80
    ensures r == ProgressTracking <==> average.Some? && 0 < average.value < 65
    ensures r == MonthInProgress <==> average == Some(0)
  {
    match average
    case None => MonthlyOverviewStarting
    case Some(a) =>
      if a >= 80 then OutstandingMonth
      else if a >= 65 then SolidFoundation
      else if a > 0 then ProgressTracking
      else MonthInProgress
  }

  function MonthlyRank(i: MonthlyInsight): nat {
    match i
    case MonthlyOverviewStarting => 0
    case MonthInProgress => 1
    case ProgressTracking => 2
    case SolidFoundation => 3
    case OutstandingMonth => 4
  }

  lemma MonthlyInsightMonotone(a1: nat, a2: nat)
    requires a1 <= a2
    ensures MonthlyRank(MonthlyInsightFor(Some(a1))) <= MonthlyRank(MonthlyInsightFor(Some(a2)))
  {
  }

  /** The month's ladder is the more lenient: any average that tops the weekly ladder tops the monthly one. */
  lemma MonthlyLadderIsLenient(a: nat)
    ensures WeeklyRank(WeeklyInsightFor(Some(a))) <= MonthlyRank(MonthlyInsightFor(Some(a)))
    ensures MonthlyInsightFor(Some(82)) == OutstandingMonth && WeeklyInsightFor(Some(82)) == SolidPerformance
  {
  }
}
