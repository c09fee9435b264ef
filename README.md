# Personal dashboard ("DisciplineOS"), modelled in Dafny

The dashboard tracks one record per calendar day. A record holds:

- a seven-item morning routine, each item a check box;
- three drink counters (water, coffee, tea);
- a list of timestamped archery sessions;
- two self-care flags (hair, face).

The records live in a history map keyed by date. From that map the dashboard computes:

- the routine completion percentage;
- a daily streak and a weekly average;
- a seven-day chart with its trailing streak;
- the month's average, best streak, buckets, week-of-month trend and heatmap;
- the insight tier shown in the daily, weekly and monthly reports.

Every handler that edits the day record saves it back under the day's key. Each of those except the reset button offers a one-step undo. The clear-data button removes the stored history and settings and offers no undo. The report dialog builds date lists for a week, a month or a custom range. It also builds and parses `YYYY-Www` and `YYYY-MM` labels.

The modules follow that structure:

- `Wrappers`: `Option`.
- `Calendar`: proleptic Gregorian dates.
  - `Ordinal` counts days from 1970-01-01.
  - `Weekday` is 0 for Sunday, as `getDay()`.
  - `Less` is the order in which the `YYYY-MM-DD` keys sort.
  - `Next`, `Prev` and `AddDays` move by days, as `setDate(getDate() ± k)`.
- `DateRanges`: `getDatesForMonth`, `getDatesInRange` and `getDatesForWeek`, each a push loop.
- `Labels`: number-to-string, `padStart`, `split` and `parseInt` on strings, plus the week and month labels of the report dialog.
- `Metrics`: the rounded percentage and mean, the bucket predicates and their counts, the heatmap class, the run-length streak loops, and one step of the week-of-month average.
- `Records`: settings, a day record and the stored form in the history map.
  - `loadDate` and `saveHistory` become `Load` and `Save`.
  - Each handler's effect is `Apply`; `undoAction` is `Undo`.
- `History`: the aggregations over the history map, on the sorted keys or on the keys in their stored order, as each panel of the code uses them.
- `Insights`: the threshold ladders of the three reports as total classifiers into enumerations.
- `Dashboard`: the `DashboardApp` class.
  - Its fields are `currentDate`, `settings`, `history`, `state`, and `pendingUndo`, the action the undo toast would reverse.
  - Its methods are the handlers, navigation, saving and undo. Each states its new state in terms of `Records`.

Percentages use exact integer rounding, half up: `(200·completed + target) div (2·target)`. That is `Math.round(completed / target * 100)` without floating point. The target is `routineTarget || 7`. The completed count counts every routine item, not only the first `target`. This follows `script.js:237` and `script.js:324`. As a result a percentage can exceed 100 (see `Metrics.PercentCanExceedHundred`).

The code differs in places from what a reader of the dashboard's description would expect. The model follows the code:

- The completed count covers all items, as above.
- A `routineTarget` of 0 falls back to 7, not to 1.
- The monthly report runs its best streak over `Object.keys(history)` in storage order, unsorted (`script.js:926`). `History.MonthReport` therefore takes that enumeration as a parameter, while the monthly chart uses the sorted keys (`script.js:526`, `script.js:570`).
- The default week label of `getCurrentWeek` (`script.js:1047-1053`) counts weeks from January 1st, which does not match how `getDatesForWeek` reads the number (see "## Findings"). `Labels.WeekLabelAsWritten` is the label as written. `Labels.WeekLabel` is the corrected label. One round-trip lemma, `Labels.WeekLabelForRoundTrip`, covers both labels.
- Undo reverses the last action on whichever day is shown when the toast button is pressed. After a navigation that is another day, and `Dashboard.DashboardApp.UndoLast` states exactly that.

## Model

| member | source | states |
|---|---|---|
| Calendar.DaysInMonth | script.js:1408 | a month has 28 to 31 days; February has 29 exactly in a leap year and 28 exactly in a common year |
| Calendar.Weekday | script.js:648 | `getDay()` of a date is in 0..6 |
| Calendar.ThursdayEpoch | script.js:648 | 1970-01-01 is day 0 and a Thursday, weekday 4 |
| Calendar.Less | script.js:306 | the order of `YYYY-MM-DD` keys as strings: by year, then month, then day; `Calendar.LessIsChronological` ties it to the day numbers |
| Calendar.LessIsChronological | script.js:306 | sorting `YYYY-MM-DD` keys orders dates chronologically: `Less` holds exactly when the day number is smaller, and equal day numbers mean the same date |
| Calendar.Next | script.js:1422 | `setDate(getDate() + 1)` gives a valid date exactly one day later |
| Calendar.Prev | script.js:337 | `setDate(getDate() - 1)` gives a valid date exactly one day earlier |
| Calendar.NextPrev | script.js:337 | stepping back a day and forward a day, in either order, returns the same date |
| Calendar.AddDays | script.js:141-144 | moving by `k` days gives a valid date whose day number is `k` further on |
| Calendar.AddDaysNext | script.js:1397-1400 | the date `k + 1` days on is the day after the date `k` days on |
| Calendar.WeekdayOffset | script.js:648 | the weekday of a date `k` days later is the first weekday plus `k`, modulo 7 |
| DateRanges.DatesForMonth | script.js:1406-1415 | exactly as many dates as the month has days, day `i + 1` at index `i`, each valid and each the day after the one before |
| DateRanges.ConsecutiveOrdinals | script.js:1422-1424 | in a run of consecutive dates, the date at index `i` is `i` days after the first |
| DateRanges.ConsecutiveCovers | script.js:1422-1424 | a run of consecutive dates is as long as its first-to-last day distance plus one, and holds exactly the valid dates between its ends, inclusive |
| DateRanges.DaysFromConsecutive | script.js:1397-1401 | the dates `start + 0`, `start + 1`, ... are consecutive |
| DateRanges.DatesInRange | script.js:1417-1427 | empty when either field does not parse or the start is after the end; otherwise it runs from start to end inclusive, the dates are consecutive, and it holds exactly the valid dates in between |
| DateRanges.WeekStart | script.js:1393-1395 | the first day of a numbered week is a real calendar date |
| DateRanges.WeekStartIsMonday | script.js:1393-1395 | every week the report lists starts on a Monday |
| DateRanges.JanuaryFirstInWeekOne | script.js:1393-1401 | the seven dates of week 1 include January 1st |
| DateRanges.DatesForWeek | script.js:1391-1404 | seven dates; date `i` is `i` days after the week's start; they are consecutive and the first is a Monday |
| Labels.DigitChar | script.js:1052 | a digit below 10 becomes a digit character, which is `0` exactly for 0 |
| Labels.DigitValue | script.js:1251 | a digit character has a value below 10 |
| Labels.NatToString | script.js:1052 | `String(n)` is a non-empty string of digits with no leading zero; it starts with `0` exactly for 0 |
| Labels.IntToString | script.js:1052 | `String(n)` of a year, also at `script.js:1044`: non-empty, starting with `-` exactly for a negative year, and all digits otherwise |
| Labels.PadStart2 | script.js:1052 | `padStart(2, '0')` makes a string at least two characters long and keeps a longer one at its length |
| Labels.LeadingDigits | script.js:1251-1252 | `parseInt` reads the longest prefix of digits, which stops at the first non-digit |
| Labels.ParseInt | script.js:1251-1252 | `parseInt` is NaN exactly when the string is empty or does not start with a digit; otherwise it is a number of at least 0 |
| Labels.Split | script.js:1251-1252 | `split` always yields at least one part |
| Labels.Part | script.js:1251-1257 | `parts[k]` is `undefined` exactly past the last part, and otherwise the `k`-th part |
| Labels.ParsePart | script.js:1251-1257 | `parseInt(undefined)` is NaN; a number read is at least 0 |
| Labels.DigitsValueOfNatToString | script.js:1052 | reading back the digits of `String(n)` gives `n` |
| Labels.LeadingZero | script.js:1252 | a leading zero does not change the value read |
| Labels.LeadingDigitsOfDigits | script.js:1251-1252 | `parseInt` of digits followed by a non-digit reads exactly those digits |
| Labels.SplitWithout | script.js:1251 | splitting a string that lacks the separator yields the string alone |
| Labels.SplitAtFirst | script.js:1251-1252 | splitting at the first separator yields the part before it, then the split of the rest |
| Labels.ParsePadded | script.js:1252 | `parseInt` of a zero-padded number gives the number |
| Labels.DayOfYear | script.js:1049-1050 | the days since January 1st lie in 0 .. year length - 1 |
| Labels.WeekNumberAsWritten | script.js:1047-1051 | the week number as `getCurrentWeek` computes it, counted from January 1st, lies in 1..53 |
| Labels.WeekNumberAsWrittenMissesToday | script.js:1047-1053 | Monday 1970-01-05 is labelled week 1, yet none of the seven dates the report lists for week 1 is that day |
| Labels.WeekNumber | script.js:1391-1395 | the corrected week number, counted in the Monday-based weeks that `getDatesForWeek` lists, lies in 1..54 |
| Labels.WeekNumberHoldsToday | script.js:1391-1401 | the week named by the corrected number contains the date it was computed for |
| Labels.WeekLabelFor | script.js:1052 | the `YYYY-Www` label of a year and a week number: the year, `-W`, and the week padded to two digits; `Labels.WeekLabelForRoundTrip` is its inverse |
| Labels.WeekLabelAsWritten | script.js:1047-1053 | the label `getCurrentWeek` builds, from the week number as written |
| Labels.WeekLabel | script.js:1047-1053 | the corrected default label, built from the Monday-based week number |
| Labels.MonthLabel | script.js:1044 | the `YYYY-MM` default of the month picker, with the one-based month padded to two digits; `Labels.MonthLabelRoundTrip` is its inverse |
| Labels.ParseWeekLabel | script.js:1251-1252 | the year read before the first `-` and the week read after the first `W`; each is NaN or at least 0, and the year is NaN exactly when the label does not start with a digit |
| Labels.ParseMonthLabel | script.js:1256-1257 | the year before the first `-` and the month after it less one; the year is NaN or at least 0, NaN exactly when the label does not start with a digit, and the month is NaN or at least -1 |
| Labels.WeekLabelForRoundTrip | script.js:1251-1252 | for every year of at least 0 and every week number, parsing the label gives back that year and that week |
| Labels.WeekLabelAsWrittenRoundTrip | script.js:1251-1252 | parsing the label `getCurrentWeek` builds gives back the year and the week number as written |
| Labels.WeekLabelRoundTrip | script.js:1251-1252 | parsing the corrected label of a date gives back its year and its corrected week number, the week that `Labels.WeekNumberHoldsToday` shows to hold the date |
| Labels.MonthLabelRoundTrip | script.js:1256-1257 | parsing the `YYYY-MM` label of `script.js:1044` gives back the year and the zero-based month |
| Metrics.RoundDiv | script.js:356 | `Math.round(num / den)` in integers, `(2·num + den) div (2·den)`; `Metrics.RoundDivIsNearest` shows it is the nearest integer with halves going up |
| Metrics.RoundDivIsNearest | script.js:356 | `Math.round(num / den)` for non-negative values is the nearest integer, with halves rounded up |
| Metrics.RoundDivMonotone | script.js:356 | the rounded quotient does not decrease when the numerator grows |
| Metrics.RoundDivAtMost | script.js:356 | a quotient at most `m` rounds to at most `m` |
| Metrics.RoundDivExact | script.js:356 | an exact quotient is unchanged by rounding |
| Metrics.CompletionPercent | script.js:237-239 | `Math.round(completed / target · 100)` as a rounded integer quotient; the lemmas below give its meaning |
| Metrics.PercentIsNearest | script.js:237-239 | the percentage is the integer nearest to `100 · completed / target`, with halves rounded up |
| Metrics.PercentOfNothing | script.js:237-239 | nothing completed gives 0% |
| Metrics.PercentOfEverything | script.js:237-239 | completing exactly the target gives 100% |
| Metrics.PercentMonotone | script.js:237-239 | the percentage does not decrease as more items are completed |
| Metrics.PercentAtMostHundred | script.js:237-239 | with no more completed items than the target, the percentage is at most 100 |
| Metrics.PercentCanExceedHundred | script.js:237-239 | because every item counts, 7 completed against a target of 5 gives 140% |
| Metrics.PerfectIffAllDone | script.js:719 | for targets below 200, 100% is reached exactly when the completed count equals the target |
| Metrics.HalfwayIff | script.js:328 | a day reaches 50% exactly when `200 · completed >= 99 · target` |
| Metrics.Sum | script.js:857 | `reduce((a, b) => a + b, 0)`, also at `script.js:552`, `script.js:588` and `script.js:958`: 0 for no values, and at least each value summed |
| Metrics.SumOfLonger | script.js:351 | adding one more percentage adds it to the running total |
| Metrics.SumAtMost | script.js:351 | a total of values each at most `m` is at most `m` times their number |
| Metrics.MeanAtMost | script.js:356 | the rounded mean of values each at most `m` is at most `m` |
| Metrics.Mean | script.js:356 | the rounded mean: the total over the count, rounded half up; `Metrics.MeanAtMost` bounds it |
| Metrics.Count | script.js:606-608 | a filtered count is at most the list length |
| Metrics.ChartBucketsPartition | script.js:606-608 | the chart's complete (90+), partial (50..89) and missed (below 50) counts add up to the number of days |
| Metrics.ReportBucketsPartition | script.js:976-978 | in the report, missed is 1..49, so the three counts add up to the number of days less the 0% days |
| Metrics.HeatmapClass | script.js:673-679 | an untracked day is unmarked; a tracked day is completed exactly at 90+, partial exactly at 50..89, missed exactly at 1..49, and unmarked exactly at 0% |
| Metrics.TrailingStreak | script.js:557-564 | the streak is a run of values at 50%+ that ends the list, at most the list length, and the value before it (if any) is below 50 |
| Metrics.BestStreak | script.js:593-602 | the best streak is the length of some run of values at 50%+, and no such run is longer |
| Metrics.NoLongerRunEndsHere | script.js:595-601 | the running `currentStreak` is the longest run of values at 50%+ ending at the current value |
| Metrics.WeekOfMonth | script.js:617 | `Math.floor((day - 1) / 7)`: `7·week <= day - 1 < 7·week + 7`; for a day of the month it is one of the four weeks exactly when the day is at most 28 |
| Metrics.WeekStep | script.js:617-623 | one step of the week-of-month average keeps four weekly values |
| Records.RoutineTarget | script.js:238 | the target is always positive: the setting when it is positive, 7 when it is 0 |
| Records.DefaultRoutine | script.js:56-66 | the default routine has seven items with ids 1 to 7, none completed |
| Records.DefaultDay | script.js:124-130 | the record of an untracked day: the default routine, zero counters, no archery session, both self-care flags false |
| Records.DefaultSettings | script.js:44-49 | the settings without a stored copy: routine 7, water 8, coffee 2, tea 1 |
| Records.CompletedCount | script.js:237 | the completed count is at most the number of items, and 0 exactly when no item is completed |
| Records.Consumption.Bump | script.js:1465 | the chosen counter goes up by exactly 1 and the others are unchanged |
| Records.Consumption.Drop | script.js:1472-1474 | the chosen counter goes down by 1 when it is above 0 and is left alone at 0, so it never goes negative; the others are unchanged |
| Records.SelfCare.Flip | script.js:1516 | the chosen flag is negated and the other one is unchanged |
| Records.Load | script.js:111-131 | a missing date gives the default record; for a stored date, each stored part is kept and each missing part gets its default (the seven-item routine, zero counters, no archery, both flags false) |
| Records.Save | script.js:94-106 | the keys become the old keys plus the current date; every other date's record is unchanged; the new entry carries the timestamp; loading the date gives back exactly the saved record |
| Records.SaveKeepsTracked | script.js:94-106 | after saving, every stored record still has its routine |
| Records.FirstWithId | script.js:1447 | where `find(r => r.id === id)` stops, also at `script.js:1500`: an item with the id and none before it |
| Records.ToggleItem | script.js:1447-1450 | the routine keeps its length; with no item of that id it is unchanged; otherwise only the first item with that id is flipped |
| Records.ToggleItemTwice | script.js:189-191 | toggling the same id twice restores the routine |
| Records.Without | script.js:1503 | filtering by id keeps exactly the entries with another id, and no more entries than before |
| Records.WithoutAppend | script.js:1503 | `filter` distributes over concatenation, so it keeps the surviving entries in their order |
| Records.WithoutCounts | script.js:1503 | `filter` keeps each entry with another id as many times as it occurs, and none with the id |
| Records.WithoutFresh | script.js:205 | filtering by an id that no entry has changes nothing |
| Records.WithoutLast | script.js:204-205 | with distinct ids, filtering out the id of the last entry drops exactly that entry |
| Records.WithoutUnique | script.js:1503 | with distinct ids, removing an entry by id removes exactly that one entry from the multiset |
| Records.Apply | script.js:1446-1520 | a handler's action changes only its own part of the record: the routine for a toggle, the counters for the drink buttons, the sessions for archery, the flags for self-care; the routine keeps its length |
| Records.Undo | script.js:187-210 | `undoAction` likewise changes only the part its action touched, and the routine keeps its length |
| Records.UndoRestores | script.js:187-210 | undoing a routine toggle, an increment, a decrement (done only above 0), a self-care toggle or an archery add (with a new id) gives back the record as it was before the action |
| Records.UndoRemoveRestoresEntries | script.js:207-208 | undoing an archery removal restores the same entries as a multiset, and every other part of the record |
| Records.UndoRemoveCanReorder | script.js:207-208 | undoing a removal puts the entry at the end: removing `a` from `[a, b]` and undoing gives `[b, a]` |
| History.Percent | script.js:850-855 | a tracked day's completion percentage, from its completed count and the effective target |
| History.PercentAtMostHundredWhenWithinTarget | script.js:324-326 | a stored day with no more completed items than the target scores at most 100% |
| History.Earliest | script.js:306 | a non-empty set of keys has an earliest key, before every other one |
| History.SortedKeys | script.js:306 | the sorted keys have exactly the keys as members, each once |
| History.SortedKeysAscend | script.js:306 | the sorted keys are in strictly increasing date order |
| History.LastSeven | script.js:341 | `slice(-7)` keeps `min(n, 7)` dates, all taken from the list |
| History.LastSevenIsTail | script.js:341 | the dates kept are the last ones of the list, in its order |
| History.LastSevenAreLatest | script.js:341 | every tracked date left out of the last seven is earlier than every one kept |
| History.Percents | script.js:850-855 | one percentage per date |
| History.PercentsAt | script.js:850-855 | the percentage at index `i` is that of the `i`-th date |
| History.PercentsAtMostHundred | script.js:850-855 | when no day completes more than the target, every percentage is at most 100 |
| History.DaysBack | script.js:337 | the date `k` days before today is valid and `k` days earlier |
| History.DaysBackStep | script.js:337 | zero days back is today, and stepping back one more day is the previous day |
| History.Qualifies | script.js:323-328 | a day keeps the daily streak going when it is tracked and scores 50% or more |
| History.QualifyingRunGrows | script.js:319-332 | a qualifying run extends by one when the next earlier day is tracked and at 50%+ |
| History.DailyStreak | script.js:314-338 | the streak is at most 30; today and each earlier day of the streak is tracked at 50%+; below 30, the next earlier day is missing or below 50% |
| History.LastSevenPercents | script.js:829 | there are at most seven recent percentages, and none exactly when nothing is tracked |
| History.TrackedWeekAverage | script.js:341-356 | with no history the stats panel shows 0; otherwise the rounded mean of the percentages of the last seven tracked dates |
| History.TrackedWeekAverageAtMostHundred | script.js:341-356 | that average is at most 100 when no day completes more than the target |
| History.WeekReport | script.js:827-867 | no average without history; otherwise the rounded mean of the last seven tracked days, and a trailing streak of days at 50%+ that is at most the number of those days and cannot be extended |
| History.PercentOrZero | script.js:538-545 | an untracked calendar day counts 0; a tracked one counts its percentage |
| History.CalendarWeek | script.js:533-546 | seven values, oldest first; value `j` is the percentage of the day `6 - j` days before today, or 0 when it is untracked |
| History.WeeklyChart | script.js:533-564 | the seven calendar-day values, their rounded mean, and a trailing 50%+ streak of at most 7 that cannot be extended |
| History.MonthDates | script.js:570-574 | the dates kept are exactly those of the given month and year |
| History.MonthDatesKeepOrder | script.js:570-574 | filtering a date-ordered list by month keeps it in date order |
| History.MonthChartInDateOrder | script.js:570-574 | the monthly chart's dates, the month's sorted keys, are in strictly increasing date order |
| History.MonthChart | script.js:568-608 | nothing when the month has no tracked day; otherwise the day count, the rounded mean, the best 50%+ run in date order, and complete/partial/missed counts that add up to the day count |
| History.MonthReport | script.js:922-979 | the same over the keys in storage order, with missed as 1..49 so the buckets add up to the days less the 0% days, and untracked as today's day of the month less the tracked days |
| History.Trend | script.js:614-625 | the week-of-month trend has four values |
| History.TrendAtMost | script.js:614-625 | when every percentage is at most `m`, so is every weekly value |
| History.TrendOfOneFullDay | script.js:622-623 | a single 100% day in the first 28 days gives its week 50, because each value is averaged with the 0 already there |
| History.TrendIgnoresLateDays | script.js:618 | days 29 to 31 do not change the trend |
| History.TrendStep | script.js:615-624 | the trend after one more date is one averaging step on the trend so far |
| History.MonthTrend | script.js:614-625 | the method fills a new four-slot array with exactly the trend of the month's dates in their order |
| History.DaysOf | script.js:617 | one day of the month per date, in order |
| History.Heatmap | script.js:632-687 | hidden cells up to the weekday of the 1st, then one cell per day of the month with its number and the class of that date |
| History.CellOf | script.js:667-679 | a day outside the tracked month dates is unmarked; a tracked one is `completed` exactly at 90%+ and unmarked exactly at 0% |
| History.HeatmapColumnIsWeekday | script.js:648-657 | in the seven-column grid, each day sits in its weekday's column |
| Insights.RoutineInsightFor | script.js:704-763 | "start your day" exactly when nothing is completed; otherwise "perfect" exactly at 100%, "strong start" exactly at 70%+ but not 100%, "good progress" exactly at 40..69%, "building momentum" exactly below 40% |
| Insights.RoutineInsightMonotone | script.js:704-763 | completing more items (up to the target) never moves the daily insight to a lower tier |
| Insights.PerfectIffAllTargetedDone | script.js:719 | for targets below 200, the "perfect execution" tier shows exactly when the completed count equals the target |
| Insights.OverTargetIsOnlyStrong | script.js:719-730 | 8 completed against 7 scores 114%, not 100%, and so gets only the "strong start" tier |
| Insights.HydrationInsightFor | script.js:766-787 | "hydration master" exactly when the water count reaches the target as stored (so always with a target of 0); "progress" exactly when some but not enough water was drunk; the reminder exactly at no water against a positive target |
| Insights.ArcheryInsightFor | script.js:790-804 | "practice maintained" exactly when a session is logged, else the suggestion |
| Insights.SelfCareCount | script.js:807 | the self-care count is at most 2; it is 2 exactly when both flags are set and 0 exactly when neither is |
| Insights.SelfCareInsightFor | script.js:808-822 | no self-care insight when neither flag is set; "complete" exactly when both are |
| Insights.DailyInsightsFor | script.js:695-825 | the daily report's routine tier is chosen from the completed count and target; archery praise shows exactly when a session is logged; no self-care note when neither flag is set |
| Insights.FreshDayInsights | script.js:704-822 | a fresh day shows "start your day", the hydration reminder, the archery suggestion and no self-care note |
| Insights.WeeklyInsightFor | script.js:834-916 | "tracking starting" exactly without data; otherwise "exceptional" exactly at 85+, "solid" exactly at 70..84, "building consistency" exactly at 1..69, and "starting" exactly at 0 |
| Insights.WeeklyInsightMonotone | script.js:872-916 | a higher weekly average never gives a lower tier |
| Insights.MonthlyInsightFor | script.js:935-1025 | "overview starting" exactly without data; otherwise "outstanding" exactly at 80+, "solid foundation" exactly at 65..79, "progress tracking" exactly at 1..64, and "in progress" exactly at 0 |
| Insights.MonthlyInsightMonotone | script.js:981-1025 | a higher monthly average never gives a lower tier |
| Insights.MonthlyLadderIsLenient | script.js:981-1003 | the monthly ladder is never stricter than the weekly one; an 82% average is "outstanding" for the month but only "solid" for the week |
| Dashboard.DashboardApp.constructor | script.js:11-37 | the app starts on today with the stored history and settings, the state loaded for today (defaults if untracked), and no undo pending |
| Dashboard.DashboardApp.LoadDate | script.js:111-131 | the state becomes the loaded record of the current date; nothing else changes |
| Dashboard.DashboardApp.NavigateDate | script.js:141-146 | the current date moves by `direction` days and its record is loaded; history, settings and the pending undo are unchanged |
| Dashboard.DashboardApp.GoToToday | script.js:148-151 | the current date becomes today and its record is loaded |
| Dashboard.DashboardApp.SaveHistory | script.js:94-106 | the history becomes `Save` of the current state under the current date; nothing else changes |
| Dashboard.DashboardApp.Perform | script.js:1492-1494 | the toast is armed with the action, the state becomes the action applied, and it is saved |
| Dashboard.DashboardApp.ToggleRoutine | script.js:1446-1455 | acts exactly when an item has the id: the first such item is flipped, the undo is armed and the day is saved; otherwise nothing changes |
| Dashboard.DashboardApp.Increment | script.js:1461-1468 | the chosen counter goes up by 1, the others are unchanged, the undo is armed and the day is saved |
| Dashboard.DashboardApp.Decrement | script.js:1469-1478 | acts exactly when the counter is above 0: it goes down by 1, the undo is armed and the day is saved; at 0 nothing changes |
| Dashboard.DashboardApp.AddArchery | script.js:1484-1496 | the new entry is appended, the undo is armed and the day is saved |
| Dashboard.DashboardApp.RemoveArchery | script.js:1497-1508 | acts exactly when an entry has the id: every entry with it is dropped and nothing else; the entry kept for the undo is the first one with the id, no earlier entry having it; the day is saved; otherwise nothing changes |
| Dashboard.DashboardApp.ToggleSelfCare | script.js:1512-1520 | the chosen flag is negated, the undo is armed and the day is saved |
| Dashboard.DashboardApp.ResetConsumption | script.js:1541-1548 | when confirmed, all three counters become 0 and the day is saved; otherwise nothing changes; no undo is offered |
| Dashboard.DashboardApp.ClearData | script.js:1646-1657 | when confirmed, the history is emptied, the settings return to their defaults and the record on screen becomes the default record; otherwise nothing changes; the day on screen and any pending undo stay |
| Dashboard.DashboardApp.DismissToast | script.js:180-184 | the toast goes away and no undo is pending; nothing else changes, so the state stays valid |
| Dashboard.DashboardApp.UndoLast | script.js:174-178 | with an undo pending, the action is reversed on the shown day's state, the day is saved and the toast is cleared; without one nothing changes |

## Left out

- Storage and files: `localStorage`, JSON parsing and printing, the import and export handlers (`script.js:1586-1643`), the jsPDF report and the history modal. The history is an in-memory map, and the clock (`new Date()`, `Date.now()`, `toISOString()`) enters as parameters.
- Time zones: `formatDate` uses UTC while other dates are built in local time, and the month filter mixes the two. Dates here are plain calendar dates, so day boundaries and daylight saving time in `getCurrentWeek` are not modelled.
- JavaScript `Date` normalisation of out-of-range months and days (for example `new Date(year, 0, 0)`): only the cases the code relies on are modelled, through `AddDays` and `DaysInMonth`.
- Unparseable dates are `None` in `DateRanges.DatesInRange`. The string-to-date parsing of the date fields is not modelled.
- Years without exactly four digits: the string order of keys agrees with date order only for four-digit years, and the model takes the date order.
- Labels.WeekLabelRoundTrip: requires a year of at least 0, because the minus sign of a negative year would be read as the separator.
- Labels.WeekLabelForRoundTrip: requires a year of at least 0, for the same reason; so does Labels.WeekLabelAsWrittenRoundTrip.
- Labels.MonthLabelRoundTrip: requires a year of at least 0, for the same reason.
- `parseInt` whitespace and sign handling: the labels parsed here never contain either.
- Floating point: the percentage is computed in exact integer arithmetic, and the chart's display ratios (`100 / target`, `33.33`) are not modelled.
- Settings: negative or non-numeric targets. `routineTarget` is a natural number, and 0 stands for the empty setting that `|| 7` replaces. The other targets are compared as stored, so a `waterTarget` of 0 is met by any count. A `waterTarget` missing from imported settings is `undefined`, which no count reaches; that case is not modelled.
- The save-settings handler (`script.js:1570-1576`) is not modelled. It replaces a 0 or non-numeric input with the default target.
- Presentation: DOM updates, Chart.js, insight texts, `formatArcheryType`, the weekly total, and the reports' archery and water totals. Only the selected insight tier is modelled.
- Timing and dialogs: the toast's five-second timer becomes `Dashboard.DashboardApp.DismissToast`. `confirm` becomes the `confirmed` parameter of `Dashboard.DashboardApp.ResetConsumption` and `Dashboard.DashboardApp.ClearData`, and `alert` is left out.
- Two-digit years: `new Date(y, m, d)` maps a year 0..99 to 1900 + y (`script.js:1393`, `script.js:1408`). The model takes every year as given.
- bugfix.js is not part of this model: it patches the DOM and event handling only.
- Metrics that read a stored day's routine require it to be present (`Records.Tracked`), since the code would fail on a record without one.
- Records.UndoRestores: for an archery add, the lemma requires the new id to be fresh, which is the uniqueness that `Date.now()` ids give in practice. `Records.UndoRemoveRestoresEntries` likewise assumes distinct ids in the list.
- Records.UndoRestores: an archery removal is excluded because undo re-appends the entry and so may reorder the list. `Records.UndoRemoveRestoresEntries` states what holds instead and `Records.UndoRemoveCanReorder` shows the reordering.

## Findings

| source | as written | input that shows it | evidently intended | confidence | as-written member | corrected member |
|---|---|---|---|---|---|---|
| script.js:1047-1053 | `getCurrentWeek` counts weeks from January 1st, while `getDatesForWeek` (`script.js:1391-1395`) reads week numbers as Monday-based weeks starting on the Monday on or before January 1st | Monday 1970-01-05: labelled `1970-W01`, but week 1 of 1970 runs from 1969-12-29 to 1970-01-04 | the default week label selects the week that contains today | medium, not executed | Labels.WeekNumberAsWrittenMissesToday | Labels.WeekNumberHoldsToday |
