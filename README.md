# Pomodoro log analyzer, modelled in Dafny

The Ruby Pomodoro CLI keeps one CSV log per day in a log directory. Each log
is named `YYYY-MM-DD.csv` and holds one row per finished session, with the
columns `date,project,session,duration,update`. `PomodoroLogAnalyzer`
(`lib/log-analyzer.rb`) reads that directory in two ways:

- `analyze` builds one summary per day: the first row's project, the number
  of sessions, the total and average duration, and the numbered updates
  joined with `" | "`.
- `generate_public_summary` builds a shareable report that carries no
  project or update text. It holds:
  - the number of selected files;
  - the session count and focus time;
  - the current streak of consecutive days, from `calculate_streak`;
  - the average number of sessions per calendar week, from
    `calculate_weekly_average`;
  - a bar chart of the latest 14 recorded days.

Both operations list the directory sorted by file name. When a start date is
given, both keep only the names between the start and end strings. Both skip
any file whose name does not have the date shape, any file that cannot be
read, and any file with no rows.

The model is organised by module:

| module | file | models |
|---|---|---|
| `Wrappers` | `wrappers.dfy` | `Option` |
| `Text` | `text.dfy` | byte-wise string order, zero-padded decimals, `String#to_i`, `Array#join` |
| `Calendar` | `calendar.dfy` | proleptic Gregorian dates, day numbers, `strftime('%Y-%m-%d')` and its parse, the `%Y-%U` week key |
| `LogFiles` | `logfiles.dfy` | rows and directory entries, the sorted listing, the range filter, the date-shape check, the analyzer's options |
| `Analysis` | `analysis.dfy` | `analyze` |
| `Streaks` | `streak.dfy` | `calculate_streak` |
| `Weekly` | `weekly.dfy` | `calculate_weekly_average` |
| `PublicStats` | `public.dfy` | `generate_public_summary` |

Each loop of the source is a method proved against a specification function:
`Analysis.Analyze`, `Streaks.CalculateStreak`,
`Weekly.CalculateWeeklyAverage`, `PublicStats.TallyFiles`,
`PublicStats.DrawChart` and `PublicStats.GeneratePublicSummary`. Lemmas then
state what the specification functions promise.

The directory is a parameter: a sequence of entries, each holding a base name
and either the parsed rows or nothing (reading the file raised). "Today" is a
parameter too.

Ruby hashes (`daily_sessions` and the week buckets) are insertion-ordered
association lists. Their lookups and updates are modelled as the source
performs them.

The test "calculates weekly average from daily sessions"
(spec/lib/log_analyzer_spec.rb:255-268) expects seven consecutive days ending
today to fall in one `%Y-%U` week. `Weekly.SevenDaysShareWeekOnlyFromSunday`
shows that this holds exactly when the first of the seven days is a Sunday and
all seven days lie in one year. The test passes only on such days.

A latest recorded day later than today gives a positive streak, because the
source only checks `today - last > 1`. The model keeps this behaviour (see
`Streaks.StreakIsZeroExactly`).

## Model

| member | source | states |
|---|---|---|
| Text.FixedWidthOrder | lib/log-analyzer.rb:35 | for digit strings of equal width, string order is numeric order, and string equality is numeric equality |
| Text.ToIOfNatToString | lib/log-analyzer.rb:61 | `to_i` reads back every written whole number, with or without a minus sign |
| Text.ToIRadixPrefix | lib/log-analyzer.rb:61 | `to_i` skips a `0d` or `0D` radix prefix after the sign, so `0d1500` reads as 1500 and `-0D5` as -5 |
| Text.ToIWithoutDigits | lib/log-analyzer.rb:61 | a duration field with no digit at all counts as 0 seconds |
| Text.JoinSnoc | lib/log-analyzer.rb:65-67 | joining one more part appends the separator and that part |
| Calendar.DayNumberOrder | lib/log-analyzer.rb:207-208 | day numbers order valid dates chronologically, and equal day numbers mean equal dates |
| Calendar.PreviousDay | lib/log-analyzer.rb:221-223 | every valid date after 0000-01-01 has a valid previous date one day number lower (`current_date - 1`) |
| Calendar.WeekStartIsSunday | lib/log-analyzer.rb:236 | the `%U` week of a date starts on a Sunday, at most six days before it |
| Calendar.WeekKeySameWeek | lib/log-analyzer.rb:236 | two dates share a `%Y-%U` key exactly when they share the year and the Sunday that starts their week |
| Calendar.FormatThenParse | lib/log-analyzer.rb:22 | parsing a formatted valid date gives that date back |
| Calendar.ParseThenFormat | lib/log-analyzer.rb:207 | a name that parses is exactly the formatted form of its date |
| Calendar.NameOrder | lib/log-analyzer.rb:162 | for names that parse, string order is chronological order, and equal names mean equal days |
| LogFiles.SortBySorted | lib/log-analyzer.rb:29 | the listing's sort is ordered by file name and is a permutation of its input |
| LogFiles.SortOfAscending | lib/log-analyzer.rb:162 | sorting a strictly ascending list leaves it unchanged |
| LogFiles.SortByKeepsDistinctNames | lib/log-analyzer.rb:29 | sorting keeps the file names distinct |
| LogFiles.DatedFileNameOrder | lib/log-analyzer.rb:29 | for date-shaped names, sorting by `name.csv` orders the same way as sorting by name |
| LogFiles.SelectInRangeKeeps | lib/log-analyzer.rb:32-37 | the range filter keeps exactly the in-range files and preserves sortedness and distinct names |
| LogFiles.RangeIsChronological | lib/log-analyzer.rb:35 | for names that parse, the string range check is the date range check |
| LogFiles.ShapeCheckAcceptsSecondLine | lib/log-analyzer.rb:51 | the shape check as written accepts a name whose second line is a date, although the whole name is not date-shaped |
| LogFiles.ShapeCheckAgreement | lib/log-analyzer.rb:51 | a date-shaped name has no line break and passes the check as written; for names without a line break the two checks agree |
| LogFiles.NewAnalyzer | lib/log-analyzer.rb:18-23 | the start date is kept as given; the end date defaults to today's formatted date |
| LogFiles.SelectedFilesSpec | lib/log-analyzer.rb:29-37 | the selected files are exactly the directory's in-range files, sorted by file name, with distinct names |
| Analysis.Summarize | lib/log-analyzer.rb:59-67 | the day's summary has the first row's project, the row count and the summed durations. Its average is the floor of the total over the count, and its updates are the rows' `Session i: <update>` labels joined with `" \| "` |
| Analysis.FloorDivision | lib/log-analyzer.rb:62 | integer division by a positive count gives the floor: `q*n <= total < (q+1)*n` |
| Analysis.Analyze | lib/log-analyzer.rb:25-80 | the method's result is the specification `AnalysisOf` for every directory |
| Analysis.TotalSecondsAppend | lib/log-analyzer.rb:61 | the summed durations of two runs of rows add up |
| Analysis.TotalOfWrittenDurations | lib/log-analyzer.rb:61 | when each duration field is a written whole number, the total is the sum of those numbers |
| Analysis.NumberedAt | lib/log-analyzer.rb:65-66 | the i-th label is `Session <start+i>: <update>` of the i-th row, one label per row |
| Analysis.NumberedSnoc | lib/log-analyzer.rb:65-66 | numbering one more row appends its label with the next number |
| Analysis.UpdatesAppend | lib/log-analyzer.rb:65-67 | the updates of one more row are the earlier updates, `" \| "` and the new label |
| Analysis.SummariesOfRecorded | lib/log-analyzer.rb:47-80 | each summary comes from a recorded file, and each recorded file has its summary |
| Analysis.SummaryPositions | lib/log-analyzer.rb:47-80 | each summary is that of a recorded file at some position of the listing |
| Analysis.SummariesBefore | lib/log-analyzer.rb:47-80 | the files listed before a date-shaped file yield only earlier dates |
| Analysis.SummariesAscending | lib/log-analyzer.rb:29 | the summaries of a sorted listing with distinct names have strictly ascending dates |
| Analysis.AnalysisSpec | lib/log-analyzer.rb:25-80 | nothing is written exactly when no file is in range. Otherwise the summaries are strictly ascending, each comes from an in-range recorded file, and each such file has its summary |
| Streaks.MaxOf | lib/log-analyzer.rb:212 | the last of the sorted days is a recorded day no earlier than any other |
| Streaks.CalculateStreak | lib/log-analyzer.rb:203-227 | the loop's result is the specification `Streak` |
| Streaks.RunBeforeSpec | lib/log-analyzer.rb:221-224 | the days counted before `d` are all recorded, and the day before them is not |
| Streaks.RunBeforeUnique | lib/log-analyzer.rb:221-224 | any run of recorded days ended by a missing day has the counted length |
| Streaks.StreakIsZeroExactly | lib/log-analyzer.rb:204-215 | the streak is 0 exactly when no day is recorded or the latest is more than one day before today |
| Streaks.StreakIsRun | lib/log-analyzer.rb:218-224 | otherwise the streak counts the latest day and the unbroken run before it, and the day before that run is missing |
| Streaks.StreakBounds | lib/log-analyzer.rb:218-224 | the streak never exceeds the number of distinct recorded days, nor the number of dates |
| Streaks.DistinctSize | lib/log-analyzer.rb:207 | a list of days has at most as many distinct days as entries |
| Streaks.StreakDependsOnDaysOnly | lib/log-analyzer.rb:207-208 | the order and repetition of the dates do not change the streak |
| Streaks.EarlierDayIgnored | lib/log-analyzer.rb:221 | adding a day before the gap that ends the streak does not change it |
| Streaks.StreakExamples | spec/lib/log_analyzer_spec.rb:215-251 | the four test cases give 3, 3, 0 and 0 for any today |
| Weekly.BumpSpec | lib/log-analyzer.rb:237-238 | adding to a bucket adds the count to the total and the week to the keys, and keeps keys distinct |
| Weekly.CalculateWeeklyAverage | lib/log-analyzer.rb:229-243 | the loop's result is the specification `WeeklyAverageOf` |
| Weekly.BucketsOfSpec | lib/log-analyzer.rb:233-239 | the buckets' sum is the total session count, their keys are the days' weeks, and no key repeats |
| Weekly.WeeksOfSize | lib/log-analyzer.rb:233-239 | there are at most as many weeks as days, and at least one when there is a day |
| Weekly.WeeklyAverageSpec | lib/log-analyzer.rb:229-243 | no days gives the 0 case. Otherwise the average is the total sessions over the number of distinct weeks, and that number lies between 1 and the number of days |
| Weekly.SingleWeek | lib/log-analyzer.rb:242 | when all days fall in one week the average is the total itself |
| Weekly.SevenDaysShareWeekOnlyFromSunday | spec/lib/log_analyzer_spec.rb:255-268 | seven consecutive days share a week exactly when the first is a Sunday and all lie in one year |
| PublicStats.StoreThenLookup | lib/log-analyzer.rb:152 | a stored count is read back, and no other date's count changes |
| PublicStats.StoreNew | lib/log-analyzer.rb:152 | storing a date the hash lacks appends it at the end |
| PublicStats.LookupFirst | lib/log-analyzer.rb:190 | a lookup finds the first pair with the date |
| PublicStats.ParseDates | lib/log-analyzer.rb:207 | parsing succeeds exactly when every name parses, giving each name's date. Otherwise the reported name is one of the names and does not parse |
| PublicStats.ParseDaily | lib/log-analyzer.rb:234-235 | parsing the hash succeeds exactly when every key parses, giving each key's date with its count. Otherwise the reported key does not parse |
| PublicStats.Repeat | lib/log-analyzer.rb:191 | the bar has exactly `count` characters, each a block |
| PublicStats.TallyFiles | lib/log-analyzer.rb:137-159 | the loop's result is the specification `TallyOf` |
| PublicStats.DrawChart | lib/log-analyzer.rb:189-193 | the loop's lines are the specification `Chart` |
| PublicStats.GeneratePublicSummary | lib/log-analyzer.rb:111-199 | the method's result is the specification `PublicSummaryOf` |
| PublicStats.TallyMatchesAnalysis | lib/log-analyzer.rb:137-159 | the loop sees the days `analyze` summarizes. Its dates are their dates, its hash maps each to its session count, and its totals are their sums |
| PublicStats.NewDayIsNew | lib/log-analyzer.rb:149 | a file's name is none of the days recorded before it |
| PublicStats.ChartSpec | lib/log-analyzer.rb:189-193 | the chart has one line per date, and each line is that date's line |
| PublicStats.SelectedTally | lib/log-analyzer.rb:115-159 | for the selected files the tally is that of the summarized days, in strictly ascending date order |
| PublicStats.DatesSorted | lib/log-analyzer.rb:162 | the ascending dates are left unchanged by the sort |
| PublicStats.DatesParse | lib/log-analyzer.rb:207 | the dates and the hash keys parse exactly when every recorded name is a date |
| PublicStats.DaysOutcome | lib/log-analyzer.rb:162-166 | an invalid date is raised exactly when some recorded name is not a calendar date; otherwise the report is built |
| PublicStats.DaysReport | lib/log-analyzer.rb:162-193 | when every name parses, the report is built from the parsed dates |
| PublicStats.DaysWeekly | lib/log-analyzer.rb:166 | the weekly average is empty exactly when no day is recorded; otherwise it divides the session total among 1 to n weeks |
| PublicStats.RecentDates | lib/log-analyzer.rb:186 | the latest 14 dates are the dates of the latest min(14, n) days |
| PublicStats.RecentChart | lib/log-analyzer.rb:186-193 | the chart of the latest 14 dates is one line per latest day, with that day's own count |
| PublicStats.ChartLineAt | lib/log-analyzer.rb:190-192 | a recorded day's chart line shows its own session count |
| PublicStats.DaysChart | lib/log-analyzer.rb:186-193 | the report's chart is one line for each of the latest 14 days |
| PublicStats.MaxIsLast | lib/log-analyzer.rb:208-212 | of strictly ascending date names, the last has the largest day number |
| PublicStats.DatesAscending | lib/log-analyzer.rb:162 | the dates of ascending days are strictly ascending |
| PublicStats.LatestDay | lib/log-analyzer.rb:212 | the latest recorded day has the largest day number |
| PublicStats.DaysStreak | lib/log-analyzer.rb:163 | the streak is at most the number of days, and 0 exactly when there are none or the latest is more than a day before today |
| PublicStats.LookupPairs | lib/log-analyzer.rb:190 | with distinct dates, each date's count is its own day's sessions |
| PublicStats.TotalCountOfPairs | lib/log-analyzer.rb:234-238 | the weekly loop counts the same sessions as the days |
| PublicStats.SummaryThroughTally | lib/log-analyzer.rb:115-166 | the public summary is the outcome of the summarized days' tally, or no file |
| PublicStats.PublicSummaryOutcome | lib/log-analyzer.rb:125-166 | no report exactly when no file is selected; an invalid date exactly when a recorded name is not a calendar date; the report otherwise |
| PublicStats.PublicReportTotals | lib/log-analyzer.rb:131-181 | every selected file counts as a day, and sessions and focus time are those of the recorded days. The weekly average spreads the sessions over 1 to n weeks, and the report is dated today |
| PublicStats.PublicReportStreak | lib/log-analyzer.rb:163 | the streak is at most the number of recorded days, and 0 exactly when none is recorded or the latest is more than a day before today |
| PublicStats.PublicReportChart | lib/log-analyzer.rb:186-193 | the chart is one line for each of the latest 14 recorded days, in date order, with a bar of that day's session count |
| PublicStats.TotalSecondsRedacted | lib/log-analyzer.rb:154 | erasing every field but the duration keeps the day's total |
| PublicStats.InsertRedacted | lib/log-analyzer.rb:115 | erasing commutes with inserting into the sorted listing |
| PublicStats.SortRedacted | lib/log-analyzer.rb:115 | erasing commutes with sorting the listing |
| PublicStats.SelectRedacted | lib/log-analyzer.rb:118-123 | erasing commutes with the range filter |
| PublicStats.TallyRedacted | lib/log-analyzer.rb:137-159 | erasing leaves the tally unchanged |
| PublicStats.PublicSummaryIgnoresFreeText | spec/lib/log_analyzer_spec.rb:180-208 | the public report is the same whatever the projects, session numbers, row dates and updates say |

## Left out

- Console output, writing the CSV summary and the Markdown report, and
  the `OptionParser` block are not modelled. `analyze`'s printed totals
  (lib/log-analyzer.rb:98-108) are also left out. Each operation's result is
  the content it would write.
- Reading the directory and CSV parsing are not modelled. The directory is a
  given sequence of entries: a name and either the parsed rows or a read
  error. The listing is taken as the `*.csv` glob returns it, so hidden files
  are never in it.
- Sorting full paths is modelled as sorting `name.csv`. All paths share the
  directory prefix, so the order is the same.
- Analysis.Summarize: total and average are kept in whole seconds. The
  conversion to minutes and `round(1)` are floating point and left out. The
  average is the integer quotient, which the source computes before it
  converts.
- PublicStats.PublicReportTotals: the focus time is the exact sum of seconds.
  The source sums each day's minutes rounded to 0.1, then rounds the total
  for display. Those floating-point steps are left out.
- Weekly.CalculateWeeklyAverage: the result is the pair (sessions, weeks),
  not the rounded float quotient.
- Dates are proleptic Gregorian with years 0000 to 9999. Ruby's `Date` uses
  the Julian calendar before 1582-10-15 and accepts other years. Those cases
  are not modelled.
- `Date.parse` is modelled only on names of the whole-name date shape. With
  the corrected shape check no other name reaches it. The check as written
  also admits names with a line break, and `Date.parse` would then read the
  date embedded in them. That case is not modelled.
- Analysis.Recorded: uses the corrected whole-name check `HasDateShape`,
  not the line-anchored regex as written (see "## Findings"). A name with a
  line break and a date-shaped line is skipped here but summarized by the
  source.
- Analysis.Analyze: skips files through `Recorded`, so it models the
  corrected shape check. It differs from the source on names that contain a
  line break.
- PublicStats.TallyFiles: skips files whose name fails `HasDateShape`, the
  corrected check. It differs from the source on names that contain a line
  break, which the source would add to `dates` and `daily_sessions`.
- The `sort!` of parsed dates in `calculate_streak` is not modelled as a
  sort. Only its last element is used, which is the maximum
  (`Streaks.MaxOf`).
- The lemmas that relate the two operations assume distinct file names
  (`DistinctNames`). A directory cannot hold two files with the same name.
- `lib/pomodoro-timer.rb`, which writes the logs, is not part of this model.

## Findings

| source | as written | input that shows it | evidently intended | confidence | as-written member | corrected member |
|---|---|---|---|---|---|---|
| lib/log-analyzer.rb:51 (and :141) | the date-shape regex is anchored with `^` and `$`, which in Ruby match at line boundaries, so a name passes when any one of its lines is `YYYY-MM-DD` | a log file named `"notes\n2025-01-01.csv"` | the whole base name must be `YYYY-MM-DD` (anchors `\A` and `\z`) | medium, not executed | LogFiles.ShapeCheckAcceptsSecondLine | LogFiles.ShapeCheckAgreement |

`LogFiles.MatchesAsWritten` is the check as written. `LogFiles.HasDateShape`
is the corrected check, and the rest of the model uses it. For names without
a line break the two agree.
