/**
 * `generate_public_summary`: a shareable report that carries counts and
 * dates only: the number of selected files, the sessions and focus time of
 * the recorded days, the current streak, the weekly average and a bar chart
 * of the last 14 recorded days. The report is written as Markdown; here the
 * result is the report's content.
 */
module PublicStats {
  import opened Wrappers
  import opened Text
  import opened Calendar
  import opened LogFiles
  import opened Analysis
  import opened Streaks
  import opened Weekly

  /** One line of the chart: the date, a bar of `count` blocks, and the count. */
  datatype ChartLine = ChartLine(date: string, bar: string, count: nat)

  datatype PublicReport = PublicReport(
    totalDays: nat,
    totalSessions: nat,
    focusSeconds: int,
    currentStreak: nat,
    weeklyAverage: WeeklyAverage,
    lastUpdated: string,
    recentActivity: seq<ChartLine>)

  /**
   * No selected file (nothing is written); the report; or the name of a
   * recorded day that `Date.parse` rejects, which raises outside the
   * per-file rescue and ends the run.
   */
  datatype PublicOutcome = NoLogFilesFound | Report(report: PublicReport) | InvalidDate(name: string)

  /** The `daily_sessions` hash from date name to session count, in insertion order. */
  type DailyCounts = seq<(string, nat)>

  /** `h[k] = v`. */
  function Store(h: DailyCounts, k: string, v: nat): DailyCounts
  {
    if |h| == 0 then [(k, v)]
    else if h[0].0 == k then [(k, v)] + h[1..]
    else [h[0]] + Store(h[1..], k, v)
  }

  /** `h[k] || 0`. */
  function Lookup(h: DailyCounts, k: string): nat
  {
    if |h| == 0 then 0 else if h[0].0 == k then h[0].1 else Lookup(h[1..], k)
  }

  /** A stored count is found again, and no other key's count moves. */
  lemma {:induction false} StoreThenLookup(h: DailyCounts, k: string, v: nat, k': string)
    ensures Lookup(Store(h, k, v), k') == if k' == k then v else Lookup(h, k')
  {
    if |h| > 0 && h[0].0 != k {
      StoreThenLookup(h[1..], k, v, k');
    }
  }

  /** What the loop over the selected files accumulates. */
  datatype Tally = Tally(dates: seq<string>, daily: DailyCounts, sessions: nat, seconds: int)

  function TallyOf(files: seq<Entry>): Tally
  {
    if |files| == 0 then Tally([], [], 0, 0)
    else
      var t := TallyOf(files[..|files| - 1]);
      var e := files[|files| - 1];
      if Recorded(e) then
        var rows := e.rows.value;
        Tally(t.dates + [e.name], Store(t.daily, e.name, |rows|), t.sessions + |rows|,
              t.seconds + TotalSeconds(rows))
      else t
  }

  /** A value, or the first name that does not parse. */
  datatype Parsed<T> = Parsed(value: T) | Unparsable(name: string)

  /** `dates.map { |d| Date.parse(d) }`, which raises at the first bad name. */
  function ParseDates(names: seq<string>): (r: Parsed<seq<Date>>)
    ensures r.Parsed? <==> forall i :: 0 <= i < |names| ==> Parse(names[i]).Some?
    ensures r.Parsed? ==> |r.value| == |names|
                          && forall i :: 0 <= i < |names| ==> Parse(names[i]) == Some(r.value[i])
    ensures r.Parsed? ==> forall i :: 0 <= i < |r.value| ==> Valid(r.value[i])
    ensures r.Unparsable? ==> r.name in names && Parse(r.name).None?
  {
    if |names| == 0 then Parsed([])
    else match Parse(names[0])
      case None => Unparsable(names[0])
      case Some(d) =>
        match ParseDates(names[1..])
        case Unparsable(n) => Unparsable(n)
        case Parsed(ds) => Parsed([d] + ds)
  }

  /** The weekly average's parse of the hash keys. */
  function ParseDaily(daily: DailyCounts): (r: Parsed<seq<(Date, nat)>>)
    ensures r.Parsed? <==> forall i :: 0 <= i < |daily| ==> Parse(daily[i].0).Some?
    ensures r.Parsed? ==> AllValid(r.value) && |r.value| == |daily|
                          && forall i :: 0 <= i < |daily| ==> r.value[i] == (Parse(daily[i].0).value, daily[i].1)
    ensures r.Unparsable? ==> Parse(r.name).None?
  {
    if |daily| == 0 then Parsed([])
    else match Parse(daily[0].0)
      case None => Unparsable(daily[0].0)
      case Some(d) =>
        match ParseDaily(daily[1..])
        case Unparsable(n) => Unparsable(n)
        case Parsed(rest) => Parsed([(d, daily[0].1)] + rest)
  }

  function DayNumbers(ds: seq<Date>): (ns: seq<int>)
    requires forall i :: 0 <= i < |ds| ==> Valid(ds[i])
    ensures |ns| == |ds| && forall i :: 0 <= i < |ds| ==> ns[i] == DayNumber(ds[i]) as int
  {
    if |ds| == 0 then [] else [DayNumber(ds[0]) as int] + DayNumbers(ds[1..])
  }

  /** `c * n`. */
  function Repeat(c: char, n: nat): (s: string)
    ensures |s| == n && forall i :: 0 <= i < n ==> s[i] == c
  {
    if n == 0 then [] else [c] + Repeat(c, n - 1)
  }

  /** `s.last(n)`. */
  function LastN(s: seq<string>, n: nat): seq<string>
  {
    if |s| <= n then s else s[|s| - n..]
  }

  function ChartLineFor(date: string, daily: DailyCounts): ChartLine
  {
    var count := Lookup(daily, date);
    ChartLine(date, Repeat('█', count), count)
  }

  function Chart(dates: seq<string>, daily: DailyCounts): seq<ChartLine>
  {
    if |dates| == 0 then [] else Chart(dates[..|dates| - 1], daily) + [ChartLineFor(dates[|dates| - 1], daily)]
  }

  function Self(s: string): string { s }

  /** The report's fields, once the dates have parsed. */
  function BuildReport(totalDays: nat, t: Tally, dates: seq<string>, ds: seq<Date>,
                       daily: seq<(Date, nat)>, today: Date): PublicReport
    requires Valid(today) && AllValid(daily)
    requires forall i :: 0 <= i < |ds| ==> Valid(ds[i])
  {
    PublicReport(
      totalDays, t.sessions, t.seconds,
      Streak(DayNumbers(ds), DayNumber(today)),
      WeeklyAverageOf(daily),
      Format(today),
      Chart(LastN(SortBy(dates, Self), 14), t.daily))
  }

  /** The report computed from the loop's tally over `totalDays` selected files. */
  function TallyOutcome(totalDays: nat, t: Tally, today: Date): PublicOutcome
    requires Valid(today)
  {
    var dates := SortBy(t.dates, Self);
    match ParseDates(dates)
    case Unparsable(name) => InvalidDate(name)
    case Parsed(ds) =>
      match ParseDaily(t.daily)
      case Unparsable(name) => InvalidDate(name)
      case Parsed(daily) => Report(BuildReport(totalDays, t, dates, ds, daily, today))
  }

  /** The public report as the source computes it. */
  function PublicSummaryOf(a: Analyzer, dir: seq<Entry>, today: Date): PublicOutcome
    requires Valid(today)
  {
    var files := SelectedFiles(a, dir);
    if |files| == 0 then NoLogFilesFound else TallyOutcome(|files|, TallyOf(files), today)
  }

  /** The loop over the selected files (lines 132-159 of the source). */
  method TallyFiles(logFiles: seq<Entry>) returns (t: Tally)
    ensures t == TallyOf(logFiles)
  {
    var totalSessions: nat, totalSeconds: int := 0, 0;
    var dates: seq<string> := [];
    var daily: DailyCounts := [];
    for i := 0 to |logFiles|
      invariant Tally(dates, daily, totalSessions, totalSeconds) == TallyOf(logFiles[..i])
    {
      var file := logFiles[i];
      assert logFiles[..i + 1][..i] == logFiles[..i];
      if !HasDateShape(file.name) {
        continue;
      }
      match file.rows {
        case None =>
          // reading the file raised: it is reported and skipped
        case Some(rows) =>
          if |rows| > 0 {
            dates := dates + [file.name];
            totalSessions := totalSessions + |rows|;
            daily := Store(daily, file.name, |rows|);
            totalSeconds := totalSeconds + TotalSeconds(rows);
          }
      }
    }
    assert logFiles[..|logFiles|] == logFiles;
    t := Tally(dates, daily, totalSessions, totalSeconds);
  }

  /** One chart line per recent date. */
  method DrawChart(recent: seq<string>, daily: DailyCounts) returns (chart: seq<ChartLine>)
    ensures chart == Chart(recent, daily)
  {
    chart := [];
    for j := 0 to |recent|
      invariant chart == Chart(recent[..j], daily)
    {
      assert recent[..j + 1][..j] == recent[..j];
      var count := Lookup(daily, recent[j]);
      chart := chart + [ChartLine(recent[j], Repeat('█', count), count)];
    }
    assert recent[..|recent|] == recent;
  }

  /** The source's steps: accumulate per file, then streak, average and chart. */
  method GeneratePublicSummary(a: Analyzer, dir: seq<Entry>, today: Date) returns (outcome: PublicOutcome)
    requires Valid(today)
    ensures outcome == PublicSummaryOf(a, dir, today)
  {
    var logFiles := SortBy(dir, FileName);
    if a.startDate.Some? {
      logFiles := SelectInRange(logFiles, a.startDate.value, a.endDate);
    }
    assert logFiles == SelectedFiles(a, dir);
    if |logFiles| == 0 {
      return NoLogFilesFound;
    }
    var t := TallyFiles(logFiles);
    var dates := SortBy(t.dates, Self);
    var parsed := ParseDates(dates);
    if parsed.Unparsable? {
      return InvalidDate(parsed.name);
    }
    var streak := CalculateStreak(DayNumbers(parsed.value), DayNumber(today));
    var parsedDaily := ParseDaily(t.daily);
    if parsedDaily.Unparsable? {
      return InvalidDate(parsedDaily.name);
    }
    var weekly := CalculateWeeklyAverage(parsedDaily.value);
    var chart := DrawChart(LastN(SortBy(dates, Self), 14), t.daily);
    outcome := Report(PublicReport(|logFiles|, t.sessions, t.seconds, streak, weekly, Format(today), chart));
  }

  // ---------------------------------------------------------------------
  // What the report says about the recorded days
  // ---------------------------------------------------------------------

  /** The dates of the day summaries, in order. */
  function Dates(days: seq<Summary>): (ds: seq<string>)
    ensures |ds| == |days| && forall i :: 0 <= i < |days| ==> ds[i] == days[i].date
  {
    if |days| == 0 then [] else Dates(days[..|days| - 1]) + [days[|days| - 1].date]
  }

  /** The `(date, sessions)` pairs of the day summaries, in order. */
  function Pairs(days: seq<Summary>): (h: DailyCounts)
    ensures |h| == |days| && forall i :: 0 <= i < |days| ==> h[i] == (days[i].date, days[i].sessions)
  {
    if |days| == 0 then [] else Pairs(days[..|days| - 1]) + [(days[|days| - 1].date, days[|days| - 1].sessions)]
  }

  function SessionsSum(days: seq<Summary>): nat
  {
    if |days| == 0 then 0 else SessionsSum(days[..|days| - 1]) + days[|days| - 1].sessions
  }

  function SecondsSum(days: seq<Summary>): int
  {
    if |days| == 0 then 0 else SecondsSum(days[..|days| - 1]) + days[|days| - 1].totalSeconds
  }

  predicate AllParse(days: seq<Summary>)
  {
    forall i :: 0 <= i < |days| ==> Parse(days[i].date).Some?
  }

  function Min(a: nat, b: nat): nat { if a <= b then a else b }

  /** Storing a key the table does not hold appends it. */
  lemma {:induction false} StoreNew(h: DailyCounts, k: string, v: nat)
    requires forall i :: 0 <= i < |h| ==> h[i].0 != k
    ensures Store(h, k, v) == h + [(k, v)]
  {
    if |h| > 0 {
      StoreNew(h[1..], k, v);
      assert h == [h[0]] + h[1..];
    }
  }

  /** Lookup finds the first pair with the key. */
  lemma {:induction false} LookupFirst(h: DailyCounts, i: nat)
    requires i < |h| && forall j :: 0 <= j < i ==> h[j].0 != h[i].0
    ensures Lookup(h, h[i].0) == h[i].1
  {
    if i > 0 {
      LookupFirst(h[1..], i - 1);
    }
  }

  /**
   * The public summary's loop sees the same days as `analyze`: its dates
   * are the dates of the day summaries, its hash maps each of them to that
   * day's session count, and its totals are the sums over those days.
   */
  lemma {:induction false} TallyMatchesAnalysis(files: seq<Entry>)
    requires DistinctNames(files)
    ensures TallyOf(files).dates == Dates(Summaries(files))
    ensures TallyOf(files).daily == Pairs(Summaries(files))
    ensures TallyOf(files).sessions == SessionsSum(Summaries(files))
    ensures TallyOf(files).seconds == SecondsSum(Summaries(files))
  {
    if |files| > 0 {
      var n := |files| - 1;
      var init, e := files[..n], files[n];
      assert DistinctNames(init);
      TallyMatchesAnalysis(init);
      var t0, s0 := TallyOf(init), Summaries(init);
      var s := Summaries(files);
      if Recorded(e) {
        assert files == init + [e];
        NewDayIsNew(init, e);
        StoreNew(t0.daily, e.name, |e.rows.value|);
        assert s == s0 + [SummaryOf(e)];
        assert s[..|s| - 1] == s0;
      } else {
        assert s == s0;
      }
    }
  }

  /** A file's name is none of the days recorded by the files before it. */
  lemma {:induction false} NewDayIsNew(init: seq<Entry>, e: Entry)
    requires DistinctNames(init + [e])
    ensures forall i :: 0 <= i < |Summaries(init)| ==> Summaries(init)[i].date != e.name
  {
    var s0 := Summaries(init);
    SummaryPositions(init);
    forall i | 0 <= i < |s0| ensures s0[i].date != e.name {
      assert s0[i] in s0;
      var k :| 0 <= k < |init| && Recorded(init[k]) && s0[i] == SummaryOf(init[k]);
      assert (init + [e])[k] == init[k] && (init + [e])[|init|] == e;
    }
  }

  lemma {:induction false} TotalCountOfPairs(daily: seq<(Date, nat)>, days: seq<Summary>)
    requires |daily| == |days| && forall i :: 0 <= i < |days| ==> daily[i].1 == days[i].sessions
    ensures TotalCount(daily) == SessionsSum(days)
  {
    if |days| > 0 {
      TotalCountOfPairs(daily[..|daily| - 1], days[..|days| - 1]);
    }
  }

  lemma {:induction false} ChartSpec(dates: seq<string>, daily: DailyCounts)
    ensures |Chart(dates, daily)| == |dates|
    ensures forall k :: 0 <= k < |dates| ==> Chart(dates, daily)[k] == ChartLineFor(dates[k], daily)
  {
    if |dates| > 0 {
      var init := dates[..|dates| - 1];
      ChartSpec(init, daily);
    }
  }

  /** The tally of a list of recorded days. */
  function DaysTally(days: seq<Summary>): Tally
  {
    Tally(Dates(days), Pairs(days), SessionsSum(days), SecondsSum(days))
  }

  predicate Ascending(days: seq<Summary>)
  {
    forall i, j :: 0 <= i < j < |days| ==> LexLt(days[i].date, days[j].date)
  }

  /**
   * For the selected files: the loop's tally is that of the days `analyze`
   * summarizes, in strictly ascending date order.
   */
  lemma {:induction false} SelectedTally(a: Analyzer, dir: seq<Entry>)
    requires DistinctNames(dir)
    ensures TallyOf(SelectedFiles(a, dir)) == DaysTally(Summaries(SelectedFiles(a, dir)))
    ensures Ascending(Summaries(SelectedFiles(a, dir)))
  {
    var files := SelectedFiles(a, dir);
    SelectedFilesSpec(a, dir);
    TallyMatchesAnalysis(files);
    SummariesAscending(files);
  }

  /** Both sorts of the ascending dates leave them as they are. */
  lemma {:induction false} DatesSorted(days: seq<Summary>)
    requires Ascending(days)
    ensures SortBy(Dates(days), Self) == Dates(days)
  {
    var dates := Dates(days);
    forall i, j | 0 <= i < j < |dates| ensures LexLt(Self(dates[i]), Self(dates[j])) {
      assert dates[i] == days[i].date && dates[j] == days[j].date;
    }
    SortOfAscending(dates, Self);
  }

  /** Parsing the days' dates succeeds exactly when every recorded name is a date. */
  lemma {:induction false} DatesParse(days: seq<Summary>)
    ensures ParseDates(Dates(days)).Parsed? <==> AllParse(days)
    ensures ParseDaily(Pairs(days)).Parsed? <==> AllParse(days)
  {
    assert forall i :: 0 <= i < |days| ==> Dates(days)[i] == days[i].date && Pairs(days)[i].0 == days[i].date;
  }

  /**
   * Which outcome the days give: an invalid date exactly when a recorded
   * day's name is not a calendar date, the report otherwise.
   */
  lemma {:induction false} DaysOutcome(n: nat, days: seq<Summary>, today: Date)
    requires Ascending(days) && Valid(today)
    ensures var out := TallyOutcome(n, DaysTally(days), today);
      && (out.InvalidDate? <==> !AllParse(days))
      && (out.InvalidDate? ==> out.name in Dates(days) && Parse(out.name).None?)
      && (out.Report? <==> AllParse(days))
  {
    DatesSorted(days);
    DatesParse(days);
  }

  /** When every name parses, the report is built from the parsed dates. */
  lemma {:induction false} DaysReport(n: nat, days: seq<Summary>, today: Date)
    requires Ascending(days) && Valid(today) && AllParse(days)
    ensures ParseDates(Dates(days)).Parsed? && ParseDaily(Pairs(days)).Parsed?
    ensures TallyOutcome(n, DaysTally(days), today)
         == Report(BuildReport(n, DaysTally(days), Dates(days), ParseDates(Dates(days)).value,
                               ParseDaily(Pairs(days)).value, today))
  {
    DatesSorted(days);
    DatesParse(days);
  }

  /**
   * The weekly average of the recorded days divides their sessions among
   * between one and `|days|` weeks.
   */
  lemma {:induction false} DaysWeekly(days: seq<Summary>)
    requires ParseDaily(Pairs(days)).Parsed?
    ensures var avg := WeeklyAverageOf(ParseDaily(Pairs(days)).value);
      && (|days| == 0 <==> avg == NoSessions)
      && (|days| > 0 ==> avg.sessions == SessionsSum(days) && 1 <= avg.weeks <= |days|)
  {
    var pairs := Pairs(days);
    var daily := ParseDaily(pairs).value;
    WeeklyAverageSpec(daily);
    assert forall i :: 0 <= i < |days| ==> daily[i].1 == pairs[i].1 == days[i].sessions;
    TotalCountOfPairs(daily, days);
  }

  /** The latest 14 dates are the dates of the latest `min(14, n)` days. */
  lemma {:induction false} RecentDates(days: seq<Summary>)
    ensures LastN(Dates(days), 14) == Dates(LatestDays(days, 14))
    ensures |LatestDays(days, 14)| == Min(14, |days|)
    ensures forall k :: 0 <= k < |LatestDays(days, 14)| ==>
      LatestDays(days, 14)[k] == days[|days| - |LatestDays(days, 14)| + k]
  {
    if |days| > 14 {
      var m := |days| - 14;
      var ds := Dates(days);
      assert LatestDays(days, 14) == days[m..];
      assert LastN(ds, 14) == ds[m..];
      forall k | 0 <= k < 14 ensures ds[m..][k] == Dates(days[m..])[k] {
        assert ds[m..][k] == ds[m + k];
      }
    }
  }



  /** The chart line of a recorded day: its date and a bar of its sessions. */
  function LineOf(day: Summary): ChartLine
  {
    ChartLine(day.date, Repeat('█', day.sessions), day.sessions)
  }

  /** One chart line per day, in order. */
  function Lines(days: seq<Summary>): (lines: seq<ChartLine>)
    ensures |lines| == |days| && forall k :: 0 <= k < |days| ==> lines[k] == LineOf(days[k])
  {
    if |days| == 0 then [] else Lines(days[..|days| - 1]) + [LineOf(days[|days| - 1])]
  }

  /** The latest `n` days (all of them when there are fewer). */
  function LatestDays(days: seq<Summary>, n: nat): seq<Summary>
  {
    if |days| <= n then days else days[|days| - n..]
  }

  /**
   * The chart drawn from the latest 14 of strictly ascending days is one
   * line per day for the latest 14 days: each count is that day's own.
   */
  lemma {:induction false} RecentChart(days: seq<Summary>)
    requires Ascending(days)
    ensures Chart(LastN(Dates(days), 14), Pairs(days)) == Lines(LatestDays(days, 14))
  {
    var recent := LastN(Dates(days), 14);
    var chart := Chart(recent, Pairs(days));
    var latest := LatestDays(days, 14);
    RecentDates(days);
    ChartSpec(recent, Pairs(days));
    forall k | 0 <= k < |chart| ensures chart[k] == LineOf(latest[k]) {
      var m := |days| - |latest| + k;
      assert recent[k] == latest[k].date;
      ChartLineAt(days, m);
    }
    assert |chart| == |Lines(latest)|;
  }

  /** A recorded day's chart line shows its own session count. */
  lemma {:induction false} ChartLineAt(days: seq<Summary>, m: nat)
    requires Ascending(days) && m < |days|
    ensures ChartLineFor(days[m].date, Pairs(days)) == LineOf(days[m])
  {
    LookupPairs(days, m);
  }

  /** The report's chart is one line for each of the latest 14 days. */
  lemma {:induction false} DaysChart(n: nat, days: seq<Summary>, today: Date)
    requires Ascending(days) && Valid(today) && AllParse(days)
    ensures TallyOutcome(n, DaysTally(days), today).Report?
    ensures TallyOutcome(n, DaysTally(days), today).report.recentActivity == Lines(LatestDays(days, 14))
  {
    DaysReport(n, days, today);
    DatesSorted(days);
    RecentChart(days);
  }

  /** Of strictly ascending date names, the last has the largest day number. */
  lemma {:induction false} MaxIsLast(names: seq<string>, ds: seq<Date>)
    requires |names| == |ds| > 0 && forall i :: 0 <= i < |ds| ==> Valid(ds[i])
    requires forall i :: 0 <= i < |names| ==> Parse(names[i]) == Some(ds[i])
    requires forall i, j :: 0 <= i < j < |names| ==> LexLt(names[i], names[j])
    ensures MaxOf(DayNumbers(ds)) == DayNumber(ds[|ds| - 1]) as int
  {
    var ns := DayNumbers(ds);
    var last := |ds| - 1;
    forall i | 0 <= i < last ensures ns[i] < ns[last] {
      NameOrder(names[i], names[last]);
    }
    assert ns[last] in ns;
  }

  lemma {:induction false} DatesAscending(days: seq<Summary>)
    requires Ascending(days)
    ensures forall i, j :: 0 <= i < j < |Dates(days)| ==> LexLt(Dates(days)[i], Dates(days)[j])
  {
  }

  /** The latest recorded day has the largest day number. */
  lemma {:induction false} LatestDay(days: seq<Summary>)
    requires Ascending(days) && |days| > 0 && AllParse(days)
    requires ParseDates(Dates(days)).Parsed?
    ensures MaxOf(DayNumbers(ParseDates(Dates(days)).value))
            == DayNumber(Parse(days[|days| - 1].date).value) as int
  {
    var dates := Dates(days);
    DatesAscending(days);
    MaxIsLast(dates, ParseDates(dates).value);
  }

  /**
   * The streak of the recorded days is at most their number, and zero
   * exactly when there are none or the latest is more than one day before
   * today.
   */
  lemma {:induction false} DaysStreak(days: seq<Summary>, today: Date)
    requires Ascending(days) && Valid(today) && AllParse(days)
    requires ParseDates(Dates(days)).Parsed?
    ensures var st := Streak(DayNumbers(ParseDates(Dates(days)).value), DayNumber(today));
      && st <= |days|
      && (st == 0 <==> |days| == 0 || DayNumber(today) - DayNumber(Parse(days[|days| - 1].date).value) > 1)
  {
    var ns := DayNumbers(ParseDates(Dates(days)).value);
    StreakIsZeroExactly(ns, DayNumber(today));
    StreakBounds(ns, DayNumber(today));
    if |days| > 0 {
      LatestDay(days);
    }
  }

  /** With distinct dates, each date's count is that day's sessions. */
  lemma {:induction false} LookupPairs(days: seq<Summary>, m: nat)
    requires Ascending(days) && m < |days|
    ensures Lookup(Pairs(days), days[m].date) == days[m].sessions
  {
    var pairs := Pairs(days);
    forall j | 0 <= j < m ensures pairs[j].0 != pairs[m].0 {
      LexLtIrreflexive(days[m].date);
    }
    LookupFirst(pairs, m);
  }

  /** The public summary is the tally outcome of the days `analyze` summarizes. */
  lemma {:induction false} SummaryThroughTally(a: Analyzer, dir: seq<Entry>, today: Date)
    requires DistinctNames(dir) && Valid(today)
    ensures Ascending(Summaries(SelectedFiles(a, dir)))
    ensures PublicSummaryOf(a, dir, today)
         == if |SelectedFiles(a, dir)| == 0 then NoLogFilesFound
            else TallyOutcome(|SelectedFiles(a, dir)|, DaysTally(Summaries(SelectedFiles(a, dir))), today)
  {
    SelectedTally(a, dir);
  }

  /**
   * Which outcome the public summary has: no report when no file is
   * selected, an invalid date exactly when a recorded day's name is not a
   * calendar date, and the report otherwise.
   */
  lemma {:induction false} PublicSummaryOutcome(a: Analyzer, dir: seq<Entry>, today: Date)
    requires DistinctNames(dir) && Valid(today)
    ensures var files := SelectedFiles(a, dir);
      var days := Summaries(files);
      var out := PublicSummaryOf(a, dir, today);
      && (out == NoLogFilesFound <==> |files| == 0)
      && (out.InvalidDate? <==> |files| > 0 && !AllParse(days))
      && (out.InvalidDate? ==> out.name in Dates(days) && Parse(out.name).None?)
      && (out.Report? <==> |files| > 0 && AllParse(days))
  {
    var files := SelectedFiles(a, dir);
    SummaryThroughTally(a, dir, today);
    DaysOutcome(|files|, Summaries(files), today);
  }

  /**
   * The report's totals: every selected file counts as a day, the sessions
   * and focus time are those of the recorded days, the weekly average
   * divides the sessions among between one and that many weeks, and the
   * report is dated today.
   */
  lemma {:induction false} PublicReportTotals(a: Analyzer, dir: seq<Entry>, today: Date)
    requires DistinctNames(dir) && Valid(today)
    requires PublicSummaryOf(a, dir, today).Report?
    ensures var days := Summaries(SelectedFiles(a, dir));
      var r := PublicSummaryOf(a, dir, today).report;
      && r.totalDays == |SelectedFiles(a, dir)|
      && r.totalSessions == SessionsSum(days)
      && r.focusSeconds == SecondsSum(days)
      && r.lastUpdated == Format(today)
      && (|days| == 0 <==> r.weeklyAverage == NoSessions)
      && (|days| > 0 ==> r.weeklyAverage.sessions == r.totalSessions && 1 <= r.weeklyAverage.weeks <= |days|)
  {
    var files := SelectedFiles(a, dir);
    var days := Summaries(files);
    SummaryThroughTally(a, dir, today);
    DaysOutcome(|files|, days, today);
    DaysReport(|files|, days, today);
    DaysWeekly(days);
  }

  /**
   * The current streak is at most the number of recorded days, and zero
   * exactly when none is recorded or the latest recorded day is more than
   * one day before today.
   */
  lemma {:induction false} PublicReportStreak(a: Analyzer, dir: seq<Entry>, today: Date)
    requires DistinctNames(dir) && Valid(today)
    requires PublicSummaryOf(a, dir, today).Report?
    ensures var days := Summaries(SelectedFiles(a, dir));
      var st := PublicSummaryOf(a, dir, today).report.currentStreak;
      && AllParse(days)
      && st <= |days|
      && (st == 0 <==> |days| == 0 || DayNumber(today) - DayNumber(Parse(days[|days| - 1].date).value) > 1)
  {
    var files := SelectedFiles(a, dir);
    var days := Summaries(files);
    SummaryThroughTally(a, dir, today);
    DaysOutcome(|files|, days, today);
    DaysReport(|files|, days, today);
    DaysStreak(days, today);
  }

  /**
   * The chart holds one line for each of the latest 14 recorded days, in
   * date order, each with a bar of as many blocks as that day's sessions.
   */
  lemma {:induction false} PublicReportChart(a: Analyzer, dir: seq<Entry>, today: Date)
    requires DistinctNames(dir) && Valid(today)
    requires PublicSummaryOf(a, dir, today).Report?
    ensures PublicSummaryOf(a, dir, today).report.recentActivity
         == Lines(LatestDays(Summaries(SelectedFiles(a, dir)), 14))
  {
    var files := SelectedFiles(a, dir);
    var days := Summaries(files);
    SummaryThroughTally(a, dir, today);
    DaysOutcome(|files|, days, today);
    DaysChart(|files|, days, today);
  }

  // ---------------------------------------------------------------------
  // The report reads only dates, row counts and durations
  // ---------------------------------------------------------------------

  /** A row with everything but its duration erased. */
  function RedactRow(r: Row): Row { Row(None, None, None, r.duration, None) }

  function RedactRows(rows: seq<Row>): seq<Row>
  {
    seq(|rows|, i requires 0 <= i < |rows| => RedactRow(rows[i]))
  }

  function RedactEntry(e: Entry): Entry
  {
    Entry(e.name, match e.rows case None => None case Some(rows) => Some(RedactRows(rows)))
  }

  /** The directory with every project, session and update note erased. */
  function RedactAll(dir: seq<Entry>): seq<Entry>
  {
    seq(|dir|, i requires 0 <= i < |dir| => RedactEntry(dir[i]))
  }

  lemma {:induction false} TotalSecondsRedacted(rows: seq<Row>)
    ensures TotalSeconds(RedactRows(rows)) == TotalSeconds(rows)
  {
    if |rows| > 0 {
      TotalSecondsRedacted(rows[1..]);
      assert RedactRows(rows)[1..] == RedactRows(rows[1..]);
    }
  }

  lemma {:induction false} InsertRedacted(x: Entry, s: seq<Entry>)
    ensures Insert(RedactEntry(x), RedactAll(s), FileName) == RedactAll(Insert(x, s, FileName))
  {
    if |s| == 0 || LexLe(FileName(x), FileName(s[0])) {
      assert RedactAll([x] + s) == [RedactEntry(x)] + RedactAll(s);
    } else {
      InsertRedacted(x, s[1..]);
      assert RedactAll(s)[1..] == RedactAll(s[1..]);
      assert RedactAll([s[0]] + Insert(x, s[1..], FileName)) == [RedactEntry(s[0])] + RedactAll(Insert(x, s[1..], FileName));
    }
  }

  lemma {:induction false} SortRedacted(s: seq<Entry>)
    ensures SortBy(RedactAll(s), FileName) == RedactAll(SortBy(s, FileName))
  {
    if |s| > 0 {
      SortRedacted(s[1..]);
      assert RedactAll(s)[1..] == RedactAll(s[1..]);
      InsertRedacted(s[0], SortBy(s[1..], FileName));
    }
  }

  lemma {:induction false} SelectRedacted(s: seq<Entry>, start: string, end: string)
    ensures SelectInRange(RedactAll(s), start, end) == RedactAll(SelectInRange(s, start, end))
  {
    if |s| > 0 {
      SelectRedacted(s[1..], start, end);
      assert RedactAll(s)[1..] == RedactAll(s[1..]);
      assert RedactAll([s[0]] + SelectInRange(s[1..], start, end))
          == [RedactEntry(s[0])] + RedactAll(SelectInRange(s[1..], start, end));
    }
  }

  lemma {:induction false} TallyRedacted(files: seq<Entry>)
    ensures TallyOf(RedactAll(files)) == TallyOf(files)
  {
    if |files| > 0 {
      var n := |files| - 1;
      TallyRedacted(files[..n]);
      assert RedactAll(files)[..n] == RedactAll(files[..n]);
      if files[n].rows.Some? {
        TotalSecondsRedacted(files[n].rows.value);
      }
    }
  }

  /**
   * The public report is the same whatever the projects, session numbers
   * and update notes say: it is built from file names, row counts and
   * durations only.
   */
  lemma {:induction false} PublicSummaryIgnoresFreeText(a: Analyzer, dir: seq<Entry>, today: Date)
    requires Valid(today)
    ensures PublicSummaryOf(a, RedactAll(dir), today) == PublicSummaryOf(a, dir, today)
  {
    SortRedacted(dir);
    var listing := SortBy(dir, FileName);
    if a.startDate.Some? {
      SelectRedacted(listing, a.startDate.value, a.endDate);
    }
    TallyRedacted(SelectedFiles(a, dir));
  }
}
