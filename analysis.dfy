/**
 * `analyze`: one summary per selected log file whose name has the date
 * shape and that holds at least one row, in file-name order. The summary
 * table is written to a CSV file and totals are printed; here the result is
 * the sequence of summaries itself.
 */
module Analysis {
  import opened Wrappers
  import opened Text
  import opened Calendar
  import opened LogFiles

  /**
   * One day: the first row's project, the number of rows, the summed
   * durations in seconds, the per-session average in whole seconds (the
   * source divides the two integers before converting to minutes), and the
   * joined updates.
   */
  datatype Summary = Summary(
    date: string,
    project: Option<string>,
    sessions: nat,
    totalSeconds: int,
    avgSeconds: int,
    updates: string)

  /** No selected file at all (nothing is written), or the summary table. */
  datatype AnalyzeOutcome = NoLogFiles | Written(days: seq<Summary>)

  /** `s['duration'].to_i`; a missing field reads as 0. */
  function Seconds(r: Row): int
  {
    match r.duration
    case None => 0
    case Some(d) => ToI(d)
  }

  /** `sessions.sum { |s| s['duration'].to_i }`. */
  function TotalSeconds(rows: seq<Row>): int
  {
    if |rows| == 0 then 0 else Seconds(rows[0]) + TotalSeconds(rows[1..])
  }

  /** `"Session #{i}: #{s['update']}"`; a missing update reads as empty text. */
  function Label(i: nat, r: Row): string
  {
    "Session " + NatToString(i) + ": " + r.update.GetOr("")
  }

  /** `map.with_index(i)` over the rows with Label. */
  function Numbered(rows: seq<Row>, i: nat): seq<string>
  {
    if |rows| == 0 then [] else [Label(i, rows[0])] + Numbered(rows[1..], i + 1)
  }

  /** The day's updates, numbered from 1 and joined with `" | "`. */
  function Updates(rows: seq<Row>): string
  {
    Join(Numbered(rows, 1), " | ")
  }

  /** The summary of a day's non-empty rows. */
  function Summarize(name: string, rows: seq<Row>): (s: Summary)
    requires |rows| > 0
    ensures s.date == name && s.project == rows[0].project && s.sessions == |rows|
    ensures s.totalSeconds == TotalSeconds(rows)
    ensures s.avgSeconds * s.sessions <= s.totalSeconds < (s.avgSeconds + 1) * s.sessions
    ensures s.updates == Updates(rows)
  {
    var total := TotalSeconds(rows);
    FloorDivision(total, |rows|);
    Summary(name, rows[0].project, |rows|, total, total / |rows|, Updates(rows))
  }

  /** Ruby's `Integer#/` floors, as Dafny's `/` does for a positive divisor. */
  lemma {:induction false} FloorDivision(total: int, n: int)
    requires n > 0
    ensures (total / n) * n <= total < (total / n + 1) * n
  {
    var q, r := total / n, total % n;
    assert total == q * n + r && 0 <= r < n;
    assert (q + 1) * n == q * n + n;
  }

  /** A file that yields a summary: date-shaped name, read without error, not empty. */
  predicate Recorded(e: Entry)
  {
    HasDateShape(e.name) && e.rows.Some? && |e.rows.value| > 0
  }

  function SummaryOf(e: Entry): Summary
    requires Recorded(e)
  {
    Summarize(e.name, e.rows.value)
  }

  /** The summaries of the files, in order, as the loop collects them. */
  function Summaries(files: seq<Entry>): seq<Summary>
  {
    if |files| == 0 then []
    else
      var e := files[|files| - 1];
      Summaries(files[..|files| - 1]) + (if Recorded(e) then [SummaryOf(e)] else [])
  }

  /** What `analyze` produces for a directory. */
  function AnalysisOf(a: Analyzer, dir: seq<Entry>): AnalyzeOutcome
  {
    var files := SelectedFiles(a, dir);
    if |files| == 0 then NoLogFiles else Written(Summaries(files))
  }

  /** The source's loop: skip, summarize and append, file by file. */
  method Analyze(a: Analyzer, dir: seq<Entry>) returns (outcome: AnalyzeOutcome)
    ensures outcome == AnalysisOf(a, dir)
  {
    var logFiles := SortBy(dir, FileName);
    if a.startDate.Some? {
      logFiles := SelectInRange(logFiles, a.startDate.value, a.endDate);
    }
    if |logFiles| == 0 {
      return NoLogFiles;
    }
    var daily: seq<Summary> := [];
    for i := 0 to |logFiles|
      invariant daily == Summaries(logFiles[..i])
    {
      var file := logFiles[i];
      assert logFiles[..i + 1][..i] == logFiles[..i];
      if !HasDateShape(file.name) {
        continue;
      }
      match file.rows {
        case None =>
          // reading the file raised: it is reported and skipped
        case Some(rows) =>
          if |rows| > 0 {
            daily := daily + [Summarize(file.name, rows)];
          }
      }
    }
    assert logFiles[..|logFiles|] == logFiles;
    outcome := Written(daily);
  }

  // ---------------------------------------------------------------------
  // What the summaries mean
  // ---------------------------------------------------------------------

  /** Durations add up across rows appended to a day's file. */
  lemma {:induction false} TotalSecondsAppend(a: seq<Row>, b: seq<Row>)
    ensures TotalSeconds(a + b) == TotalSeconds(a) + TotalSeconds(b)
  {
    if |a| > 0 {
      assert (a + b)[1..] == a[1..] + b;
      TotalSecondsAppend(a[1..], b);
    } else {
      assert a + b == b;
    }
  }

  function SumOf(ns: seq<nat>): nat
  {
    if |ns| == 0 then 0 else ns[0] + SumOf(ns[1..])
  }

  /**
   * Durations written as plain decimal integers are read back exactly, so
   * the day's total is the sum of the recorded seconds.
   */
  lemma {:induction false} TotalOfWrittenDurations(rows: seq<Row>, ds: seq<nat>)
    requires |rows| == |ds|
    requires forall i :: 0 <= i < |rows| ==> rows[i].duration == Some(NatToString(ds[i]))
    ensures TotalSeconds(rows) == SumOf(ds)
  {
    if |rows| > 0 {
      ToIOfNatToString(ds[0]);
      TotalOfWrittenDurations(rows[1..], ds[1..]);
    }
  }

  /** The i-th label (from 0) numbers the i-th row from `start`. */
  lemma {:induction false} NumberedAt(rows: seq<Row>, start: nat)
    ensures |Numbered(rows, start)| == |rows|
    ensures forall i :: 0 <= i < |rows| ==> Numbered(rows, start)[i] == Label(start + i, rows[i])
  {
    if |rows| > 0 {
      NumberedAt(rows[1..], start + 1);
      forall i | 0 < i < |rows| ensures Numbered(rows, start)[i] == Label(start + i, rows[i]) {
        assert rows[1..][i - 1] == rows[i];
      }
    }
  }

  lemma {:induction false} NumberedSnoc(rows: seq<Row>, r: Row, start: nat)
    ensures Numbered(rows + [r], start) == Numbered(rows, start) + [Label(start + |rows|, r)]
  {
    if |rows| > 0 {
      assert (rows + [r])[1..] == rows[1..] + [r];
      NumberedSnoc(rows[1..], r, start + 1);
    } else {
      assert (rows + [r])[1..] == [];
    }
  }

  /**
   * The updates of a day grow with its file: the first session gives
   * `Session 1: ...`, and each appended row adds `" | Session n: ..."`.
   */
  lemma {:induction false} UpdatesAppend(rows: seq<Row>, r: Row)
    ensures |rows| == 0 ==> Updates(rows + [r]) == Label(1, r)
    ensures |rows| > 0 ==> Updates(rows + [r]) == Updates(rows) + " | " + Label(|rows| + 1, r)
  {
    NumberedSnoc(rows, r, 1);
    NumberedAt(rows, 1);
    if |rows| > 0 {
      JoinSnoc(Numbered(rows, 1), Label(|rows| + 1, r), " | ");
    } else {
      assert Numbered(rows, 1) == [];
    }
  }

  /** Every summary comes from one recorded file, and every recorded file has one. */
  lemma {:induction false} SummariesOfRecorded(files: seq<Entry>)
    ensures forall s :: s in Summaries(files) ==> exists e :: e in files && Recorded(e) && s == SummaryOf(e)
    ensures forall e :: e in files && Recorded(e) ==> SummaryOf(e) in Summaries(files)
  {
    if |files| > 0 {
      var init, e := files[..|files| - 1], files[|files| - 1];
      SummariesOfRecorded(init);
      assert files == init + [e];
      forall x | x in files ensures x in init || x == e { }
    }
  }

  /** Each summary is that of a recorded file at some position of the listing. */
  lemma {:induction false} SummaryPositions(files: seq<Entry>)
    ensures forall s :: s in Summaries(files) ==>
      exists k :: 0 <= k < |files| && Recorded(files[k]) && s == SummaryOf(files[k])
  {
    if |files| > 0 {
      var init := files[..|files| - 1];
      SummaryPositions(init);
      forall s | s in Summaries(init)
        ensures exists k :: 0 <= k < |files| && Recorded(files[k]) && s == SummaryOf(files[k])
      {
        var k :| 0 <= k < |init| && Recorded(init[k]) && s == SummaryOf(init[k]);
        assert files[k] == init[k];
      }
    }
  }

  /** A dated file sorting after every file of a listing dates after all its summaries. */
  lemma {:induction false} SummariesBefore(init: seq<Entry>, e: Entry)
    requires HasDateShape(e.name)
    requires forall k :: 0 <= k < |init| ==> LexLe(FileName(init[k]), FileName(e)) && init[k].name != e.name
    ensures forall s :: s in Summaries(init) ==> LexLt(s.date, e.name)
  {
    SummaryPositions(init);
    forall s | s in Summaries(init) ensures LexLt(s.date, e.name) {
      var k :| 0 <= k < |init| && Recorded(init[k]) && s == SummaryOf(init[k]);
      var f := init[k];
      assert FileName(f)[..10] == f.name && FileName(e)[..10] == e.name;
      DatedFileNameOrder(f.name, e.name);
    }
  }

  /**
   * Over a listing sorted by file name with unique names, the summaries
   * come in strictly ascending date order.
   */
  lemma {:induction false} SummariesAscending(files: seq<Entry>)
    requires SortedBy(files, FileName) && DistinctNames(files)
    ensures forall i, j :: 0 <= i < j < |Summaries(files)| ==> LexLt(Summaries(files)[i].date, Summaries(files)[j].date)
  {
    if |files| > 0 {
      var n := |files| - 1;
      var init, e := files[..n], files[n];
      assert SortedBy(init, FileName) && DistinctNames(init);
      SummariesAscending(init);
      if Recorded(e) {
        forall k | 0 <= k < |init| ensures LexLe(FileName(init[k]), FileName(e)) && init[k].name != e.name {
          assert init[k] == files[k];
        }
        SummariesBefore(init, e);
        var p := Summaries(init);
        assert Summaries(files) == p + [SummaryOf(e)];
        forall i | 0 <= i < |p| ensures LexLt(p[i].date, e.name) {
          assert p[i] in p;
        }
      }
    }
  }

  /**
   * `analyze` writes nothing when no file is selected; otherwise it yields
   * exactly one summary per selected recorded file, in ascending date
   * order, each built from that file's rows.
   */
  lemma {:induction false} AnalysisSpec(a: Analyzer, dir: seq<Entry>)
    requires DistinctNames(dir)
    ensures AnalysisOf(a, dir) == NoLogFiles
        <==> forall e :: e in dir ==> a.startDate.Some? && !InRange(e.name, a.startDate.value, a.endDate)
    ensures AnalysisOf(a, dir).Written? ==>
      var days := AnalysisOf(a, dir).days;
      && (forall i, j :: 0 <= i < j < |days| ==> LexLt(days[i].date, days[j].date))
      && (forall s :: s in days ==> exists e :: (e in dir && Recorded(e) && s == SummaryOf(e)
            && (a.startDate.None? || InRange(e.name, a.startDate.value, a.endDate))))
      && (forall e :: e in dir && Recorded(e) && (a.startDate.None? || InRange(e.name, a.startDate.value, a.endDate))
            ==> SummaryOf(e) in days)
  {
    var files := SelectedFiles(a, dir);
    SelectedFilesSpec(a, dir);
    SummariesAscending(files);
    SummariesOfRecorded(files);
    if |files| > 0 {
      assert files[0] in files;
    }
  }
}
