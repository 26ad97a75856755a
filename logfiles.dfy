/**
 * The log directory as the analyzer sees it: one CSV file per day, named
 * `YYYY-MM-DD.csv`, listed by name, selected by a date range given as
 * strings, and kept only when the name has the date shape.
 */
module LogFiles {
  import opened Wrappers
  import opened Text
  import opened Calendar

  /**
   * One data row of a day's file under the header
   * `date,project,session,duration,update`. A field is None when the row has
   * no such column (the CSV reader then yields nil).
   */
  datatype Row = Row(
    date: Option<string>,
    project: Option<string>,
    session: Option<string>,
    duration: Option<string>,
    update: Option<string>)

  /**
   * A file of the directory: its base name without `.csv`, and its data rows,
   * or None when reading it raised an error (the error is reported and the
   * file skipped).
   */
  datatype Entry = Entry(name: string, rows: Option<seq<Row>>)

  /** The name the directory listing sorts by. */
  function FileName(e: Entry): string { e.name + ".csv" }

  /** Names in a directory are unique. */
  predicate DistinctNames(dir: seq<Entry>)
  {
    forall i, j :: 0 <= i < j < |dir| ==> dir[i].name != dir[j].name
  }

  // ---------------------------------------------------------------------
  // Sorting by a string key (`Array#sort` of the listing and of the dates)
  // ---------------------------------------------------------------------

  predicate SortedBy<T>(s: seq<T>, key: T -> string)
  {
    forall i, j :: 0 <= i < j < |s| ==> LexLe(key(s[i]), key(s[j]))
  }

  function Insert<T(==)>(x: T, s: seq<T>, key: T -> string): (r: seq<T>)
    ensures multiset(r) == multiset(s) + multiset{x}
    ensures |r| == |s| + 1
  {
    if |s| == 0 || LexLe(key(x), key(s[0])) then [x] + s
    else
      assert s == [s[0]] + s[1..];
      [s[0]] + Insert(x, s[1..], key)
  }

  function SortBy<T(==)>(s: seq<T>, key: T -> string): (r: seq<T>)
    ensures multiset(r) == multiset(s)
  {
    if |s| == 0 then []
    else
      assert s == [s[0]] + s[1..];
      Insert(s[0], SortBy(s[1..], key), key)
  }

  lemma {:induction false} InsertSorted<T>(x: T, s: seq<T>, key: T -> string)
    requires SortedBy(s, key)
    ensures SortedBy(Insert(x, s, key), key)
  {
    var r := Insert(x, s, key);
    if |s| == 0 {
    } else if LexLe(key(x), key(s[0])) {
      forall j | 1 <= j < |r| ensures LexLe(key(r[0]), key(r[j])) {
        assert r[j] == s[j - 1];
        LexLeTransitive(key(x), key(s[0]), key(s[j - 1]));
      }
    } else {
      LexLtTotal(key(x), key(s[0]));
      InsertSorted(x, s[1..], key);
      var tail := Insert(x, s[1..], key);
      assert r == [s[0]] + tail;
      forall j | 0 <= j < |tail| ensures LexLe(key(s[0]), key(tail[j])) {
        assert tail[j] in multiset(tail);
        assert tail[j] == x || tail[j] in multiset(s[1..]);
        if tail[j] != x {
          var k :| 0 <= k < |s[1..]| && s[1..][k] == tail[j];
          assert s[k + 1] == tail[j];
        }
      }
    }
  }

  /** The sort orders its result and only rearranges its input. */
  lemma {:induction false} SortBySorted<T>(s: seq<T>, key: T -> string)
    ensures SortedBy(SortBy(s, key), key)
    ensures multiset(SortBy(s, key)) == multiset(s) && |SortBy(s, key)| == |s|
  {
    if |s| > 0 {
      SortBySorted(s[1..], key);
      InsertSorted(s[0], SortBy(s[1..], key), key);
    }
  }

  /** Sorting what is already in strictly ascending order changes nothing. */
  lemma {:induction false} SortOfAscending<T>(s: seq<T>, key: T -> string)
    requires forall i, j :: 0 <= i < j < |s| ==> LexLt(key(s[i]), key(s[j]))
    ensures SortBy(s, key) == s
  {
    if |s| > 0 {
      SortOfAscending(s[1..], key);
      assert SortBy(s[1..], key) == s[1..];
      if |s| > 1 {
        assert LexLe(key(s[0]), key(s[1]));
      }
      assert s == [s[0]] + s[1..];
    }
  }

  // ---------------------------------------------------------------------
  // The date range (`select!` on the listing)
  // ---------------------------------------------------------------------

  /** `date_str >= start && date_str <= end`, compared as strings. */
  predicate InRange(name: string, start: string, end: string)
  {
    LexLe(start, name) && LexLe(name, end)
  }

  function SelectInRange(files: seq<Entry>, start: string, end: string): seq<Entry>
  {
    if |files| == 0 then []
    else if InRange(files[0].name, start, end) then [files[0]] + SelectInRange(files[1..], start, end)
    else SelectInRange(files[1..], start, end)
  }

  /** The selection keeps exactly the files in range. */
  lemma {:induction false} SelectInRangeMembers(files: seq<Entry>, start: string, end: string)
    ensures forall e :: e in SelectInRange(files, start, end) <==> e in files && InRange(e.name, start, end)
  {
    if |files| > 0 {
      SelectInRangeMembers(files[1..], start, end);
      assert files == [files[0]] + files[1..];
    }
  }

  /** The selection keeps the listing's order. */
  lemma {:induction false} SelectInRangeSorted(files: seq<Entry>, start: string, end: string)
    requires SortedBy(files, FileName)
    ensures SortedBy(SelectInRange(files, start, end), FileName)
  {
    if |files| > 0 {
      SelectInRangeSorted(files[1..], start, end);
      SelectInRangeMembers(files[1..], start, end);
      var rest := SelectInRange(files[1..], start, end);
      assert forall e :: e in rest ==> e in files[1..];
    }
  }

  /** The selection keeps the names distinct. */
  lemma {:induction false} SelectInRangeDistinct(files: seq<Entry>, start: string, end: string)
    requires DistinctNames(files)
    ensures DistinctNames(SelectInRange(files, start, end))
  {
    if |files| > 0 {
      SelectInRangeDistinct(files[1..], start, end);
      SelectInRangeMembers(files[1..], start, end);
      var rest := SelectInRange(files[1..], start, end);
      assert forall e :: e in rest ==> e in files[1..];
    }
  }

  /** The selection keeps exactly the files in range, in their order. */
  lemma {:induction false} SelectInRangeKeeps(files: seq<Entry>, start: string, end: string)
    ensures forall e :: e in SelectInRange(files, start, end) <==> e in files && InRange(e.name, start, end)
    ensures SortedBy(files, FileName) ==> SortedBy(SelectInRange(files, start, end), FileName)
    ensures DistinctNames(files) ==> DistinctNames(SelectInRange(files, start, end))
  {
    SelectInRangeMembers(files, start, end);
    if SortedBy(files, FileName) {
      SelectInRangeSorted(files, start, end);
    }
    if DistinctNames(files) {
      SelectInRangeDistinct(files, start, end);
    }
  }

  /**
   * For names that parse as dates, the string range is the date range: a
   * file is selected exactly when its day lies between the two bounds.
   */
  lemma {:induction false} RangeIsChronological(name: string, start: string, end: string)
    requires Parse(name).Some? && Parse(start).Some? && Parse(end).Some?
    ensures InRange(name, start, end)
        <==> DayNumber(Parse(start).value) <= DayNumber(Parse(name).value) <= DayNumber(Parse(end).value)
  {
    NameOrder(start, name);
    NameOrder(name, end);
  }

  // ---------------------------------------------------------------------
  // The date-shape check
  // ---------------------------------------------------------------------

  /**
   * The check as the source writes it, `date =~ /^\d{4}-\d{2}-\d{2}$/`:
   * `^` and `$` anchor at line boundaries, so it holds when SOME line of
   * the name has the date shape.
   */
  predicate MatchesAsWritten(s: string)
  {
    exists i | 0 <= i <= |s| - 10 :: LineMatchAt(s, i)
  }

  /** A whole line of `s` begins at `i` and has the date shape. */
  predicate LineMatchAt(s: string, i: int)
  {
    0 <= i <= |s| - 10 && (i == 0 || s[i - 1] == '\n') && HasDateShape(s[i..i + 10])
    && (i + 10 == |s| || s[i + 10] == '\n')
  }

  /** A name with a line break passes the check as written but has no date shape. */
  lemma {:induction false} ShapeCheckAcceptsSecondLine()
    ensures MatchesAsWritten("notes\n2025-01-01") && !HasDateShape("notes\n2025-01-01")
  {
    var s := "notes\n2025-01-01";
    assert s[6..16] == "2025-01-01";
    assert LineMatchAt(s, 6);
  }

  /**
   * The whole-name check is the check as written restricted to names
   * without a line break, which is what "valid date format" means for a
   * file name.
   */
  lemma {:induction false} ShapeCheckAgreement(s: string)
    ensures HasDateShape(s) ==> '\n' !in s && MatchesAsWritten(s)
    ensures '\n' !in s ==> (MatchesAsWritten(s) <==> HasDateShape(s))
  {
    if HasDateShape(s) {
      assert s[0..10] == s;
      assert LineMatchAt(s, 0);
      forall k | 0 <= k < |s| ensures s[k] != '\n' {
        if k < 4 { assert s[0..4][k] == s[k]; }
        else if 5 <= k < 7 { assert s[5..7][k - 5] == s[k]; }
        else if 8 <= k { assert s[8..10][k - 8] == s[k]; }
      }
    }
    if '\n' !in s && MatchesAsWritten(s) {
      var i :| 0 <= i <= |s| - 10 && LineMatchAt(s, i);
      assert forall k :: 0 <= k < |s| ==> s[k] != '\n';
      assert i == 0 && i + 10 == |s|;
      assert s[i..i + 10] == s;
    }
  }

  /** A dated file name sorts as its date name does. */
  lemma {:induction false} DatedFileNameOrder(a: string, b: string)
    requires HasDateShape(a) && HasDateShape(b)
    ensures LexLt(a + ".csv", b + ".csv") <==> LexLt(a, b)
  {
    LexLtAppend(a, ".csv", b, ".csv");
    LexLtIrreflexive(".csv");
  }

  // ---------------------------------------------------------------------
  // The analyzer's options and the files it looks at
  // ---------------------------------------------------------------------

  /** The options the analyzer keeps: an optional start date and an end date. */
  datatype Analyzer = Analyzer(startDate: Option<string>, endDate: string)

  /** Construction: the end date defaults to today's date written as a name. */
  function NewAnalyzer(startDate: Option<string>, endDate: Option<string>, today: Date): (a: Analyzer)
    requires Valid(today)
    ensures a.startDate == startDate
    ensures endDate.Some? ==> a.endDate == endDate.value
    ensures endDate.None? ==> Parse(a.endDate) == Some(today)
  {
    FormatThenParse(today);
    Analyzer(startDate, endDate.GetOr(Format(today)))
  }

  /**
   * The log files an operation looks at: the listing sorted by file name,
   * then, only when a start date is given, those within the range.
   */
  function SelectedFiles(a: Analyzer, dir: seq<Entry>): seq<Entry>
  {
    var listing := SortBy(dir, FileName);
    if a.startDate.Some? then SelectInRange(listing, a.startDate.value, a.endDate) else listing
  }

  lemma {:induction false} SortByKeepsDistinctNames(dir: seq<Entry>)
    requires DistinctNames(dir)
    ensures DistinctNames(SortBy(dir, FileName))
  {
    var s := SortBy(dir, FileName);
    SortBySorted(dir, FileName);
    forall i, j | 0 <= i < j < |s| ensures s[i].name != s[j].name {
      assert s[i] in multiset(dir) && s[j] in multiset(dir);
      var i' :| 0 <= i' < |dir| && dir[i'] == s[i];
      var j' :| 0 <= j' < |dir| && dir[j'] == s[j];
      if i' == j' {
        // the same directory entry cannot appear twice in a permutation of distinct entries
        DistinctOccursOnce(dir, i');
        MultisetCountTwo(s, i, j);
      }
    }
  }

  lemma {:induction false} DistinctOccursOnce(dir: seq<Entry>, k: nat)
    requires DistinctNames(dir) && k < |dir|
    ensures multiset(dir)[dir[k]] == 1
  {
    var e := dir[k];
    assert dir == dir[..k] + [e] + dir[k + 1..];
    assert e !in dir[..k] by {
      forall m | 0 <= m < k ensures dir[..k][m] != e { assert dir[m].name != dir[k].name; }
    }
    assert e !in dir[k + 1..] by {
      forall m | k < m < |dir| ensures dir[m] != e { assert dir[k].name != dir[m].name; }
    }
  }

  lemma {:induction false} MultisetCountTwo<T>(s: seq<T>, i: nat, j: nat)
    requires i < j < |s| && s[i] == s[j]
    ensures multiset(s)[s[i]] >= 2
  {
    assert s == s[..i] + [s[i]] + s[i + 1..j] + [s[j]] + s[j + 1..];
  }

  /**
   * The selected files are the directory's files within the range (all of
   * them when no start date is given), sorted by file name, each once.
   */
  lemma {:induction false} SelectedFilesSpec(a: Analyzer, dir: seq<Entry>)
    requires DistinctNames(dir)
    ensures forall e :: (e in SelectedFiles(a, dir)
                         <==> e in dir && (a.startDate.None? || InRange(e.name, a.startDate.value, a.endDate)))
    ensures SortedBy(SelectedFiles(a, dir), FileName)
    ensures DistinctNames(SelectedFiles(a, dir))
  {
    var listing := SortBy(dir, FileName);
    SortBySorted(dir, FileName);
    SortByKeepsDistinctNames(dir);
    forall e ensures e in listing <==> e in dir {
      assert (e in listing <==> e in multiset(listing)) && (e in dir <==> e in multiset(dir));
    }
    if a.startDate.Some? {
      SelectInRangeKeeps(listing, a.startDate.value, a.endDate);
    }
  }
}
