/**
 * `calculate_weekly_average`: daily session counts are added up per
 * `(year, %U)` bucket, and the average is the sum of the bucket totals over
 * the number of buckets; 0 when there are no days. The bucket table is the
 * source's hash, kept as an association list in insertion order.
 */
module Weekly {
  import opened Calendar

  type WeekId = (int, nat)

  /** A hash from week bucket to session count, in insertion order. */
  type Buckets = seq<(WeekId, nat)>

  /**
   * The average as an exact fraction: total sessions over the number of
   * week buckets. The source returns the integer 0 when there is no day.
   */
  datatype WeeklyAverage = NoSessions | PerWeek(sessions: nat, weeks: nat)

  predicate AllValid(daily: seq<(Date, nat)>)
  {
    forall i :: 0 <= i < |daily| ==> Valid(daily[i].0)
  }

  function KeysOf(h: Buckets): set<WeekId>
  {
    if |h| == 0 then {} else {h[0].0} + KeysOf(h[1..])
  }

  /** No bucket appears twice in the table. */
  predicate DistinctKeys(h: Buckets)
  {
    |h| == 0 || (h[0].0 !in KeysOf(h[1..]) && DistinctKeys(h[1..]))
  }

  function ValuesSum(h: Buckets): nat
  {
    if |h| == 0 then 0 else h[0].1 + ValuesSum(h[1..])
  }

  /** `weeks[week] ||= 0; weeks[week] += count`. */
  function Bump(h: Buckets, k: WeekId, c: nat): Buckets
  {
    if |h| == 0 then [(k, c)]
    else if h[0].0 == k then [(k, h[0].1 + c)] + h[1..]
    else [h[0]] + Bump(h[1..], k, c)
  }

  /** Bumping a bucket adds the count to the total and the key to the keys. */
  lemma {:induction false} BumpSpec(h: Buckets, k: WeekId, c: nat)
    requires DistinctKeys(h)
    ensures ValuesSum(Bump(h, k, c)) == ValuesSum(h) + c
    ensures KeysOf(Bump(h, k, c)) == KeysOf(h) + {k}
    ensures DistinctKeys(Bump(h, k, c))
  {
    var r := Bump(h, k, c);
    if |h| == 0 {
      assert r[1..] == [];
    } else if h[0].0 == k {
      assert r[1..] == h[1..];
    } else {
      var rest := Bump(h[1..], k, c);
      BumpSpec(h[1..], k, c);
      assert r[1..] == rest;
    }
  }

  /** The bucket table after the first `|daily|` days. */
  function BucketsOf(daily: seq<(Date, nat)>): Buckets
    requires AllValid(daily)
  {
    if |daily| == 0 then []
    else
      var last := daily[|daily| - 1];
      Bump(BucketsOf(daily[..|daily| - 1]), WeekKey(last.0), last.1)
  }

  function TotalCount(daily: seq<(Date, nat)>): nat
  {
    if |daily| == 0 then 0 else TotalCount(daily[..|daily| - 1]) + daily[|daily| - 1].1
  }

  /** The week buckets the days fall in. */
  function WeeksOf(daily: seq<(Date, nat)>): set<WeekId>
    requires AllValid(daily)
  {
    if |daily| == 0 then {} else WeeksOf(daily[..|daily| - 1]) + {WeekKey(daily[|daily| - 1].0)}
  }

  /** The average as the source computes it from its bucket table. */
  function WeeklyAverageOf(daily: seq<(Date, nat)>): WeeklyAverage
    requires AllValid(daily)
  {
    if |daily| == 0 then NoSessions
    else
      var weeks := BucketsOf(daily);
      PerWeek(ValuesSum(weeks), |weeks|)
  }

  /** The source's loop over the daily counts, filling the bucket table. */
  method CalculateWeeklyAverage(daily: seq<(Date, nat)>) returns (avg: WeeklyAverage)
    requires AllValid(daily)
    ensures avg == WeeklyAverageOf(daily)
  {
    if |daily| == 0 {
      return NoSessions;
    }
    var weeks: Buckets := [];
    for i := 0 to |daily|
      invariant weeks == BucketsOf(daily[..i])
    {
      var (date, count) := daily[i];
      assert daily[..i + 1][..i] == daily[..i];
      weeks := Bump(weeks, WeekKey(date), count);
    }
    assert daily[..|daily|] == daily;
    avg := PerWeek(ValuesSum(weeks), |weeks|);
  }

  // ---------------------------------------------------------------------
  // What the average means
  // ---------------------------------------------------------------------

  /**
   * Bucketing keeps every session: the bucket totals add up to the daily
   * counts, and the table has one entry per week bucket present.
   */
  lemma {:induction false} BucketsOfSpec(daily: seq<(Date, nat)>)
    requires AllValid(daily)
    ensures ValuesSum(BucketsOf(daily)) == TotalCount(daily)
    ensures KeysOf(BucketsOf(daily)) == WeeksOf(daily)
    ensures DistinctKeys(BucketsOf(daily))
  {
    if |daily| > 0 {
      var init := daily[..|daily| - 1];
      BucketsOfSpec(init);
      BumpSpec(BucketsOf(init), WeekKey(daily[|daily| - 1].0), daily[|daily| - 1].1);
    }
  }

  lemma {:induction false} DistinctKeysSize(h: Buckets)
    requires DistinctKeys(h)
    ensures |KeysOf(h)| == |h|
  {
    if |h| > 0 {
      DistinctKeysSize(h[1..]);
    }
  }

  lemma {:induction false} WeeksOfSize(daily: seq<(Date, nat)>)
    requires AllValid(daily)
    ensures |WeeksOf(daily)| <= |daily|
    ensures |daily| > 0 ==> |WeeksOf(daily)| >= 1
  {
    if |daily| > 0 {
      var init := daily[..|daily| - 1];
      WeeksOfSize(init);
      var k := WeekKey(daily[|daily| - 1].0);
      if k in WeeksOf(init) {
        assert WeeksOf(daily) == WeeksOf(init);
      }
    }
  }

  lemma {:induction false} WeeksOfSame(daily: seq<(Date, nat)>, k: WeekId)
    requires AllValid(daily) && |daily| > 0
    requires forall i :: 0 <= i < |daily| ==> WeekKey(daily[i].0) == k
    ensures WeeksOf(daily) == {k}
  {
    if |daily| > 1 {
      WeeksOfSame(daily[..|daily| - 1], k);
    }
  }

  /**
   * The weekly average is the total of the daily counts over the number of
   * distinct `(year, %U)` buckets, of which there are between 1 and the
   * number of days.
   */
  lemma {:induction false} WeeklyAverageSpec(daily: seq<(Date, nat)>)
    requires AllValid(daily)
    ensures |daily| == 0 <==> WeeklyAverageOf(daily) == NoSessions
    ensures |daily| > 0 ==> WeeklyAverageOf(daily) == PerWeek(TotalCount(daily), |WeeksOf(daily)|)
    ensures |daily| > 0 ==> 1 <= WeeklyAverageOf(daily).weeks <= |daily|
  {
    if |daily| > 0 {
      BucketsOfSpec(daily);
      DistinctKeysSize(BucketsOf(daily));
      WeeksOfSize(daily);
    }
  }

  /** When every day falls in one bucket the average is the total itself. */
  lemma {:induction false} SingleWeek(daily: seq<(Date, nat)>)
    requires AllValid(daily) && |daily| > 0
    requires forall i :: 0 <= i < |daily| ==> WeekKey(daily[i].0) == WeekKey(daily[0].0)
    ensures WeeklyAverageOf(daily) == PerWeek(TotalCount(daily), 1)
  {
    WeeklyAverageSpec(daily);
    WeeksOfSame(daily, WeekKey(daily[0].0));
  }

  /**
   * Seven consecutive days share one bucket only when the first is a Sunday
   * and all seven lie in one year.
   */
  lemma {:induction false} SevenDaysShareWeekOnlyFromSunday(first: Date, last: Date)
    requires Valid(first) && Valid(last) && DayNumber(last) == DayNumber(first) + 6
    ensures WeekKey(first) == WeekKey(last) <==> Weekday(first) == 0 && first.year == last.year
  {
    WeekKeySameWeek(first, last);
    var n := DayNumber(first);
    assert Weekday(last) == (n + 12) % 7;
  }
}
