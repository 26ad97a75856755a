/**
 * `calculate_streak`: the number of consecutive calendar days, ending at the
 * latest recorded day, that all have a record; 0 when nothing is recorded or
 * when the latest recorded day is more than one day before today. Days are
 * day numbers (see module Calendar), so "the day before" is `d - 1`.
 */
module Streaks {

  function MaxOf(s: seq<int>): (m: int)
    requires |s| > 0
    ensures m in s && forall x :: x in s ==> x <= m
  {
    if |s| == 1 then s[0]
    else
      var rest := MaxOf(s[1..]);
      assert forall x :: x in s ==> x == s[0] || x in s[1..];
      if s[0] >= rest then s[0] else rest
  }

  function MinOf(s: seq<int>): (m: int)
    requires |s| > 0
    ensures m in s && forall x :: x in s ==> m <= x
  {
    if |s| == 1 then s[0]
    else
      var rest := MinOf(s[1..]);
      assert forall x :: x in s ==> x == s[0] || x in s[1..];
      if s[0] <= rest then s[0] else rest
  }

  /** How many days immediately before `d` are all recorded. */
  function RunBefore(days: seq<int>, d: int): nat
    requires |days| > 0
    decreases d - MinOf(days)
  {
    if d - 1 in days then 1 + RunBefore(days, d - 1) else 0
  }

  /** The streak as the source defines it. */
  function Streak(days: seq<int>, today: int): nat
  {
    if |days| == 0 then 0
    else
      var last := MaxOf(days);
      if today - last > 1 then 0 else 1 + RunBefore(days, last)
  }

  /**
   * The source's loop: start at the latest day and step back one day at a
   * time while the previous day is recorded.
   */
  method CalculateStreak(days: seq<int>, today: int) returns (streak: nat)
    ensures streak == Streak(days, today)
  {
    if |days| == 0 {
      return 0;
    }
    var last := MaxOf(days);
    if today - last > 1 {
      return 0;
    }
    streak := 1;
    var current := last;
    while current - 1 in days
      invariant current <= last
      invariant streak + RunBefore(days, current) == 1 + RunBefore(days, last)
      decreases current - MinOf(days)
    {
      streak := streak + 1;
      current := current - 1;
    }
  }

  // ---------------------------------------------------------------------
  // What the streak means
  // ---------------------------------------------------------------------

  /** The run before `d` is recorded day by day and ends at the first missing day. */
  lemma {:induction false} RunBeforeSpec(days: seq<int>, d: int)
    requires |days| > 0
    ensures forall x :: d - RunBefore(days, d) <= x < d ==> x in days
    ensures d - RunBefore(days, d) - 1 !in days
    decreases d - MinOf(days)
  {
    if d - 1 in days {
      RunBeforeSpec(days, d - 1);
    }
  }

  /** A recorded run ended by a missing day is exactly the run before `d`. */
  lemma {:induction false} RunBeforeUnique(days: seq<int>, d: int, k: nat)
    requires |days| > 0
    requires forall x :: d - k <= x < d ==> x in days
    requires d - k - 1 !in days
    ensures RunBefore(days, d) == k
    decreases d - MinOf(days)
  {
    if k > 0 {
      assert d - 1 in days;
      RunBeforeUnique(days, d - 1, k - 1);
    } else {
      assert d - 1 !in days;
    }
  }

  /** The streak is 0 exactly when nothing is recorded or the latest day is stale. */
  lemma {:induction false} StreakIsZeroExactly(days: seq<int>, today: int)
    ensures Streak(days, today) == 0 <==> |days| == 0 || today - MaxOf(days) > 1
  {
  }

  /**
   * Otherwise the streak counts the latest day and the unbroken run of
   * recorded days before it: each of those days is recorded and the day
   * before the run is not.
   */
  lemma {:induction false} StreakIsRun(days: seq<int>, today: int)
    requires |days| > 0 && today - MaxOf(days) <= 1
    ensures Streak(days, today) >= 1
    ensures forall x :: MaxOf(days) - Streak(days, today) < x <= MaxOf(days) ==> x in days
    ensures MaxOf(days) - Streak(days, today) !in days
  {
    var last := MaxOf(days);
    var r := RunBefore(days, last);
    RunBeforeSpec(days, last);
    assert Streak(days, today) == 1 + r;
    forall x | last - (1 + r) < x <= last ensures x in days {
      if x < last { assert last - r <= x < last; }
    }
  }

  function Distinct(days: seq<int>): set<int> { set x | x in days }

  lemma {:induction false} DistinctEmpty(days: seq<int>)
    ensures Distinct(days) == {} <==> |days| == 0
  {
    if |days| > 0 { assert days[0] in Distinct(days); }
  }

  /** The days `lo`, ..., `hi - 1`. */
  function Interval(lo: int, hi: int): (r: set<int>)
    ensures forall x :: x in r <==> lo <= x < hi
    decreases hi - lo
  {
    if lo >= hi then {} else Interval(lo, hi - 1) + {hi - 1}
  }

  lemma {:induction false} IntervalSize(lo: int, hi: int)
    requires lo <= hi
    ensures |Interval(lo, hi)| == hi - lo
    decreases hi - lo
  {
    if lo < hi {
      IntervalSize(lo, hi - 1);
    }
  }

  /** A streak never exceeds the number of distinct recorded days. */
  lemma {:induction false} StreakBounds(days: seq<int>, today: int)
    ensures Streak(days, today) <= |Distinct(days)| <= |days|
  {
    DistinctSize(days);
    if |days| > 0 && today - MaxOf(days) <= 1 {
      var last, k := MaxOf(days), Streak(days, today);
      StreakIsRun(days, today);
      IntervalSize(last - k + 1, last + 1);
      SubsetSize(Interval(last - k + 1, last + 1), Distinct(days));
    }
  }

  lemma {:induction false} DistinctSize(days: seq<int>)
    ensures |Distinct(days)| <= |days|
  {
    if |days| > 0 {
      var init := days[..|days| - 1];
      DistinctSize(init);
      assert Distinct(days) == Distinct(init) + {days[|days| - 1]} by {
        assert days == init + [days[|days| - 1]];
      }
    }
  }

  lemma {:induction false} SubsetSize(a: set<int>, b: set<int>)
    requires a <= b
    ensures |a| <= |b|
  {
    assert b == a + (b - a);
  }

  /**
   * Order and repetition do not matter: two lists with the same recorded
   * days have the same streak.
   */
  lemma {:induction false} StreakDependsOnDaysOnly(a: seq<int>, b: seq<int>, today: int)
    requires Distinct(a) == Distinct(b)
    ensures Streak(a, today) == Streak(b, today)
  {
    assert forall x :: x in a <==> x in Distinct(a);
    assert forall x :: x in b <==> x in Distinct(b);
    DistinctEmpty(a);
    DistinctEmpty(b);
    if |a| > 0 {
      var last := MaxOf(a);
      assert last == MaxOf(b) by {
        assert last in b && MaxOf(b) in a;
      }
      if today - last <= 1 {
        RunBeforeSpec(a, last);
        RunBeforeUnique(b, last, RunBefore(a, last));
      }
    }
  }

  /** A day recorded before the gap that ends the streak changes nothing. */
  lemma {:induction false} EarlierDayIgnored(days: seq<int>, today: int, x: int)
    requires |days| > 0 && x < MaxOf(days) - Streak(days, today)
    ensures Streak(days + [x], today) == Streak(days, today)
  {
    var more := days + [x];
    assert forall y :: y in more <==> y in days || y == x;
    var last := MaxOf(days);
    assert MaxOf(more) == last by {
      assert MaxOf(more) in more && last in more;
    }
    if today - last <= 1 {
      var r := RunBefore(days, last);
      RunBeforeSpec(days, last);
      assert x < last - r - 1;
      RunBeforeUnique(more, last, r);
    }
  }

  /** The source's test cases, for any today. */
  lemma {:induction false} StreakExamples(t: int)
    ensures Streak([t - 2, t - 1, t], t) == 3
    ensures Streak([t - 3, t - 2, t - 1], t) == 3
    ensures Streak([t - 10, t - 9, t - 8], t) == 0
    ensures Streak([], t) == 0
  {
    var a, b, c := [t - 2, t - 1, t], [t - 3, t - 2, t - 1], [t - 10, t - 9, t - 8];
    assert MaxOf(a) == t by { assert t in a; }
    assert MaxOf(b) == t - 1 by { assert t - 1 in b; }
    assert MaxOf(c) == t - 8 by { assert t - 8 in c; }
    RunBeforeUnique(a, t, 2);
    RunBeforeUnique(b, t - 1, 2);
  }
}
