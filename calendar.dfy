/**
 * Calendar dates as the analyzer reads them from log file names
 * (`YYYY-MM-DD`, the extended complete calendar date of ISO 8601:2004
 * section 4.1.2.2) and the arithmetic it does on them: day differences,
 * day-of-year, day-of-week and the Sunday-based week number `%U` of C99
 * `strftime` (section 7.23.3.5).
 *
 * A date is identified with its day number: the count of days since
 * 0000-01-01 in the proleptic Gregorian calendar. That day was a Saturday.
 */
module Calendar {
  import opened Text
  import opened Wrappers

  datatype Date = Date(year: int, month: int, day: int)

  predicate IsLeapYear(y: int) { y % 4 == 0 && (y % 100 != 0 || y % 400 == 0) }

  function DaysInYear(y: int): int { if IsLeapYear(y) then 366 else 365 }

  function DaysInMonth(y: int, m: int): int
    requires 1 <= m <= 12
  {
    if m == 2 then (if IsLeapYear(y) then 29 else 28)
    else if m == 4 || m == 6 || m == 9 || m == 11 then 30
    else 31
  }

  /** Days of year `y` before the first day of month `m`; month 13 closes the year. */
  function DaysBeforeMonth(y: int, m: int): nat
    requires 1 <= m <= 13
  {
    var leap := if IsLeapYear(y) then 1 else 0;
    if m == 1 then 0 else if m == 2 then 31
    else if m == 3 then 59 + leap else if m == 4 then 90 + leap
    else if m == 5 then 120 + leap else if m == 6 then 151 + leap
    else if m == 7 then 181 + leap else if m == 8 then 212 + leap
    else if m == 9 then 243 + leap else if m == 10 then 273 + leap
    else if m == 11 then 304 + leap else if m == 12 then 334 + leap
    else 365 + leap
  }

  /** Days from 0000-01-01 to the first day of year `y`. */
  function DaysBeforeYear(y: nat): nat
  {
    if y == 0 then 0 else DaysBeforeYear(y - 1) + DaysInYear(y - 1)
  }

  /** A calendar date with a four-digit year, as a log file name can spell it. */
  predicate Valid(d: Date)
  {
    0 <= d.year <= 9999 && 1 <= d.month <= 12 && 1 <= d.day <= DaysInMonth(d.year, d.month)
  }

  /** Day of the year counted from 0, as `tm_yday`. */
  function YearDay(d: Date): (k: nat)
    requires Valid(d)
    ensures k < DaysInYear(d.year)
  {
    DaysBeforeMonth(d.year, d.month) + d.day - 1
  }

  function DayNumber(d: Date): nat
    requires Valid(d)
  {
    DaysBeforeYear(d.year) + YearDay(d)
  }

  /** Day of the week, 0 for Sunday through 6 for Saturday, as `tm_wday`. */
  function Weekday(d: Date): (w: nat)
    requires Valid(d)
    ensures w < 7
  {
    (DayNumber(d) + 6) % 7
  }

  /**
   * `%U`: the week number of the year, where week 1 begins on the year's
   * first Sunday and the days before it are week 0.
   */
  function WeekOfYear(d: Date): (u: nat)
    requires Valid(d)
    ensures u <= 53
  {
    (YearDay(d) + 7 - Weekday(d)) / 7
  }

  /** The bucket of the weekly average: the pair behind `strftime('%Y-%U')`. */
  function WeekKey(d: Date): (int, nat)
    requires Valid(d)
  {
    (d.year, WeekOfYear(d))
  }

  /** Day number of the Sunday on or before `d`. */
  function WeekStart(d: Date): int
    requires Valid(d)
  {
    DayNumber(d) - Weekday(d)
  }

  /** Chronological order of dates, field by field. */
  predicate Before(a: Date, b: Date)
  {
    a.year < b.year
    || (a.year == b.year && (a.month < b.month || (a.month == b.month && a.day < b.day)))
  }

  // ---------------------------------------------------------------------
  // Day numbers follow the calendar
  // ---------------------------------------------------------------------

  lemma {:induction false} DaysBeforeMonthStep(y: int, m: int)
    requires 1 <= m <= 12
    ensures DaysBeforeMonth(y, m + 1) == DaysBeforeMonth(y, m) + DaysInMonth(y, m)
  {
  }

  lemma {:induction false} DaysBeforeMonthMonotone(y: int, m: int, m': int)
    requires 1 <= m <= m' <= 13
    ensures DaysBeforeMonth(y, m) <= DaysBeforeMonth(y, m')
  {
    if m < m' {
      DaysBeforeMonthMonotone(y, m, m' - 1);
      DaysBeforeMonthStep(y, m' - 1);
    }
  }

  lemma {:induction false} DaysBeforeYearMonotone(y: nat, y': nat)
    requires y <= y'
    ensures DaysBeforeYear(y) <= DaysBeforeYear(y')
    ensures y < y' ==> DaysBeforeYear(y) + DaysInYear(y) <= DaysBeforeYear(y')
  {
    if y < y' { DaysBeforeYearMonotone(y, y' - 1); }
  }

  /** Day numbers order dates chronologically, and name each date once. */
  lemma {:induction false} DayNumberOrder(a: Date, b: Date)
    requires Valid(a) && Valid(b)
    ensures DayNumber(a) < DayNumber(b) <==> Before(a, b)
    ensures DayNumber(a) == DayNumber(b) <==> a == b
  {
    if a.year < b.year {
      DaysBeforeYearMonotone(a.year, b.year);
    } else if b.year < a.year {
      DaysBeforeYearMonotone(b.year, a.year);
    } else if a.month < b.month {
      DaysBeforeMonthStep(a.year, a.month);
      DaysBeforeMonthMonotone(a.year, a.month + 1, b.month);
    } else if b.month < a.month {
      DaysBeforeMonthStep(b.year, b.month);
      DaysBeforeMonthMonotone(b.year, b.month + 1, a.month);
    }
  }

  /** The day before a valid date other than 0000-01-01 is again a valid date. */
  lemma {:induction false} PreviousDay(d: Date) returns (p: Date)
    requires Valid(d) && DayNumber(d) > 0
    ensures Valid(p) && DayNumber(p) == DayNumber(d) - 1
  {
    if d.day > 1 {
      p := Date(d.year, d.month, d.day - 1);
    } else if d.month > 1 {
      p := Date(d.year, d.month - 1, DaysInMonth(d.year, d.month - 1));
      DaysBeforeMonthStep(d.year, d.month - 1);
    } else {
      p := Date(d.year - 1, 12, 31);
      DaysBeforeMonthStep(p.year, 12);
    }
  }

  // ---------------------------------------------------------------------
  // Week buckets
  // ---------------------------------------------------------------------

  lemma {:induction false} WeekStartIsSunday(d: Date)
    requires Valid(d)
    ensures (WeekStart(d) + 6) % 7 == 0
    ensures WeekStart(d) <= DayNumber(d) < WeekStart(d) + 7
  {
  }

  lemma {:induction false} DivShift(x: int, k: int)
    ensures (x + 7 * k) / 7 == x / 7 + k
  {
    var q, r := x / 7, x % 7;
    assert x + 7 * k == 7 * (q + k) + r;
  }

  /**
   * Two dates share a `%Y-%U` bucket exactly when they have the same year
   * and fall in the same Sunday-to-Saturday week. A week that spans New
   * Year's Day is therefore split into two buckets.
   */
  lemma {:induction false} WeekKeySameWeek(a: Date, b: Date)
    requires Valid(a) && Valid(b)
    ensures WeekKey(a) == WeekKey(b) <==> a.year == b.year && WeekStart(a) == WeekStart(b)
  {
    if a.year == b.year {
      var y0 := DaysBeforeYear(a.year);
      var xa, xb := WeekStart(a) - y0 + 7, WeekStart(b) - y0 + 7;
      assert WeekOfYear(a) == xa / 7 && WeekOfYear(b) == xb / 7;
      WeekStartIsSunday(a);
      WeekStartIsSunday(b);
      var k := (xb - xa) / 7;
      assert xb == xa + 7 * k;
      DivShift(xa, k);
    }
  }

  // ---------------------------------------------------------------------
  // File names
  // ---------------------------------------------------------------------

  /**
   * The name is exactly four digits, a hyphen, two digits, a hyphen and two
   * digits (`\d` means an ASCII digit).
   */
  predicate HasDateShape(s: string)
  {
    |s| == 10 && AllDigits(s[0..4]) && s[4] == '-' && AllDigits(s[5..7]) && s[7] == '-'
    && AllDigits(s[8..10])
  }

  /** `Date.parse` on a name of the date shape: None where it raises. */
  function Parse(s: string): (r: Option<Date>)
    ensures r.Some? ==> HasDateShape(s) && Valid(r.value)
  {
    if !HasDateShape(s) then None
    else
      var d := Date(DecimalValue(s[0..4]), DecimalValue(s[5..7]), DecimalValue(s[8..10]));
      if Valid(d) then Some(d) else None
  }

  /** `strftime('%Y-%m-%d')`. */
  function Format(d: Date): (s: string)
    requires Valid(d)
    ensures HasDateShape(s)
  {
    var s := Pad(d.year, 4) + "-" + Pad(d.month, 2) + "-" + Pad(d.day, 2);
    assert s[0..4] == Pad(d.year, 4) && s[5..7] == Pad(d.month, 2) && s[8..10] == Pad(d.day, 2);
    s
  }

  lemma {:induction false} FormatThenParse(d: Date)
    requires Valid(d)
    ensures Parse(Format(d)) == Some(d)
  {
    var s := Format(d);
    assert s[0..4] == Pad(d.year, 4) && s[5..7] == Pad(d.month, 2) && s[8..10] == Pad(d.day, 2);
    PadValue(d.year, 4);
    PadValue(d.month, 2);
    PadValue(d.day, 2);
  }

  lemma {:induction false} ParseThenFormat(s: string)
    requires Parse(s).Some?
    ensures Format(Parse(s).value) == s
  {
    PadOfValue(s[0..4]);
    PadOfValue(s[5..7]);
    PadOfValue(s[8..10]);
    assert s == s[0..4] + "-" + s[5..7] + "-" + s[8..10];
  }

  /** A well-formed name splits into its three digit fields and two hyphens. */
  lemma {:induction false} NameFields(s: string)
    requires HasDateShape(s)
    ensures s == s[0..4] + (['-'] + (s[5..7] + (['-'] + s[8..10])))
  {
  }

  /**
   * For names that parse, comparing the names as strings is comparing the
   * dates they name.
   */
  lemma {:induction false} NameOrder(s: string, t: string)
    requires Parse(s).Some? && Parse(t).Some?
    ensures LexLt(s, t) <==> DayNumber(Parse(s).value) < DayNumber(Parse(t).value)
    ensures s == t <==> DayNumber(Parse(s).value) == DayNumber(Parse(t).value)
  {
    var a, b := Parse(s).value, Parse(t).value;
    NameFields(s);
    NameFields(t);
    LexLtAppend(s[0..4], ['-'] + (s[5..7] + (['-'] + s[8..10])), t[0..4], ['-'] + (t[5..7] + (['-'] + t[8..10])));
    LexLtAppend(['-'], s[5..7] + (['-'] + s[8..10]), ['-'], t[5..7] + (['-'] + t[8..10]));
    LexLtAppend(s[5..7], ['-'] + s[8..10], t[5..7], ['-'] + t[8..10]);
    LexLtAppend(['-'], s[8..10], ['-'], t[8..10]);
    LexLtIrreflexive(['-']);
    FixedWidthOrder(s[0..4], t[0..4]);
    FixedWidthOrder(s[5..7], t[5..7]);
    FixedWidthOrder(s[8..10], t[8..10]);
    DayNumberOrder(a, b);
  }
}
