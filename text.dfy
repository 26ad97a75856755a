/**
 * Strings as the log analyzer's host language treats them: byte-wise
 * ordering (the `<`, `<=`, `>=` of strings), decimal rendering of integers
 * (`Integer#to_s`), the lenient `String#to_i`, and `Array#join`.
 */
module Text {

  predicate IsDigit(c: char) { '0' <= c <= '9' }

  predicate AllDigits(s: string) { forall i :: 0 <= i < |s| ==> IsDigit(s[i]) }

  function DigitValue(c: char): (k: nat)
    requires IsDigit(c)
    ensures k < 10
  {
    c as int - '0' as int
  }

  function DigitChar(k: nat): (c: char)
    requires k < 10
    ensures IsDigit(c) && DigitValue(c) == k
  {
    ('0' as int + k) as char
  }

  /** The value of a string of decimal digits, read most significant first. */
  function DecimalValue(s: string): nat
    requires AllDigits(s)
  {
    if |s| == 0 then 0 else DecimalValue(s[..|s| - 1]) * 10 + DigitValue(s[|s| - 1])
  }

  function Pow10(w: nat): (p: nat)
    ensures p >= 1
  {
    if w == 0 then 1 else 10 * Pow10(w - 1)
  }

  /** `n` written with exactly `width` digits, zero-padded on the left. */
  function Pad(n: nat, width: nat): (s: string)
    ensures |s| == width && AllDigits(s)
  {
    if width == 0 then [] else Pad(n / 10, width - 1) + [DigitChar(n % 10)]
  }

  /** Decimal rendering of a natural number, as `Integer#to_s` writes it. */
  function NatToString(n: nat): (s: string)
    ensures |s| > 0 && AllDigits(s)
  {
    if n < 10 then [DigitChar(n)] else NatToString(n / 10) + [DigitChar(n % 10)]
  }

  lemma {:induction false} DecimalValueSnoc(s: string, c: char)
    requires AllDigits(s) && IsDigit(c)
    ensures AllDigits(s + [c]) && DecimalValue(s + [c]) == DecimalValue(s) * 10 + DigitValue(c)
  {
    assert (s + [c])[..|s|] == s;
  }

  lemma {:induction false} PadValue(n: nat, width: nat)
    requires n < Pow10(width)
    ensures DecimalValue(Pad(n, width)) == n
  {
    if width > 0 {
      PadValue(n / 10, width - 1);
      DecimalValueSnoc(Pad(n / 10, width - 1), DigitChar(n % 10));
    }
  }

  lemma {:induction false} PadOfValue(s: string)
    requires AllDigits(s)
    ensures DecimalValue(s) < Pow10(|s|) && Pad(DecimalValue(s), |s|) == s
  {
    if |s| > 0 {
      var init, c := s[..|s| - 1], s[|s| - 1];
      assert s == init + [c];
      PadOfValue(init);
      var v := DecimalValue(s);
      assert v == DecimalValue(init) * 10 + DigitValue(c);
      assert v / 10 == DecimalValue(init) && v % 10 == DigitValue(c);
      assert DigitChar(DigitValue(c)) == c;
    }
  }

  lemma {:induction false} NatToStringValue(n: nat)
    ensures DecimalValue(NatToString(n)) == n
  {
    if n >= 10 {
      NatToStringValue(n / 10);
      DecimalValueSnoc(NatToString(n / 10), DigitChar(n % 10));
    }
  }

  // ---------------------------------------------------------------------
  // Byte-wise ordering of strings
  // ---------------------------------------------------------------------

  /**
   * Strict lexicographic order on characters. Characters are Unicode scalar
   * values, and UTF-8 preserves their order, so this is the order in which
   * the host language compares the bytes of two strings.
   */
  predicate LexLt(s: string, t: string)
  {
    if |s| == 0 then |t| > 0
    else if |t| == 0 then false
    else if s[0] != t[0] then s[0] < t[0]
    else LexLt(s[1..], t[1..])
  }

  predicate LexLe(s: string, t: string) { s == t || LexLt(s, t) }

  lemma {:induction false} LexLtIrreflexive(s: string)
    ensures !LexLt(s, s)
  {
    if |s| > 0 { LexLtIrreflexive(s[1..]); }
  }

  lemma {:induction false} LexLtTransitive(s: string, t: string, u: string)
    requires LexLt(s, t) && LexLt(t, u)
    ensures LexLt(s, u)
  {
    if |s| > 0 && s[0] == t[0] && t[0] == u[0] {
      LexLtTransitive(s[1..], t[1..], u[1..]);
    }
  }

  lemma {:induction false} LexLtTotal(s: string, t: string)
    ensures s == t || LexLt(s, t) || LexLt(t, s)
  {
    if |s| > 0 && |t| > 0 && s[0] == t[0] {
      LexLtTotal(s[1..], t[1..]);
      if s[1..] == t[1..] {
        assert s == [s[0]] + s[1..] && t == [t[0]] + t[1..];
      }
    }
  }

  lemma {:induction false} LexLeTransitive(s: string, t: string, u: string)
    requires LexLe(s, t) && LexLe(t, u)
    ensures LexLe(s, u)
  {
    if LexLt(s, t) && LexLt(t, u) { LexLtTransitive(s, t, u); }
  }

  /** Comparing two strings whose first parts have equal length compares those parts first. */
  lemma {:induction false} LexLtAppend(p: string, q: string, p': string, q': string)
    requires |p| == |p'|
    ensures LexLt(p + q, p' + q') <==> LexLt(p, p') || (p == p' && LexLt(q, q'))
  {
    if |p| > 0 {
      assert (p + q)[0] == p[0] && (p' + q')[0] == p'[0];
      assert (p + q)[1..] == p[1..] + q && (p' + q')[1..] == p'[1..] + q';
      LexLtAppend(p[1..], q, p'[1..], q');
      if p[0] == p'[0] && p[1..] == p'[1..] {
        assert p == p';
      }
    } else {
      assert p + q == q && p' + q' == q';
    }
  }

  /** For digit strings of one width, byte-wise order is numeric order. */
  lemma {:induction false} FixedWidthOrder(s: string, t: string)
    requires AllDigits(s) && AllDigits(t) && |s| == |t|
    ensures LexLt(s, t) <==> DecimalValue(s) < DecimalValue(t)
    ensures s == t <==> DecimalValue(s) == DecimalValue(t)
  {
    if |s| > 0 {
      var n := |s| - 1;
      var s', t' := s[..n], t[..n];
      assert s == s' + [s[n]] && t == t' + [t[n]];
      FixedWidthOrder(s', t');
      LexLtAppend(s', [s[n]], t', [t[n]]);
      assert LexLt([s[n]], [t[n]]) <==> s[n] < t[n];
      assert DigitValue(s[n]) < DigitValue(t[n]) <==> s[n] < t[n];
    }
  }

  // ---------------------------------------------------------------------
  // String#to_i
  // ---------------------------------------------------------------------

  predicate IsSpace(c: char) { c == ' ' || c == '\t' || c == '\n' || c == '\U{0B}' || c == '\U{0C}' || c == '\r' }

  function SkipSpace(s: string): (t: string)
    ensures |t| <= |s| && (|t| > 0 ==> !IsSpace(t[0]))
  {
    if |s| > 0 && IsSpace(s[0]) then SkipSpace(s[1..]) else s
  }

  /**
   * The digits of the longest prefix of `s` that reads as a decimal number
   * in which single underscores may separate digits; the underscores are
   * dropped.
   */
  function LeadingDigits(s: string): (d: string)
    ensures AllDigits(d)
  {
    if |s| == 0 || !IsDigit(s[0]) then []
    else if |s| >= 3 && s[1] == '_' && IsDigit(s[2]) then [s[0]] + LeadingDigits(s[2..])
    else [s[0]] + LeadingDigits(s[1..])
  }

  /**
   * The magnitude after the sign: an optional decimal radix prefix `0d` or
   * `0D`, then as many digits as can be read.
   */
  function Unsigned(u: string): nat
  {
    if |u| >= 2 && u[0] == '0' && (u[1] == 'd' || u[1] == 'D') then DecimalValue(LeadingDigits(u[2..]))
    else DecimalValue(LeadingDigits(u))
  }

  /**
   * `String#to_i`: leading white space, an optional sign, then the
   * magnitude; 0 when no digit can be read. Never fails.
   */
  function ToI(s: string): int
  {
    var t := SkipSpace(s);
    if |t| > 0 && t[0] == '-' then -(Unsigned(t[1..]) as int)
    else if |t| > 0 && t[0] == '+' then Unsigned(t[1..])
    else Unsigned(t)
  }

  lemma {:induction false} LeadingDigitsOfDigits(s: string)
    requires AllDigits(s)
    ensures LeadingDigits(s) == s
  {
    if |s| > 0 { LeadingDigitsOfDigits(s[1..]); }
  }

  /** `to_i` reads back what `to_s` writes, for either sign. */
  lemma {:induction false} ToIOfNatToString(n: nat)
    ensures ToI(NatToString(n)) == n
    ensures ToI("-" + NatToString(n)) == -(n as int)
  {
    var s := NatToString(n);
    LeadingDigitsOfDigits(s);
    NatToStringValue(n);
    assert SkipSpace(s) == s;
    var m := "-" + s;
    assert m[1..] == s;
    assert SkipSpace(m) == m;
  }

  /** A `0d` or `0D` radix prefix after the sign is skipped. */
  lemma {:induction false} ToIRadixPrefix(n: nat)
    ensures ToI("0d" + NatToString(n)) == n
    ensures ToI("-0D" + NatToString(n)) == -(n as int)
  {
    var s := NatToString(n);
    LeadingDigitsOfDigits(s);
    NatToStringValue(n);
    var p := "0d" + s;
    assert p[2..] == s;
    assert SkipSpace(p) == p;
    var m := "-0D" + s;
    assert m[1..][2..] == s;
    assert SkipSpace(m) == m;
  }

  /** A string without any digit reads as 0. */
  lemma {:induction false} ToIWithoutDigits(s: string)
    requires forall i :: 0 <= i < |s| ==> !IsDigit(s[i])
    ensures ToI(s) == 0
  {
    SkipSpaceSuffix(s);
  }

  lemma {:induction false} SkipSpaceSuffix(s: string)
    ensures exists k :: 0 <= k <= |s| && SkipSpace(s) == s[k..]
  {
    if |s| > 0 && IsSpace(s[0]) {
      SkipSpaceSuffix(s[1..]);
      var k :| 0 <= k <= |s[1..]| && SkipSpace(s[1..]) == s[1..][k..];
      assert SkipSpace(s) == s[k + 1..];
    } else {
      assert SkipSpace(s) == s[0..];
    }
  }

  // ---------------------------------------------------------------------
  // Array#join
  // ---------------------------------------------------------------------

  /** The parts in order, with `sep` between neighbours. */
  function Join(parts: seq<string>, sep: string): string
  {
    if |parts| == 0 then ""
    else if |parts| == 1 then parts[0]
    else parts[0] + sep + Join(parts[1..], sep)
  }

  /** Joining one more part appends the separator and that part. */
  lemma {:induction false} JoinSnoc(parts: seq<string>, p: string, sep: string)
    requires |parts| > 0
    ensures Join(parts + [p], sep) == Join(parts, sep) + sep + p
  {
    var all := parts + [p];
    assert all[0] == parts[0];
    if |parts| > 1 {
      assert all[1..] == parts[1..] + [p];
      JoinSnoc(parts[1..], p, sep);
    } else {
      assert all[1..] == [p];
    }
  }
}
