/**
 * The two number-to-text conversions of the JavaScript runtime that the
 * formatters rely on, restricted to integers:
 *  - `Number.prototype.toLocaleString('ja-JP')` on an integer, which writes the
 *    decimal numeral with a ',' between groups of three digits, and
 *  - `Number.prototype.toFixed(p)` on a value held as an integer count of
 *    10^-p units, which writes it with exactly p fraction digits.
 * Each conversion is given with an independent reading-back (`ValueOf`,
 * `StripCommas`) and lemmas that connect the two.
 */
module Numerals {

  predicate IsDigit(c: char) {
    '0' <= c <= '9'
  }

  predicate AllDigits(s: string) {
    forall i :: 0 <= i < |s| ==> IsDigit(s[i])
  }

  function DigitValue(c: char): (d: nat)
    requires IsDigit(c)
    ensures d < 10
  {
    c as int - '0' as int
  }

  function DigitChar(d: nat): (c: char)
    requires d < 10
    ensures IsDigit(c) && DigitValue(c) == d
  {
    ('0' as int + d) as char
  }

  function Pow10(k: nat): (p: nat)
    ensures p >= 1
  {
    if k == 0 then 1 else 10 * Pow10(k - 1)
  }

  /** The value of a string of decimal digits, most significant first ("" reads as 0). */
  function ValueOf(s: string): nat
    requires AllDigits(s)
  {
    if s == [] then 0 else ValueOf(s[..|s| - 1]) * 10 + DigitValue(s[|s| - 1])
  }

  /** The decimal numeral of n: digits only, and no leading zero unless n is 0. */
  function Decimal(n: nat): (s: string)
    ensures |s| >= 1 && AllDigits(s)
    ensures s[0] == '0' ==> n == 0
  {
    if n < 10 then [DigitChar(n)] else Decimal(n / 10) + [DigitChar(n % 10)]
  }

  /** Reading a numeral back gives the number it was written from. */
  lemma {:induction false} DecimalValue(n: nat)
    ensures ValueOf(Decimal(n)) == n
  {
    if n >= 10 {
      var s := Decimal(n);
      assert s[..|s| - 1] == Decimal(n / 10);
      DecimalValue(n / 10);
    }
  }

  /** A number below 1000 has at most three digits. */
  lemma DecimalShort(n: nat)
    requires n < 1000
    ensures |Decimal(n)| <= 3
  {
    if n >= 10 {
      assert |Decimal(n)| == |Decimal(n / 10)| + 1;
      if n / 10 >= 10 {
        assert |Decimal(n / 10)| == |Decimal(n / 100)| + 1;
      }
    }
  }

  /** Exactly `width` digits of v, padded with zeros on the left. */
  function Padded(v: nat, width: nat): (s: string)
    requires v < Pow10(width)
    ensures |s| == width && AllDigits(s) && ValueOf(s) == v
  {
    if width == 0 then []
    else
      var s := Padded(v / 10, width - 1) + [DigitChar(v % 10)];
      assert s[..|s| - 1] == Padded(v / 10, width - 1);
      s
  }

  /** The arithmetic behind DecimalSplit: peeling digits off n peels them off n % 1000. */
  lemma DigitsOfLowPart(n: nat)
    requires n >= 1000
    ensures n / 10 / 10 == n / 100 && n / 100 / 10 == n / 1000
    ensures n % 1000 % 10 == n % 10
    ensures (n % 1000 / 10) % 10 == (n / 10) % 10
    ensures (n % 1000 / 10 / 10) % 10 == (n / 100) % 10
    ensures n % 1000 / 10 / 10 / 10 == 0
  {
    var q, m := n / 1000, n % 1000;
    assert n == 1000 * q + m;
    assert n / 10 == 100 * q + m / 10;
    assert n / 100 == 10 * q + m / 100;
    assert m / 10 / 10 == m / 100;
  }

  /** The last three digits of n, most significant first. */
  function LowDigits(n: nat): string {
    [DigitChar((n / 100) % 10), DigitChar((n / 10) % 10), DigitChar(n % 10)]
  }

  lemma DecimalThreeSteps(n: nat)
    requires n >= 1000
    ensures Decimal(n) == Decimal(n / 1000) + LowDigits(n)
  {
    DigitsOfLowPart(n);
    assert Decimal(n) == Decimal(n / 10) + [DigitChar(n % 10)];
    assert Decimal(n / 10) == Decimal(n / 100) + [DigitChar((n / 10) % 10)];
    assert Decimal(n / 100) == Decimal(n / 1000) + [DigitChar((n / 100) % 10)];
  }

  lemma PaddedLowDigits(n: nat)
    requires n >= 1000
    ensures Padded(n % 1000, 3) == LowDigits(n)
  {
    var m := n % 1000;
    DigitsOfLowPart(n);
    assert Padded(m, 3) == Padded(m / 10, 2) + [DigitChar(m % 10)];
    assert Padded(m / 10, 2) == Padded(m / 10 / 10, 1) + [DigitChar((m / 10) % 10)];
    assert Padded(m / 10 / 10, 1) == [DigitChar((m / 10 / 10) % 10)];
  }

  /** Three steps of Decimal's recursion, written as one split into a leading part and three digits. */
  lemma DecimalSplit(n: nat)
    requires n >= 1000
    ensures Decimal(n) == Decimal(n / 1000) + Padded(n % 1000, 3)
  {
    DecimalThreeSteps(n);
    PaddedLowDigits(n);
  }

  /** The digits of s with every ',' deleted. */
  function StripCommas(s: string): (r: string)
    ensures |r| <= |s|
  {
    if s == [] then [] else (if s[0] == ',' then [] else [s[0]]) + StripCommas(s[1..])
  }

  lemma {:induction false} StripCommasAppend(a: string, b: string)
    ensures StripCommas(a + b) == StripCommas(a) + StripCommas(b)
  {
    if a != [] {
      var head := if a[0] == ',' then [] else [a[0]];
      assert (a + b)[0] == a[0] && (a + b)[1..] == a[1..] + b;
      assert StripCommas(a + b) == head + StripCommas(a[1..] + b);
      StripCommasAppend(a[1..], b);
      assert StripCommas(a) == head + StripCommas(a[1..]);
    } else {
      assert a + b == b;
    }
  }

  lemma {:induction false} StripCommasOfDigits(s: string)
    requires AllDigits(s)
    ensures StripCommas(s) == s
  {
    if s != [] {
      StripCommasOfDigits(s[1..]);
    }
  }

  /**
   * The shape of a ja-JP grouped integer: digits and commas only, no leading
   * comma, and a comma at exactly every fourth position counted from the
   * right. Equivalently: a leading group of 1 to 3 digits, then groups of
   * exactly 3 digits each preceded by a comma.
   */
  predicate WellGrouped(s: string) {
    && |s| >= 1
    && s[0] != ','
    && forall i :: 0 <= i < |s| ==>
         (s[i] == ',' <==> (|s| - 1 - i) % 4 == 3) && (s[i] == ',' || IsDigit(s[i]))
  }

  /** `toLocaleString('ja-JP')` of a non-negative integer. */
  function Grouped(n: nat): (s: string)
    ensures |s| >= 1 && IsDigit(s[0])
  {
    if n < 1000 then Decimal(n) else Grouped(n / 1000) + "," + Padded(n % 1000, 3)
  }

  /** Deleting the commas from the grouped form leaves the plain decimal numeral. */
  lemma {:induction false} GroupedDigits(n: nat)
    ensures StripCommas(Grouped(n)) == Decimal(n)
  {
    if n < 1000 {
      StripCommasOfDigits(Decimal(n));
    } else {
      var g, p := Grouped(n / 1000), Padded(n % 1000, 3);
      StripCommasAppend(g + ",", p);
      StripCommasAppend(g, ",");
      GroupedDigits(n / 1000);
      StripCommasOfDigits(p);
      DecimalSplit(n);
    }
  }

  /** The grouped form has the comma-every-three-digits shape. */
  lemma {:induction false} GroupedShape(n: nat)
    ensures WellGrouped(Grouped(n))
  {
    if n < 1000 {
      var s := Decimal(n);
      DecimalShort(n);
      forall i | 0 <= i < |s|
        ensures (s[i] == ',' <==> (|s| - 1 - i) % 4 == 3) && (s[i] == ',' || IsDigit(s[i]))
      {
        assert IsDigit(s[i]);
      }
    } else {
      GroupedShape(n / 1000);
      GroupAppend(Grouped(n / 1000), Padded(n % 1000, 3));
    }
  }

  /** A well-grouped numeral followed by a comma and three digits is well grouped. */
  lemma GroupAppend(g: string, p: string)
    requires WellGrouped(g) && |p| == 3 && AllDigits(p)
    ensures WellGrouped(g + "," + p)
  {
    var s := g + "," + p;
    assert |s| == |g| + 4;
    forall i | 0 <= i < |s|
      ensures (s[i] == ',' <==> (|s| - 1 - i) % 4 == 3) && (s[i] == ',' || IsDigit(s[i]))
    {
      if i < |g| {
        assert s[i] == g[i];
        assert (|s| - 1 - i) % 4 == (|g| - 1 - i) % 4;
      } else if i == |g| {
        assert s[i] == ',';
      } else {
        assert s[i] == p[i - |g| - 1];
      }
    }
  }

  /** `toLocaleString('ja-JP')` of any integer: a '-' in front of a negative one. */
  function LocaleString(n: int): (s: string)
    ensures |s| >= 1
    ensures s[0] == '-' <==> n < 0
    ensures n >= 0 ==> IsDigit(s[0])
  {
    if n < 0 then "-" + Grouped(-n) else Grouped(n)
  }

  /**
   * `toFixed(places)` of the number v * 10^-places: the integer part, and when
   * places > 0 a '.' followed by exactly `places` digits; a '-' in front when
   * v is negative.
   */
  function Fixed(v: int, places: nat): (s: string)
    ensures |s| >= 1
    ensures s[0] == '-' <==> v < 0
    ensures v >= 0 ==> IsDigit(s[0])
  {
    if v < 0 then "-" + FixedNat(-v, places) else FixedNat(v, places)
  }

  function FixedNat(v: nat, places: nat): (s: string)
    ensures |s| >= 1 && IsDigit(s[0])
  {
    if places == 0 then Decimal(v) else WithPoint(v, places)
  }

  /** The integer part of v * 10^-k, a '.', and the last k digits of v. */
  function WithPoint(v: nat, k: nat): (s: string)
    ensures |s| >= k + 2 && IsDigit(s[0])
  {
    if k == 0 then Decimal(v) + "." else WithPoint(v / 10, k - 1) + [DigitChar(v % 10)]
  }

  /** WithPoint(v, k) splits into a numeral q, a '.', and k digits f with q * 10^k + f == v. */
  lemma {:induction false} WithPointParts(v: nat, k: nat) returns (q: nat, f: string)
    ensures WithPoint(v, k) == Decimal(q) + "." + f
    ensures |f| == k && AllDigits(f) && q * Pow10(k) + ValueOf(f) == v
  {
    if k == 0 {
      q, f := v, [];
    } else {
      var q', f' := WithPointParts(v / 10, k - 1);
      q, f := q', f' + [DigitChar(v % 10)];
      assert WithPoint(v, k) == WithPoint(v / 10, k - 1) + [DigitChar(v % 10)];
      assert Decimal(q) + "." + f' + [DigitChar(v % 10)] == Decimal(q) + "." + f;
      assert f[..|f| - 1] == f';
      assert ValueOf(f) == ValueOf(f') * 10 + v % 10;
      assert Pow10(k) == 10 * Pow10(k - 1);
      ShiftDigit(v, q, Pow10(k - 1), ValueOf(f'));
    }
  }

  lemma ShiftDigit(v: nat, q: nat, p: nat, f: nat)
    requires q * p + f == v / 10
    ensures q * (10 * p) + (f * 10 + v % 10) == v
  {
    assert q * (10 * p) == 10 * (q * p);
  }

  /**
   * s reads as the non-negative number v * 10^-places written with exactly
   * `places` fraction digits and then `suffix`: integer digits (at least one,
   * and no leading zero), a '.', the fraction digits, the suffix.
   */
  predicate IsFixedNumeral(s: string, v: nat, places: nat, suffix: string)
  {
    var n := |s| - |suffix| - places - 1;
    && n >= 1
    && (n == 1 || s[0] != '0')
    && s[|s| - |suffix|..] == suffix
    && s[n] == '.'
    && AllDigits(s[..n])
    && AllDigits(s[n + 1..|s| - |suffix|])
    && ValueOf(s[..n]) * Pow10(places) + ValueOf(s[n + 1..|s| - |suffix|]) == v
  }

  /** Integer digits, a '.', fraction digits and a suffix put together form a fixed numeral. */
  lemma NumeralParts(d: string, f: string, suffix: string, v: nat, places: nat)
    requires |d| >= 1 && AllDigits(d) && (|d| == 1 || d[0] != '0')
    requires |f| == places && AllDigits(f)
    requires ValueOf(d) * Pow10(places) + ValueOf(f) == v
    ensures IsFixedNumeral(d + "." + f + suffix, v, places, suffix)
  {
    var s := d + "." + f + suffix;
    var n := |s| - |suffix| - places - 1;
    assert n == |d|;
    assert s[|s| - |suffix|..] == suffix;
    assert s[..n] == d;
    assert s[n + 1..|s| - |suffix|] == f;
    assert s[0] == d[0];
  }

  /** toFixed of a non-negative value followed by a suffix is a fixed numeral of that value. */
  lemma FixedReadsBack(v: nat, places: nat, suffix: string)
    requires places >= 1
    ensures IsFixedNumeral(Fixed(v, places) + suffix, v, places, suffix)
  {
    var q, f := WithPointParts(v, places);
    var d := Decimal(q);
    assert Fixed(v, places) + suffix == d + "." + f + suffix;
    if d[0] == '0' {
      assert d == Decimal(0);
    }
    DecimalValue(q);
    NumeralParts(d, f, suffix, v, places);
  }
}
