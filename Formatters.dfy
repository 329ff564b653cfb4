/**
 * The display formatters: every one first turns a non-finite input into 0,
 * and the signed ones are all built on one sign-wrapping combinator.
 */
module Formatters {
  import opened Numerals
  import opened PortfolioTypes

  /** A JavaScript number as the formatters see it: finite (in the field's unit) or not. */
  datatype Num = Fin(value: int) | NaN | PosInf | NegInf

  /** `Number.isFinite`. */
  predicate IsValidNumber(x: Num) {
    x.Fin?
  }

  /** A finite number is kept, anything else becomes 0. */
  function NormalizeNumber(x: Num): (v: int)
    ensures IsValidNumber(x) ==> v == x.value
    ensures !IsValidNumber(x) ==> v == 0
  {
    if IsValidNumber(x) then x.value else 0
  }

  function Abs(v: int): (a: nat)
    ensures a == v || a == -v
  {
    if v < 0 then -v else v
  }

  /** The sign a signed formatter puts in front: "+" for positive, "-" for negative, nothing for zero. */
  function SignPrefix(v: int): (p: string)
    ensures p == "+" <==> v > 0
    ensures p == "-" <==> v < 0
    ensures p == "" <==> v == 0
  {
    if v > 0 then "+" else if v < 0 then "-" else ""
  }

  /**
   * `formatWithSign`: the formatter is only ever given |value| (its parameter
   * is a nat), and its text is preceded by the sign of value.
   */
  function FormatWithSign(value: int, formatter: nat -> string): (r: string)
    ensures r == SignPrefix(value) + formatter(Abs(value))
  {
    if value > 0 then "+" + formatter(value)
    else if value < 0 then "-" + formatter(-value)
    else formatter(value)
  }

  /** `formatCurrency`: the amount in ja-JP digit grouping, no symbol. */
  function FormatCurrency(amount: Num): (r: string)
  {
    LocaleString(NormalizeNumber(amount))
  }

  /** `formatGainRatio`: signed, two fraction digits and '%'; the ratio is in hundredths. */
  function FormatGainRatio(ratio: Num): (r: string)
  {
    var normalized := NormalizeNumber(ratio);
    FormatWithSign(normalized, (v: nat) => Fixed(v, 2) + "%")
  }

  /** `formatHoldingRatio`: one fraction digit and '%'; the ratio is in tenths. */
  function FormatHoldingRatio(ratio: Num): (r: string)
  {
    Fixed(NormalizeNumber(ratio), 1) + "%"
  }

  /** `formatGainAmount`: signed, ja-JP digit grouping. */
  function FormatGainAmount(amount: Num): (r: string)
  {
    var normalized := NormalizeNumber(amount);
    FormatWithSign(normalized, (v: nat) => LocaleString(v))
  }

  /** `formatGainAmountWithCurrency`: the sign comes first, then '¥', then the grouped amount. */
  function FormatGainAmountWithCurrency(amount: Num): (r: string)
  {
    var normalized := NormalizeNumber(amount);
    FormatWithSign(normalized, (v: nat) => "¥" + LocaleString(v))
  }

  /** `getGainStatus`: the class of the normalised amount and its colour. */
  function GetGainStatus(amount: Num): (r: GainStatusInfo)
    ensures r.status == Positive <==> NormalizeNumber(amount) > 0
    ensures r.status == Negative <==> NormalizeNumber(amount) < 0
    ensures r.status == Zero <==> NormalizeNumber(amount) == 0
  {
    var normalized := NormalizeNumber(amount);
    if normalized > 0 then
      GainStatusInfo(Positive, "text-green-600 dark:text-green-300")
    else if normalized < 0 then
      GainStatusInfo(Negative, "text-red-600 dark:text-red-400")
    else
      GainStatusInfo(Zero, "text-gray-500 dark:text-gray-400")
  }

  // ---- Properties ----

  /** Every non-finite input is formatted and classified exactly like 0. */
  lemma NonFiniteIsZero(x: Num)
    requires !IsValidNumber(x)
    ensures FormatCurrency(x) == FormatCurrency(Fin(0)) == "0"
    ensures FormatGainRatio(x) == FormatGainRatio(Fin(0)) == "0.00%"
    ensures FormatHoldingRatio(x) == FormatHoldingRatio(Fin(0)) == "0.0%"
    ensures FormatGainAmount(x) == FormatGainAmount(Fin(0)) == "0"
    ensures FormatGainAmountWithCurrency(x) == FormatGainAmountWithCurrency(Fin(0)) == "¥0"
    ensures GetGainStatus(x) == GetGainStatus(Fin(0)) && GetGainStatus(x).status == Zero
  {
    assert Padded(0, 2) == "00";
    assert Padded(0, 1) == "0";
  }

  /**
   * For a non-negative amount, formatCurrency writes the decimal numeral of
   * the amount (deleting the commas gives it back) in groups of three digits.
   */
  lemma {:induction false} FormatCurrencyGrouping(n: nat)
    ensures WellGrouped(FormatCurrency(Fin(n)))
    ensures StripCommas(FormatCurrency(Fin(n))) == Decimal(n)
    ensures ValueOf(StripCommas(FormatCurrency(Fin(n)))) == n
  {
    GroupedShape(n);
    GroupedDigits(n);
    DecimalValue(n);
  }

  /** A grouped amount starts with a digit, so a leading sign can only come from FormatWithSign. */
  lemma GroupedStartsWithDigit(n: nat)
    ensures |Grouped(n)| >= 1 && IsDigit(Grouped(n)[0])
  {
    GroupedShape(n);
  }

  /**
   * formatGainAmount: the first character is '+' exactly for a positive
   * amount and '-' exactly for a negative one, and what follows the sign is
   * formatCurrency of the absolute amount.
   */
  lemma {:induction false} FormatGainAmountSign(amount: Num)
    ensures var r, v := FormatGainAmount(amount), NormalizeNumber(amount);
      && |r| >= 1
      && (r[0] == '+' <==> v > 0)
      && (r[0] == '-' <==> v < 0)
      && r == SignPrefix(v) + FormatCurrency(Fin(Abs(v)))
  {
    GroupedStartsWithDigit(Abs(NormalizeNumber(amount)));
  }

  /**
   * formatGainAmountWithCurrency: the sign (same rule) comes before '¥', and
   * the rest is formatCurrency of the absolute amount; 0 gives "¥0".
   */
  lemma {:induction false} FormatGainAmountWithCurrencySign(amount: Num)
    ensures var r, v := FormatGainAmountWithCurrency(amount), NormalizeNumber(amount);
      && |r| >= 2
      && (r[0] == '+' <==> v > 0)
      && (r[0] == '-' <==> v < 0)
      && (r[0] == '¥' <==> v == 0)
      && r == SignPrefix(v) + "¥" + FormatCurrency(Fin(Abs(v)))
  {
    GroupedStartsWithDigit(Abs(NormalizeNumber(amount)));
  }

  /**
   * formatGainRatio with the ratio in hundredths: the sign (same rule), then
   * an unsigned numeral with exactly two fraction digits and '%' that reads
   * back as |ratio|.
   */
  lemma {:induction false} FormatGainRatioShape(ratio: Num)
    ensures var r, v := FormatGainRatio(ratio), NormalizeNumber(ratio);
      && |r| >= |SignPrefix(v)|
      && r[..|SignPrefix(v)|] == SignPrefix(v)
      && IsFixedNumeral(r[|SignPrefix(v)|..], Abs(v), 2, "%")
      && IsDigit(r[|SignPrefix(v)|])
  {
    var v := NormalizeNumber(ratio);
    var t := Fixed(Abs(v), 2) + "%";
    assert FormatGainRatio(ratio) == SignPrefix(v) + t;
    FixedReadsBack(Abs(v), 2, "%");
    SignedNumeral(SignPrefix(v), t, Abs(v), 2, "%");
  }

  /** A sign in front of a fixed numeral leaves the numeral readable after it. */
  lemma SignedNumeral(p: string, t: string, v: nat, places: nat, suffix: string)
    requires IsFixedNumeral(t, v, places, suffix)
    ensures var r := p + t;
      && r[..|p|] == p && r[|p|..] == t
      && IsFixedNumeral(r[|p|..], v, places, suffix)
      && IsDigit(r[|p|])
  {
    var r := p + t;
    assert r[..|p|] == p && r[|p|..] == t;
    var n := |t| - |suffix| - places - 1;
    assert t[..n][0] == t[0];
    assert r[|p|] == t[0];
  }

  /**
   * formatHoldingRatio with a non-negative ratio in tenths: no sign, exactly
   * one fraction digit and a trailing '%', reading back as the ratio.
   */
  lemma {:induction false} FormatHoldingRatioShape(ratio: Num)
    requires NormalizeNumber(ratio) >= 0
    ensures var r := FormatHoldingRatio(ratio);
      && IsFixedNumeral(r, NormalizeNumber(ratio), 1, "%")
      && IsDigit(r[0])
  {
    FixedReadsBack(NormalizeNumber(ratio), 1, "%");
  }

  // Worked cases (small ones: the verifier computes them by unfolding the definitions).

  lemma FormatCurrencyExamples()
    ensures FormatCurrency(Fin(999)) == "999" && FormatCurrency(Fin(0)) == "0"
  {
  }

  lemma FormatCurrencyThousandsExample()
    ensures FormatCurrency(Fin(3000)) == "3,000"
  {
  }

  lemma FormatGainAmountPositiveExample()
    ensures FormatGainAmount(Fin(5242)) == "+5,242"
  {
  }

  lemma FormatGainAmountNegativeExample()
    ensures FormatGainAmount(Fin(-3000)) == "-3,000"
  {
    FormatCurrencyThousandsExample();
  }

  lemma FormatGainAmountWithCurrencyExamples()
    ensures FormatGainAmountWithCurrency(Fin(-3000)) == "-¥3,000"
  {
    FormatCurrencyThousandsExample();
    FormatGainAmountWithCurrencySign(Fin(-3000));
  }

  lemma FormatGainAmountWithCurrencyZeroExample()
    ensures FormatGainAmountWithCurrency(Fin(0)) == "¥0"
  {
    FormatCurrencyExamples();
    FormatGainAmountWithCurrencySign(Fin(0));
  }

  lemma FormatGainRatioPositiveExample()
    ensures FormatGainRatio(Fin(1287)) == "+12.87%"
  {
    assert WithPoint(12, 0) == "12.";
    assert FormatGainRatio(Fin(1287)) == "+" + (Fixed(1287, 2) + "%");
  }

  lemma FormatGainRatioNegativeExample()
    ensures FormatGainRatio(Fin(-550)) == "-5.50%"
  {
    assert WithPoint(5, 0) == "5.";
    assert FormatGainRatio(Fin(-550)) == "-" + (Fixed(550, 2) + "%");
  }

  lemma FormatHoldingRatioExamples()
    ensures FormatHoldingRatio(Fin(398)) == "39.8%"
    ensures FormatHoldingRatio(Fin(250)) == "25.0%"
  {
    assert Decimal(39) == "39" && Decimal(25) == "25";
    assert WithPoint(398, 1) == "39." + "8";
    assert WithPoint(250, 1) == "25." + "0";
  }
}
