/**
 * `_format_price`, defined identically in src/map_generator.py and
 * src/excel_generator.py: a price shown in whole millions, whole thousands or
 * whole roubles.
 */
module PriceFormat {
  import opened Common
  import opened Json
  import opened Numbers

  const ZeroText := "0 руб."
  const MillionsSuffix := " млн. руб."
  const ThousandsSuffix := " тыс. руб."
  const RoublesSuffix := " руб."

  /** The three brackets of a non-zero `float(price)`. */
  function FormatAmount(p: real): string {
    if p >= 1000000.0 then IntToString(RoundHalfEven(p / 1000000.0)) + MillionsSuffix
    else if p >= 1000.0 then IntToString(RoundHalfEven(p / 1000.0)) + ThousandsSuffix
    else IntToString(Truncate(p)) + RoublesSuffix
  }

  /** `_format_price(price)`: only an int, a float or a bool (an int subclass)
      is a number; zero and anything else are shown as "0 руб.". */
  function FormatPrice(v: Scalar): (s: string)
    ensures |s| > 0
  {
    match v
    case Number(n) => if n == 0.0 then ZeroText else FormatAmount(n)
    case Bool(b) => if b then FormatAmount(1.0) else ZeroText
    case _ => ZeroText
  }

  /** Zero, false, null, a string, a list or a dict are all shown as "0 руб.". */
  lemma ZeroOrNonNumeric(v: Scalar)
    requires v == Number(0.0) || v == Bool(false) || v.Null? || v.Str? || v.Compound?
    ensures FormatPrice(v) == ZeroText
  {
  }

  /** From a million up: the nearest whole number of millions (ties to even),
      which reads back as exactly that number. */
  lemma MillionsBracket(p: real, k: int)
    requires p >= 1000000.0
    requires -0.5 <= k as real - p / 1000000.0 <= 0.5
    requires (k as real - p / 1000000.0 == 0.5 || p / 1000000.0 - k as real == 0.5) ==> k % 2 == 0
    ensures FormatPrice(Number(p)) == IntToString(k) + MillionsSuffix
    ensures ParseReal(IntToString(k)) == Some(k as real)
    ensures k >= 1
  {
    var q := p / 1000000.0;
    assert q >= 1.0;
    RoundHalfEvenUnique(q, k);
    assert FormatPrice(Number(p)) == FormatAmount(p);
    assert FormatAmount(p) == IntToString(RoundHalfEven(q)) + MillionsSuffix;
    IntToStringParses(k);
  }

  /** From a thousand up to a million: the nearest whole number of thousands
      (ties to even), at most 1000. */
  lemma ThousandsBracket(p: real, k: int)
    requires 1000.0 <= p < 1000000.0
    requires -0.5 <= k as real - p / 1000.0 <= 0.5
    requires (k as real - p / 1000.0 == 0.5 || p / 1000.0 - k as real == 0.5) ==> k % 2 == 0
    ensures FormatPrice(Number(p)) == IntToString(k) + ThousandsSuffix
    ensures ParseReal(IntToString(k)) == Some(k as real)
    ensures 1 <= k <= 1000
  {
    var q := p / 1000.0;
    assert 1.0 <= q < 1000.0;
    RoundHalfEvenUnique(q, k);
    assert FormatPrice(Number(p)) == FormatAmount(p);
    assert FormatAmount(p) == IntToString(RoundHalfEven(q)) + ThousandsSuffix;
    IntToStringParses(k);
  }

  /** Below a thousand, zero aside (negative prices included): the whole
      roubles, cut toward zero. */
  lemma RoublesBracket(p: real, k: int)
    requires p < 1000.0 && p != 0.0
    requires p >= 0.0 ==> k as real <= p < k as real + 1.0
    requires p < 0.0 ==> k as real - 1.0 < p <= k as real
    ensures FormatPrice(Number(p)) == IntToString(k) + RoublesSuffix
    ensures ParseReal(IntToString(k)) == Some(k as real)
    ensures p > 0.0 ==> 0 <= k <= 999
  {
    assert k == Truncate(p);
    assert FormatPrice(Number(p)) == FormatAmount(p);
    IntToStringParses(k);
  }

  /** A true flag counts as the number 1. */
  lemma TrueIsOneRouble()
    ensures FormatPrice(Bool(true)) == FormatPrice(Number(1.0))
  {
  }
}
