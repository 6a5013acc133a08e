/**
 * Numbers as the pipeline handles them: Python's `float(str)` on decimal text,
 * `str(int)`, `round(x)`, `round(x, 2)` and `int(x)`, all over exact reals.
 */
module Numbers {
  import opened Common
  import opened Text

  predicate IsDigit(c: char) {
    '0' <= c <= '9'
  }

  predicate AllDigits(s: string) {
    forall i :: 0 <= i < |s| ==> IsDigit(s[i])
  }

  function Pow10(n: nat): (r: nat)
    ensures r >= 1
  {
    if n == 0 then 1 else 10 * Pow10(n - 1)
  }

  /** The value of a string of decimal digits, most significant first. */
  function DigitsValue(s: string): nat
    requires AllDigits(s)
  {
    if s == [] then 0 else 10 * DigitsValue(s[..|s| - 1]) + (s[|s| - 1] as int - '0' as int)
  }

  /** Index of the first '.' in `s`, or |s| when there is none. */
  function {:induction false} DotIndex(s: string): (k: nat)
    ensures k <= |s|
    ensures forall i :: 0 <= i < k ==> s[i] != '.'
    ensures k < |s| ==> s[k] == '.'
  {
    if s == [] then 0 else if s[0] == '.' then 0 else 1 + DotIndex(s[1..])
  }

  /** Unsigned decimal text: `digits`, `digits.`, `.digits` or `digits.digits`. */
  function UnsignedValue(s: string): (r: Option<real>)
    ensures r.Some? ==> r.value >= 0.0
  {
    var k := DotIndex(s);
    DecimalValue(s[..k], if k < |s| then s[k + 1..] else "")
  }

  /** The value of a whole part and a fraction part, both digit strings and
      not both empty. */
  function DecimalValue(whole: string, frac: string): (r: Option<real>)
    ensures r.Some? ==> r.value >= 0.0
  {
    if AllDigits(whole) && AllDigits(frac) && |whole| + |frac| > 0 then
      Some(DigitsValue(whole) as real + FractionValue(frac))
    else None
  }

  /** The value of the digits after the decimal point. */
  function FractionValue(frac: string): (r: real)
    requires AllDigits(frac)
    ensures frac == "" ==> r == 0.0
    ensures r >= 0.0
  {
    DigitsValue(frac) as real / Pow10(|frac|) as real
  }

  /** Python's `float(s)` on decimal text: surrounding whitespace is ignored and
      one leading sign is allowed; anything else that is not a decimal is a
      ValueError (None). */
  function ParseReal(s: string): Option<real> {
    var t := Strip(s);
    if |t| > 0 && t[0] == '-' then
      match UnsignedValue(t[1..])
      case Some(v) => Some(-v)
      case None => None
    else if |t| > 0 && t[0] == '+' then UnsignedValue(t[1..])
    else UnsignedValue(t)
  }

  // ---------------------------------------------------------------------------
  // Decimal rendering of integers (`str(n)` / f-string of an int)

  function DigitChar(d: nat): (c: char)
    requires d < 10
    ensures IsDigit(c) && c as int - '0' as int == d
  {
    ('0' as int + d) as char
  }

  function NatToString(n: nat): (s: string)
    ensures |s| > 0 && AllDigits(s)
  {
    if n < 10 then [DigitChar(n)] else NatToString(n / 10) + [DigitChar(n % 10)]
  }

  /** `str(i)`: a '-' sign for negative integers, then the decimal digits. */
  function IntToString(i: int): (s: string)
    ensures |s| > 0
  {
    if i < 0 then "-" + NatToString(-i) else NatToString(i)
  }

  lemma {:induction false} NatToStringValue(n: nat)
    ensures DigitsValue(NatToString(n)) == n
  {
    var s := NatToString(n);
    if n >= 10 {
      NatToStringValue(n / 10);
      assert s[..|s| - 1] == NatToString(n / 10);
    }
  }

  /** A plain digit string reads as its digit value. */
  lemma UnsignedDigits(s: string)
    requires |s| > 0 && AllDigits(s)
    ensures UnsignedValue(s) == Some(DigitsValue(s) as real)
  {
    DigitsHaveNoDot(s);
    assert s[..|s|] == s;
    DecimalDigits(s, "");
  }

  /** A digit string has no '.'. */
  lemma DigitsHaveNoDot(s: string)
    requires AllDigits(s)
    ensures DotIndex(s) == |s|
  {
    assert forall i | 0 <= i < |s| :: s[i] != '.';
  }

  /** Exactly the texts that hold at least one digit, and only digits besides
      their first '.', convert. */
  lemma UnsignedAccepts(s: string)
    ensures UnsignedValue(s).Some? <==>
      s != "" && s != "." && forall i | 0 <= i < |s| && i != DotIndex(s) :: IsDigit(s[i])
  {
    var k := DotIndex(s);
    var whole := s[..k];
    var frac := if k < |s| then s[k + 1..] else "";
    assert UnsignedValue(s) == DecimalValue(whole, frac);
    DigitsAroundDot(s, k);
    if k < |s| {
      assert |whole| + |frac| == |s| - 1;
      if |s| == 1 {
        assert s == ".";
      }
    } else {
      assert |whole| + |frac| == |s|;
    }
  }

  /** The parts on either side of position k are digit strings exactly when
      every other character is a digit. */
  lemma DigitsAroundDot(s: string, k: nat)
    requires k <= |s|
    ensures (AllDigits(s[..k]) && AllDigits(if k < |s| then s[k + 1..] else "")) <==>
      forall i | 0 <= i < |s| && i != k :: IsDigit(s[i])
  {
    var whole := s[..k];
    var frac := if k < |s| then s[k + 1..] else "";
    assert forall i | 0 <= i < k :: whole[i] == s[i];
    assert forall i | k < i < |s| :: frac[i - k - 1] == s[i];
    if forall i | 0 <= i < |s| && i != k :: IsDigit(s[i]) {
      assert forall j | 0 <= j < |frac| :: frac[j] == s[j + k + 1];
    }
  }

  /** Digits, a point and digits read as the whole part plus the fraction:
      "45.5" is 45 + 5 / 10. Either side may be empty, not both. */
  lemma DecimalDigits(w: string, f: string)
    requires AllDigits(w) && AllDigits(f) && |w| + |f| > 0
    ensures DecimalValue(w, f) == Some(DigitsValue(w) as real + FractionValue(f))
  {
  }

  lemma UnsignedDecimal(w: string, f: string)
    requires AllDigits(w) && AllDigits(f) && |w| + |f| > 0
    ensures UnsignedValue(w + "." + f) == Some(DigitsValue(w) as real + FractionValue(f))
  {
    var s := w + "." + f;
    DotAfterDigits(w, f);
    assert s[..|w|] == w;
    assert s[|w| + 1..] == f;
    assert UnsignedValue(s) == DecimalValue(w, f);
    DecimalDigits(w, f);
  }

  /** The first '.' after a digit string is the one that follows it. */
  lemma DotAfterDigits(w: string, f: string)
    requires AllDigits(w)
    ensures DotIndex(w + "." + f) == |w|
  {
    var s := w + "." + f;
    assert s[|w|] == '.';
    assert forall i | 0 <= i < |w| :: s[i] == w[i] && s[i] != '.';
  }

  /** A digit string parses to its value. */
  lemma DigitsParse(s: string)
    requires |s| > 0 && AllDigits(s)
    ensures ParseReal(s) == Some(DigitsValue(s) as real)
  {
    UnsignedDigits(s);
    StripUnchanged(s);
    assert Strip(s) == s;
    assert s[0] != '-' && s[0] != '+';
  }

  /** Text that starts with '-' and needs no stripping parses to the negated unsigned value. */
  lemma ParseNegative(t: string)
    requires |t| > 0 && t[0] == '-' && Strip(t) == t
    ensures UnsignedValue(t[1..]).Some? ==> ParseReal(t) == Some(-UnsignedValue(t[1..]).value)
  {
  }

  /** A '-' followed by digits parses to the negated value of the digits. */
  lemma NegativeDigitsParse(t: string)
    requires |t| > 1 && t[0] == '-' && AllDigits(t[1..])
    ensures ParseReal(t) == Some(-(DigitsValue(t[1..]) as real))
  {
    assert IsDigit(t[1..][|t| - 2]);
    StripUnchanged(t);
    ParseNegative(t);
    UnsignedDigits(t[1..]);
  }

  /** Round trip: parsing the decimal rendering of an integer gives it back. */
  lemma IntToStringParses(i: int)
    ensures ParseReal(IntToString(i)) == Some(i as real)
  {
    var n: nat := if i < 0 then -i else i;
    var digits := NatToString(n);
    NatToStringValue(n);
    if i < 0 {
      var t := "-" + digits;
      assert IntToString(i) == t;
      assert t[1..] == digits;
      NegativeDigitsParse(t);
    } else {
      assert IntToString(i) == digits;
      DigitsParse(digits);
    }
  }

  // ---------------------------------------------------------------------------
  // Rounding

  /** Python's `round(x)` on an exact real: the nearest integer, ties to even. */
  function RoundHalfEven(x: real): (r: int)
    ensures -0.5 <= r as real - x <= 0.5
    ensures (r as real - x == 0.5 || x - r as real == 0.5) ==> r % 2 == 0
  {
    var f := x.Floor;
    var d := x - f as real;
    if d < 0.5 then f
    else if d > 0.5 then f + 1
    else if f % 2 == 0 then f
    else f + 1
  }

  /** The two conditions of RoundHalfEven pin the result down. */
  lemma RoundHalfEvenUnique(x: real, r: int)
    requires -0.5 <= r as real - x <= 0.5
    requires (r as real - x == 0.5 || x - r as real == 0.5) ==> r % 2 == 0
    ensures r == RoundHalfEven(x)
  {
  }

  /** Python's `round(x, 2)` on an exact real: the nearest multiple of 0.01, ties to even. */
  function Round2(x: real): (r: real)
    ensures -0.005 <= r - x <= 0.005
    ensures (r * 100.0).Floor as real == r * 100.0
    ensures (r - x == 0.005 || x - r == 0.005) ==> (r * 100.0).Floor % 2 == 0
  {
    var y := x * 100.0;
    var n := RoundHalfEven(y);
    var r := n as real / 100.0;
    assert r * 100.0 == n as real;
    assert (r * 100.0).Floor == n;
    assert r - x == (n as real - y) / 100.0;
    r
  }

  /** Python's `int(x)` on a real: truncation toward zero. */
  function Truncate(x: real): (r: int)
    ensures x >= 0.0 ==> 0.0 <= r as real <= x < r as real + 1.0
    ensures x < 0.0 ==> r as real - 1.0 < x <= r as real <= 0.0
  {
    if x >= 0.0 then x.Floor else -((-x).Floor)
  }
}
