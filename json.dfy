/**
 * The scalar JSON values an API payload carries in the fields the pipeline
 * converts, and the two conversions the normaliser
 * applies: `float(v)` and `float(str(v).replace(',', '.'))`.
 */
module Json {
  import opened Common
  import opened Text
  import opened Numbers

  /** A decoded JSON value: `null`, a boolean, a number, a string, or an array
      or object (which these conversions never look inside). */
  datatype Scalar = Null | Bool(b: bool) | Number(n: real) | Str(s: string) | Compound(empty: bool)

  /** `float(v)`: numbers pass through, booleans are 1.0 and 0.0 (bool is a
      subclass of int), strings are parsed; None, lists and dicts raise
      TypeError (None here). */
  function Float(v: Scalar): (r: Option<real>)
    ensures v.Number? ==> r == Some(v.n)
    ensures (v.Null? || v.Compound?) ==> r.None?
  {
    match v
    case Null => None
    case Bool(b) => Some(if b then 1.0 else 0.0)
    case Number(n) => Some(n)
    case Str(s) => ParseReal(s)
    case Compound(_) => None
  }

  /** `float(str(v).replace(',', '.'))`: a number's `str` reads back as the same
      number; a string has its decimal commas turned into points first; the
      text of `None`, `True`, `False`, a list or a dict never parses. */
  function FloatOfText(v: Scalar): (r: Option<real>)
    ensures v.Number? ==> r == Some(v.n)
    ensures !v.Number? && !v.Str? ==> r.None?
  {
    match v
    case Number(n) => Some(n)
    case Str(s) => ParseReal(ReplaceChar(s, ',', '.'))
    case _ => None
  }

  /** A string with a decimal comma converts to the same value as with a point. */
  lemma CommaIsDecimalPoint(s: string, i: nat)
    requires i < |s| && s[i] == ','
    ensures FloatOfText(Str(s)) == FloatOfText(Str(s[i := '.']))
  {
    assert ReplaceChar(s, ',', '.') == ReplaceChar(s[i := '.'], ',', '.');
  }
}
