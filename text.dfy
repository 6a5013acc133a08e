/**
 * String helpers used by the exclusion rules, the normaliser and the report
 * generators: substring containment (Python's `in` on two strings), a model of
 * `str.lower()`, `str.strip()` and single-character `str.replace`.
 */
module Text {

  /** `needle in hay` for Python strings: some slice of `hay` equals `needle`.
      The empty string is contained in every string. */
  predicate Contains(hay: string, needle: string) {
    exists i | 0 <= i <= |hay| - |needle| :: OccursAt(hay, needle, i)
  }

  /** `needle` occurs in `hay` starting at index `i`. */
  predicate OccursAt(hay: string, needle: string, i: int) {
    0 <= i && i + |needle| <= |hay| && hay[i..i + |needle|] == needle
  }

  lemma EmptyIsContained(hay: string)
    ensures Contains(hay, "")
  {
    assert OccursAt(hay, "", 0);
  }

  // ---------------------------------------------------------------------------
  // Lower-casing

  /** The upper-case letters this model of `str.lower()` knows: ASCII A-Z, and
      the Cyrillic capitals U+0400..U+042F (which include Ё). */
  predicate IsUpper(c: char) {
    ('A' <= c <= 'Z') || ('\U{0400}' <= c <= '\U{042F}')
  }

  /** Lower-case one character: A-Z move by 0x20, Cyrillic А..Я (U+0410..U+042F)
      move by 0x20, Ѐ..Џ (U+0400..U+040F) move by 0x50; others are unchanged. */
  function LowerChar(c: char): (r: char)
    ensures !IsUpper(r)
    ensures !IsUpper(c) ==> r == c
  {
    if 'A' <= c <= 'Z' then (c as int + 0x20) as char
    else if '\U{0410}' <= c <= '\U{042F}' then (c as int + 0x20) as char
    else if '\U{0400}' <= c <= '\U{040F}' then (c as int + 0x50) as char
    else c
  }

  /** `s.lower()`, character by character. */
  function Lower(s: string): (r: string)
    ensures |r| == |s|
    ensures forall i :: 0 <= i < |s| ==> r[i] == LowerChar(s[i])
  {
    seq(|s|, i requires 0 <= i < |s| => LowerChar(s[i]))
  }

  /** A lower-cased string holds no upper-case letter and is its own lower case. */
  lemma LowerIsLower(s: string)
    ensures forall i :: 0 <= i < |Lower(s)| ==> !IsUpper(Lower(s)[i])
    ensures Lower(Lower(s)) == Lower(s)
  {
  }

  /** A string that contains an upper-case letter is never a substring of a
      string that has none. */
  lemma {:induction false} UpperNotContained(hay: string, needle: string, j: nat)
    requires j < |needle| && IsUpper(needle[j])
    requires forall i :: 0 <= i < |hay| ==> !IsUpper(hay[i])
    ensures !Contains(hay, needle)
  {
    forall i | 0 <= i <= |hay| - |needle|
      ensures !OccursAt(hay, needle, i)
    {
      assert hay[i..i + |needle|][j] == hay[i + j];
    }
  }

  // ---------------------------------------------------------------------------
  // Stripping

  /** The whitespace `str.strip()` removes (`str.isspace()`): tab, line feed,
      vertical tab, form feed, carriage return, the separators U+001C..U+001F,
      space, U+0085, U+00A0, U+1680, U+2000..U+200A, U+2028, U+2029, U+202F,
      U+205F and U+3000. */
  predicate IsSpace(c: char) {
    ('\t' <= c <= '\r') || ('\U{001C}' <= c <= ' ') || c == '\U{0085}' || c == '\U{00A0}'
    || c == '\U{1680}' || ('\U{2000}' <= c <= '\U{200A}') || c == '\U{2028}' || c == '\U{2029}'
    || c == '\U{202F}' || c == '\U{205F}' || c == '\U{3000}'
  }

  /** Index of the first non-space character (or |s|). */
  function {:induction false} StripStart(s: string): (i: nat)
    ensures i <= |s|
    ensures forall k :: 0 <= k < i ==> IsSpace(s[k])
    ensures i < |s| ==> !IsSpace(s[i])
  {
    if s == [] || !IsSpace(s[0]) then 0 else 1 + StripStart(s[1..])
  }

  /** One past the last non-space character (or 0). */
  function {:induction false} StripEnd(s: string): (j: nat)
    ensures j <= |s|
    ensures forall k :: j <= k < |s| ==> IsSpace(s[k])
    ensures 0 < j ==> !IsSpace(s[j - 1])
  {
    if s == [] || !IsSpace(s[|s| - 1]) then |s| else StripEnd(s[..|s| - 1])
  }

  /** Every character of `s` is whitespace exactly when the suffix scan finds nothing. */
  lemma StripBounds(s: string)
    ensures StripStart(s) <= StripEnd(s) || StripEnd(s) == 0
    ensures StripEnd(s) == 0 ==> StripStart(s) == |s|
  {
  }

  /** `s.strip()`: the slice between the leading and the trailing whitespace. */
  function Strip(s: string): (r: string)
    ensures |r| <= |s|
    ensures r == "" || (!IsSpace(r[0]) && !IsSpace(r[|r| - 1]))
    ensures r == "" <==> forall k | 0 <= k < |s| :: IsSpace(s[k])
    ensures r != "" ==> r == s[StripStart(s)..StripEnd(s)]
  {
    StripBounds(s);
    var i, j := StripStart(s), StripEnd(s);
    if j == 0 then "" else s[i..j]
  }

  /** A string that neither starts nor ends with whitespace is its own strip. */
  lemma StripUnchanged(s: string)
    requires s == "" || (!IsSpace(s[0]) && !IsSpace(s[|s| - 1]))
    ensures Strip(s) == s
  {
  }

  // ---------------------------------------------------------------------------
  // Replacing

  /** `s.replace(from, to)` for single characters. */
  function ReplaceChar(s: string, from: char, to: char): (r: string)
    ensures |r| == |s|
    ensures forall i :: 0 <= i < |s| ==> r[i] == (if s[i] == from then to else s[i])
  {
    seq(|s|, i requires 0 <= i < |s| => if s[i] == from then to else s[i])
  }

  /** After replacing, `from` no longer occurs (when it differs from `to`). */
  lemma ReplaceCharRemoves(s: string, from: char, to: char)
    requires from != to
    ensures forall i :: 0 <= i < |s| ==> ReplaceChar(s, from, to)[i] != from
  {
  }
}
