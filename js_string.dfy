/** The part of JavaScript's string semantics the add handler relies on:
    `String.prototype.trim`, and the truthiness of the string it returns.

    ECMAScript's `trim` strips, from both ends, every code point of the
    WhiteSpace and LineTerminator productions: TAB, VT, FF, ZWNBSP (U+FEFF),
    every code point of Unicode category Zs, LF, CR, LINE SEPARATOR and
    PARAGRAPH SEPARATOR.
 */
module JsString {

  predicate IsJsWhitespace(c: char)
  {
    || c == '\U{9}' || c == '\U{B}' || c == '\U{C}' || c == '\U{FEFF}'
    // Unicode category Zs
    || c == '\U{20}' || c == '\U{A0}' || c == '\U{1680}'
    || ('\U{2000}' <= c <= '\U{200A}')
    || c == '\U{202F}' || c == '\U{205F}' || c == '\U{3000}'
    // line terminators
    || c == '\U{A}' || c == '\U{D}' || c == '\U{2028}' || c == '\U{2029}'
  }

  /** Every character of `s` from `lo` up to (not including) `hi` is whitespace. */
  ghost predicate BlankBetween(s: string, lo: int, hi: int)
  {
    forall k :: lo <= k < hi && 0 <= k < |s| ==> IsJsWhitespace(s[k])
  }

  /** Every character is whitespace (the empty string included). */
  ghost predicate IsBlank(s: string)
  {
    BlankBetween(s, 0, |s|)
  }

  /** The number of whitespace characters `s` starts with: all of them are
      whitespace, and the one after them, if any, is not. */
  function LeadingSpace(s: string): (n: nat)
    ensures n <= |s| && BlankBetween(s, 0, n)
    ensures n < |s| ==> !IsJsWhitespace(s[n])
  {
    if s == [] || !IsJsWhitespace(s[0]) then 0 else 1 + LeadingSpace(s[1..])
  }

  /** The number of whitespace characters `s` ends with: all of them are
      whitespace, and the one before them, if any, is not. */
  function TrailingSpace(s: string): (n: nat)
    ensures n <= |s| && BlankBetween(s, |s| - n, |s|)
    ensures n < |s| ==> !IsJsWhitespace(s[|s| - 1 - n])
  {
    if s == [] || !IsJsWhitespace(s[|s| - 1]) then 0 else 1 + TrailingSpace(s[..|s| - 1])
  }

  /** `r` sits at position `i` of `s` with only whitespace around it. */
  ghost predicate IsTrimAt(s: string, r: string, i: int)
    requires 0 <= i <= |s| - |r|
  {
    r == s[i..i + |r|] && BlankBetween(s, 0, i) && BlankBetween(s, i + |r|, |s|)
  }

  /** `s.trim()`: a contiguous slice `s[i..i + |r|]` of `s`, with whitespace
      only outside it and no whitespace at either of its ends. */
  function Trim(s: string): (r: string)
    ensures exists i :: 0 <= i <= |s| - |r| && IsTrimAt(s, r, i)
    ensures r != [] ==> !IsJsWhitespace(r[0]) && !IsJsWhitespace(r[|r| - 1])
  {
    var lo := LeadingSpace(s);
    if lo == |s| then
      assert IsTrimAt(s, [], lo);
      []
    else
      var hi := |s| - TrailingSpace(s);
      assert lo < hi;
      assert IsTrimAt(s, s[lo..hi], lo);
      s[lo..hi]
  }

  /** `s.trim()` is falsy (the empty string) exactly when `s` is blank. */
  lemma TrimEmptyIffBlank(s: string)
    ensures Trim(s) == "" <==> IsBlank(s)
  {
  }
}
