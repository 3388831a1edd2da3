/**
 * The input sanitizer: `sanitize_expression` rewrites every Unicode minus
 * sign (U+2212) to the ASCII hyphen-minus and leaves every other character
 * where it was. A string is a `seq<char>` of Unicode scalar values: unlike a
 * Python `str`, it cannot hold a lone surrogate (U+D800 to U+DFFF), which
 * no keypad button can type.
 */
module Sanitizer {

  /** U+2212 MINUS SIGN, the character the sanitizer removes. */
  const UnicodeMinus: char := '\U{2212}'

  /** U+002D HYPHEN-MINUS, the character it is replaced with. */
  const AsciiMinus: char := '-'

  /** True when the text holds no Unicode minus sign. */
  predicate IsSanitized(s: string) {
    UnicodeMinus !in s
  }

  /**
   * `expression.replace('−', '-')`. The pattern is a single code point, so the
   * left-to-right replacement is a character-by-character rewrite.
   */
  function Sanitize(s: string): (r: string)
    ensures |r| == |s|
    ensures forall i :: 0 <= i < |s| ==> r[i] == (if s[i] == UnicodeMinus then AsciiMinus else s[i])
    ensures IsSanitized(r)
  {
    if s == [] then []
    else [if s[0] == UnicodeMinus then AsciiMinus else s[0]] + Sanitize(s[1..])
  }

  /** Sanitizing an already sanitized string returns it unchanged. */
  lemma SanitizeIdempotent(s: string)
    ensures Sanitize(Sanitize(s)) == Sanitize(s)
  {
  }

  /** A string is a fixed point of the sanitizer exactly when it holds no U+2212. */
  lemma SanitizeFixedPoint(s: string)
    ensures Sanitize(s) == s <==> IsSanitized(s)
  {
  }

  /** The rewrite works character by character, so it distributes over concatenation. */
  lemma SanitizeConcat(a: string, b: string)
    ensures Sanitize(a + b) == Sanitize(a) + Sanitize(b)
  {
  }
}
