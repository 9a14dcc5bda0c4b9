/**
 * Character classes of Python's `re` module and `str` methods, as the
 * parsers use them.
 *
 * `\s` (and `str.strip()`) is Python's whitespace set, listed in full.
 * `\d` (and `str.isdigit()`) is approximated by the ASCII digits and the
 * full-width digits U+FF10..U+FF19; the other Unicode decimal-digit blocks
 * are not modelled.
 */
module Chars {

  /** Python's `str.isspace()`, which is also what `\s` matches in a str pattern. */
  predicate IsSpace(c: char) {
    || c == ' '
    || '\t' <= c <= '\r'
    || '\U{1C}' <= c <= '\U{1F}'
    || c == '\U{85}'
    || c == '\U{A0}'
    || c == '\U{1680}'
    || '\U{2000}' <= c <= '\U{200A}'
    || c == '\U{2028}'
    || c == '\U{2029}'
    || c == '\U{202F}'
    || c == '\U{205F}'
    || c == '\U{3000}'
  }

  predicate IsAsciiDigit(c: char) {
    '0' <= c <= '9'
  }

  /** `\d` and `str.isdigit()` on one character. */
  predicate IsDigit(c: char) {
    IsAsciiDigit(c) || '０' <= c <= '９'
  }

  function DigitValue(c: char): (d: nat)
    requires IsDigit(c)
    ensures d < 10
  {
    if IsAsciiDigit(c) then c as int - '0' as int else c as int - '０' as int
  }

  /** The class `[,，、\s]` the number lists are split on. */
  predicate IsSeparator(c: char) {
    c == ',' || c == '，' || c == '、' || IsSpace(c)
  }

  predicate NotSeparator(c: char) {
    !IsSeparator(c)
  }

  /** What `[^)]` matches. */
  predicate NotCloseParen(c: char) {
    c != ')'
  }

  /** What `[^\]]` matches. */
  predicate NotCloseBracket(c: char) {
    c != ']'
  }
}
