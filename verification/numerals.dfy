/** Decimal numerals: Python's `int()` on a digit string, and `str()` of an integer. */
module Numerals {
  import opened Chars

  predicate AllDigits(s: string) {
    forall k :: 0 <= k < |s| ==> IsDigit(s[k])
  }

  /** `str.isdigit()`: non-empty and every character a digit. */
  predicate IsDigitString(s: string) {
    s != [] && AllDigits(s)
  }

  /**
   * `int(s)` for a digit string. Python raises on the empty string, so the
   * empty string is excluded.
   */
  function DigitsValue(s: string): nat
    requires IsDigitString(s)
  {
    if |s| == 1 then DigitValue(s[0])
    else 10 * DigitsValue(s[..|s| - 1]) + DigitValue(s[|s| - 1])
  }

  function DigitChar(d: nat): (c: char)
    requires d < 10
    ensures IsAsciiDigit(c) && DigitValue(c) == d
  {
    '0' + d as char
  }

  /** `str(n)` for a non-negative integer; reading it back with `int()` gives `n`. */
  function NatToString(n: nat): (r: string)
    ensures IsDigitString(r)
    ensures forall k :: 0 <= k < |r| ==> IsAsciiDigit(r[k])
    ensures DigitsValue(r) == n
    ensures r[0] == '0' ==> r == "0"
    decreases n
  {
    if n < 10 then [DigitChar(n)]
    else
      var init := NatToString(n / 10);
      var r := init + [DigitChar(n % 10)];
      assert r[..|r| - 1] == init;
      r
  }

  /** `str(i)` for any integer. */
  function IntToString(i: int): (r: string)
    ensures r != []
    ensures i >= 0 ==> r == NatToString(i)
    ensures i < 0 ==> r[0] == '-' && r[1..] == NatToString(-i)
  {
    if i < 0 then "-" + NatToString(-i) else NatToString(i)
  }

  /** The items of a Python list of integers as `str(list)` writes them: separated by ", ". */
  function JoinInts(xs: seq<int>): string
  {
    if xs == [] then ""
    else if |xs| == 1 then IntToString(xs[0])
    else IntToString(xs[0]) + ", " + JoinInts(xs[1..])
  }

  lemma JoinIntsCons(ns: seq<nat>)
    requires ns != []
    ensures |ns| == 1 ==> JoinInts(ns) == NatToString(ns[0])
    ensures |ns| > 1 ==> JoinInts(ns) == NatToString(ns[0]) + (", " + JoinInts(ns[1..]))
  {
  }

  lemma JoinedStartsWithDigit(ns: seq<nat>)
    requires ns != []
    ensures JoinInts(ns) != [] && IsAsciiDigit(JoinInts(ns)[0])
  {
    JoinIntsCons(ns);
  }

  /** `str(xs)` for a list of integers. */
  function ListRepr(xs: seq<int>): string
  {
    "[" + JoinInts(xs) + "]"
  }
}
