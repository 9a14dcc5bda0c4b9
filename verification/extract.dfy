/**
 * The number-extraction step every cascade stage of the backend parser
 * applies to a captured bracket group:
 *   1. every character other than a digit, a separator (the ASCII comma,
 *      the full-width comma, the ideographic comma) or whitespace is
 *      deleted (backend/main.py line 95);
 *   2. the rest is cut at each run of separators and whitespace (line 97);
 *   3. each piece is stripped, kept if it is all digits, and read as an
 *      integer (lines 98-99).
 */
module Extract {
  import opened Chars
  import opened Numerals
  import opened Text

  /** The characters the cleaning substitution leaves alone. */
  predicate Kept(c: char) {
    IsDigit(c) || IsSeparator(c)
  }

  /** Step 1: deletes (does not replace) every character that is not kept. */
  function Clean(s: string): (r: string)
    ensures forall k :: 0 <= k < |r| ==> Kept(r[k])
    ensures |r| <= |s|
    ensures (forall k :: 0 <= k < |s| ==> Kept(s[k])) ==> r == s
  {
    if s == [] then []
    else
      var tail := Clean(s[1..]);
      if Kept(s[0]) then
        assert [s[0]] + s[1..] == s;
        [s[0]] + tail
      else tail
  }

  lemma {:induction false} CleanAppend(a: string, b: string)
    ensures Clean(a + b) == Clean(a) + Clean(b)
  {
    if a == [] {
      assert a + b == b;
    } else {
      assert (a + b)[1..] == a[1..] + b;
      CleanAppend(a[1..], b);
    }
  }

  predicate NoSeparator(s: string) {
    forall k :: 0 <= k < |s| ==> !IsSeparator(s[k])
  }

  /**
   * Step 2, the cut at separator runs: the pieces between runs, with an
   * empty first (last) piece when the text starts (ends) with a separator.
   */
  function SplitSeps(s: string): (r: seq<string>)
    ensures |r| >= 1
    ensures forall k :: 0 <= k < |r| ==> NoSeparator(r[k])
    ensures forall k :: 0 < k < |r| - 1 ==> r[k] != []
    decreases |s|
  {
    var (piece, rest) := Span(s, NotSeparator);
    if rest == [] then [piece]
    else
      var after := Span(rest, IsSeparator).1;
      var tail := SplitSeps(after);
      assert tail[0] != [] || |tail| == 1 by {
        if after != [] {
          assert !IsSeparator(after[0]);
          SpanUnique(after, NotSeparator, Span(after, NotSeparator).0, Span(after, NotSeparator).1);
        }
      }
      [piece] + tail
  }

  /** The separator runs `SplitSeps` cuts at, in order: each non-empty and made of separators only. */
  function Gaps(s: string): (r: seq<string>)
    ensures forall k :: 0 <= k < |r| ==> r[k] != [] && forall j :: 0 <= j < |r[k]| ==> IsSeparator(r[k][j])
    decreases |s|
  {
    var (piece, rest) := Span(s, NotSeparator);
    if rest == [] then []
    else
      var (run, after) := Span(rest, IsSeparator);
      assert run != [];
      [run] + Gaps(after)
  }

  /** The pieces with the gaps put back between them. */
  function Interleave(pieces: seq<string>, gaps: seq<string>): string
    requires |gaps| == |pieces| - 1
    decreases |gaps|
  {
    if |gaps| == 0 then pieces[0]
    else pieces[0] + gaps[0] + Interleave(pieces[1..], gaps[1..])
  }

  /**
   * The split loses nothing: there is one separator run between each two
   * pieces, and putting the runs back between the pieces gives the text.
   */
  lemma {:induction false} SplitSepsRebuild(s: string)
    ensures |Gaps(s)| == |SplitSeps(s)| - 1
    ensures Interleave(SplitSeps(s), Gaps(s)) == s
    decreases |s|
  {
    var (piece, rest) := Span(s, NotSeparator);
    if rest != [] {
      var (run, after) := Span(rest, IsSeparator);
      SplitSepsStep(s, piece, rest, after);
      SplitSepsRebuild(after);
      var pieces := SplitSeps(s);
      var gaps := Gaps(s);
      assert pieces[1..] == SplitSeps(after) && gaps[1..] == Gaps(after);
      assert Interleave(pieces, gaps) == piece + run + after;
    }
  }

  /** Step 3: the stripped all-digit pieces, read as integers, in order. */
  function TokenValues(ts: seq<string>): (r: seq<nat>)
    ensures |r| <= |ts|
  {
    if ts == [] then []
    else
      var t := Strip(ts[0]);
      (if IsDigitString(t) then [DigitsValue(t)] else []) + TokenValues(ts[1..])
  }

  /** The numbers the backend parser reads out of one captured bracket group. */
  function ExtractNumbers(s: string): seq<nat>
  {
    TokenValues(SplitSeps(Clean(s)))
  }

  /** The decimal strings of `xs`. */
  function Decimals(xs: seq<nat>): (r: seq<string>)
    ensures |r| == |xs|
    ensures forall k :: 0 <= k < |xs| ==> r[k] == NatToString(xs[k])
  {
    if xs == [] then [] else [NatToString(xs[0])] + Decimals(xs[1..])
  }

  lemma JoinIntsChars(xs: seq<nat>)
    ensures forall k :: 0 <= k < |JoinInts(xs)| ==> var c := JoinInts(xs)[k]; IsAsciiDigit(c) || c == ',' || c == ' '
  {
  }

  /** A numeral is one piece: the split stops at the separator after it. */
  lemma NumeralPiece(n: nat, rest: string)
    requires rest == [] || IsSeparator(rest[0])
    ensures Span(NatToString(n) + rest, NotSeparator) == (NatToString(n), rest)
  {
    var d := NatToString(n);
    assert forall k :: 0 <= k < |d| ==> NotSeparator(d[k]) by {
      forall k | 0 <= k < |d|
        ensures NotSeparator(d[k])
      {
        assert IsAsciiDigit(d[k]);
      }
    }
    SpanUnique(d + rest, NotSeparator, d, rest);
  }

  /** One step of the split: the piece before the first separator run, then the rest after that run. */
  lemma SplitSepsStep(s: string, piece: string, rest: string, after: string)
    requires Span(s, NotSeparator) == (piece, rest) && rest != []
    requires Span(rest, IsSeparator).1 == after
    ensures SplitSeps(s) == [piece] + SplitSeps(after)
  {
  }

  lemma {:induction false} SplitSepsJoin(xs: seq<nat>)
    requires xs != []
    ensures SplitSeps(JoinInts(xs)) == Decimals(xs)
  {
    if |xs| == 1 {
      JoinIntsCons(xs);
      NumeralPiece(xs[0], []);
      assert NatToString(xs[0]) + [] == NatToString(xs[0]);
    } else {
      SplitSepsJoin(xs[1..]);
      SplitSepsJoinStep(xs);
    }
  }

  /** The first number is split off at its `, `, and the rest splits as before. */
  lemma SplitSepsJoinStep(xs: seq<nat>)
    requires |xs| > 1
    requires SplitSeps(JoinInts(xs[1..])) == Decimals(xs[1..])
    ensures SplitSeps(JoinInts(xs)) == Decimals(xs)
  {
    var head := NatToString(xs[0]);
    var tail := JoinInts(xs[1..]);
    JoinIntsCons(xs);
    JoinedStartsWithDigit(xs[1..]);
    assert (", " + tail)[0] == ',';
    NumeralPiece(xs[0], ", " + tail);
    SpanUnique(", " + tail, IsSeparator, ", ", tail);
    SplitSepsStep(JoinInts(xs), head, ", " + tail, tail);
  }

  lemma {:induction false} TokenValuesDecimals(xs: seq<nat>)
    ensures TokenValues(Decimals(xs)) == xs
  {
    if xs != [] {
      StripUnpadded(NatToString(xs[0]));
      TokenValuesDecimals(xs[1..]);
    }
  }

  /** Reading back a list of non-negative integers written as `str(list)` does gives the list. */
  lemma ExtractJoined(xs: seq<nat>)
    ensures ExtractNumbers(JoinInts(xs)) == xs
  {
    var j := JoinInts(xs);
    JoinIntsChars(xs);
    assert Clean(j) == j;
    if xs == [] {
      SpanUnique("", NotSeparator, "", "");
      assert SplitSeps(j) == [""];
    } else {
      SplitSepsJoin(xs);
      TokenValuesDecimals(xs);
    }
  }

  /** A character outside the kept classes is deleted, not turned into a separator. */
  lemma ExtractDeletes(a: string, c: char, b: string)
    requires !Kept(c)
    ensures ExtractNumbers(a + [c] + b) == ExtractNumbers(a + b)
  {
    CleanDeletes(a, c, b);
  }

  lemma CleanDeletes(a: string, c: char, b: string)
    requires !Kept(c)
    ensures Clean(a + [c] + b) == Clean(a + b)
  {
    assert Clean([c]) == [];
    CleanAppend(a + [c], b);
    CleanAppend(a, [c]);
    CleanAppend(a, b);
  }

  /** So two digit runs around a deleted character fuse into one number: `1-2` reads as 12. */
  lemma ExtractFusesDigits(a: string, c: char, b: string)
    requires IsDigitString(a) && IsDigitString(b) && !Kept(c)
    ensures ExtractNumbers(a + [c] + b) == [DigitsValue(a + b)]
  {
    var d := a + b;
    ExtractDeletes(a, c, b);
    assert Clean(d) == d;
    assert SplitSeps(d) == [d] by {
      SpanUnique(d, NotSeparator, d, []);
    }
    assert TokenValues([d]) == [DigitsValue(d)] by {
      StripUnpadded(d);
    }
  }
}
