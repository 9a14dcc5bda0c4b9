/** String primitives the parsers are built from: greedy runs, literal prefixes, `strip` and `split`. */
module Text {
  import opened Wrappers
  import opened Chars

  /** `rest` is what is left of `s` after some prefix of it was consumed. */
  predicate IsSuffix(rest: string, s: string) {
    |rest| <= |s| && s[|s| - |rest|..] == rest
  }

  /**
   * The longest prefix of `s` whose characters all satisfy `p`, and what
   * follows it: what a greedy `x*` takes when the next item of the pattern
   * cannot match a character of class `x`.
   */
  function Span(s: string, p: char -> bool): (r: (string, string))
    ensures r.0 + r.1 == s
    ensures forall k :: 0 <= k < |r.0| ==> p(r.0[k])
    ensures r.1 == [] || !p(r.1[0])
  {
    if s == [] || !p(s[0]) then ([], s)
    else
      var t := Span(s[1..], p);
      var run := [s[0]] + t.0;
      assert forall k :: 1 <= k < |run| ==> run[k] == t.0[k - 1];
      assert run + t.1 == s by {
        assert s == [s[0]] + s[1..];
      }
      (run, t.1)
  }

  /** A split of `s` into a `p`-run and a remainder that does not start with `p` is the one `Span` finds. */
  lemma {:induction false} SpanUnique(s: string, p: char -> bool, run: string, rest: string)
    requires s == run + rest
    requires forall k :: 0 <= k < |run| ==> p(run[k])
    requires rest == [] || !p(rest[0])
    ensures Span(s, p) == (run, rest)
  {
    var (a, b) := Span(s, p);
    assert a == s[..|a|] && run == s[..|run|];
  }

  /** Removes the literal `lit` from the front of `s`, if it is there. */
  function DropPrefix(s: string, lit: string): (r: Option<string>)
    ensures r.Some? <==> |lit| <= |s| && s[..|lit|] == lit
    ensures r.Some? ==> lit + r.value == s
  {
    if |lit| <= |s| && s[..|lit|] == lit then Some(s[|lit|..]) else None
  }

  /** `\s*`: drops the leading whitespace. */
  function SkipSpace(s: string): (r: string)
    ensures IsSuffix(r, s)
    ensures r == [] || !IsSpace(r[0])
    ensures forall k :: 0 <= k < |s| - |r| ==> IsSpace(s[k])
  {
    Span(s, IsSpace).1
  }

  /** Drops the trailing whitespace. */
  function TrimEnd(s: string): (r: string)
    ensures |r| <= |s| && r == s[..|r|]
    ensures r == [] || !IsSpace(r[|r| - 1])
    ensures forall k :: |r| <= k < |s| ==> IsSpace(s[k])
  {
    if s != [] && IsSpace(s[|s| - 1]) then TrimEnd(s[..|s| - 1]) else s
  }

  /** `r` sits in `s` at offset `i`, with only whitespace around it. */
  predicate Padded(s: string, r: string, i: int) {
    0 <= i <= |s| - |r| && r == s[i..i + |r|]
    && (forall k :: 0 <= k < i ==> IsSpace(s[k]))
    && (forall k :: i + |r| <= k < |s| ==> IsSpace(s[k]))
  }

  /** Python's `str.strip()` with no argument. */
  function Strip(s: string): (r: string)
    ensures |r| <= |s|
    ensures r == [] || (!IsSpace(r[0]) && !IsSpace(r[|r| - 1]))
  {
    if s != [] && IsSpace(s[0]) then Strip(s[1..]) else TrimEnd(s)
  }

  /**
   * `strip` removes the leading and the trailing whitespace and nothing
   * else: its result sits in `s` after the leading whitespace run, with
   * only whitespace behind it.
   */
  lemma {:induction false} StripPadding(s: string)
    ensures Padded(s, Strip(s), |s| - |SkipSpace(s)|)
  {
    if s != [] && IsSpace(s[0]) {
      StripPadding(s[1..]);
      StripPaddingStep(s);
    } else {
      StripUnpaddedFront(s);
    }
  }

  /** One more whitespace character in front moves the result one place on. */
  lemma StripPaddingStep(s: string)
    requires s != [] && IsSpace(s[0])
    requires Padded(s[1..], Strip(s[1..]), |s[1..]| - |SkipSpace(s[1..])|)
    ensures Padded(s, Strip(s), |s| - |SkipSpace(s)|)
  {
    var t := s[1..];
    var i := |t| - |SkipSpace(t)|;
    SpaceCons(s);
    PaddedShift(s, t, Strip(t), i);
  }

  lemma PaddedShift(u: string, t: string, r: string, i: int)
    requires u != [] && IsSpace(u[0]) && t == u[1..] && Padded(t, r, i)
    ensures Padded(u, r, i + 1)
  {
    assert u[i + 1..i + 1 + |r|] == t[i..i + |r|];
    forall k | 0 <= k < i + 1
      ensures IsSpace(u[k])
    {
      if k > 0 {
        assert u[k] == t[k - 1];
      }
    }
    forall k | i + 1 + |r| <= k < |u|
      ensures IsSpace(u[k])
    {
      assert u[k] == t[k - 1];
    }
  }

  lemma SpaceCons(s: string)
    requires s != [] && IsSpace(s[0])
    ensures SkipSpace(s) == SkipSpace(s[1..]) && Strip(s) == Strip(s[1..])
  {
  }

  /** Without leading whitespace, `strip` only trims the end. */
  lemma StripUnpaddedFront(s: string)
    requires s == [] || !IsSpace(s[0])
    ensures Padded(s, Strip(s), |s| - |SkipSpace(s)|)
  {
    assert SkipSpace(s) == s;
    assert Strip(s) == TrimEnd(s);
  }

  /** Conversely, an unpadded `t` that sits in `s` with only whitespace around it is what `strip` returns. */
  lemma StripUnique(s: string, t: string, i: int)
    requires Padded(s, t, i)
    requires t == [] || (!IsSpace(t[0]) && !IsSpace(t[|t| - 1]))
    ensures Strip(s) == t
  {
    var r := Strip(s);
    var j := |s| - |SkipSpace(s)|;
    StripPadding(s);
    if t != [] && r != [] {
      assert s[i] == t[0] && s[j] == r[0];
      assert i == j;
      assert s[i + |t| - 1] == t[|t| - 1] && s[j + |r| - 1] == r[|r| - 1];
      assert |t| == |r|;
    }
  }

  lemma StripUnpadded(s: string)
    requires s == [] || (!IsSpace(s[0]) && !IsSpace(s[|s| - 1]))
    ensures Strip(s) == s
  {
  }

  /** Whitespace in front of an unpadded string is all that `strip` removes. */
  lemma StripPadded(pad: string, s: string)
    requires forall k :: 0 <= k < |pad| ==> IsSpace(pad[k])
    requires s != [] && !IsSpace(s[0]) && !IsSpace(s[|s| - 1])
    ensures Strip(pad + s) == s
    decreases |pad|
  {
    if pad != [] {
      assert (pad + s)[1..] == pad[1..] + s;
      StripPadded(pad[1..], s);
    } else {
      assert pad + s == s;
    }
  }

  /** Python's `str.split(sep)` for a one-character separator. */
  function SplitOn(s: string, sep: char): (r: seq<string>)
    ensures |r| >= 1
    ensures forall k :: 0 <= k < |r| ==> sep !in r[k]
  {
    if s == [] then [""]
    else
      var r := SplitOn(s[1..], sep);
      if s[0] == sep then [""] + r else [[s[0]] + r[0]] + r[1..]
  }

  lemma {:induction false} SplitOnNoSep(s: string, sep: char)
    requires sep !in s
    ensures SplitOn(s, sep) == [s]
  {
    if s != [] {
      SplitOnNoSep(s[1..], sep);
      assert [s[0]] + s[1..] == s;
    }
  }

  /** Splitting at one separator splits the two sides independently. */
  lemma {:induction false} SplitOnAppend(a: string, sep: char, b: string)
    ensures SplitOn(a + [sep] + b, sep) == SplitOn(a, sep) + SplitOn(b, sep)
  {
    if a == [] {
      assert a + [sep] + b == [sep] + b;
      assert ([sep] + b)[1..] == b;
    } else {
      var s := a + [sep] + b;
      assert s[1..] == a[1..] + [sep] + b;
      SplitOnAppend(a[1..], sep, b);
    }
  }
}
