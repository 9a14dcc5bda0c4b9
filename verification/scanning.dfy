/**
 * When `re.findall` finds nothing in a stretch of text: a block of text
 * in which no match of a pattern can start is passed over by the scan.
 */
module Scanning {
  import opened Wrappers
  import opened Text
  import opened Patterns

  /**
   * Every match of `p` starts with a key character: `第` for stages 1 and 2
   * (after at most two stars for stage 2), `**彩` for stage 3 and `[` for
   * stage 4 and the strict pattern. A block is clear for `p` when no match
   * of `p` can start inside it, whatever follows it.
   */
  predicate Clear(p: Pattern, b: string) {
    match p
    case Ordinal => '第' !in b && (b == [] || b[|b| - 1] != '*')
    case Decorated => '第' !in b && (b == [] || b[|b| - 1] != '*')
    case Markdown => b == [] || ('彩' !in b[1..] && b[|b| - 1] != '*')
    case Bracket => '[' !in b
    case Strict => '[' !in b
  }

  /** A character at which no pattern's match can start, nor stage 3's `**彩` continue. */
  predicate Quiet(c: char) {
    c != '[' && c != '第' && c != '彩'
  }

  /** Text made only of quiet characters. */
  predicate Prose(s: string) {
    forall k :: 0 <= k < |s| ==> Quiet(s[k])
  }

  lemma ProseAppend(a: string, b: string)
    requires Prose(a) && Prose(b)
    ensures Prose(a + b)
  {
    assert forall k :: |a| <= k < |a| + |b| ==> (a + b)[k] == b[k - |a|];
  }

  /** Prose not ending in a star is clear for every pattern. */
  lemma ProseClear(p: Pattern, s: string)
    requires Prose(s) && (s == [] || s[|s| - 1] != '*')
    ensures Clear(p, s)
  {
    assert forall k :: 0 <= k < |s| ==> s[k] != '[' && s[k] != '第';
    if s != [] {
      assert forall k :: 0 <= k < |s[1..]| ==> s[1..][k] == s[k + 1];
    }
  }

  /** So is such prose after a single `彩`: stage 3 needs `**` right before it. */
  lemma MarkedProseClear(p: Pattern, s: string)
    requires Prose(s) && (s == [] || s[|s| - 1] != '*')
    ensures Clear(p, "彩" + s)
  {
    var b := "彩" + s;
    assert b[1..] == s;
    assert forall k :: 1 <= k < |b| ==> b[k] == s[k - 1];
    assert b[|b| - 1] != '*';
  }

  lemma ClearTail(p: Pattern, b: string)
    requires b != [] && Clear(p, b)
    ensures Clear(p, b[1..])
  {
    if p == Markdown && |b| > 1 {
      assert forall k :: 0 <= k < |b[1..][1..]| ==> b[1..][1..][k] == b[1..][k + 1];
    }
  }

  lemma NoDecoratedInClear(b: string, t: string)
    requires b != [] && '第' !in b && b[|b| - 1] != '*'
    ensures MatchOrdinal(SkipStars(b + t), true).None?
  {
    var u := b + t;
    var v := SkipStars(u);
    var k := |u| - |v|;
    assert v == u[k..];
    assert u[|b| - 1] == b[|b| - 1];
    assert k < |b|;
    assert v[0] == b[k];
  }

  lemma NoMarkdownInClear(b: string, t: string)
    requires b != [] && '彩' !in b[1..] && b[|b| - 1] != '*'
    ensures MatchMarkdown(b + t).None?
  {
    var u := b + t;
    assert u[0] == b[0] && u[|b| - 1] == b[|b| - 1];
    if |b| >= 3 {
      assert u[2] == b[1..][1];
    } else if |b| == 2 {
      assert u[1] == b[1];
    }
  }

  lemma NoMatchInClear(p: Pattern, b: string, t: string)
    requires b != [] && Clear(p, b)
    ensures MatchAt(p, b + t).None?
  {
    assert (b + t)[0] == b[0];
    match p
    case Ordinal =>
      assert MatchOrdinal(b + t, false).None?;
    case Decorated =>
      NoDecoratedInClear(b, t);
    case Markdown =>
      NoMarkdownInClear(b, t);
    case Bracket =>
      assert NumbersAndSpecial(b + t, [], OptionalBold).None?;
    case Strict =>
      assert MatchStrict(b + t).None?;
  }

  /** The scan passes over a clear block without finding anything. */
  lemma {:induction false} SkipClear(p: Pattern, b: string, t: string)
    requires Clear(p, b)
    ensures FindAll(p, b + t) == FindAll(p, t)
    decreases |b|
  {
    if b == [] {
      assert b + t == t;
    } else {
      NoMatchInClear(p, b, t);
      assert (b + t)[1..] == b[1..] + t;
      ClearTail(p, b);
      SkipClear(p, b[1..], t);
    }
  }

  /**
   * A bold heading `**第X組 (...` whose `第` is not followed by `(` three
   * characters on (a space before the parenthesis, say) starts no stage-1
   * or stage-2 match.
   */
  lemma SkipHeading(p: Pattern, h: string, t: string)
    requires p == Ordinal || p == Decorated
    requires |h| >= 3 && h[2] != '(' && Clear(p, h)
    ensures FindAll(p, "**第" + h + t) == FindAll(p, t)
  {
    var u := "**第" + h + t;
    var u2 := "第" + h + t;
    var u1 := "*" + u2;
    assert u == "*" + u1;
    assert u1[1..] == u2 && u[1..] == u1;
    assert u2[1..] == h + t;
    assert u2[3] == h[2];
    assert SkipStars(u) == u2;
    assert SkipStars(u1) == u2;
    assert SkipStars(u2) == u2;
    assert MatchAt(p, u).None? && MatchAt(p, u1).None? && MatchAt(p, u2).None?;
    assert FindAll(p, u) == FindAll(p, u1) == FindAll(p, u2) == FindAll(p, h + t);
    SkipClear(p, h, t);
  }
}
