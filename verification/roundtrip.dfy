/**
 * The answer format the prompt asks the model for (Lottery_predict.py,
 * the format line of the prompt):
 *   第[X]組([主題]): [號碼1, 號碼2, 號碼3, 號碼4, 號碼5, 號碼6] + 特別號: 號碼
 * and the proof that the backend parser reads such lines back into the sets
 * they were written from.
 */
module RoundTrip {
  import opened Wrappers
  import opened Chars
  import opened Numerals
  import opened Text
  import opened Extract
  import opened Patterns
  import opened Parser

  /** The tail of a line: the bracketed numbers as `str(list)` writes them, and the special number. */
  function Tail(ns: seq<nat>, special: nat): string {
    ListRepr(ns) + " + 特別號: " + NatToString(special)
  }

  /** The head of a line: the group number and its category. */
  function Head(ordinal: char, kind: string): string {
    "第" + [ordinal] + "組(" + kind + "): "
  }

  /** One line of the requested format, for the group numbered `ordinal` ('一' or '二'). */
  function Line(ordinal: char, kind: string, ns: seq<nat>, special: nat): string {
    Head(ordinal, kind) + Tail(ns, special)
  }

  /** A category the stage-1 group `([^)]+)` captures whole. */
  predicate GoodKind(kind: string) {
    kind != [] && ')' !in kind
  }

  lemma JoinedNonEmpty(ns: seq<nat>)
    requires ns != []
    ensures JoinInts(ns) != [] && ']' !in JoinInts(ns)
    ensures IsAsciiDigit(JoinInts(ns)[0])
  {
    JoinIntsChars(ns);
    var j := JoinInts(ns);
    assert forall k :: 0 <= k < |j| ==> j[k] != ']';
    if |ns| > 1 {
      assert j == NatToString(ns[0]) + (", " + JoinInts(ns[1..]));
    }
  }

  lemma SkipOneSpace(s: string)
    requires s != [] && !IsSpace(s[0])
    ensures SkipSpace(" " + s) == s
  {
    SpanUnique(" " + s, IsSpace, " ", s);
  }

  lemma DropLiteral(lit: string, t: string)
    ensures DropPrefix(lit + t, lit) == Some(t)
  {
    assert (lit + t)[..|lit|] == lit;
  }

  /** `(?:\*\*)?特別號(?:\*\*)?:` reads a plain `特別號:` as `特別號:` does. */
  lemma OptionalBoldPlain(v: string)
    ensures AfterMarker("特別號:" + v, OptionalBold) == Some(v)
  {
    var s := "特別號:" + v;
    var t := ":" + v;
    assert s == "特別號" + t;
    assert s[0] == '特' && t[0] == ':';
    assert SkipBold(s) == s && SkipBold(t) == t;
    DropLiteral("特別號", t);
    DropLiteral(":", v);
  }

  /** `特別號:` as the plain marker and as the stage-4 marker read it. */
  lemma MarkerAt(v: string, m: Marker)
    requires m == Plain || m == OptionalBold
    ensures AfterMarker("特別號:" + v, m) == Some(v)
  {
    if m == OptionalBold {
      OptionalBoldPlain(v);
    } else {
      DropLiteral("特別號:", v);
    }
  }

  /** The steps of `\s*\+\s*特別號:\s*(\d+)`, one stage at a time. */
  lemma SpecialTailSteps(z: string, y: string, m: Marker, w: string, v: string, u: string, digits: string, rest: string)
    requires SkipSpace(z) == y && y != [] && y[0] == '+'
    requires SkipSpace(y[1..]) == w && AfterMarker(w, m) == Some(v)
    requires SkipSpace(v) == u && Span(u, IsDigit) == (digits, rest) && digits != []
    ensures SpecialTail(z, m) == Some((digits, rest))
  {
  }

  /**
   * The text after the `]` of a line: `\s*\+\s*特別號:\s*(\d+)`, and the
   * stage-4 variant of it, take it up to the end of the digits.
   */
  lemma SpecialTailOf(special: nat, rest: string, m: Marker)
    requires m == Plain || m == OptionalBold
    requires rest == [] || !IsDigit(rest[0])
    ensures SpecialTail(" + 特別號: " + NatToString(special) + rest, m) == Some((NatToString(special), rest))
  {
    var digits := NatToString(special);
    var u := digits + rest;
    SpanUnique(u, IsDigit, digits, rest);
    var v := " " + u;
    SkipOneSpace(u);
    var w := "特別號:" + v;
    MarkerAt(v, m);
    var x := " " + w;
    SkipOneSpace(w);
    var y := "+" + x;
    assert y[1..] == x;
    var z := " " + y;
    SkipOneSpace(y);
    SpecialTailSteps(z, y, m, w, v, u, digits, rest);
    MarkerSplit(u);
    Regroup(" + 特別號: ", digits, rest);
  }

  lemma MarkerSplit(u: string)
    ensures " + 特別號: " + u == " " + ("+" + (" " + ("特別號:" + (" " + u))))
  {
  }

  lemma BracketGroupOf(inside: string, after: string)
    requires inside != [] && ']' !in inside
    ensures BracketGroup("[" + inside + "]" + after) == Some((inside, after))
  {
    var s := "[" + inside + "]" + after;
    assert s[1..] == inside + ("]" + after);
    assert forall k :: 0 <= k < |inside| ==> NotCloseBracket(inside[k]);
    SpanUnique(s[1..], NotCloseBracket, inside, "]" + after);
  }

  /** The bracket group and special number of a line's tail, with the scan resuming after the digits. */
  lemma TailMatches(ns: seq<nat>, special: nat, kind: string, rest: string, m: Marker)
    requires m == Plain || m == OptionalBold
    requires ns != []
    requires rest == [] || !IsDigit(rest[0])
    ensures NumbersAndSpecial(Tail(ns, special) + rest, kind, m)
         == Some(Hit(Candidate(kind, JoinInts(ns), NatToString(special)), rest))
  {
    JoinedNonEmpty(ns);
    var after := " + 特別號: " + NatToString(special) + rest;
    TailSplit(ns, special, rest);
    BracketGroupOf(JoinInts(ns), after);
    SpecialTailOf(special, rest, m);
    NumbersSteps(Tail(ns, special) + rest, kind, m, JoinInts(ns), after, NatToString(special), rest);
  }

  lemma TailSplit(ns: seq<nat>, special: nat, rest: string)
    ensures Tail(ns, special) + rest == "[" + JoinInts(ns) + "]" + (" + 特別號: " + NatToString(special) + rest)
  {
  }

  /** The steps of the bracket group and the special number, one at a time. */
  lemma NumbersSteps(s: string, kind: string, m: Marker, numbers: string, after: string, special: string, rest: string)
    requires BracketGroup(s) == Some((numbers, after)) && SpecialTail(after, m) == Some((special, rest))
    ensures NumbersAndSpecial(s, kind, m) == Some(Hit(Candidate(kind, numbers, special), rest))
  {
  }

  /** A line's head takes the stage-1 (and stage-2) matcher up to the bracket. */
  lemma HeadMatches(ordinal: char, kind: string, t: string, decorated: bool)
    requires ordinal == '一' || ordinal == '二'
    requires GoodKind(kind) && t != [] && t[0] == '['
    ensures MatchOrdinal(Head(ordinal, kind) + t, decorated) == NumbersAndSpecial(t, kind, Plain)
  {
    HeadShape(ordinal, kind, t);
    OrdinalAt(Head(ordinal, kind) + t, kind, t, decorated);
  }

  lemma HeadShape(ordinal: char, kind: string, t: string)
    ensures |Head(ordinal, kind) + t| >= 4
    ensures (Head(ordinal, kind) + t)[0] == '第' && (Head(ordinal, kind) + t)[1] == ordinal
    ensures (Head(ordinal, kind) + t)[2] == '組' && (Head(ordinal, kind) + t)[3] == '('
    ensures (Head(ordinal, kind) + t)[4..] == kind + ("): " + t)
  {
    var s := Head(ordinal, kind) + t;
    assert s == "第" + [ordinal] + "組(" + (kind + ("): " + t));
  }

  /** The steps of the stage-1 matcher, one group at a time. */
  lemma OrdinalSteps(s: string, decorated: bool, kind: string, r1: string, r2: string, t: string)
    requires |s| >= 4 && s[0] == '第' && (s[1] == '一' || s[1] == '二') && s[2] == '組' && s[3] == '('
    requires Span(s[4..], NotCloseParen) == (kind, r1) && kind != [] && |r1| >= 2 && r1[1] == ':'
    requires (if decorated then SkipStars(r1[2..]) else r1[2..]) == r2 && SkipSpace(r2) == t
    ensures MatchOrdinal(s, decorated) == NumbersAndSpecial(t, kind, Plain)
  {
  }

  /** `([^)]+)` takes a category that holds no `)`, up to the `)` after it. */
  lemma KindSpan(s: string, kind: string, r1: string)
    requires s == kind + r1 && GoodKind(kind) && r1 != [] && r1[0] == ')'
    ensures Span(s, NotCloseParen) == (kind, r1)
  {
    assert forall k :: 0 <= k < |kind| ==> NotCloseParen(kind[k]);
    SpanUnique(s, NotCloseParen, kind, r1);
  }

  /** After `):` the optional stars and the spaces take the single space before the bracket. */
  lemma AfterColon(t: string, decorated: bool)
    requires t != [] && t[0] == '['
    ensures ("): " + t)[2..] == " " + t
    ensures (if decorated then SkipStars(" " + t) else " " + t) == " " + t
    ensures SkipSpace(" " + t) == t
  {
    assert ("): " + t)[2..] == " " + t;
    assert (" " + t)[0] == ' ';
    SkipOneSpace(t);
  }

  /** The stage-1 matcher at a `第X組(` followed by a category, `): ` and the bracket. */
  lemma OrdinalAt(s: string, kind: string, t: string, decorated: bool)
    requires |s| >= 4 && s[0] == '第' && (s[1] == '一' || s[1] == '二') && s[2] == '組' && s[3] == '('
    requires s[4..] == kind + ("): " + t) && GoodKind(kind)
    requires t != [] && t[0] == '['
    ensures MatchOrdinal(s, decorated) == NumbersAndSpecial(t, kind, Plain)
  {
    var r1 := "): " + t;
    KindSpan(s[4..], kind, r1);
    AfterColon(t, decorated);
    var r2 := " " + t;
    OrdinalSteps(s, decorated, kind, r1, r2, t);
  }

  /** The stage-1 matcher, and the stage-2 one, take a whole line and resume right after it. */
  lemma LineMatches(ordinal: char, kind: string, ns: seq<nat>, special: nat, rest: string, decorated: bool)
    requires ordinal == '一' || ordinal == '二'
    requires GoodKind(kind) && ns != []
    requires rest == [] || !IsDigit(rest[0])
    ensures MatchOrdinal(Line(ordinal, kind, ns, special) + rest, decorated)
         == Some(Hit(Candidate(kind, JoinInts(ns), NatToString(special)), rest))
  {
    var t := Tail(ns, special) + rest;
    Regroup(Head(ordinal, kind), Tail(ns, special), rest);
    assert t[0] == '[';
    HeadMatches(ordinal, kind, t, decorated);
    TailMatches(ns, special, kind, rest, Plain);
  }

  /** The candidate a line yields. */
  function LineCandidate(kind: string, ns: seq<nat>, special: nat): Candidate {
    Candidate(kind, JoinInts(ns), NatToString(special))
  }

  /** The stage-1 and stage-2 scans take a line as one match and carry on after it. */
  lemma FindAllLine(p: Pattern, ordinal: char, kind: string, ns: seq<nat>, special: nat, rest: string)
    requires p == Ordinal || p == Decorated
    requires ordinal == '一' || ordinal == '二'
    requires GoodKind(kind) && ns != []
    requires rest == [] || !IsDigit(rest[0])
    ensures FindAll(p, Line(ordinal, kind, ns, special) + rest) == [LineCandidate(kind, ns, special)] + FindAll(p, rest)
  {
    var s := Line(ordinal, kind, ns, special) + rest;
    LineMatches(ordinal, kind, ns, special, rest, p == Decorated);
    assert s[0] == '第';
    assert SkipStars(s) == s;
    assert MatchAt(p, s) == Some(Hit(LineCandidate(kind, ns, special), rest));
  }

  lemma FindAllSingleLine(p: Pattern, ordinal: char, kind: string, ns: seq<nat>, special: nat)
    requires p == Ordinal || p == Decorated
    requires ordinal == '一' || ordinal == '二'
    requires GoodKind(kind) && ns != []
    ensures FindAll(p, Line(ordinal, kind, ns, special)) == [LineCandidate(kind, ns, special)]
  {
    FindAllLine(p, ordinal, kind, ns, special, []);
    assert Line(ordinal, kind, ns, special) + [] == Line(ordinal, kind, ns, special);
  }

  lemma NewlineNoMatch(p: Pattern, s: string)
    requires p == Ordinal || p == Decorated
    ensures FindAll(p, "\n" + s) == FindAll(p, s)
  {
    assert ("\n" + s)[1..] == s;
  }

  function Written(kind: string, ns: seq<nat>, special: nat): RecommendedSet {
    RecommendedSet(kind, ns, special, ReasonPrefix + kind)
  }

  lemma AcceptLine(kind: string, ns: seq<nat>, special: nat)
    requires |ns| == 6
    ensures Accept(kind, LineCandidate(kind, ns, special)) == Some(Written(kind, ns, special))
  {
    ExtractJoined(ns);
  }

  /** Reading one line of the requested format gives back exactly the set it was written from. */
  lemma ParseLine(ordinal: char, kind: string, ns: seq<nat>, special: nat)
    requires ordinal == '一' || ordinal == '二'
    requires GoodKind(kind) && |ns| == 6
    ensures Parse(Some(Line(ordinal, kind, ns, special))) == Some([Written(kind, ns, special)])
  {
    var s := Line(ordinal, kind, ns, special);
    var c := LineCandidate(kind, ns, special);
    FindAllSingleLine(Ordinal, ordinal, kind, ns, special);
    AcceptLine(kind, ns, special);
    LabelledOne(c);
    assert Labelled([c]) == [Written(kind, ns, special)];
    ParseByOrdinal(s, [c]);
  }

  /** The text of two lines, one under the other. */
  function TwoLines(kind1: string, ns1: seq<nat>, sp1: nat, kind2: string, ns2: seq<nat>, sp2: nat): string {
    Line('一', kind1, ns1, sp1) + "\n" + Line('二', kind2, ns2, sp2)
  }

  lemma FindAllSecondLine(p: Pattern, kind: string, ns: seq<nat>, special: nat)
    requires p == Ordinal || p == Decorated
    requires GoodKind(kind) && ns != []
    ensures FindAll(p, "\n" + Line('二', kind, ns, special)) == [LineCandidate(kind, ns, special)]
  {
    NewlineNoMatch(p, Line('二', kind, ns, special));
    FindAllSingleLine(p, '二', kind, ns, special);
  }

  lemma FindAllTwoLines(p: Pattern, kind1: string, ns1: seq<nat>, sp1: nat, kind2: string, ns2: seq<nat>, sp2: nat)
    requires p == Ordinal || p == Decorated
    requires GoodKind(kind1) && ns1 != []
    requires GoodKind(kind2) && ns2 != []
    ensures FindAll(p, TwoLines(kind1, ns1, sp1, kind2, ns2, sp2))
         == [LineCandidate(kind1, ns1, sp1), LineCandidate(kind2, ns2, sp2)]
  {
    var rest := "\n" + Line('二', kind2, ns2, sp2);
    TwoLinesSplit(kind1, ns1, sp1, kind2, ns2, sp2);
    FindAllLine(p, '一', kind1, ns1, sp1, rest);
    FindAllSecondLine(p, kind2, ns2, sp2);
  }

  lemma TwoLinesSplit(kind1: string, ns1: seq<nat>, sp1: nat, kind2: string, ns2: seq<nat>, sp2: nat)
    ensures TwoLines(kind1, ns1, sp1, kind2, ns2, sp2) == Line('一', kind1, ns1, sp1) + ("\n" + Line('二', kind2, ns2, sp2))
  {
  }

  /**
   * Reading the two lines the prompt asks for, one under the other, gives
   * back both sets in order, each typed by its own category.
   */
  lemma ParseTwoLines(kind1: string, ns1: seq<nat>, sp1: nat, kind2: string, ns2: seq<nat>, sp2: nat)
    requires GoodKind(kind1) && |ns1| == 6
    requires GoodKind(kind2) && |ns2| == 6
    ensures Parse(Some(TwoLines(kind1, ns1, sp1, kind2, ns2, sp2)))
         == Some([Written(kind1, ns1, sp1), Written(kind2, ns2, sp2)])
  {
    var c1 := LineCandidate(kind1, ns1, sp1);
    var c2 := LineCandidate(kind2, ns2, sp2);
    FindAllTwoLines(Ordinal, kind1, ns1, sp1, kind2, ns2, sp2);
    AcceptLine(kind1, ns1, sp1);
    AcceptLine(kind2, ns2, sp2);
    BuildPair([c1, c2], true);
    assert Labelled([c1, c2]) == [Written(kind1, ns1, sp1), Written(kind2, ns2, sp2)];
    ParseByOrdinal(TwoLines(kind1, ns1, sp1, kind2, ns2, sp2), [c1, c2]);
  }
}
