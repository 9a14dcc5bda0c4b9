/**
 * The earlier `parse_ai_prediction` of test_regex.py: one strict pattern
 * that admits only six comma-separated digit runs, no validation gate, and
 * types assigned by position.
 */
module StrictParser {
  import opened Wrappers
  import opened Chars
  import opened Numerals
  import opened Text
  import opened Patterns
  import opened Parser
  import opened RoundTrip
  import opened Scanning
  import opened Extract

  /** Each piece stripped and read as an integer (test_regex.py line 66); the pattern guarantees every piece strips to a digit run. */
  function Values(pieces: seq<string>): (r: seq<nat>)
    requires StrippedDigits(pieces)
    ensures |r| == |pieces|
    ensures forall k :: 0 <= k < |r| ==> r[k] == DigitsValue(Strip(pieces[k]))
  {
    if pieces == [] then []
    else
      assert StrippedDigits(pieces[1..]) by {
        assert forall k :: 0 <= k < |pieces| - 1 ==> pieces[1..][k] == pieces[k + 1];
      }
      [DigitsValue(Strip(pieces[0]))] + Values(pieces[1..])
  }

  /** The group split at each ASCII comma, each piece stripped and read as an integer (test_regex.py line 66): exactly six pieces, so six integers. */
  function StrictNumbers(g: string): (r: seq<nat>)
    requires StrictShape(g)
    ensures |r| == 6
  {
    StrictShapeStripped(g);
    Values(SplitOn(g, ','))
  }

  /** The set made of the match at `index`, typed by position. */
  function StrictSet(index: nat, c: Candidate): (r: RecommendedSet)
    requires StrictShape(c.numbers) && IsDigitString(c.special)
    ensures Valid(r) && r.kind == PositionalKind(index)
    ensures r.numbers == StrictNumbers(c.numbers) && r.special == DigitsValue(c.special)
  {
    var kind := PositionalKind(index);
    RecommendedSet(kind, StrictNumbers(c.numbers), DigitsValue(c.special), ReasonPrefix + kind)
  }

  /**
   * test_regex.py's parser: `None` for an empty text or fewer than two
   * matches; otherwise the first two matches, cold then hot.
   */
  function ParseStrict(text: Option<string>): (r: Option<seq<RecommendedSet>>)
    ensures text == None || text == Some([]) ==> r == None
    ensures text.Some? && text.value != [] ==> (r.Some? <==> |FindAll(Strict, text.value)| >= 2)
    ensures r.Some? ==> |r.value| == 2 && Valid(r.value[0]) && Valid(r.value[1])
    ensures r.Some? ==> r.value[0].kind == ColdKind && r.value[1].kind == HotKind
    ensures r.Some? ==> WellFormed(Strict, FindAll(Strict, text.value)[0]) && WellFormed(Strict, FindAll(Strict, text.value)[1])
    ensures r.Some? ==> r.value[0] == StrictSet(0, FindAll(Strict, text.value)[0])
    ensures r.Some? ==> r.value[1] == StrictSet(1, FindAll(Strict, text.value)[1])
  {
    if text.None? || text.value == [] then None
    else
      var ms := FindAll(Strict, text.value);
      if |ms| < 2 then None
      else
        assert WellFormed(Strict, ms[0]) && WellFormed(Strict, ms[1]);
        Some([StrictSet(0, ms[0]), StrictSet(1, ms[1])])
  }

  /** A non-digit right after `[` (a space, say) rules out a strict match there. */
  lemma StrictNeedsDigitFirst(c: char, t: string)
    requires !IsDigit(c)
    ensures MatchStrict("[" + [c] + t).None?
  {
    var s := "[" + [c] + t;
    assert s[1..] == [c] + t;
    SpanUnique(s[1..], IsDigit, [], s[1..]);
  }

  /** A separator other than `,` after the first number (a full-width comma, say) rules out a strict match. */
  lemma StrictNeedsAsciiComma(d: string, c: char, t: string)
    requires IsDigitString(d) && !IsDigit(c) && c != ','
    ensures MatchStrict("[" + d + [c] + t).None?
  {
    var s := "[" + d + [c] + t;
    assert s[1..] == d + ([c] + t);
    SpanUnique(s[1..], IsDigit, d, [c] + t);
  }

  /** What follows the first round of `,\s*\d+`. */
  function AfterRound(s: string): string
    requires s != []
  {
    Span(Span(s[1..], IsSpace).1, IsDigit).1
  }

  /**
   * A repetition that succeeds with `m >= 1` rounds passes its stopping
   * point on to the text `t` after its first round; and when `t` cannot
   * take `n - 1` rounds, the whole cannot take `n`.
   */
  lemma RepeatRound(s: string, t: string, m: nat, n: nat)
    requires 1 <= m && 1 <= n && StrictRepeat(s, m).Some?
    requires t == AfterRound(s)
    ensures StrictRepeat(t, m - 1).Some?
    ensures StrictRepeat(t, m - 1).value.1 == StrictRepeat(s, m).value.1
    ensures StrictRepeat(t, n - 1).None? ==> StrictRepeat(s, n).None?
  {
  }

  /** Fewer rounds of `,\s*\d+` than required, then no comma: the repetition fails. */
  lemma {:induction false} RepeatStopsShort(s: string, m: nat, n: nat, x: string)
    requires m < n
    requires StrictRepeat(s, m).Some? && StrictRepeat(s, m).value.1 == x
    requires x == [] || x[0] != ','
    ensures StrictRepeat(s, n).None?
    decreases m
  {
    if m == 0 {
      RepeatNoComma(s, n, x);
    } else {
      var t := AfterRound(s);
      RepeatRound(s, t, m, n);
      RepeatStopsShort(t, m - 1, n - 1, x);
    }
  }

  /** No round can start without a comma. */
  lemma RepeatNoComma(s: string, n: nat, x: string)
    requires n >= 1 && StrictRepeat(s, 0).value.1 == x
    requires x == [] || x[0] != ','
    ensures StrictRepeat(s, n).None?
  {
  }

  /**
   * A list that stops after fewer than six numbers, the last of them
   * followed by anything other than a digit or an ASCII comma (a space
   * before the comma, a full-width comma, the closing bracket), is no
   * strict match, whichever number it stops after.
   */
  lemma StrictNeedsAsciiCommas(d: string, items: string, m: nat, x: string)
    requires IsDigitString(d) && m < 5
    requires StrictRepeat(items + x, m) == Some((items, x))
    requires x == [] || (x[0] != ',' && !IsDigit(x[0]))
    ensures MatchStrict("[" + d + items + x).None?
  {
    var t := items + x;
    RepeatStopsShort(t, m, 5, x);
    RepeatOpens(t, m, items, x);
    StrictGroupStops(d, t);
    var s := "[" + d + items + x;
    assert s == "[" + (d + t);
    assert s[1..] == d + t;
    NoGroupNoMatch(s);
  }

  lemma NoGroupNoMatch(s: string)
    requires s != [] && s[0] == '[' && StrictGroup(s[1..]).None?
    ensures MatchStrict(s).None?
  {
  }

  /** What a repetition covers starts with its comma, or is empty. */
  lemma RepeatOpens(t: string, m: nat, items: string, x: string)
    requires t == items + x && StrictRepeat(t, m) == Some((items, x))
    requires x == [] || !IsDigit(x[0])
    ensures t == [] || !IsDigit(t[0])
  {
    if m == 0 {
      assert items == [];
    } else {
      assert t[0] == ',';
    }
  }

  /** A first number followed by a text the five rounds do not take is no strict group. */
  lemma StrictGroupStops(d: string, t: string)
    requires IsDigitString(d) && (t == [] || !IsDigit(t[0]))
    requires StrictRepeat(t, 5).None?
    ensures StrictGroup(d + t).None?
  {
    SpanUnique(d + t, IsDigit, d, t);
  }

  lemma CommaShape(d: string, tail: string, after: string)
    ensures ", " + (d + tail) + after == [','] + (" " + (d + (tail + after)))
    ensures [','] + " " + d + tail == ", " + (d + tail)
  {
  }

  /** One more `, d` in front of a list tail the repetition already takes. */
  lemma RepeatCompose(d: string, tail: string, after: string, n: nat)
    requires n >= 1 && IsDigitString(d)
    requires tail + after == [] || !IsDigit((tail + after)[0])
    requires StrictRepeat(tail + after, n - 1) == Some((tail, after))
    ensures StrictRepeat(", " + (d + tail) + after, n) == Some((", " + (d + tail), after))
  {
    CommaShape(d, tail, after);
    StrictRepeatStep(" ", d, tail + after, n);
  }

  /** `(?:,\s*\d+){n}` takes the rest of a list written by `str(list)`, up to the `]`. */
  lemma {:induction false} StrictRepeatJoined(ns: seq<nat>, after: string)
    requires ns != []
    requires after == [] || (!IsDigit(after[0]) && after[0] != ',')
    ensures StrictRepeat(", " + JoinInts(ns) + after, |ns|) == Some((", " + JoinInts(ns), after))
  {
    if |ns| == 1 {
      LastRepeat(ns, after);
    } else {
      StrictRepeatJoined(ns[1..], after);
      RepeatJoinedStep(ns, after);
    }
  }

  /** The last round of the repetition. */
  lemma LastRepeat(ns: seq<nat>, after: string)
    requires |ns| == 1
    requires after == [] || !IsDigit(after[0])
    ensures StrictRepeat(", " + JoinInts(ns) + after, 1) == Some((", " + JoinInts(ns), after))
  {
    var d := NatToString(ns[0]);
    JoinIntsCons(ns);
    assert [] + after == after && d + [] == d;
    assert StrictRepeat([] + after, 0) == Some(([], after));
    RepeatCompose(d, [], after, 1);
  }

  /** One more round in front of the rounds the rest of the list takes. */
  lemma RepeatJoinedStep(ns: seq<nat>, after: string)
    requires |ns| > 1
    requires StrictRepeat(", " + JoinInts(ns[1..]) + after, |ns[1..]|) == Some((", " + JoinInts(ns[1..]), after))
    ensures StrictRepeat(", " + JoinInts(ns) + after, |ns|) == Some((", " + JoinInts(ns), after))
  {
    var d := NatToString(ns[0]);
    var tail := ", " + JoinInts(ns[1..]);
    JoinIntsCons(ns);
    assert (tail + after)[0] == ',';
    RepeatCompose(d, tail, after, |ns|);
  }

  /** `\d+(?:,\s*\d+){5}` takes a six-number list written by `str(list)`. */
  lemma StrictGroupJoined(ns: seq<nat>, x: string)
    requires |ns| == 6
    requires x == [] || (!IsDigit(x[0]) && x[0] != ',')
    ensures StrictGroup(JoinInts(ns) + x) == Some((JoinInts(ns), x))
  {
    var d := NatToString(ns[0]);
    var tail := ", " + JoinInts(ns[1..]);
    JoinIntsCons(ns);
    StrictRepeatJoined(ns[1..], x);
    Regroup(d, tail, x);
    SpanUnique(d + (tail + x), IsDigit, d, tail + x);
  }

  lemma MatchStrictStep(s: string, g: string, x: string, special: string, rest: string)
    requires s != [] && s[0] == '['
    requires StrictGroup(s[1..]) == Some((g, "]" + x))
    requires SpecialTail(x, Plain) == Some((special, rest))
    ensures MatchStrict(s) == Some(Hit(Candidate([], g, special), rest))
  {
    assert ("]" + x)[1..] == x;
  }

  /** The strict pattern takes the tail of a line of the requested format, when it holds six numbers. */
  lemma StrictTailMatches(ns: seq<nat>, special: nat, rest: string)
    requires |ns| == 6
    requires rest == [] || !IsDigit(rest[0])
    ensures MatchStrict(Tail(ns, special) + rest) == Some(Hit(Candidate([], JoinInts(ns), NatToString(special)), rest))
  {
    var after := " + 特別號: " + NatToString(special) + rest;
    TailShape(ns, special, rest);
    StrictGroupJoined(ns, "]" + after);
    SpecialTailOf(special, rest, Plain);
    MatchStrictStep(Tail(ns, special) + rest, JoinInts(ns), after, NatToString(special), rest);
  }

  lemma TailShape(ns: seq<nat>, special: nat, rest: string)
    ensures Tail(ns, special) + rest != [] && (Tail(ns, special) + rest)[0] == '['
    ensures (Tail(ns, special) + rest)[1..] == JoinInts(ns) + ("]" + (" + 特別號: " + NatToString(special) + rest))
  {
    var x := JoinInts(ns) + ("]" + (" + 特別號: " + NatToString(special) + rest));
    assert Tail(ns, special) + rest == "[" + x;
  }

  lemma NoCommaInNumber(lead: string, d: string)
    requires lead == "" || lead == " "
    requires AllDigits(d)
    ensures ',' !in lead + d
  {
    assert forall k :: 0 <= k < |lead + d| ==> (lead + d)[k] != ',';
  }

  lemma SplitShape(lead: string, d: string, j: string)
    ensures lead + (d + (", " + j)) == (lead + d) + [','] + (" " + j)
  {
  }

  /** Each piece stripped. */
  function StripAll(pieces: seq<string>): (r: seq<string>)
    ensures |r| == |pieces|
  {
    if pieces == [] then [] else [Strip(pieces[0])] + StripAll(pieces[1..])
  }

  lemma {:induction false} StripAllAt(pieces: seq<string>)
    ensures forall k :: 0 <= k < |pieces| ==> StripAll(pieces)[k] == Strip(pieces[k])
  {
    if pieces != [] {
      StripAllAt(pieces[1..]);
    }
  }

  /** The first piece strips to the first numeral and the later pieces to the later ones. */
  lemma PiecesCons(pieces: seq<string>, first: string, later: seq<string>, ns: seq<nat>)
    requires ns != [] && pieces == [first] + later
    requires Strip(first) == NatToString(ns[0])
    requires StripAll(later) == Decimals(ns[1..])
    ensures StripAll(pieces) == Decimals(ns)
  {
    assert pieces[1..] == later;
  }

  /** `str.split(',')` of a list written by `str(list)`: each piece strips to one number's digits. */
  lemma {:induction false} SplitJoined(lead: string, ns: seq<nat>)
    requires ns != [] && (lead == "" || lead == " ")
    decreases |ns|
    ensures |SplitOn(lead + JoinInts(ns), ',')| == |ns|
    ensures StripAll(SplitOn(lead + JoinInts(ns), ',')) == Decimals(ns)
  {
    var d := NatToString(ns[0]);
    JoinIntsCons(ns);
    assert Strip(lead + d) == d by {
      if lead == "" {
        assert lead + d == d;
        StripUnpadded(d);
      } else {
        StripPadded(lead, d);
      }
    }
    NoCommaInNumber(lead, d);
    if |ns| == 1 {
      SplitOnNoSep(lead + d, ',');
      PiecesCons(SplitOn(lead + JoinInts(ns), ','), lead + d, [], ns);
    } else {
      var more := " " + JoinInts(ns[1..]);
      SplitShape(lead, d, JoinInts(ns[1..]));
      SplitOnAppend(lead + d, ',', more);
      SplitOnNoSep(lead + d, ',');
      SplitJoined(" ", ns[1..]);
      var pieces := SplitOn(lead + JoinInts(ns), ',');
      var later := SplitOn(more, ',');
      assert pieces == [lead + d] + later;
      PiecesCons(pieces, lead + d, later, ns);
    }
  }

  /** Reading the pieces of a written list gives the list. */
  lemma ValuesDecimals(pieces: seq<string>, ns: seq<nat>)
    requires StrippedDigits(pieces) && StripAll(pieces) == Decimals(ns)
    ensures Values(pieces) == ns
  {
    StripAllAt(pieces);
    forall k | 0 <= k < |ns|
      ensures Values(pieces)[k] == ns[k]
    {
      assert Strip(pieces[k]) == NatToString(ns[k]);
    }
  }

  /** On a list written by `str(list)`, the strict reading gives the list back. */
  lemma StrictNumbersJoined(ns: seq<nat>)
    requires |ns| == 6
    ensures StrictShape(JoinInts(ns))
    ensures StrictNumbers(JoinInts(ns)) == ns
  {
    SplitJoined("", ns);
    assert "" + JoinInts(ns) == JoinInts(ns);
    StrictGroupJoined(ns, []);
    assert JoinInts(ns) + [] == JoinInts(ns);
    StrictShapeStripped(JoinInts(ns));
    ValuesDecimals(SplitOn(JoinInts(ns), ','), ns);
  }

  /** The candidate the strict pattern takes from a line: no category group. */
  function StrictCandidate(ns: seq<nat>, special: nat): Candidate {
    Candidate([], JoinInts(ns), NatToString(special))
  }

  /** The strict scan passes over a line's head and takes its tail as one match. */
  lemma StrictFindAllLine(lead: string, ordinal: char, kind: string, ns: seq<nat>, special: nat, rest: string)
    requires '[' !in lead && ordinal != '[' && '[' !in kind && |ns| == 6
    requires rest == [] || !IsDigit(rest[0])
    ensures FindAll(Strict, lead + Line(ordinal, kind, ns, special) + rest)
         == [StrictCandidate(ns, special)] + FindAll(Strict, rest)
  {
    var head := lead + Head(ordinal, kind);
    var t := Tail(ns, special) + rest;
    assert lead + Line(ordinal, kind, ns, special) + rest == head + t;
    assert '[' !in Head(ordinal, kind) by {
      assert Head(ordinal, kind) == "第" + [ordinal] + "組(" + kind + "): ";
    }
    SkipClear(Strict, head, t);
    StrictTailMatches(ns, special, rest);
  }

  /**
   * When the first two strict matches are lists written by `str(list)`, the
   * result is their two sets, cold then hot, whatever matches follow.
   */
  lemma StrictReadsPair(s: string, ns1: seq<nat>, sp1: nat, ns2: seq<nat>, sp2: nat)
    requires s != [] && |ns1| == 6 && |ns2| == 6
    requires |FindAll(Strict, s)| >= 2
    requires FindAll(Strict, s)[0] == StrictCandidate(ns1, sp1) && FindAll(Strict, s)[1] == StrictCandidate(ns2, sp2)
    ensures ParseStrict(Some(s)) == Some([Written(ColdKind, ns1, sp1), Written(HotKind, ns2, sp2)])
  {
    StrictNumbersJoined(ns1);
    StrictNumbersJoined(ns2);
  }

  lemma StrictFindsTwoLines(kind1: string, ns1: seq<nat>, sp1: nat, kind2: string, ns2: seq<nat>, sp2: nat)
    requires '[' !in kind1 && |ns1| == 6
    requires '[' !in kind2 && |ns2| == 6
    ensures FindAll(Strict, TwoLines(kind1, ns1, sp1, kind2, ns2, sp2)) == [StrictCandidate(ns1, sp1), StrictCandidate(ns2, sp2)]
  {
    var l2 := Line('二', kind2, ns2, sp2);
    var rest := "\n" + l2 + [];
    assert TwoLines(kind1, ns1, sp1, kind2, ns2, sp2) == [] + Line('一', kind1, ns1, sp1) + rest;
    StrictFindAllLine([], '一', kind1, ns1, sp1, rest);
    StrictFindAllLine("\n", '二', kind2, ns2, sp2, []);
    assert FindAll(Strict, []) == [];
  }

  /**
   * The earlier parser reads the two requested lines too, but types them
   * by position: the first as the cold combination, the second as the hot
   * one, whatever categories the lines carry.
   */
  lemma ParseStrictTwoLines(kind1: string, ns1: seq<nat>, sp1: nat, kind2: string, ns2: seq<nat>, sp2: nat)
    requires '[' !in kind1 && |ns1| == 6
    requires '[' !in kind2 && |ns2| == 6
    ensures ParseStrict(Some(TwoLines(kind1, ns1, sp1, kind2, ns2, sp2)))
         == Some([Written(ColdKind, ns1, sp1), Written(HotKind, ns2, sp2)])
  {
    StrictFindsTwoLines(kind1, ns1, sp1, kind2, ns2, sp2);
    StrictReadsPair(TwoLines(kind1, ns1, sp1, kind2, ns2, sp2), ns1, sp1, ns2, sp2);
  }
}
