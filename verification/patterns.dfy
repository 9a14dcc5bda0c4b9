/**
 * The five regular expressions of the parsers, each as a matcher over the
 * remaining text, and `re.findall` as a leftmost, non-overlapping scan.
 *
 * Every pattern is deterministic under Python's backtracking: each greedy
 * run (`[^)]+`, `[^\]]+`, `\s*`, `\d+`, `\*?`) is followed by an item that
 * cannot match a character of the run's own class, so giving characters
 * back never lets the rest match. The greedy computation below is therefore
 * the match the regex engine finds at that position.
 */
module Patterns {
  import opened Wrappers
  import opened Chars
  import opened Numerals
  import opened Text

  /**
   * One tuple of `re.findall`: the category group (empty for the patterns
   * that have none), the bracket group and the special-number group.
   */
  datatype Candidate = Candidate(category: string, numbers: string, special: string)

  /** A match: its groups, and the text after it, where the scan resumes. */
  datatype Hit = Hit(cand: Candidate, rest: string)

  /** The five patterns, each with the line of the source that holds it. */
  datatype Pattern =
    | Ordinal    // stage 1, backend/main.py line 75: ordinal, category, bracket group, special number
    | Decorated  // stage 2, backend/main.py line 81: as stage 1, up to two stars before and after the colon
    | Markdown   // stage 3, backend/main.py line 87: bold lottery-number label, bracket group, bold special label
    | Bracket    // stage 4, backend/main.py line 116: bracket group, special label optionally in bold
    | Strict     // test_regex.py line 56: six comma-separated digit runs, special number

  /** How a pattern spells the special-number marker. */
  datatype Marker =
    | Plain         // 特別號:
    | Bold          // \*\*特別號:\*\*
    | OptionalBold  // (?:\*\*)?特別號(?:\*\*)?:

  /** `(?:\*\*)?`: drops a leading `**` if there is one. */
  function SkipBold(s: string): (r: string)
    ensures |s| >= 2 && s[..2] == "**" ==> r == s[2..]
    ensures !(|s| >= 2 && s[..2] == "**") ==> r == s
  {
    if |s| >= 2 && s[..2] == "**" then s[2..] else s
  }

  /** `\*?\*?` followed by something that cannot start with `*`: drops up to two leading stars. */
  function SkipStars(s: string): (r: string)
    ensures IsSuffix(r, s) && |s| - 2 <= |r|
    ensures forall k :: 0 <= k < |s| - |r| ==> s[k] == '*'
    ensures |s| - |r| < 2 ==> r == [] || r[0] != '*'
  {
    if s != [] && s[0] == '*' then
      if |s| >= 2 && s[1] == '*' then s[2..] else s[1..]
    else s
  }

  function AfterMarker(s: string, m: Marker): (r: Option<string>)
    ensures r.Some? ==> |r.value| < |s|
  {
    match m
    case Plain => DropPrefix(s, "特別號:")
    case Bold => DropPrefix(s, "**特別號:**")
    case OptionalBold =>
      match DropPrefix(SkipBold(s), "特別號")
      case None => None
      case Some(s2) => DropPrefix(SkipBold(s2), ":")
  }

  /** `\[([^\]]+)\]`: the text between the brackets, and what follows the `]`. */
  function BracketGroup(s: string): (r: Option<(string, string)>)
    ensures r.Some? ==> r.value.0 != [] && ']' !in r.value.0
    ensures r.Some? ==> s == "[" + r.value.0 + "]" + r.value.1
  {
    if s == [] || s[0] != '[' then None
    else
      var (inside, after) := Span(s[1..], NotCloseBracket);
      if inside == [] || after == [] then None
      else
        assert s == "[" + inside + "]" + after[1..] by {
          assert s == [s[0]] + s[1..];
          assert after == [after[0]] + after[1..];
        }
        Some((inside, after[1..]))
  }

  /** `\s*\+\s*`, the special-number marker, then `\s*(\d+)`: the digits and what follows them. */
  function SpecialTail(s: string, m: Marker): (r: Option<(string, string)>)
    ensures r.Some? ==> IsDigitString(r.value.0) && |r.value.1| < |s|
    ensures r.Some? ==> r.value.1 == [] || !IsDigit(r.value.1[0])
  {
    var s1 := SkipSpace(s);
    if s1 == [] || s1[0] != '+' then None
    else
      match AfterMarker(SkipSpace(s1[1..]), m)
      case None => None
      case Some(s2) =>
        var (digits, rest) := Span(SkipSpace(s2), IsDigit);
        if digits == [] then None else Some((digits, rest))
  }

  /** The bracket group and special number that end every backend pattern. */
  function NumbersAndSpecial(s: string, category: string, m: Marker): (r: Option<Hit>)
    ensures r.Some? ==> s != [] && s[0] == '['
    ensures r.Some? ==> r.value.cand.category == category
    ensures r.Some? ==> r.value.cand.numbers != [] && ']' !in r.value.cand.numbers
    ensures r.Some? ==> IsDigitString(r.value.cand.special) && |r.value.rest| < |s|
  {
    match BracketGroup(s)
    case None => None
    case Some((numbers, after)) =>
      match SpecialTail(after, m)
      case None => None
      case Some((special, rest)) => Some(Hit(Candidate(category, numbers, special), rest))
  }

  /**
   * `第[一二]組\(([^)]+)\):` then, when `decorated`, `\*?\*?`, then `\s*` and
   * the numbers: the stage-1 pattern, and the stage-2 pattern without its
   * leading optional stars.
   */
  function MatchOrdinal(s: string, decorated: bool): (r: Option<Hit>)
    ensures r.Some? ==> |s| >= 4 && s[0] == '第' && s[3] == '('
    ensures r.Some? ==> r.value.cand.category != [] && ')' !in r.value.cand.category
    ensures r.Some? ==> r.value.cand.numbers != [] && ']' !in r.value.cand.numbers
    ensures r.Some? ==> IsDigitString(r.value.cand.special) && |r.value.rest| < |s|
  {
    if |s| < 4 || s[0] != '第' || (s[1] != '一' && s[1] != '二') || s[2] != '組' || s[3] != '(' then None
    else
      var (category, r1) := Span(s[4..], NotCloseParen);
      // a non-empty r1 starts with ')'
      if category == [] || |r1| < 2 || r1[1] != ':' then None
      else
        var r2 := if decorated then SkipStars(r1[2..]) else r1[2..];
        NumbersAndSpecial(SkipSpace(r2), category, Plain)
  }

  /**
   * The stage-2 pattern as the regex engine tries it: its leading `\*?\*?`
   * first takes two stars, then one, then none.
   */
  function MatchDecorated(s: string): (r: Option<Hit>)
    ensures r.Some? ==> r.value.cand.category != [] && ')' !in r.value.cand.category
    ensures r.Some? ==> r.value.cand.numbers != [] && ']' !in r.value.cand.numbers
    ensures r.Some? ==> IsDigitString(r.value.cand.special) && |r.value.rest| < |s|
  {
    if |s| >= 2 && s[..2] == "**" && MatchOrdinal(s[2..], true).Some? then MatchOrdinal(s[2..], true)
    else if s != [] && s[0] == '*' && MatchOrdinal(s[1..], true).Some? then MatchOrdinal(s[1..], true)
    else MatchOrdinal(s, true)
  }

  lemma OrdinalNeedsCharacter(s: string)
    requires s != [] && s[0] == '*'
    ensures MatchOrdinal(s, true).None?
  {
  }

  /** Backtracking over the optional stars ends where skipping the leading stars (at most two) ends. */
  lemma DecoratedBacktracking(s: string)
    ensures MatchDecorated(s) == MatchOrdinal(SkipStars(s), true)
  {
    if |s| >= 2 && s[..2] == "**" {
      TwoStars(s);
    } else if s != [] && s[0] == '*' {
      OneStar(s);
    }
  }

  lemma TwoStars(s: string)
    requires |s| >= 2 && s[..2] == "**"
    ensures MatchDecorated(s) == MatchOrdinal(SkipStars(s), true)
  {
    assert s[0] == '*' && s[1] == '*';
    assert SkipStars(s) == s[2..];
  }

  lemma OneStar(s: string)
    requires s != [] && s[0] == '*' && !(|s| >= 2 && s[..2] == "**")
    ensures MatchDecorated(s) == MatchOrdinal(SkipStars(s), true)
  {
    OrdinalNeedsCharacter(s);
    assert SkipStars(s) == s[1..];
  }

  lemma MarkdownOpening(s: string)
    requires |s| >= 9 && s[..9] == "**彩券號碼:**"
    ensures s[0] == '*' && s[1] == '*' && s[2] == '彩'
  {
    assert s[0] == s[..9][0] && s[1] == s[..9][1] && s[2] == s[..9][2];
  }

  function MatchMarkdown(s: string): (r: Option<Hit>)
    ensures r.Some? ==> |s| >= 3 && s[0] == '*' && s[1] == '*' && s[2] == '彩'
    ensures r.Some? ==> r.value.cand.category == []
    ensures r.Some? ==> r.value.cand.numbers != [] && ']' !in r.value.cand.numbers
    ensures r.Some? ==> IsDigitString(r.value.cand.special) && |r.value.rest| < |s|
  {
    match DropPrefix(s, "**彩券號碼:**")
    case None => None
    case Some(r1) =>
      MarkdownOpening(s);
      NumbersAndSpecial(SkipSpace(r1), [], Bold)
  }

  /** Every piece, once stripped, is a run of digits. */
  predicate StrippedDigits(pieces: seq<string>) {
    forall k :: 0 <= k < |pieces| ==> IsDigitString(Strip(pieces[k]))
  }

  /** Optional leading whitespace, then a digit run, and nothing else. */
  predicate SpacedDigits(p: string) {
    IsDigitString(SkipSpace(p))
  }

  /** Whitespace in front of a string that does not start with whitespace is all `SkipSpace` drops. */
  lemma SkipSpaceOver(pad: string, t: string)
    requires forall k :: 0 <= k < |pad| ==> IsSpace(pad[k])
    requires t == [] || !IsSpace(t[0])
    ensures SkipSpace(pad + t) == t
  {
    SpanUnique(pad + t, IsSpace, pad, t);
  }

  /** Such a piece strips to its digit run. */
  lemma SpacedDigitsStrip(p: string)
    requires SpacedDigits(p)
    ensures Strip(p) == SkipSpace(p)
  {
    var d := SkipSpace(p);
    var pad := p[..|p| - |d|];
    assert p == pad + d;
    StripPadded(pad, d);
  }

  /** Every piece is a digit run, possibly after whitespace. */
  predicate SpacedItems(pieces: seq<string>) {
    forall k :: 0 <= k < |pieces| ==> SpacedDigits(pieces[k])
  }

  lemma SpacedItemsCons(x: string, ps: seq<string>)
    requires SpacedDigits(x) && SpacedItems(ps)
    ensures SpacedItems([x] + ps)
  {
    var xs := [x] + ps;
    forall k | 0 <= k < |xs|
      ensures SpacedDigits(xs[k])
    {
      if k > 0 {
        assert xs[k] == ps[k - 1];
      }
    }
  }

  /** The pieces `str.split(',')` makes of what follows the leading comma of `,\s*\d+` repeated. */
  predicate CommaItems(g: string, n: nat) {
    if n == 0 then g == []
    else g != [] && g[0] == ',' && |SplitOn(g[1..], ',')| == n && SpacedItems(SplitOn(g[1..], ','))
  }

  lemma CommaItemsCons(spaces: string, digits: string, more: string, n: nat)
    requires forall k :: 0 <= k < |spaces| ==> IsSpace(spaces[k])
    requires IsDigitString(digits)
    requires n >= 1 && CommaItems(more, n - 1)
    ensures CommaItems([','] + spaces + digits + more, n)
  {
    var item := spaces + digits;
    var g := [','] + spaces + digits + more;
    assert g[1..] == item + more;
    assert ',' !in item by {
      assert forall k :: 0 <= k < |item| ==> item[k] != ',';
    }
    assert SpacedDigits(item) by {
      SkipSpaceOver(spaces, digits);
    }
    if n == 1 {
      assert item + more == item;
      SplitOnNoSep(item, ',');
    } else {
      var tail := SplitOn(more[1..], ',');
      assert SplitOn(item + more, ',') == [item] + tail by {
        assert item + more == item + [','] + more[1..];
        SplitOnAppend(item, ',', more[1..]);
        SplitOnNoSep(item, ',');
      }
      assert |tail| == n - 1 && SpacedItems(tail);
      SpacedItemsCons(item, tail);
      assert SplitOn(g[1..], ',') == [item] + tail;
    }
  }

  lemma Reassemble(s: string, spaces: string, digits: string, more: string, rest: string)
    requires s != [] && s[0] == ','
    requires s[1..] == spaces + (digits + (more + rest))
    ensures [','] + spaces + digits + more + rest == s
  {
    assert s == [s[0]] + s[1..];
  }

  /** `(?:,\s*\d+){n}`: the text it covers and what follows. */
  function StrictRepeat(s: string, n: nat): (r: Option<(string, string)>)
    ensures r.Some? ==> r.value.0 + r.value.1 == s
    decreases n
  {
    if n == 0 then Some(([], s))
    else if s == [] || s[0] != ',' then None
    else
      var (spaces, r1) := Span(s[1..], IsSpace);
      var (digits, r2) := Span(r1, IsDigit);
      if digits == [] then None
      else
        match StrictRepeat(r2, n - 1)
        case None => None
        case Some((more, rest)) =>
          var covered := [','] + spaces + digits + more;
          Reassemble(s, spaces, digits, more, rest);
          Some((covered, rest))
  }

  /** What `n` rounds cover splits at `,` into `n` digit runs, each after optional whitespace. */
  lemma {:induction false} RepeatItems(s: string, n: nat)
    requires StrictRepeat(s, n).Some?
    ensures CommaItems(StrictRepeat(s, n).value.0, n)
    decreases n
  {
    if n > 0 {
      var (spaces, r1) := Span(s[1..], IsSpace);
      var (digits, r2) := Span(r1, IsDigit);
      RepeatItems(r2, n - 1);
      CommaItemsCons(spaces, digits, StrictRepeat(r2, n - 1).value.0, n);
    }
  }

  /** One round of `,\s*\d+`, then the remaining rounds. */
  lemma StrictRepeatStep(spaces: string, digits: string, x: string, n: nat)
    requires n >= 1
    requires forall k :: 0 <= k < |spaces| ==> IsSpace(spaces[k])
    requires IsDigitString(digits) && (x == [] || !IsDigit(x[0]))
    ensures StrictRepeat([','] + (spaces + (digits + x)), n) ==
      match StrictRepeat(x, n - 1)
      case None => None
      case Some((more, rest)) => Some(([','] + spaces + digits + more, rest))
  {
    var s := [','] + (spaces + (digits + x));
    assert s[1..] == spaces + (digits + x);
    SpanUnique(s[1..], IsSpace, spaces, digits + x);
    SpanUnique(digits + x, IsDigit, digits, x);
  }

  /**
   * The bracket group of the strict pattern: split at `,`, six pieces, the
   * first a bare digit run and each later one a digit run after optional
   * whitespace. No whitespace opens the group or precedes a comma.
   */
  predicate StrictShape(g: string) {
    var pieces := SplitOn(g, ',');
    |pieces| == 6 && IsDigitString(pieces[0]) && forall k :: 1 <= k < 6 ==> SpacedDigits(pieces[k])
  }

  /** Each piece of a strict group strips to a digit run. */
  lemma StrictShapeStripped(g: string)
    requires StrictShape(g)
    ensures StrippedDigits(SplitOn(g, ','))
  {
    var pieces := SplitOn(g, ',');
    StripUnpadded(pieces[0]);
    forall k | 1 <= k < 6
      ensures IsDigitString(Strip(pieces[k]))
    {
      SpacedDigitsStrip(pieces[k]);
    }
  }

  lemma StrictShapeCons(first: string, more: string)
    requires IsDigitString(first) && CommaItems(more, 5)
    ensures StrictShape(first + more)
  {
    var pieces := SplitOn(more[1..], ',');
    assert SplitOn(first + more, ',') == [first] + pieces by {
      assert first + more == first + [','] + more[1..];
      SplitOnAppend(first, ',', more[1..]);
      assert ',' !in first by {
        assert forall k :: 0 <= k < |first| ==> first[k] != ',';
      }
      SplitOnNoSep(first, ',');
    }
    var all := [first] + pieces;
    forall k | 1 <= k < 6
      ensures SpacedDigits(all[k])
    {
      assert all[k] == pieces[k - 1];
    }
  }

  lemma Regroup(a: string, b: string, c: string)
    ensures (a + b) + c == a + (b + c)
  {
  }

  /** `\d+(?:,\s*\d+){5}`. */
  function StrictGroup(s: string): (r: Option<(string, string)>)
    ensures r.Some? ==> StrictShape(r.value.0) && r.value.0 + r.value.1 == s
  {
    var (first, r1) := Span(s, IsDigit);
    if first == [] then None
    else
      match StrictRepeat(r1, 5)
      case None => None
      case Some((more, rest)) =>
        RepeatItems(r1, 5);
        StrictShapeCons(first, more);
        Regroup(first, more, rest);
        Some((first + more, rest))
  }

  function MatchStrict(s: string): (r: Option<Hit>)
    ensures r.Some? ==> s != [] && s[0] == '['
    ensures r.Some? ==> r.value.cand.category == [] && StrictShape(r.value.cand.numbers)
    ensures r.Some? ==> IsDigitString(r.value.cand.special) && |r.value.rest| < |s|
  {
    if s == [] || s[0] != '[' then None
    else
      match StrictGroup(s[1..])
      case None => None
      case Some((group, r1)) =>
        if r1 == [] || r1[0] != ']' then None
        else
          match SpecialTail(r1[1..], Plain)
          case None => None
          case Some((special, rest)) => Some(Hit(Candidate([], group, special), rest))
  }

  /** What a candidate of pattern `p` always satisfies. */
  predicate WellFormed(p: Pattern, c: Candidate) {
    && IsDigitString(c.special)
    && c.numbers != []
    && (p == Strict ==> StrictShape(c.numbers))
    && (p != Strict ==> ']' !in c.numbers)
    && (p == Ordinal || p == Decorated ==> c.category != [] && ')' !in c.category)
    && (p == Markdown || p == Bracket || p == Strict ==> c.category == [])
  }

  /** The match of pattern `p` at the start of `s`, if any. */
  function MatchAt(p: Pattern, s: string): (r: Option<Hit>)
    ensures r.Some? ==> WellFormed(p, r.value.cand) && |r.value.rest| < |s|
  {
    match p
    case Ordinal => MatchOrdinal(s, false)
    case Decorated => MatchOrdinal(SkipStars(s), true)
    case Markdown => MatchMarkdown(s)
    case Bracket => NumbersAndSpecial(s, [], OptionalBold)
    case Strict => MatchStrict(s)
  }

  /**
   * `re.findall(p, s)`: try a match at each position from the left; after a
   * match, resume at its end (matches never overlap); otherwise move one
   * character on.
   */
  function FindAll(p: Pattern, s: string): (r: seq<Candidate>)
    ensures forall k :: 0 <= k < |r| ==> WellFormed(p, r[k])
    ensures |r| <= |s|
    decreases |s|
  {
    if s == [] then []
    else
      match MatchAt(p, s)
      case Some(h) =>
        var tail := FindAll(p, h.rest);
        assert forall k :: 0 < k < |tail| + 1 ==> ([h.cand] + tail)[k] == tail[k - 1];
        [h.cand] + tail
      case None => FindAll(p, s[1..])
  }

  /** `re.findall` of the stage-2 pattern with its leading `\*?\*?` taken out. */
  function FindAllUnprefixed(s: string): seq<Candidate>
    decreases |s|
  {
    if s == [] then []
    else
      match MatchOrdinal(s, true)
      case Some(h) => [h.cand] + FindAllUnprefixed(h.rest)
      case None => FindAllUnprefixed(s[1..])
  }

  lemma UnprefixedSkipsStar(s: string)
    requires s != [] && s[0] == '*'
    ensures FindAllUnprefixed(s) == FindAllUnprefixed(s[1..])
  {
    assert MatchOrdinal(s, true).None?;
  }

  /**
   * The leading `\*?\*?` of the stage-2 pattern changes where a match
   * starts but never which groups `findall` returns, nor where the scan
   * resumes. (`MatchAt` runs the stage-2 pattern in the form
   * `DecoratedBacktracking` proves equal to the engine's.)
   */
  lemma {:induction false} DecoratedPrefixIrrelevant(s: string)
    ensures FindAll(Decorated, s) == FindAllUnprefixed(s)
    decreases |s|
  {
    if s != [] {
      var t := SkipStars(s);
      var m := MatchOrdinal(t, true);
      if |s| - |t| == 2 {
        UnprefixedSkipsStar(s);
        UnprefixedSkipsStar(s[1..]);
        assert s[1..][1..] == t;
      } else if |s| - |t| == 1 {
        UnprefixedSkipsStar(s);
        assert s[1..] == t;
      }
      assert FindAllUnprefixed(s) == FindAllUnprefixed(t);
      if m.Some? {
        DecoratedPrefixIrrelevant(m.value.rest);
      } else {
        DecoratedPrefixIrrelevant(s[1..]);
        if |s| - |t| == 2 {
          assert FindAllUnprefixed(s[1..]) == FindAllUnprefixed(t);
          assert FindAll(Decorated, s[1..]) == FindAllUnprefixed(t);
        }
      }
    }
  }
}
