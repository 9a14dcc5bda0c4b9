/**
 * `parse_ai_prediction` of the backend (backend/main.py): a cascade of four
 * `re.findall` stages over the model's answer, each captured bracket group
 * read with the shared number-extraction step, and a candidate kept only
 * when exactly six integers come out of it.
 */
module Parser {
  import opened Wrappers
  import opened Numerals
  import opened Extract
  import opened Patterns

  /** One entry of the returned list: `type`, `regular_numbers`, `special_number`, `reason`. */
  datatype RecommendedSet = RecommendedSet(kind: string, numbers: seq<nat>, special: nat, reason: string)

  const ColdKind: string := "冷門號碼組合"
  const HotKind: string := "熱門號碼組合"
  const ReasonPrefix: string := "基於歷史資料分析的"

  /** What every accepted set satisfies: six numbers, and a reason built from its type. */
  predicate Valid(rs: RecommendedSet) {
    |rs.numbers| == 6 && rs.reason == ReasonPrefix + rs.kind
  }

  /** Every candidate's special group is a digit run, so `int()` on it cannot fail. */
  predicate Specials(ms: seq<Candidate>) {
    forall k :: 0 <= k < |ms| ==> IsDigitString(ms[k].special)
  }

  /**
   * The gate every stage applies: the candidate becomes a set exactly when
   * its bracket group yields six integers. Nothing else is checked: not the
   * range 1..49, not duplicates, not the special number against the six.
   */
  function Accept(kind: string, c: Candidate): (r: Option<RecommendedSet>)
    requires IsDigitString(c.special)
    ensures r.Some? <==> |ExtractNumbers(c.numbers)| == 6
    ensures r.Some? ==> Valid(r.value) && r.value.kind == kind
    ensures r.Some? ==> r.value.numbers == ExtractNumbers(c.numbers) && r.value.special == DigitsValue(c.special)
  {
    var numbers := ExtractNumbers(c.numbers);
    if |numbers| == 6 then Some(RecommendedSet(kind, numbers, DigitsValue(c.special), ReasonPrefix + kind))
    else None
  }

  /** The type stages 3 and 4 give the match at `index`: decided by position alone. */
  function PositionalKind(index: nat): string {
    if index == 0 then ColdKind else HotKind
  }

  /** The list of zero or one sets an accepted or rejected candidate contributes. */
  function Contribution(o: Option<RecommendedSet>): (r: seq<RecommendedSet>)
    ensures o.None? ==> r == []
    ensures o.Some? ==> r == [o.value]
  {
    match o
    case None => []
    case Some(rs) => [rs]
  }

  /** The type of the match at position `index`. */
  function KindOf(c: Candidate, labelled: bool, index: nat): string {
    if labelled then c.category else PositionalKind(index)
  }

  lemma ValidCons(rs: RecommendedSet, tail: seq<RecommendedSet>)
    requires Valid(rs) && forall k :: 0 <= k < |tail| ==> Valid(tail[k])
    ensures forall k :: 0 <= k < |[rs] + tail| ==> Valid(([rs] + tail)[k])
  {
    assert forall k :: 1 <= k < 1 + |tail| ==> ([rs] + tail)[k] == tail[k - 1];
  }

  /**
   * The accepted sets among `ms`, in order; `ms[k]` is the match at position
   * `index + k`. A labelled candidate keeps its own category group as type.
   */
  function Build(ms: seq<Candidate>, labelled: bool, index: nat): (r: seq<RecommendedSet>)
    requires Specials(ms)
    ensures |r| <= |ms|
    ensures forall k :: 0 <= k < |r| ==> Valid(r[k])
    decreases |ms|
  {
    if ms == [] then []
    else
      SpecialsTail(ms);
      var tail := Build(ms[1..], labelled, index + 1);
      match Accept(KindOf(ms[0], labelled, index), ms[0])
      case None => tail
      case Some(rs) =>
        ValidCons(rs, tail);
        [rs] + tail
  }

  /** Two candidates: each contributes its own set, if accepted, in order. */
  lemma BuildPair(ms: seq<Candidate>, labelled: bool)
    requires Specials(ms) && |ms| == 2
    ensures Build(ms, labelled, 0) ==
      Contribution(Accept(KindOf(ms[0], labelled, 0), ms[0])) + Contribution(Accept(KindOf(ms[1], labelled, 1), ms[1]))
  {
    BuildStep(ms, labelled, 0);
    var tail := ms[1..];
    assert tail[0] == ms[1] && tail[1..] == [];
    BuildStep(tail, labelled, 1);
  }

  /** The first candidate's contribution, then the rest's. */
  lemma BuildStep(ms: seq<Candidate>, labelled: bool, index: nat)
    requires Specials(ms) && ms != []
    ensures Specials(ms[1..])
    ensures Build(ms, labelled, index) ==
      Contribution(Accept(KindOf(ms[0], labelled, index), ms[0])) + Build(ms[1..], labelled, index + 1)
  {
    SpecialsTail(ms);
    match Accept(KindOf(ms[0], labelled, index), ms[0]) {
      case None =>
      case Some(rs) =>
    }
  }

  lemma SpecialsTail(ms: seq<Candidate>)
    requires Specials(ms) && ms != []
    ensures Specials(ms[1..])
  {
    assert forall k :: 0 <= k < |ms| - 1 ==> ms[1..][k] == ms[k + 1];
  }

  /** A single labelled candidate gives its own set, if accepted. */
  lemma LabelledOne(c: Candidate)
    requires IsDigitString(c.special)
    ensures Build([c], true, 0) == Contribution(Accept(c.category, c))
  {
    assert [c][1..] == [];
  }

  /** `ms[:2]`. */
  function FirstTwo(ms: seq<Candidate>): (r: seq<Candidate>)
    ensures |r| <= 2 && |r| <= |ms| && r == ms[..|r|]
    ensures |ms| >= 2 ==> |r| == 2
    ensures |ms| < 2 ==> r == ms
  {
    if |ms| <= 2 then ms else ms[..2]
  }

  /** Stages 1 and 2: the first two matches, each typed by its own category group. */
  function Labelled(ms: seq<Candidate>): (r: seq<RecommendedSet>)
    requires Specials(ms)
    ensures |r| <= 2
    ensures forall k :: 0 <= k < |r| ==> Valid(r[k])
  {
    Build(FirstTwo(ms), true, 0)
  }

  /** Stages 3 and 4: nothing unless there are two matches; then the first two, typed by position. */
  function Positional(ms: seq<Candidate>): (r: seq<RecommendedSet>)
    requires Specials(ms)
    ensures |ms| < 2 ==> r == []
    ensures |r| <= 2
    ensures forall k :: 0 <= k < |r| ==> Valid(r[k])
  {
    if |ms| < 2 then [] else Build(ms[..2], false, 0)
  }

  lemma FoundSpecials(p: Pattern, s: string)
    ensures Specials(FindAll(p, s))
  {
    var ms := FindAll(p, s);
    assert forall k :: 0 <= k < |ms| ==> WellFormed(p, ms[k]);
  }

  /** What the four patterns find in one text, each with `re.findall`. */
  datatype Scan = Scan(ordinal: seq<Candidate>, decorated: seq<Candidate>, markdown: seq<Candidate>, bracket: seq<Candidate>)

  predicate ScanSpecials(sc: Scan) {
    Specials(sc.ordinal) && Specials(sc.decorated) && Specials(sc.markdown) && Specials(sc.bracket)
  }

  function ScanOf(s: string): (sc: Scan)
    ensures ScanSpecials(sc)
  {
    FoundSpecials(Ordinal, s);
    FoundSpecials(Decorated, s);
    FoundSpecials(Markdown, s);
    FoundSpecials(Bracket, s);
    Scan(FindAll(Ordinal, s), FindAll(Decorated, s), FindAll(Markdown, s), FindAll(Bracket, s))
  }

  /** The matches stages 1 and 2 leave: the stage-1 ones, else the stage-2 ones. */
  function LabelledMatches(sc: Scan): seq<Candidate> {
    if sc.ordinal != [] then sc.ordinal else sc.decorated
  }

  /** The sets of stage 3, which runs only when stages 1 and 2 matched nothing. */
  function MarkdownSets(sc: Scan): (r: seq<RecommendedSet>)
    requires ScanSpecials(sc)
    ensures LabelledMatches(sc) != [] ==> r == []
  {
    if LabelledMatches(sc) == [] then Positional(sc.markdown) else []
  }

  /**
   * The list the cascade builds from what the patterns found: stage 4 only
   * when stages 1 and 2 matched nothing and stage 3 gave no set.
   */
  function Select(sc: Scan): (r: seq<RecommendedSet>)
    requires ScanSpecials(sc)
    ensures |r| <= 2
    ensures forall k :: 0 <= k < |r| ==> Valid(r[k])
  {
    var matches := LabelledMatches(sc);
    var markdownSets := MarkdownSets(sc);
    if matches == [] && markdownSets == [] then Positional(sc.bracket)
    else markdownSets + Labelled(matches)
  }

  /** `Some` of a non-empty list, `None` of the empty one. */
  function NonEmpty(sets: seq<RecommendedSet>): (r: Option<seq<RecommendedSet>>)
    ensures r.Some? <==> sets != []
    ensures r.Some? ==> r.value == sets
  {
    if sets == [] then None else Some(sets)
  }

  /** `parse_ai_prediction`: `None` for a missing or empty text, and `None` rather than an empty list. */
  function Parse(text: Option<string>): (r: Option<seq<RecommendedSet>>)
    ensures text == None || text == Some([]) ==> r == None
    ensures r.Some? ==> 1 <= |r.value| <= 2
    ensures r.Some? ==> forall k :: 0 <= k < |r.value| ==> Valid(r.value[k])
  {
    if text.None? || text.value == [] then None
    else NonEmpty(Select(ScanOf(text.value)))
  }

  /**
   * Once the stage-1 pattern matches anything, the later stages never run:
   * the answer comes from the stage-1 matches alone.
   */
  lemma OrdinalDecides(sc: Scan)
    requires ScanSpecials(sc) && sc.ordinal != []
    ensures Select(sc) == Labelled(sc.ordinal)
  {
  }

  /** The same, for a text: its stage-1 matches alone decide the answer. */
  lemma ParseByOrdinal(s: string, ms: seq<Candidate>)
    requires FindAll(Ordinal, s) == ms && ms != []
    ensures Specials(ms)
    ensures Parse(Some(s)) == NonEmpty(Labelled(ms))
  {
    OrdinalDecides(ScanOf(s));
  }

  /**
   * When the stage-1 pattern matches nothing and the stage-2 pattern
   * matches, the stage-2 matches alone decide the answer, each accepted set
   * typed by its own category group.
   */
  lemma ParseByDecorated(s: string, ms: seq<Candidate>)
    requires FindAll(Ordinal, s) == [] && FindAll(Decorated, s) == ms && ms != []
    ensures Specials(ms)
    ensures Parse(Some(s)) == NonEmpty(Labelled(ms))
  {
    var sc := ScanOf(s);
    assert sc.ordinal == [] && sc.decorated == ms;
    assert LabelledMatches(sc) == ms;
    assert MarkdownSets(sc) == [];
    assert Select(sc) == Labelled(ms);
  }

  /**
   * So when the first two stage-1 matches both fail the six-number gate the
   * answer is empty, whatever a later stage would have found.
   */
  lemma OrdinalRejectedGivesNothing(sc: Scan)
    requires ScanSpecials(sc) && sc.ordinal != []
    requires forall k :: 0 <= k < |FirstTwo(sc.ordinal)| ==> |ExtractNumbers(sc.ordinal[k].numbers)| != 6
    ensures Select(sc) == []
  {
    var two := FirstTwo(sc.ordinal);
    assert Accept(two[0].category, two[0]).None?;
    if |two| == 2 {
      assert Accept(two[1].category, two[1]).None?;
      BuildPair(two, true);
    } else {
      assert two[1..] == [];
    }
  }

  /**
   * Stage 4 runs when stages 1 and 2 matched nothing and stage 3 produced
   * no set, even though stage 3 did match: here two Markdown matches that
   * both fail the gate.
   */
  lemma MarkdownRejectedFallsThrough(sc: Scan)
    requires ScanSpecials(sc)
    requires sc.ordinal == [] && sc.decorated == []
    requires |sc.markdown| >= 2
    requires |ExtractNumbers(sc.markdown[0].numbers)| != 6
    requires |ExtractNumbers(sc.markdown[1].numbers)| != 6
    ensures Select(sc) == Positional(sc.bracket)
  {
    BuildPair(sc.markdown[..2], false);
  }

  /** Stage 4 never runs once stage 3 produced a set. */
  lemma MarkdownSetsDecide(sc: Scan)
    requires ScanSpecials(sc)
    requires sc.ordinal == [] && sc.decorated == []
    requires MarkdownSets(sc) != []
    ensures Select(sc) == Positional(sc.markdown)
  {
  }

  /**
   * The same, for a text: when stages 1 and 2 match nothing and the
   * Markdown matches yield a set, the answer is their positional reading.
   */
  lemma ParseByMarkdown(s: string, ms: seq<Candidate>)
    requires FindAll(Ordinal, s) == [] && FindAll(Decorated, s) == [] && FindAll(Markdown, s) == ms
    ensures Specials(ms)
    ensures Positional(ms) != [] ==> Parse(Some(s)) == Some(Positional(ms))
  {
    var sc := ScanOf(s);
    assert sc.markdown == ms;
    if Positional(ms) != [] {
      assert MarkdownSets(sc) == Positional(ms);
      MarkdownSetsDecide(sc);
    }
  }

  /** A lone match in stage 3 or 4 counts for nothing: with no earlier match, the answer is empty. */
  lemma LoneMatchIgnored(sc: Scan)
    requires ScanSpecials(sc)
    requires sc.ordinal == [] && sc.decorated == []
    requires |sc.markdown| < 2 && |sc.bracket| < 2
    ensures Select(sc) == []
  {
  }

  /**
   * A text in which stages 1 to 3 find nothing is read by stage 4 alone,
   * its sets typed by position.
   */
  lemma ParseByBracket(s: string, ms: seq<Candidate>)
    requires s != []
    requires FindAll(Ordinal, s) == [] && FindAll(Decorated, s) == [] && FindAll(Markdown, s) == []
    requires FindAll(Bracket, s) == ms
    ensures Specials(ms)
    ensures Parse(Some(s)) == NonEmpty(Positional(ms))
  {
    var sc := ScanOf(s);
    assert MarkdownSets(sc) == [];
  }

  /**
   * Stage 4 runs whenever stages 1 and 2 match nothing and stage 3 yields
   * no set: whether the Markdown pattern matched not at all, once, or
   * several times with every set rejected.
   */
  lemma StageFourWhenNoMarkdownSet(sc: Scan)
    requires ScanSpecials(sc)
    requires sc.ordinal == [] && sc.decorated == []
    requires Positional(sc.markdown) == []
    ensures Select(sc) == Positional(sc.bracket)
  {
  }

  /**
   * The same, for a text: with stages 1 and 2 silent and no set from the
   * Markdown matches, the parse is the positional reading of the bare
   * bracket matches.
   */
  lemma ParseByStageFour(s: string, ms: seq<Candidate>)
    requires FindAll(Ordinal, s) == [] && FindAll(Decorated, s) == []
    requires Positional(ScanOf(s).markdown) == []
    requires FindAll(Bracket, s) == ms
    ensures Specials(ms)
    ensures Parse(Some(s)) == NonEmpty(Positional(ms))
  {
    var sc := ScanOf(s);
    assert sc.bracket == ms;
    StageFourWhenNoMarkdownSet(sc);
  }

  /**
   * The type of a positional set follows the index of its match, not the
   * number of sets before it: when the first match fails the gate and the
   * second passes, the only set is typed as the hot combination.
   */
  lemma KindFollowsIndex(ms: seq<Candidate>)
    requires Specials(ms) && |ms| >= 2
    requires |ExtractNumbers(ms[0].numbers)| != 6
    requires |ExtractNumbers(ms[1].numbers)| == 6
    ensures |Positional(ms)| == 1 && Positional(ms)[0].kind == HotKind
    ensures Positional(ms)[0].numbers == ExtractNumbers(ms[1].numbers)
  {
    BuildPair(ms[..2], false);
  }

  /** A rejected labelled match is dropped while the one after it is kept, under its own category. */
  lemma RejectedDropped(ms: seq<Candidate>)
    requires Specials(ms) && |ms| >= 2
    requires |ExtractNumbers(ms[0].numbers)| != 6
    requires |ExtractNumbers(ms[1].numbers)| == 6
    ensures |Labelled(ms)| == 1 && Labelled(ms)[0].kind == ms[1].category
    ensures Labelled(ms)[0].numbers == ExtractNumbers(ms[1].numbers)
  {
    BuildPair(FirstTwo(ms), true);
  }

  /** Only the first two matches are looked at: whatever follows them changes nothing. */
  lemma FirstTwoOnly(ms: seq<Candidate>, more: seq<Candidate>)
    requires Specials(ms + more) && |ms| >= 2
    ensures Specials(ms)
    ensures Labelled(ms + more) == Labelled(ms)
    ensures Positional(ms + more) == Positional(ms)
  {
    assert forall k :: 0 <= k < |ms| ==> ms[k] == (ms + more)[k];
    assert (ms + more)[..2] == ms[..2];
  }
}
