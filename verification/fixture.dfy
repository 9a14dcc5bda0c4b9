/**
 * The sample answer of test_regex.py (its lines 3-47) and what both
 * parsers make of it. Its two sets sit under bold headings that put a
 * space before the parenthesis (`**第一組 (冷門號碼組合):**`), so stages 1
 * to 3 find nothing and stage 4 reads the two number lines, as does the
 * strict pattern. The text is written as the sequence of its lines and
 * paragraphs, in the order they appear.
 */
module Fixture {
  import opened Wrappers
  import opened Numerals
  import opened Chars
  import opened Extract
  import opened Patterns
  import opened Scanning
  import opened Parser
  import opened RoundTrip
  import opened StrictParser

  /** The pieces, one after the other. */
  function Concat(cs: seq<string>): string
  {
    if cs == [] then [] else Concat(cs[..|cs| - 1]) + cs[|cs| - 1]
  }

  lemma {:induction false} ProseConcat(cs: seq<string>)
    requires forall i :: 0 <= i < |cs| ==> Prose(cs[i])
    ensures Prose(Concat(cs))
  {
    if cs != [] {
      var init := cs[..|cs| - 1];
      assert forall i :: 0 <= i < |init| ==> init[i] == cs[i];
      ProseConcat(init);
      ProseAppend(Concat(init), cs[|cs| - 1]);
    }
  }

  /** Pieces starting with a non-empty one start where it starts. */
  lemma {:induction false} FirstOfConcat(cs: seq<string>)
    requires cs != [] && cs[0] != []
    ensures Concat(cs) != [] && Concat(cs)[0] == cs[0][0]
  {
    if |cs| > 1 {
      var init := cs[..|cs| - 1];
      assert init[0] == cs[0];
      FirstOfConcat(init);
    }
  }

  /** Pieces ending in a non-empty one end where it ends. */
  lemma LastOfConcat(cs: seq<string>)
    requires cs != [] && cs[|cs| - 1] != []
    ensures Concat(cs) != []
    ensures Concat(cs)[|Concat(cs)| - 1] == cs[|cs| - 1][|cs[|cs| - 1]| - 1]
  {
  }

  /**
   * An answer laid out like the sample: prose, a heading, then for each of
   * the two sets a bold heading `**第...`, its number line and the reasoning
   * under it.
   */
  datatype Answer = Answer(
    opening: string, analysis: string, title: string,
    firstHeading: string, firstLine: string, firstReason: string,
    secondHeading: string, secondLine: string, closing: string)

  function Text(a: Answer): string {
    a.opening + (a.analysis + (a.title + ("**第" + a.firstHeading + (a.firstLine
      + (a.firstReason + ("**第" + a.secondHeading + (a.secondLine + a.closing)))))))
  }

  /** A set's heading after its `**第`: prose whose third character is not `(`. */
  predicate Heading(h: string) {
    |h| >= 3 && h[2] != '(' && Prose(h) && h[|h| - 1] != '*'
  }

  /** What surrounds the two number lines starts no match of `p`. */
  predicate Surrounds(p: Pattern, a: Answer) {
    && Clear(p, a.opening) && Clear(p, a.analysis) && Clear(p, a.title)
    && Clear(p, a.firstReason) && Clear(p, a.closing)
    && Heading(a.firstHeading) && Heading(a.secondHeading)
  }

  lemma HeadingClear(p: Pattern, h: string)
    requires Heading(h)
    ensures Clear(p, h)
    ensures p == Markdown || p == Bracket || p == Strict ==> Clear(p, "**第" + h)
  {
    ProseClear(p, h);
    var b := "**第" + h;
    assert b[1..] == "*第" + h;
    assert forall k :: 2 <= k < |b[1..]| ==> b[1..][k] == h[k - 2];
    assert forall k :: 3 <= k < |b| ==> b[k] == h[k - 3];
    assert b[|b| - 1] == h[|h| - 1];
  }

  /** Stages 1 and 2 find nothing in such an answer when its number lines start no match either. */
  lemma {:induction false} LabelledFindNothing(p: Pattern, a: Answer)
    requires p == Ordinal || p == Decorated
    requires Surrounds(p, a) && Clear(p, a.firstLine) && Clear(p, a.secondLine)
    ensures FindAll(p, Text(a)) == []
  {
    var second := "**第" + a.secondHeading + (a.secondLine + a.closing);
    var first := "**第" + a.firstHeading + (a.firstLine + (a.firstReason + second));
    HeadingClear(p, a.firstHeading);
    HeadingClear(p, a.secondHeading);
    SkipClear(p, a.opening, a.analysis + (a.title + first));
    SkipClear(p, a.analysis, a.title + first);
    SkipClear(p, a.title, first);
    SkipHeading(p, a.firstHeading, a.firstLine + (a.firstReason + second));
    SkipClear(p, a.firstLine, a.firstReason + second);
    SkipClear(p, a.firstReason, second);
    SkipHeading(p, a.secondHeading, a.secondLine + a.closing);
    SkipClear(p, a.secondLine, a.closing);
    SkipClear(p, a.closing, []);
    assert a.closing + [] == a.closing;
  }

  /** Stage 3 finds nothing in it either. */
  lemma {:induction false} MarkdownFindsNothing(a: Answer)
    requires Surrounds(Markdown, a) && Clear(Markdown, a.firstLine) && Clear(Markdown, a.secondLine)
    ensures FindAll(Markdown, Text(a)) == []
  {
    var p := Markdown;
    var second := "**第" + a.secondHeading + (a.secondLine + a.closing);
    var first := "**第" + a.firstHeading + (a.firstLine + (a.firstReason + second));
    HeadingClear(p, a.firstHeading);
    HeadingClear(p, a.secondHeading);
    SkipClear(p, a.opening, a.analysis + (a.title + first));
    SkipClear(p, a.analysis, a.title + first);
    SkipClear(p, a.title, first);
    SkipClear(p, "**第" + a.firstHeading, a.firstLine + (a.firstReason + second));
    SkipClear(p, a.firstLine, a.firstReason + second);
    SkipClear(p, a.firstReason, second);
    SkipClear(p, "**第" + a.secondHeading, a.secondLine + a.closing);
    SkipClear(p, a.secondLine, a.closing);
    SkipClear(p, a.closing, []);
    assert a.closing + [] == a.closing;
  }

  /** The number lines of such an answer: two lines of the requested format, each followed by a non-digit. */
  predicate NumberLines(a: Answer, ns1: seq<nat>, sp1: nat, ns2: seq<nat>, sp2: nat) {
    && |ns1| == 6 && a.firstLine == Tail(ns1, sp1)
    && |ns2| == 6 && a.secondLine == Tail(ns2, sp2)
    && a.firstReason != [] && !IsDigit(a.firstReason[0])
    && a.closing != [] && !IsDigit(a.closing[0])
  }

  /** The part of such an answer from the second bold heading on. */
  function SecondPart(a: Answer): string {
    "**第" + a.secondHeading + (a.secondLine + a.closing)
  }

  /** Stages 3 and 4, and the strict pattern, pass over everything before the first number line. */
  lemma FrontClear(p: Pattern, a: Answer)
    requires p == Markdown || p == Bracket || p == Strict
    requires Surrounds(p, a)
    ensures FindAll(p, Text(a)) == FindAll(p, a.firstLine + (a.firstReason + SecondPart(a)))
  {
    var first := "**第" + a.firstHeading + (a.firstLine + (a.firstReason + SecondPart(a)));
    HeadingClear(p, a.firstHeading);
    SkipClear(p, a.opening, a.analysis + (a.title + first));
    SkipClear(p, a.analysis, a.title + first);
    SkipClear(p, a.title, first);
    SkipClear(p, "**第" + a.firstHeading, a.firstLine + (a.firstReason + SecondPart(a)));
  }

  /** Stage 4, and the strict pattern, take a number line as one match and carry on after it. */
  lemma LineFound(p: Pattern, ns: seq<nat>, special: nat, rest: string)
    requires p == Bracket || p == Strict
    requires |ns| == 6 && (rest == [] || !IsDigit(rest[0]))
    ensures FindAll(p, Tail(ns, special) + rest) == [StrictCandidate(ns, special)] + FindAll(p, rest)
  {
    if p == Bracket {
      TailMatches(ns, special, [], rest, OptionalBold);
    } else {
      StrictTailMatches(ns, special, rest);
    }
    assert Tail(ns, special) + rest != [] by {
      JoinedNonEmpty(ns);
    }
  }

  /** Stage 4, and the strict pattern, find the two number lines and nothing else. */
  lemma {:induction false} BracketsFindLines(p: Pattern, a: Answer, ns1: seq<nat>, sp1: nat, ns2: seq<nat>, sp2: nat)
    requires p == Bracket || p == Strict
    requires Surrounds(p, a) && NumberLines(a, ns1, sp1, ns2, sp2)
    ensures FindAll(p, Text(a)) == [StrictCandidate(ns1, sp1), StrictCandidate(ns2, sp2)]
  {
    FrontClear(p, a);
    var rest1 := a.firstReason + SecondPart(a);
    assert rest1[0] == a.firstReason[0];
    LineFound(p, ns1, sp1, rest1);
    SkipClear(p, a.firstReason, SecondPart(a));
    HeadingClear(p, a.secondHeading);
    SkipClear(p, "**第" + a.secondHeading, a.secondLine + a.closing);
    LineFound(p, ns2, sp2, a.closing);
    SkipClear(p, a.closing, []);
    assert a.closing + [] == a.closing;
  }

  /** Everything the four patterns need of such an answer. */
  predicate Layout(a: Answer, ns1: seq<nat>, sp1: nat, ns2: seq<nat>, sp2: nat) {
    && (forall p: Pattern :: Surrounds(p, a))
    && Clear(Ordinal, a.firstLine) && Clear(Ordinal, a.secondLine)
    && Clear(Markdown, a.firstLine) && Clear(Markdown, a.secondLine)
    && NumberLines(a, ns1, sp1, ns2, sp2)
  }

  /**
   * The backend reads such an answer by stage 4 alone, as the first line's
   * set typed cold and the second's typed hot, whatever the headings say.
   */
  lemma ParseLayout(a: Answer, ns1: seq<nat>, sp1: nat, ns2: seq<nat>, sp2: nat)
    requires Layout(a, ns1, sp1, ns2, sp2)
    ensures Parse(Some(Text(a))) == Some([Written(ColdKind, ns1, sp1), Written(HotKind, ns2, sp2)])
  {
    var ms := [StrictCandidate(ns1, sp1), StrictCandidate(ns2, sp2)];
    assert Surrounds(Ordinal, a) && Surrounds(Decorated, a) && Surrounds(Markdown, a) && Surrounds(Bracket, a);
    LabelledFindNothing(Ordinal, a);
    LabelledFindNothing(Decorated, a);
    MarkdownFindsNothing(a);
    BracketsFindLines(Bracket, a, ns1, sp1, ns2, sp2);
    ParseByBracket(Text(a), ms);
    PositionalLines(ns1, sp1, ns2, sp2);
  }

  /** Two candidates taken from lines of the requested format give their sets, cold then hot. */
  lemma PositionalLines(ns1: seq<nat>, sp1: nat, ns2: seq<nat>, sp2: nat)
    requires |ns1| == 6 && |ns2| == 6
    ensures Positional([StrictCandidate(ns1, sp1), StrictCandidate(ns2, sp2)])
         == [Written(ColdKind, ns1, sp1), Written(HotKind, ns2, sp2)]
  {
    var ms := [StrictCandidate(ns1, sp1), StrictCandidate(ns2, sp2)];
    ExtractJoined(ns1);
    ExtractJoined(ns2);
    assert ms[..2] == ms;
    BuildPair(ms, false);
  }

  /** The strict parser reads the same two sets from it. */
  lemma ParseStrictLayout(a: Answer, ns1: seq<nat>, sp1: nat, ns2: seq<nat>, sp2: nat)
    requires Surrounds(Strict, a) && NumberLines(a, ns1, sp1, ns2, sp2)
    ensures ParseStrict(Some(Text(a))) == Some([Written(ColdKind, ns1, sp1), Written(HotKind, ns2, sp2)])
  {
    BracketsFindLines(Strict, a, ns1, sp1, ns2, sp2);
    assert Text(a) != [] by {
      assert |Text(a)| >= |a.firstLine| && a.firstLine != [];
    }
    StrictReadsPair(Text(a), ns1, sp1, ns2, sp2);
  }

  /** The opening sentence, up to its `彩`. */
  const Opening: string := "根據您提供的半年大樂透中獎資料，我將分析並推薦兩組"

  /** The analysis summary after its first `彩`, up to the `彩` of the recommendations' heading. */
  const AnalysisBody: string := Concat([Analysis0, Analysis1, Analysis2, Analysis3, Analysis4, Analysis5, Analysis6, Analysis7, Analysis8, Analysis9, Analysis10, Analysis11, Analysis12, Analysis13])
  const Analysis: string := "彩" + AnalysisBody

  const Analysis0: string := "券號碼。\n\n---\n\n### 大樂透半年中獎資料分析摘要\n\n"
  const Analysis1: string := "**總體熱門號碼 (獎號):**\n*   **9次:** 45\n"
  const Analysis2: string := "*   **8次:** 2, 15, 20\n"
  const Analysis3: string := "*   **7次:** 5, 13, 25, 26, 29, 33, 3"
  const Analysis4: string := "7, 39, 41, 46, 49\n\n**總體冷門號碼 (獎號):**\n"
  const Analysis5: string := "*   **2次:** 12, 30, 44\n"
  const Analysis6: string := "*   **3次:** 10, 18, 28, 31, 36, 38\n\n"
  const Analysis7: string := "**特別號熱門號碼:**\n*   **4次:** 10, 28\n"
  const Analysis8: string := "*   **3次:** 2, 24, 27, 31\n\n"
  const Analysis9: string := "**特別號冷門號碼 (從未出現的特別號):**\n"
  const Analysis10: string := "*   **0次:** 1, 4, 5, 7, 12, 13, 15, "
  const Analysis11: string := "16, 17, 18, 20, 23, 25, 29, 32, 35, "
  const Analysis12: string := "38, 40, 41, 42, 44, 47, 48\n\n---\n\n"
  const Analysis13: string := "### "

  lemma AnalysisChunksProse0()
    ensures Prose(Analysis0)
    ensures Prose(Analysis1)
    ensures Prose(Analysis2)
    ensures Prose(Analysis3)
  {
  }

  lemma AnalysisChunksProse1()
    ensures Prose(Analysis4)
    ensures Prose(Analysis5)
    ensures Prose(Analysis6)
    ensures Prose(Analysis7)
  {
  }

  lemma AnalysisChunksProse2()
    ensures Prose(Analysis8)
    ensures Prose(Analysis9)
    ensures Prose(Analysis10)
    ensures Prose(Analysis11)
  {
  }

  lemma AnalysisChunksProse3()
    ensures Prose(Analysis12)
    ensures Prose(Analysis13)
  {
  }

  lemma AnalysisIsProse()
    ensures Prose(AnalysisBody) && AnalysisBody != [] && AnalysisBody[|AnalysisBody| - 1] != '*'
  {
    AnalysisChunksProse0();
    AnalysisChunksProse1();
    AnalysisChunksProse2();
    AnalysisChunksProse3();
    ProseConcat([Analysis0, Analysis1, Analysis2, Analysis3, Analysis4, Analysis5, Analysis6, Analysis7, Analysis8, Analysis9, Analysis10, Analysis11, Analysis12, Analysis13]);
    LastOfConcat([Analysis0, Analysis1, Analysis2, Analysis3, Analysis4, Analysis5, Analysis6, Analysis7, Analysis8, Analysis9, Analysis10, Analysis11, Analysis12, Analysis13]);
  }

  /** The heading of the recommendations. */
  const Title: string := "彩" + "券號碼推薦\n\n"

  /** The first set's bold heading, after its `**第`. */
  const FirstHeading: string := "一組 (冷門號碼組合):**\n"

  /** The first set's numbers, cut where the regex groups start and end. */
  const FirstLine: string := "[" + "10, 12, 18, 30, 31, 44" + "]" + " + 特別號: " + "38"

  /** The reasoning under the first set. */
  const FirstReason: string := Concat([FirstReason0, FirstReason1, FirstReason2, FirstReason3, FirstReason4, FirstReason5, FirstReason6])

  const FirstReason0: string := "\n\n**選號理由:**\n這組號碼的選擇依據是半年內出現頻率最低的號碼：\n"
  const FirstReason1: string := "*   **主獎號:** 我們從出現次數為2次 (12, 30, 44)"
  const FirstReason2: string := " 和 3次 (10, 18, 31) 的號碼中選取，以確保這些號碼在過去"
  const FirstReason3: string := "半年中較少被選中。\n"
  const FirstReason4: string := "*   **特別號:** 選擇了38。在半年內的資料中，38曾作為主獎號"
  const FirstReason5: string := "出現過3次，但從未以特別號的形式出現過，因此它是一個極為冷門的特別號選項"
  const FirstReason6: string := "，同時也確保不與主獎號重複。\n\n---\n\n"

  lemma FirstReasonChunksProse0()
    ensures Prose(FirstReason0)
    ensures Prose(FirstReason1)
    ensures Prose(FirstReason2)
    ensures Prose(FirstReason3)
  {
  }

  lemma FirstReasonChunksProse1()
    ensures Prose(FirstReason4)
    ensures Prose(FirstReason5)
    ensures Prose(FirstReason6)
  {
  }

  lemma FirstReasonIsProse()
    ensures Prose(FirstReason) && FirstReason != [] && FirstReason[|FirstReason| - 1] != '*'
  {
    FirstReasonChunksProse0();
    FirstReasonChunksProse1();
    ProseConcat([FirstReason0, FirstReason1, FirstReason2, FirstReason3, FirstReason4, FirstReason5, FirstReason6]);
    LastOfConcat([FirstReason0, FirstReason1, FirstReason2, FirstReason3, FirstReason4, FirstReason5, FirstReason6]);
  }

  /** The second set's bold heading, after its `**第`. */
  const SecondHeading: string := "二組 (熱門號碼組合):**\n"

  /** The second set's numbers, cut the same way. */
  const SecondLine: string := "[" + "2, 5, 15, 20, 33, 45" + "]" + " + 特別號: " + "10"

  /** The reasoning under the second set, to the end of the answer. */
  const Closing: string := Concat([Closing0, Closing1, Closing2, Closing3, Closing4, Closing5, Closing6])

  const Closing0: string := "\n\n**選號理由:**\n這組號碼的選擇依據是半年內出現頻率最高的號碼：\n"
  const Closing1: string := "*   **主獎號:** 我們從出現次數為9次 (45)、8次 (2, "
  const Closing2: string := "15, 20) 和 7次 (5, 33) 的號碼中選取，這些都是在過去半"
  const Closing3: string := "年中被抽中次數最多的號碼。\n"
  const Closing4: string := "*   **特別號:** 選擇了10。在半年內的資料中，10曾以特別號的"
  const Closing5: string := "形式出現過4次，是特別號中出現頻率最高的號碼之一，且不與主獎號重複。\n\n"
  const Closing6: string := "---"

  lemma ClosingChunksProse0()
    ensures Prose(Closing0)
    ensures Prose(Closing1)
    ensures Prose(Closing2)
    ensures Prose(Closing3)
  {
  }

  lemma ClosingChunksProse1()
    ensures Prose(Closing4)
    ensures Prose(Closing5)
    ensures Prose(Closing6)
  {
  }

  lemma ClosingIsProse()
    ensures Prose(Closing) && Closing != [] && Closing[|Closing| - 1] != '*'
  {
    ClosingChunksProse0();
    ClosingChunksProse1();
    ProseConcat([Closing0, Closing1, Closing2, Closing3, Closing4, Closing5, Closing6]);
    LastOfConcat([Closing0, Closing1, Closing2, Closing3, Closing4, Closing5, Closing6]);
  }

  /** The sample answer, piece by piece. */
  const Sample: Answer := Answer(Opening, Analysis, Title, FirstHeading, FirstLine, FirstReason,
                                 SecondHeading, SecondLine, Closing)

  /** The whole answer. */
  const AiText: string := Text(Sample)

  const ColdNumbers: seq<nat> := [10, 12, 18, 30, 31, 44]
  const HotNumbers: seq<nat> := [2, 5, 15, 20, 33, 45]

  lemma ColdDigits()
    ensures NatToString(10) == "10" && NatToString(12) == "12" && NatToString(18) == "18"
    ensures NatToString(30) == "30" && NatToString(31) == "31" && NatToString(44) == "44"
  {
  }

  lemma HotDigits()
    ensures NatToString(2) == "2" && NatToString(5) == "5" && NatToString(15) == "15"
    ensures NatToString(20) == "20" && NatToString(33) == "33" && NatToString(45) == "45"
  {
  }

  lemma ColdJoined()
    ensures JoinInts(ColdNumbers) == "10, 12, 18, 30, 31, 44"
  {
    ColdDigits();
  }

  lemma HotJoined()
    ensures JoinInts(HotNumbers) == "2, 5, 15, 20, 33, 45"
  {
    HotDigits();
  }

  /** The two number lines are exactly what `str(list)` and `str(int)` write for the two sets. */
  lemma LinesWritten()
    ensures FirstLine == Tail(ColdNumbers, 38)
    ensures SecondLine == Tail(HotNumbers, 10)
  {
    ColdJoined();
    HotJoined();
    assert NatToString(38) == "38";
    assert NatToString(10) == "10";
  }

  /** Every prose piece of the sample is clear for every pattern. */
  lemma SampleSurrounds(p: Pattern)
    ensures Surrounds(p, Sample)
  {
    SampleHeadings();
    SampleProseClear(p);
  }

  lemma SampleHeadings()
    ensures Heading(FirstHeading) && Heading(SecondHeading)
  {
  }

  lemma SampleProseClear(p: Pattern)
    ensures Clear(p, Opening) && Clear(p, Analysis) && Clear(p, Title)
    ensures Clear(p, FirstReason) && Clear(p, Closing)
  {
    ProseClear(p, Opening);
    AnalysisIsProse();
    MarkedProseClear(p, AnalysisBody);
    MarkedProseClear(p, "券號碼推薦\n\n");
    FirstReasonIsProse();
    ProseClear(p, FirstReason);
    ClosingIsProse();
    ProseClear(p, Closing);
  }

  lemma SampleLinesClear()
    ensures Clear(Ordinal, FirstLine) && Clear(Ordinal, SecondLine)
    ensures Clear(Markdown, FirstLine) && Clear(Markdown, SecondLine)
  {
  }

  /** Both reasonings start on a new line, so neither number line's digits run on. */
  lemma ReasonsStartNewLines()
    ensures FirstReason != [] && FirstReason[0] == '\n'
    ensures Closing != [] && Closing[0] == '\n'
  {
    FirstOfConcat([FirstReason0, FirstReason1, FirstReason2, FirstReason3, FirstReason4, FirstReason5, FirstReason6]);
    FirstOfConcat([Closing0, Closing1, Closing2, Closing3, Closing4, Closing5, Closing6]);
  }

  lemma SampleLayout()
    ensures Layout(Sample, ColdNumbers, 38, HotNumbers, 10)
  {
    forall p: Pattern
      ensures Surrounds(p, Sample)
    {
      SampleSurrounds(p);
    }
    SampleLinesClear();
    SampleNumberLines();
  }

  lemma SampleNumberLines()
    ensures NumberLines(Sample, ColdNumbers, 38, HotNumbers, 10)
  {
    LinesWritten();
    ReasonsStartNewLines();
  }

  /** The backend reads the sample answer as the cold set 10, 12, 18, 30, 31, 44 + 38 and the hot set 2, 5, 15, 20, 33, 45 + 10. */
  lemma ParseFixture()
    ensures Parse(Some(AiText))
         == Some([Written(ColdKind, ColdNumbers, 38), Written(HotKind, HotNumbers, 10)])
  {
    SampleLayout();
    ParseLayout(Sample, ColdNumbers, 38, HotNumbers, 10);
  }

  /** The earlier strict parser reads the same two sets from it. */
  lemma ParseStrictFixture()
    ensures ParseStrict(Some(AiText))
         == Some([Written(ColdKind, ColdNumbers, 38), Written(HotKind, HotNumbers, 10)])
  {
    SampleLayout();
    ParseStrictLayout(Sample, ColdNumbers, 38, HotNumbers, 10);
  }
}
