/**
 * What is computed from the draw records: the statistics block of the
 * prediction endpoint (backend/main.py lines 207-246), the collection of
 * the monthly results (Lottery_predict.py lines 34-47), and the data
 * summary the prompt starts with (Lottery_predict.py lines 76-120).
 */
module Statistics {
  import opened Wrappers
  import opened Numerals
  import opened Sorting
  import opened Frequency

  /** The sort key of the frequency items: an item's count (backend/main.py line 237). */
  function CountOf(e: Entry): int {
    e.count
  }

  /** The sort key of the draws: the draw's 期別 (Lottery_predict.py line 47). */
  function PeriodOf(d: Draw): int {
    d.period
  }

  /** The items of the dict counting `xs`, sorted stably by count, largest first (backend/main.py line 237). */
  function FrequencyOrder(xs: seq<int>): seq<Entry> {
    SortDesc(Tally(xs), CountOf)
  }

  // ---- the sorted frequency items ----

  /** Each item counts its number's occurrences in `xs`, and no count is 0. */
  predicate Counts(t: seq<Entry>, xs: seq<int>) {
    forall i :: 0 <= i < |t| ==> t[i].count == multiset(xs)[t[i].number] && t[i].count >= 1
  }

  lemma DistinctOnce(t: seq<Entry>, e: Entry)
    requires Distinct(t)
    ensures multiset(t)[e] <= 1
  {
    if t != [] {
      assert Distinct(t[1..]) by {
        assert forall a, b :: 0 <= a < b < |t| - 1 ==> t[1..][a] == t[a + 1] && t[1..][b] == t[b + 1];
      }
      DistinctOnce(t[1..], e);
      assert t == [t[0]] + t[1..];
      if t[0] == e {
        assert e !in t[1..] by {
          forall k | 0 <= k < |t[1..]|
            ensures t[1..][k] != e
          {
            assert t[1..][k] == t[k + 1];
          }
        }
      }
    }
  }

  lemma TwiceCounted(r: seq<Entry>, i: int, j: int)
    requires 0 <= i < j < |r|
    ensures r[i] == r[j] ==> multiset(r)[r[i]] >= 2
  {
    assert r == r[..j] + [r[j]] + r[j + 1..];
    assert r[..j][i] == r[i];
  }

  /** A rearrangement of a dict's items has no repeated key either. */
  lemma PermutedDistinct(t: seq<Entry>, r: seq<Entry>)
    requires Distinct(t) && multiset(r) == multiset(t)
    ensures Distinct(r)
  {
    forall i, j | 0 <= i < j < |r|
      ensures r[i].number != r[j].number
    {
      TwiceCounted(r, i, j);
      DistinctOnce(t, r[i]);
      assert r[i] in multiset(t) && r[j] in multiset(t);
    }
  }

  lemma PermutedCounts(t: seq<Entry>, r: seq<Entry>, xs: seq<int>)
    requires Counts(t, xs) && multiset(r) == multiset(t)
    ensures Counts(r, xs)
  {
    forall i | 0 <= i < |r|
      ensures r[i].count == multiset(xs)[r[i].number] && r[i].count >= 1
    {
      assert r[i] in multiset(t);
      var p :| 0 <= p < |t| && t[p] == r[i];
    }
  }

  lemma PermutedKeys(t: seq<Entry>, r: seq<Entry>, n: int)
    requires multiset(r) == multiset(t)
    ensures n in Keys(r) <==> n in Keys(t)
  {
    if n in Keys(r) {
      var i :| 0 <= i < |r| && Keys(r)[i] == n;
      assert r[i] in multiset(t);
      var p :| 0 <= p < |t| && t[p] == r[i];
      assert Keys(t)[p] == n;
    }
    if n in Keys(t) {
      var p :| 0 <= p < |t| && Keys(t)[p] == n;
      assert t[p] in multiset(r);
      var i :| 0 <= i < |r| && r[i] == t[p];
      assert Keys(r)[i] == n;
    }
  }

  /**
   * The frequency listing: descending by count, each number once, with
   * its count equal to its occurrences (so never 0), and every number
   * that occurs listed.
   */
  lemma FrequencyOrderCounts(xs: seq<int>)
    ensures Descending(FrequencyOrder(xs), CountOf)
    ensures Distinct(FrequencyOrder(xs))
    ensures Counts(FrequencyOrder(xs), xs)
    ensures forall n :: n in Keys(FrequencyOrder(xs)) <==> n in xs
  {
    var t := Tally(xs);
    var r := FrequencyOrder(xs);
    SortDescDescending(t, CountOf);
    SortDescPermutes(t, CountOf);
    TallyCounts(xs);
    PermutedDistinct(t, r);
    PermutedCounts(t, r, xs);
    forall n
      ensures n in Keys(r) <==> n in xs
    {
      TallyKeys(xs, n);
      PermutedKeys(t, r, n);
    }
  }

  /** Numbers with equal counts are listed in the order of their first occurrence. */
  lemma FrequencyOrderTies(xs: seq<int>, i: int, j: int)
    requires 0 <= i < j < |FrequencyOrder(xs)|
    requires FrequencyOrder(xs)[i].count == FrequencyOrder(xs)[j].count
    ensures FrequencyOrder(xs)[i].number in xs && FrequencyOrder(xs)[j].number in xs
    ensures FirstIndex(xs, FrequencyOrder(xs)[i].number) < FirstIndex(xs, FrequencyOrder(xs)[j].number)
  {
    var t := Tally(xs);
    var r := FrequencyOrder(xs);
    SortDescTiesInOrder(t, CountOf, i, j);
    var p, q :| 0 <= p < q < |t| && t[p] == r[i] && t[q] == r[j];
    TallyFirstEncounter(xs);
  }

  // ---- hot and cold numbers ----

  /** The first ten items, or all of them when there are fewer (backend/main.py line 238). */
  function Hot(s: seq<Entry>): (r: seq<Entry>)
    ensures |r| == if |s| < 10 then |s| else 10
    ensures r == s[..|r|]
  {
    if |s| < 10 then s else s[..10]
  }

  /** The last ten items, or all of them when there are fewer (backend/main.py line 239). */
  function Cold(s: seq<Entry>): (r: seq<Entry>)
    ensures |r| == if |s| < 10 then |s| else 10
    ensures r == s[|s| - |r|..]
  {
    if |s| >= 10 then s[|s| - 10..] else s
  }

  /** On a descending listing, the hot items count at least as often as everything after them. */
  lemma HotLeads(s: seq<Entry>)
    requires Descending(s, CountOf)
    ensures forall k, j :: 0 <= k < |Hot(s)| <= j < |s| ==> Hot(s)[k].count >= s[j].count
  {
    forall k, j | 0 <= k < |Hot(s)| <= j < |s|
      ensures Hot(s)[k].count >= s[j].count
    {
      assert CountOf(s[k]) >= CountOf(s[j]);
    }
  }

  /** On a descending listing, the cold items count at most as often as everything before them. */
  lemma ColdTrails(s: seq<Entry>)
    requires Descending(s, CountOf)
    ensures forall k, j :: 0 <= k < |Cold(s)| && 0 <= j < |s| - |Cold(s)| ==> s[j].count >= Cold(s)[k].count
  {
    forall k, j | 0 <= k < |Cold(s)| && 0 <= j < |s| - |Cold(s)|
      ensures s[j].count >= Cold(s)[k].count
    {
      assert CountOf(s[j]) >= CountOf(s[|s| - |Cold(s)| + k]);
    }
  }

  lemma DistinctPositions(s: seq<Entry>, a: int, b: int)
    requires Distinct(s) && 0 <= a < b < |s|
    ensures s[a] != s[b]
  {
  }

  /** Without repeated numbers, a non-empty listing's hot and cold parts share an item iff it is shorter than 20. */
  lemma HotColdShare(s: seq<Entry>)
    requires Distinct(s) && s != []
    ensures (exists e :: e in Hot(s) && e in Cold(s)) <==> |s| < 20
  {
    var h := Hot(s);
    var c := Cold(s);
    if |s| < 10 {
      assert s[0] in h && s[0] in c;
    } else if |s| < 20 {
      assert s[9] == h[9] && s[9] == c[19 - |s|];
      assert s[9] in h && s[9] in c;
    } else {
      forall e | e in h
        ensures e !in c
      {
        var k :| 0 <= k < |h| && h[k] == e;
        forall m | 0 <= m < |c|
          ensures c[m] != e
        {
          DistinctPositions(s, k, |s| - 10 + m);
        }
      }
    }
  }

  lemma SliceCounts(s: seq<Entry>, xs: seq<int>)
    requires Counts(s, xs)
    ensures forall e :: e in Hot(s) || e in Cold(s) ==> e.count >= 1 && e.count == multiset(xs)[e.number]
  {
  }

  /**
   * The hot numbers are the most frequent: each counts at least as often
   * as anything listed after them; the cold numbers the least frequent.
   * Neither holds a number that never occurred.
   */
  lemma HotColdCounts(xs: seq<int>)
    ensures forall k, j :: 0 <= k < |Hot(FrequencyOrder(xs))| <= j < |FrequencyOrder(xs)| ==>
      Hot(FrequencyOrder(xs))[k].count >= FrequencyOrder(xs)[j].count
    ensures forall k, j :: 0 <= k < |Cold(FrequencyOrder(xs))| && 0 <= j < |FrequencyOrder(xs)| - |Cold(FrequencyOrder(xs))| ==>
      FrequencyOrder(xs)[j].count >= Cold(FrequencyOrder(xs))[k].count
    ensures forall e :: e in Hot(FrequencyOrder(xs)) || e in Cold(FrequencyOrder(xs)) ==>
      e.count >= 1 && e.count == multiset(xs)[e.number]
  {
    var s := FrequencyOrder(xs);
    FrequencyOrderCounts(xs);
    HotLeads(s);
    ColdTrails(s);
    SliceCounts(s, xs);
  }

  /** With at least one number counted, the hot and cold lists share an item iff fewer than 20 numbers occurred. */
  lemma HotColdOverlap(xs: seq<int>)
    requires xs != []
    ensures (exists e :: e in Hot(FrequencyOrder(xs)) && e in Cold(FrequencyOrder(xs))) <==> |FrequencyOrder(xs)| < 20
  {
    var s := FrequencyOrder(xs);
    FrequencyOrderCounts(xs);
    assert xs[0] in xs;
    assert s != [];
    HotColdShare(s);
  }

  // ---- the statistics block ----

  /** The first ten characters of a 開獎日期 timestamp, its date part (backend/main.py lines 220-221). */
  function Day(date: string): (r: string)
    ensures |r| == if |date| < 10 then |date| else 10
    ensures r == date[..|r|]
  {
    if |date| <= 10 then date else date[..10]
  }

  datatype DateRange = DateRange(start: string, end: string)

  datatype FrequencyAnalysis = FrequencyAnalysis(
    hotNumbers: seq<Entry>, coldNumbers: seq<Entry>,
    numberFrequency: seq<Entry>, specialFrequency: seq<Entry>)

  datatype Stats = Stats(
    totalPeriods: nat, dateRange: DateRange,
    latestPeriod: int, oldestPeriod: int,
    frequencyAnalysis: FrequencyAnalysis)

  /**
   * The `statistics` dict of the prediction endpoint. With no draws the
   * endpoint answers with an error before it gets here: `None`.
   */
  function Statistics(ds: seq<Draw>): (r: Option<Stats>)
    ensures r.None? <==> ds == []
  {
    if ds == [] then None
    else
      var (nf, sf) := CountDraws(ds);
      var sorted := SortDesc(nf, CountOf);
      Some(Stats(
        |ds|,
        DateRange(Day(ds[|ds| - 1].date), Day(ds[0].date)),
        ds[0].period, ds[|ds| - 1].period,
        FrequencyAnalysis(Hot(sorted), Cold(sorted), sorted, SortDesc(sf, CountOf))))
  }

  /** The listings are those of the true counts: of every 獎號, and of every 特別號. */
  lemma StatisticsCounts(ds: seq<Draw>)
    requires ds != []
    ensures Statistics(ds).value.frequencyAnalysis.numberFrequency == FrequencyOrder(AllNumbers(ds))
    ensures Statistics(ds).value.frequencyAnalysis.specialFrequency == FrequencyOrder(Specials(ds))
    ensures Statistics(ds).value.frequencyAnalysis.hotNumbers == Hot(FrequencyOrder(AllNumbers(ds)))
    ensures Statistics(ds).value.frequencyAnalysis.coldNumbers == Cold(FrequencyOrder(AllNumbers(ds)))
  {
    CountDrawsTallies(ds);
  }

  // ---- collecting the months ----

  /**
   * The draws of each month whose fetch returned a non-empty list,
   * appended in month order (Lottery_predict.py lines 34-44); `None`
   * stands for a fetch that raised.
   */
  function Gathered(months: seq<Option<seq<Draw>>>): (r: seq<Draw>) {
    if months == [] then []
    else
      var init := Gathered(months[..|months| - 1]);
      match months[|months| - 1]
      case Some(result) => if result != [] then init + result else init
      case None => init
  }

  /** The gathered draws sorted stably by 期別, latest first (Lottery_predict.py line 47). */
  function Collect(months: seq<Option<seq<Draw>>>): seq<Draw> {
    SortDesc(Gathered(months), PeriodOf)
  }

  lemma {:induction false} GatheredMembers(months: seq<Option<seq<Draw>>>, d: Draw)
    ensures d in Gathered(months) <==> exists i :: 0 <= i < |months| && months[i].Some? && d in months[i].value
  {
    if months != [] {
      var init := months[..|months| - 1];
      GatheredMembers(init, d);
      assert forall i :: 0 <= i < |init| ==> init[i] == months[i];
      if exists i :: 0 <= i < |months| && months[i].Some? && d in months[i].value {
        var i :| 0 <= i < |months| && months[i].Some? && d in months[i].value;
        if i < |init| {
          assert init[i].Some? && d in init[i].value;
        }
      }
    }
  }

  /**
   * The collected draws are the fetched ones, rearranged: newest 期別
   * first, and draws sharing a 期別 in the order they were fetched.
   */
  lemma CollectSpec(months: seq<Option<seq<Draw>>>)
    ensures multiset(Collect(months)) == multiset(Gathered(months))
    ensures Descending(Collect(months), PeriodOf)
    ensures forall p :: WithKey(Collect(months), PeriodOf, p) == WithKey(Gathered(months), PeriodOf, p)
  {
    SortDescPermutes(Gathered(months), PeriodOf);
    SortDescDescending(Gathered(months), PeriodOf);
    forall p
      ensures WithKey(Collect(months), PeriodOf, p) == WithKey(Gathered(months), PeriodOf, p)
    {
      SortDescStable(Gathered(months), PeriodOf, p);
    }
  }

  /** On collected draws, the latest period is the largest 期別 fetched and the oldest the smallest. */
  lemma CollectedPeriods(months: seq<Option<seq<Draw>>>)
    requires Collect(months) != []
    ensures forall d :: d in Gathered(months) ==>
      Statistics(Collect(months)).value.oldestPeriod <= d.period <= Statistics(Collect(months)).value.latestPeriod
  {
    var ds := Collect(months);
    CollectSpec(months);
    forall d | d in Gathered(months)
      ensures ds[|ds| - 1].period <= d.period <= ds[0].period
    {
      assert d in multiset(ds);
      var k :| 0 <= k < |ds| && ds[k] == d;
      assert PeriodOf(ds[0]) >= PeriodOf(ds[k]) >= PeriodOf(ds[|ds| - 1]);
    }
  }

  // ---- the data summary of the prompt ----

  /** One line of the list of all draws. */
  function DrawLine(d: Draw): string {
    "第" + IntToString(d.period) + "期 (" + Day(d.date) + "): 獎號 " + ListRepr(d.numbers)
      + " | 特別號 " + IntToString(d.special) + "\n"
  }

  function DrawLines(ds: seq<Draw>): string {
    if ds == [] then "" else DrawLine(ds[0]) + DrawLines(ds[1..])
  }

  /** One `<tag><n>: <count> 次` line per item, in the given order. */
  function CountLines(tag: string, es: seq<Entry>): string {
    if es == [] then "" else tag + IntToString(es[0].number) + ": " + NatToString(es[0].count) + " 次\n" + CountLines(tag, es[1..])
  }

  /** A numeral holds no line break. */
  lemma IntNoBreak(i: int)
    ensures '\n' !in IntToString(i)
  {
    var d := NatToString(if i < 0 then -i else i);
    assert forall k :: 0 <= k < |d| ==> d[k] != '\n';
    if i < 0 {
      assert IntToString(i) == "-" + d;
    }
  }

  /** Neither does a list written as `str(list)` writes it. */
  lemma {:induction false} JoinNoBreak(xs: seq<int>)
    ensures '\n' !in ListRepr(xs)
    ensures '\n' !in JoinInts(xs)
  {
    if xs != [] {
      IntNoBreak(xs[0]);
      JoinNoBreak(xs[1..]);
    }
  }

  /** A line: text without a line break, then the break. */
  lemma OneBreak(body: string)
    requires '\n' !in body
    ensures multiset(body + "\n")['\n'] == 1
  {
  }

  /** A draw's line holds one line break, its last character, when its date holds none. */
  lemma DrawLineBreak(d: Draw)
    requires '\n' !in d.date
    ensures multiset(DrawLine(d))['\n'] == 1
  {
    var day := Day(d.date);
    var body := "第" + IntToString(d.period) + "期 (" + day + "): 獎號 " + ListRepr(d.numbers)
      + " | 特別號 " + IntToString(d.special);
    assert '\n' !in body by {
      assert '\n' !in day by {
        assert forall k :: 0 <= k < |day| ==> day[k] == d.date[k];
      }
      IntNoBreak(d.period);
      IntNoBreak(d.special);
      JoinNoBreak(d.numbers);
    }
    OneBreak(body);
  }

  /** A line in front of some lines adds one line break. */
  lemma ConsBreak(line: string, rest: string)
    requires multiset(line)['\n'] == 1
    ensures multiset(line + rest)['\n'] == multiset(rest)['\n'] + 1
  {
  }

  /** The list of all draws has one line per draw, when no date holds a line break. */
  lemma {:induction false} DrawLinesBreaks(ds: seq<Draw>)
    requires forall d :: d in ds ==> '\n' !in d.date
    ensures multiset(DrawLines(ds))['\n'] == |ds|
  {
    if ds != [] {
      DrawLinesBreaks(ds[1..]);
      DrawLineBreak(ds[0]);
      ConsBreak(DrawLine(ds[0]), DrawLines(ds[1..]));
    }
  }

  /** A count listing has one line per item. */
  lemma {:induction false} CountLinesBreaks(tag: string, es: seq<Entry>)
    requires '\n' !in tag
    ensures multiset(CountLines(tag, es))['\n'] == |es|
  {
    if es != [] {
      IntNoBreak(es[0].number);
      IntNoBreak(es[0].count);
      CountLinesBreaks(tag, es[1..]);
    }
  }

  /** The numbers that never occurred, in ascending order (Lottery_predict.py line 109). */
  function NeverList(t: seq<Entry>): seq<int> {
    Ascending(NeverAppeared(t), 1, 49)
  }

  /** The never-appeared line: present only when some number of 1..49 never appeared. */
  function NeverLine(tag: string, t: seq<Entry>): string {
    if NeverAppeared(t) == {} then ""
    else "\n半年內從未出現的" + tag + ": " + ListRepr(NeverList(t)) + "\n"
  }

  /** The summary built from the draws and the two frequency dicts. */
  function SummaryText(ds: seq<Draw>, nf: seq<Entry>, sf: seq<Entry>): string
    requires ds != []
  {
    "大樂透半年中獎資料分析:\n\n"
      + "總期數: " + NatToString(|ds|) + "\n"
      + "日期範圍: " + Day(ds[|ds| - 1].date) + " 至 " + Day(ds[0].date) + "\n\n"
      + "所有" + NatToString(|ds|) + "期中獎號碼:\n"
      + DrawLines(ds)
      + "\n完整獎號出現頻率統計 (1-49號碼):\n"
      + CountLines("號碼 ", SortDesc(nf, CountOf))
      + NeverLine("獎號", nf)
      + "\n完整特別號出現頻率統計:\n"
      + CountLines("特別號 ", SortDesc(sf, CountOf))
      + NeverLine("特別號", sf)
  }

  /**
   * The data summary. With no draws, `lottery_data[-1]` raises and the
   * surrounding `except` returns `None`.
   */
  function Summary(ds: seq<Draw>): (r: Option<string>)
    ensures r.None? <==> ds == []
  {
    if ds == [] then None
    else
      var (nf, sf) := CountDraws(ds);
      Some(SummaryText(ds, nf, sf))
  }

  /** The summary lists the true counts of the 獎號 and of the 特別號. */
  lemma SummaryCounts(ds: seq<Draw>)
    requires ds != []
    ensures Summary(ds) == Some(SummaryText(ds, Tally(AllNumbers(ds)), Tally(Specials(ds))))
  {
    CountDrawsTallies(ds);
  }

  /**
   * The never-appeared line is there iff some number of 1..49 did not
   * occur, and it lists exactly those numbers, ascending.
   */
  lemma NeverLineSpec(tag: string, xs: seq<int>)
    ensures NeverLine(tag, Tally(xs)) != [] <==> exists n :: 1 <= n <= 49 && n !in xs
    ensures Increasing(NeverList(Tally(xs)))
    ensures forall n :: n in NeverList(Tally(xs)) <==> 1 <= n <= 49 && n !in xs
  {
    var t := Tally(xs);
    AscendingSpec(NeverAppeared(t), 1, 49);
    forall n
      ensures n in NeverAppeared(t) <==> 1 <= n <= 49 && n !in xs
    {
      NeverAppearedIff(xs, n);
    }
    if NeverAppeared(t) != {} {
      var n :| n in NeverAppeared(t);
      assert 1 <= n <= 49 && n !in xs;
    }
  }
}
