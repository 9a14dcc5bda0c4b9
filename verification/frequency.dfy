/**
 * The frequency counts over the draw records (Lottery_predict.py lines
 * 88-96, backend/main.py lines 228-234): a Python dict that bumps a
 * number's count, starting from 0, each time it occurs, kept here as its
 * item list in insertion order, since that order decides how ties come out of the stable sort.
 */
module Frequency {
  /** One draw as the crawler returns it: 期別, 開獎日期, 獎號 and 特別號. */
  datatype Draw = Draw(period: int, date: string, numbers: seq<int>, special: int)

  /** One `(number, count)` item of a frequency dict. */
  datatype Entry = Entry(number: int, count: nat)

  /** The dict's keys, in insertion order. */
  function Keys(t: seq<Entry>): (r: seq<int>)
    ensures |r| == |t|
    ensures forall i :: 0 <= i < |t| ==> r[i] == t[i].number
  {
    if t == [] then [] else [t[0].number] + Keys(t[1..])
  }

  /** The count a dict holds for `n`, or 0 when `n` is not a key. */
  function Get(t: seq<Entry>, n: int): nat {
    if t == [] then 0
    else if t[0].number == n then t[0].count
    else Get(t[1..], n)
  }

  /** One occurrence of `x` (backend/main.py line 233): bumps the count of `x` where it stands, or adds `x` last with count 1. */
  function Bump(t: seq<Entry>, x: int): (r: seq<Entry>)
    ensures |r| == |t| || |r| == |t| + 1
  {
    if t == [] then [Entry(x, 1)]
    else if t[0].number == x then [Entry(x, t[0].count + 1)] + t[1..]
    else [t[0]] + Bump(t[1..], x)
  }

  /** The counting loop: bumps each of `xs` in turn, starting from `t`. */
  function BumpAll(t: seq<Entry>, xs: seq<int>): seq<Entry> {
    if xs == [] then t else Bump(BumpAll(t, xs[..|xs| - 1]), xs[|xs| - 1])
  }

  /** The dict the counting loop builds from an empty one. */
  function Tally(xs: seq<int>): seq<Entry> {
    BumpAll([], xs)
  }

  /** No number is a key twice. */
  predicate Distinct(t: seq<Entry>) {
    forall i, j :: 0 <= i < j < |t| ==> t[i].number != t[j].number
  }

  /** The sum of the counts. */
  function Total(t: seq<Entry>): nat {
    if t == [] then 0 else t[0].count + Total(t[1..])
  }

  /** The position of the first `n` in `xs`. */
  function FirstIndex(xs: seq<int>, n: int): (r: nat)
    requires n in xs
    ensures r < |xs| && xs[r] == n && n !in xs[..r]
  {
    if xs[0] == n then 0
    else
      var r := 1 + FirstIndex(xs[1..], n);
      assert xs[..r] == [xs[0]] + xs[1..][..r - 1];
      r
  }

  // ---- one step of the loop ----

  lemma {:induction false} BumpGet(t: seq<Entry>, x: int, n: int)
    ensures Get(Bump(t, x), n) == Get(t, n) + (if n == x then 1 else 0)
  {
    if t != [] && t[0].number != x {
      BumpGet(t[1..], x, n);
    }
  }

  lemma {:induction false} BumpKeys(t: seq<Entry>, x: int)
    ensures Keys(Bump(t, x)) == Keys(t) + (if x in Keys(t) then [] else [x])
  {
    if t != [] && t[0].number != x {
      BumpKeys(t[1..], x);
      assert Keys(t) == [t[0].number] + Keys(t[1..]);
      assert x in Keys(t) <==> x in Keys(t[1..]);
    }
  }

  lemma {:induction false} BumpTotal(t: seq<Entry>, x: int)
    ensures Total(Bump(t, x)) == Total(t) + 1
  {
    if t != [] && t[0].number != x {
      BumpTotal(t[1..], x);
    } else if t != [] {
      assert (([Entry(x, t[0].count + 1)] + t[1..])[1..]) == t[1..];
    }
  }

  lemma {:induction false} BumpPositive(t: seq<Entry>, x: int)
    requires forall i :: 0 <= i < |t| ==> t[i].count >= 1
    ensures forall i :: 0 <= i < |Bump(t, x)| ==> Bump(t, x)[i].count >= 1
  {
    if t != [] && t[0].number != x {
      BumpPositive(t[1..], x);
      var r := Bump(t, x);
      assert forall i :: 1 <= i < |r| ==> r[i] == Bump(t[1..], x)[i - 1];
    }
  }

  lemma BumpDistinct(t: seq<Entry>, x: int)
    requires Distinct(t)
    ensures Distinct(Bump(t, x))
  {
    BumpKeys(t, x);
    var k := Keys(t);
    var r := Bump(t, x);
    forall i, j | 0 <= i < j < |r|
      ensures r[i].number != r[j].number
    {
      assert Keys(r)[i] == r[i].number && Keys(r)[j] == r[j].number;
      if j == |k| {
        assert x !in k && Keys(r)[j] == x && Keys(r)[i] == k[i];
      }
    }
  }

  // ---- the whole loop ----

  /** Invariant of the counting loop: the count of every number is what it was plus its occurrences. */
  lemma {:induction false} BumpAllGet(t: seq<Entry>, xs: seq<int>, n: int)
    ensures Get(BumpAll(t, xs), n) == Get(t, n) + multiset(xs)[n]
  {
    if xs != [] {
      var init := xs[..|xs| - 1];
      BumpAllGet(t, init, n);
      BumpGet(BumpAll(t, init), xs[|xs| - 1], n);
      assert xs == init + [xs[|xs| - 1]];
    }
  }

  lemma {:induction false} BumpAllKeys(t: seq<Entry>, xs: seq<int>, n: int)
    ensures n in Keys(BumpAll(t, xs)) <==> n in Keys(t) || n in xs
  {
    if xs != [] {
      var init := xs[..|xs| - 1];
      BumpAllKeys(t, init, n);
      BumpKeys(BumpAll(t, init), xs[|xs| - 1]);
      assert xs == init + [xs[|xs| - 1]];
    }
  }

  lemma {:induction false} BumpAllTotal(t: seq<Entry>, xs: seq<int>)
    ensures Total(BumpAll(t, xs)) == Total(t) + |xs|
  {
    if xs != [] {
      BumpAllTotal(t, xs[..|xs| - 1]);
      BumpTotal(BumpAll(t, xs[..|xs| - 1]), xs[|xs| - 1]);
    }
  }

  lemma {:induction false} BumpAllPositive(t: seq<Entry>, xs: seq<int>)
    requires forall i :: 0 <= i < |t| ==> t[i].count >= 1
    ensures forall i :: 0 <= i < |BumpAll(t, xs)| ==> BumpAll(t, xs)[i].count >= 1
  {
    if xs != [] {
      BumpAllPositive(t, xs[..|xs| - 1]);
      BumpPositive(BumpAll(t, xs[..|xs| - 1]), xs[|xs| - 1]);
    }
  }

  lemma {:induction false} BumpAllDistinct(t: seq<Entry>, xs: seq<int>)
    requires Distinct(t)
    ensures Distinct(BumpAll(t, xs))
  {
    if xs != [] {
      BumpAllDistinct(t, xs[..|xs| - 1]);
      BumpDistinct(BumpAll(t, xs[..|xs| - 1]), xs[|xs| - 1]);
    }
  }

  /** Counting `xs` then `ys` is counting `xs + ys`. */
  lemma {:induction false} BumpAllAppend(t: seq<Entry>, xs: seq<int>, ys: seq<int>)
    ensures BumpAll(t, xs + ys) == BumpAll(BumpAll(t, xs), ys)
    decreases |ys|
  {
    if ys == [] {
      assert xs + ys == xs;
    } else {
      var zs := xs + ys;
      assert zs[..|zs| - 1] == xs + ys[..|ys| - 1];
      BumpAllAppend(t, xs, ys[..|ys| - 1]);
    }
  }

  // ---- the finished dict ----

  /** In a dict without repeated keys, `get` of a key finds that key's own item. */
  lemma {:induction false} GetAt(t: seq<Entry>, i: int)
    requires Distinct(t) && 0 <= i < |t|
    ensures Get(t, t[i].number) == t[i].count
  {
    if i > 0 {
      assert t[0].number != t[i].number;
      assert Distinct(t[1..]) by {
        assert forall a, b :: 0 <= a < b < |t| - 1 ==> t[1..][a] == t[a + 1] && t[1..][b] == t[b + 1];
      }
      GetAt(t[1..], i - 1);
    }
  }

  /** The count the dict holds for `n` is the number of times `n` occurs. */
  lemma TallyGet(xs: seq<int>, n: int)
    ensures Get(Tally(xs), n) == multiset(xs)[n]
  {
    BumpAllGet([], xs, n);
  }

  /** The keys are exactly the numbers that occur. */
  lemma TallyKeys(xs: seq<int>, n: int)
    ensures n in Keys(Tally(xs)) <==> n in xs
  {
    BumpAllKeys([], xs, n);
  }

  /** Each item's count is the number of occurrences of its number, and every count is at least 1. */
  lemma TallyCounts(xs: seq<int>)
    ensures Distinct(Tally(xs))
    ensures forall i :: 0 <= i < |Tally(xs)| ==> Tally(xs)[i].count == multiset(xs)[Tally(xs)[i].number]
    ensures forall i :: 0 <= i < |Tally(xs)| ==> Tally(xs)[i].count >= 1
  {
    var t := Tally(xs);
    BumpAllDistinct([], xs);
    BumpAllPositive([], xs);
    forall i | 0 <= i < |t|
      ensures t[i].count == multiset(xs)[t[i].number]
    {
      GetAt(t, i);
      TallyGet(xs, t[i].number);
    }
  }

  /** The counts add up to the number of values counted. */
  lemma TallyTotal(xs: seq<int>)
    ensures Total(Tally(xs)) == |xs|
  {
    BumpAllTotal([], xs);
  }

  lemma FirstIndexAppend(xs: seq<int>, x: int, n: int)
    requires n in xs
    ensures FirstIndex(xs + [x], n) == FirstIndex(xs, n)
  {
    var r := FirstIndex(xs, n);
    assert (xs + [x])[r] == n && (xs + [x])[..r] == xs[..r];
    var r2 := FirstIndex(xs + [x], n);
    FirstOccurrence(xs + [x], n, r, r2);
  }

  /** Two positions of `n`, each with no `n` before it, are the same position. */
  lemma FirstOccurrence(ys: seq<int>, n: int, a: nat, b: nat)
    requires a < |ys| && ys[a] == n && n !in ys[..a]
    requires b < |ys| && ys[b] == n && n !in ys[..b]
    ensures a == b
  {
    PrefixHas(ys, a, b);
    PrefixHas(ys, b, a);
  }

  lemma PrefixHas(ys: seq<int>, a: nat, b: nat)
    ensures a < b <= |ys| ==> ys[a] in ys[..b]
  {
    if a < b <= |ys| {
      assert ys[..b][a] == ys[a];
    }
  }

  /** The items stand in the order of their numbers' first occurrences in `xs`. */
  predicate FirstEncounterOrder(t: seq<Entry>, xs: seq<int>) {
    && (forall i :: 0 <= i < |t| ==> t[i].number in xs)
    && forall i, j :: 0 <= i < j < |t| ==> FirstIndex(xs, t[i].number) < FirstIndex(xs, t[j].number)
  }

  /** The keys stand in the order of their numbers' first occurrences: Python dicts keep insertion order. */
  lemma {:induction false} TallyFirstEncounter(xs: seq<int>)
    ensures FirstEncounterOrder(Tally(xs), xs)
  {
    if xs != [] {
      var init := xs[..|xs| - 1];
      var x := xs[|xs| - 1];
      TallyFirstEncounter(init);
      assert xs == init + [x];
      FirstEncounterStep(init, x);
    }
  }

  lemma FirstEncounterStep(init: seq<int>, x: int)
    requires FirstEncounterOrder(Tally(init), init)
    ensures FirstEncounterOrder(Tally(init + [x]), init + [x])
  {
    var xs := init + [x];
    assert xs[..|xs| - 1] == init;
    var t0 := Tally(init);
    var t := Tally(xs);
    assert t == Bump(t0, x);
    BumpKeys(t0, x);
    forall i | 0 <= i < |t0|
      ensures t[i].number == t0[i].number && t0[i].number in init
    {
      assert Keys(t)[i] == Keys(t0)[i];
    }
    forall i | 0 <= i < |t|
      ensures t[i].number in xs
    {
      if i == |t0| {
        assert Keys(t)[i] == x;
      }
    }
    forall i, j | 0 <= i < j < |t|
      ensures FirstIndex(xs, t[i].number) < FirstIndex(xs, t[j].number)
    {
      FirstIndexAppend(init, x, t0[i].number);
      if j < |t0| {
        FirstIndexAppend(init, x, t0[j].number);
      } else {
        assert Keys(t)[j] == x && x !in Keys(t0);
        TallyKeys(init, x);
        assert x !in xs[..|init|];
      }
    }
  }

  // ---- the draws ----

  /** Every 獎號 of every draw, draw after draw. */
  function AllNumbers(ds: seq<Draw>): (r: seq<int>) {
    if ds == [] then [] else AllNumbers(ds[..|ds| - 1]) + ds[|ds| - 1].numbers
  }

  /** The 特別號 of every draw. */
  function Specials(ds: seq<Draw>): (r: seq<int>)
    ensures |r| == |ds|
    ensures forall i :: 0 <= i < |ds| ==> r[i] == ds[i].special
  {
    if ds == [] then [] else Specials(ds[..|ds| - 1]) + [ds[|ds| - 1].special]
  }

  /**
   * The source's loop: for each draw, count its 獎號 into the first dict,
   * then its 特別號 into the second.
   */
  function CountDraws(ds: seq<Draw>): (seq<Entry>, seq<Entry>) {
    if ds == [] then ([], [])
    else
      var (nf, sf) := CountDraws(ds[..|ds| - 1]);
      (BumpAll(nf, ds[|ds| - 1].numbers), Bump(sf, ds[|ds| - 1].special))
  }

  /** The interleaved loop builds each dict as if it counted its own values alone. */
  lemma {:induction false} CountDrawsTallies(ds: seq<Draw>)
    ensures CountDraws(ds) == (Tally(AllNumbers(ds)), Tally(Specials(ds)))
  {
    if ds != [] {
      var init := ds[..|ds| - 1];
      var d := ds[|ds| - 1];
      CountDrawsTallies(init);
      BumpAllAppend([], AllNumbers(init), d.numbers);
      var sp := Specials(ds);
      assert sp[..|sp| - 1] == Specials(init);
    }
  }

  /** All the 獎號 together: as many as the draws hold between them; six per draw for well-formed draws. */
  lemma {:induction false} AllNumbersLength(ds: seq<Draw>)
    requires forall i :: 0 <= i < |ds| ==> |ds[i].numbers| == 6
    ensures |AllNumbers(ds)| == 6 * |ds|
  {
    if ds != [] {
      AllNumbersLength(ds[..|ds| - 1]);
    }
  }

  /** Each table's counts sum to the values counted: 6 per draw for the 獎號, one per draw for the 特別號. */
  lemma DrawTotals(ds: seq<Draw>)
    requires forall i :: 0 <= i < |ds| ==> |ds[i].numbers| == 6
    ensures Total(CountDraws(ds).0) == 6 * |ds|
    ensures Total(CountDraws(ds).1) == |ds|
  {
    CountDrawsTallies(ds);
    TallyTotal(AllNumbers(ds));
    TallyTotal(Specials(ds));
    AllNumbersLength(ds);
  }

  // ---- numbers that never appeared ----

  /** The numbers 1 to 49 that are not keys of the dict (Lottery_predict.py lines 105-107). */
  function NeverAppeared(t: seq<Entry>): (r: set<int>)
    ensures forall n :: n in r ==> 1 <= n <= 49
  {
    set n | 1 <= n <= 49 && n !in Keys(t)
  }

  /** A number never appeared iff it is in 1..49 and occurs nowhere in the counted values. */
  lemma NeverAppearedIff(xs: seq<int>, n: int)
    ensures n in NeverAppeared(Tally(xs)) <==> 1 <= n <= 49 && n !in xs
  {
    TallyKeys(xs, n);
  }

  /** The never-appeared numbers and the numbers of 1..49 that did appear split 1..49 between them. */
  lemma NeverAppearedPartition(xs: seq<int>)
    ensures forall n :: n in NeverAppeared(Tally(xs)) ==> n !in xs
    ensures forall n :: 1 <= n <= 49 ==> n in NeverAppeared(Tally(xs)) || n in xs
  {
    forall n
      ensures n in NeverAppeared(Tally(xs)) <==> 1 <= n <= 49 && n !in xs
    {
      NeverAppearedIff(xs, n);
    }
  }

  /** The members of `s` in `lo..hi`, ascending: all of `s`, sorted, when `s` lies in that range. */
  function Ascending(s: set<int>, lo: int, hi: int): (r: seq<int>)
    decreases hi - lo + 1
  {
    if lo > hi then []
    else if lo in s then [lo] + Ascending(s, lo + 1, hi)
    else Ascending(s, lo + 1, hi)
  }

  predicate Increasing(xs: seq<int>) {
    forall i, j :: 0 <= i < j < |xs| ==> xs[i] < xs[j]
  }

  /** The list holds exactly the members of the set within the range, and it is strictly ascending. */
  lemma {:induction false} AscendingSpec(s: set<int>, lo: int, hi: int)
    ensures forall n :: n in Ascending(s, lo, hi) <==> lo <= n <= hi && n in s
    ensures Increasing(Ascending(s, lo, hi))
    decreases hi - lo + 1
  {
    if lo <= hi {
      AscendingSpec(s, lo + 1, hi);
      var rest := Ascending(s, lo + 1, hi);
      if lo in s {
        var r := [lo] + rest;
        forall i, j | 0 <= i < j < |r|
          ensures r[i] < r[j]
        {
          assert r[j] == rest[j - 1] && r[j] in rest;
          if i > 0 {
            assert r[i] == rest[i - 1];
          }
        }
      }
    }
  }

  /** A set has one ascending listing: two strictly ascending lists with the same members are equal. */
  lemma {:induction false} IncreasingUnique(a: seq<int>, b: seq<int>)
    requires Increasing(a) && Increasing(b)
    requires forall n :: n in a <==> n in b
    ensures a == b
  {
    HeadIn(a);
    HeadIn(b);
    if a != [] && b != [] {
      assert a[0] in b && b[0] in a;
      var i :| 0 <= i < |b| && b[i] == a[0];
      var j :| 0 <= j < |a| && a[j] == b[0];
      IncreasingFromHead(b, i);
      IncreasingFromHead(a, j);
      forall n
        ensures n in a[1..] <==> n in b[1..]
      {
        if n in a[1..] {
          var k :| 0 <= k < |a[1..]| && a[1..][k] == n;
          assert a[0] < a[k + 1];
        }
        if n in b[1..] {
          var k :| 0 <= k < |b[1..]| && b[1..][k] == n;
          assert b[0] < b[k + 1];
        }
        assert n in a <==> n == a[0] || n in a[1..] by { assert a == [a[0]] + a[1..]; }
        assert n in b <==> n == b[0] || n in b[1..] by { assert b == [b[0]] + b[1..]; }
      }
      assert Increasing(a[1..]) && Increasing(b[1..]);
      IncreasingUnique(a[1..], b[1..]);
      assert a == [a[0]] + a[1..] && b == [b[0]] + b[1..];
    }
  }

  lemma IncreasingFromHead(a: seq<int>, i: int)
    requires Increasing(a) && 0 <= i < |a|
    ensures a[0] <= a[i]
  {
  }

  lemma HeadIn(a: seq<int>)
    ensures a != [] ==> a[0] in a
  {
  }
}
