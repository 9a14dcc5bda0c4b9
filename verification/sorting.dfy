/**
 * Python's `sorted(xs, key=key, reverse=True)` and `xs.sort(key=key,
 * reverse=True)`: a stable sort into non-increasing key order. Stability
 * here means that the elements sharing a key keep the order they had in
 * `xs`; with `reverse=True` Python still keeps equal elements in their
 * original order.
 */
module Sorting {
  /** Non-increasing in `key`. */
  predicate Descending<T>(xs: seq<T>, key: T -> int) {
    forall i, j :: 0 <= i < j < |xs| ==> key(xs[i]) >= key(xs[j])
  }

  /** The elements of `xs` whose key is `k`, in their order in `xs`. */
  function WithKey<T>(xs: seq<T>, key: T -> int, k: int): (r: seq<T>)
    ensures |r| <= |xs|
  {
    if xs == [] then []
    else if key(xs[0]) == k then [xs[0]] + WithKey(xs[1..], key, k)
    else WithKey(xs[1..], key, k)
  }

  /** Puts `x` in front of the first element whose key is not above its own. */
  function Insert<T>(x: T, s: seq<T>, key: T -> int): (r: seq<T>)
    ensures |r| == |s| + 1
  {
    if s == [] || key(s[0]) <= key(x) then [x] + s
    else [s[0]] + Insert(x, s[1..], key)
  }

  /** The sort: each element, from the last to the first, goes in front of the equal keys already placed. */
  function SortDesc<T>(xs: seq<T>, key: T -> int): (r: seq<T>)
    ensures |r| == |xs|
  {
    if xs == [] then [] else Insert(xs[0], SortDesc(xs[1..], key), key)
  }

  lemma {:induction false} InsertPermutes<T>(x: T, s: seq<T>, key: T -> int)
    ensures multiset(Insert(x, s, key)) == multiset(s) + multiset{x}
  {
    if s != [] && key(s[0]) > key(x) {
      InsertPermutes(x, s[1..], key);
      assert s == [s[0]] + s[1..];
    }
  }

  /** The sort rearranges its input: same elements, same multiplicities. */
  lemma {:induction false} SortDescPermutes<T>(xs: seq<T>, key: T -> int)
    ensures multiset(SortDesc(xs, key)) == multiset(xs)
  {
    if xs != [] {
      SortDescPermutes(xs[1..], key);
      InsertPermutes(xs[0], SortDesc(xs[1..], key), key);
      assert xs == [xs[0]] + xs[1..];
    }
  }

  lemma DescendingTail<T>(s: seq<T>, key: T -> int)
    requires s != [] && Descending(s, key)
    ensures Descending(s[1..], key)
  {
    assert forall i, j :: 0 <= i < j < |s| - 1 ==> s[1..][i] == s[i + 1] && s[1..][j] == s[j + 1];
  }

  lemma DescendingCons<T>(x: T, s: seq<T>, key: T -> int)
    requires Descending(s, key)
    requires forall j :: 0 <= j < |s| ==> key(x) >= key(s[j])
    ensures Descending([x] + s, key)
  {
    var r := [x] + s;
    forall i, j | 0 <= i < j < |r|
      ensures key(r[i]) >= key(r[j])
    {
      assert r[j] == s[j - 1];
      if i > 0 {
        assert r[i] == s[i - 1];
      }
    }
  }

  /** What `Insert` puts first: `x`, or the head of `s`. */
  lemma InsertHead<T>(x: T, s: seq<T>, key: T -> int)
    ensures Insert(x, s, key)[0] == x || (s != [] && Insert(x, s, key)[0] == s[0])
  {
  }

  lemma {:induction false} InsertKeeps<T>(x: T, s: seq<T>, key: T -> int)
    requires Descending(s, key)
    ensures Descending(Insert(x, s, key), key)
  {
    if s == [] || key(s[0]) <= key(x) {
      DescendingCons(x, s, key);
    } else {
      DescendingTail(s, key);
      InsertKeeps(x, s[1..], key);
      var t := Insert(x, s[1..], key);
      InsertPermutes(x, s[1..], key);
      forall j | 0 <= j < |t|
        ensures key(s[0]) >= key(t[j])
      {
        assert t[j] in multiset(s[1..]) + multiset{x};
        if t[j] != x {
          assert t[j] in s[1..];
          var m :| 0 <= m < |s[1..]| && s[1..][m] == t[j];
          assert s[m + 1] == t[j];
        }
      }
      DescendingCons(s[0], t, key);
    }
  }

  /** The sort's result is in non-increasing key order. */
  lemma {:induction false} SortDescDescending<T>(xs: seq<T>, key: T -> int)
    ensures Descending(SortDesc(xs, key), key)
  {
    if xs != [] {
      SortDescDescending(xs[1..], key);
      InsertKeeps(xs[0], SortDesc(xs[1..], key), key);
    }
  }

  lemma {:induction false} InsertWithKey<T>(x: T, s: seq<T>, key: T -> int, k: int)
    requires Descending(s, key)
    ensures WithKey(Insert(x, s, key), key, k)
         == (if key(x) == k then [x] else []) + WithKey(s, key, k)
  {
    if s == [] || key(s[0]) <= key(x) {
      assert ([x] + s)[1..] == s;
    } else {
      DescendingTail(s, key);
      InsertWithKey(x, s[1..], key, k);
      var r := [s[0]] + Insert(x, s[1..], key);
      assert r[1..] == Insert(x, s[1..], key);
    }
  }

  /** Stability: for every key, the elements with that key come out in the order they went in. */
  lemma {:induction false} SortDescStable<T>(xs: seq<T>, key: T -> int, k: int)
    ensures WithKey(SortDesc(xs, key), key, k) == WithKey(xs, key, k)
  {
    if xs != [] {
      SortDescStable(xs[1..], key, k);
      SortDescDescending(xs[1..], key);
      InsertWithKey(xs[0], SortDesc(xs[1..], key), key, k);
    }
  }

  /** In a non-increasing sequence, the head has the largest key. */
  lemma HeadIsMax<T>(s: seq<T>, key: T -> int, y: T)
    requires s != [] && Descending(s, key) && y in s
    ensures key(y) <= key(s[0])
  {
    var m :| 0 <= m < |s| && s[m] == y;
    if m > 0 {
      assert key(s[0]) >= key(s[m]);
    }
  }

  lemma {:induction false} WithKeyMembers<T>(s: seq<T>, key: T -> int, k: int, y: T)
    ensures y in WithKey(s, key, k) <==> y in s && key(y) == k
  {
    if s != [] {
      WithKeyMembers(s[1..], key, k, y);
      assert y in s <==> y == s[0] || y in s[1..] by {
        assert s == [s[0]] + s[1..];
      }
    }
  }

  /** Dropping the head removes it from its own key's elements only. */
  lemma WithKeyTail<T>(s: seq<T>, key: T -> int, k: int)
    requires s != []
    ensures key(s[0]) == k ==> WithKey(s[1..], key, k) == WithKey(s, key, k)[1..]
    ensures key(s[0]) != k ==> WithKey(s[1..], key, k) == WithKey(s, key, k)
  {
  }

  /**
   * The sort is the only stable descending arrangement: two non-increasing
   * sequences with the same elements, in the same order, for every key are
   * equal. So `SortDesc` is exactly Python's stable sort.
   */
  lemma {:induction false} StableDescendingUnique<T>(a: seq<T>, b: seq<T>, key: T -> int)
    requires Descending(a, key) && Descending(b, key)
    requires forall k :: WithKey(a, key, k) == WithKey(b, key, k)
    ensures a == b
    decreases |a|
  {
    if a == [] {
      NoKeysEmpty(b, key);
    } else if b == [] {
      NoKeysEmpty(a, key);
    } else {
      SameHead(a, b, key);
      DescendingTail(a, key);
      DescendingTail(b, key);
      forall k
        ensures WithKey(a[1..], key, k) == WithKey(b[1..], key, k)
      {
        WithKeyTail(a, key, k);
        WithKeyTail(b, key, k);
        assert WithKey(a, key, k) == WithKey(b, key, k);
      }
      StableDescendingUnique(a[1..], b[1..], key);
      assert a == [a[0]] + a[1..] && b == [b[0]] + b[1..];
    }
  }

  lemma NoKeysEmpty<T>(s: seq<T>, key: T -> int)
    requires forall k :: WithKey(s, key, k) == []
    ensures s == []
  {
    if s != [] {
      HeadHasKey(s, key);
    }
  }

  lemma HeadHasKey<T>(s: seq<T>, key: T -> int)
    requires s != []
    ensures WithKey(s, key, key(s[0])) != []
  {
  }

  /** Two such sequences start with the same element. */
  lemma SameHead<T>(a: seq<T>, b: seq<T>, key: T -> int)
    requires a != [] && b != []
    requires Descending(a, key) && Descending(b, key)
    requires forall k :: WithKey(a, key, k) == WithKey(b, key, k)
    ensures a[0] == b[0]
  {
    var ka := key(a[0]);
    var kb := key(b[0]);
    assert WithKey(a, key, ka) == WithKey(b, key, ka);
    assert WithKey(a, key, kb) == WithKey(b, key, kb);
    WithKeyMembers(a, key, ka, a[0]);
    WithKeyMembers(b, key, ka, a[0]);
    WithKeyMembers(b, key, kb, b[0]);
    WithKeyMembers(a, key, kb, b[0]);
    HeadIsMax(b, key, a[0]);
    HeadIsMax(a, key, b[0]);
    assert WithKey(a, key, ka)[0] == a[0];
    assert WithKey(b, key, ka)[0] == b[0];
  }

  /** Some occurrence of `a` in `xs` comes before some occurrence of `b`. */
  ghost predicate Precedes<T>(xs: seq<T>, a: T, b: T) {
    exists p, q :: 0 <= p < q < |xs| && xs[p] == a && xs[q] == b
  }

  lemma PrecedesCons<T>(x: T, s: seq<T>, a: T, b: T)
    requires Precedes(s, a, b)
    ensures Precedes([x] + s, a, b)
  {
    var p, q :| 0 <= p < q < |s| && s[p] == a && s[q] == b;
    assert ([x] + s)[p + 1] == a && ([x] + s)[q + 1] == b;
  }

  lemma PrecedesHead<T>(s: seq<T>, b: T)
    requires s != [] && b in s[1..]
    ensures Precedes(s, s[0], b)
  {
    var q :| 0 <= q < |s[1..]| && s[1..][q] == b;
    assert s[q + 1] == b;
  }

  /** Two elements with the same key keep their order when only that key's elements are kept. */
  lemma {:induction false} PrecedesInWithKey<T>(s: seq<T>, key: T -> int, i: int, j: int)
    requires 0 <= i < j < |s| && key(s[i]) == key(s[j])
    ensures Precedes(WithKey(s, key, key(s[i])), s[i], s[j])
  {
    var k := key(s[i]);
    if i == 0 {
      assert s[j] == s[1..][j - 1];
      WithKeyMembers(s[1..], key, k, s[j]);
      PrecedesHead(WithKey(s, key, k), s[j]);
    } else {
      assert s[i] == s[1..][i - 1] && s[j] == s[1..][j - 1];
      PrecedesInWithKey(s[1..], key, i - 1, j - 1);
      if key(s[0]) == k {
        PrecedesCons(s[0], WithKey(s[1..], key, k), s[i], s[j]);
      }
    }
  }

  /** ... and elements in order among one key's elements are in that order in the whole sequence. */
  lemma {:induction false} PrecedesFromWithKey<T>(s: seq<T>, key: T -> int, k: int, a: T, b: T)
    requires Precedes(WithKey(s, key, k), a, b)
    ensures Precedes(s, a, b)
  {
    var w := WithKey(s, key, k);
    var p, q :| 0 <= p < q < |w| && w[p] == a && w[q] == b;
    if key(s[0]) == k && p == 0 {
      assert b in WithKey(s[1..], key, k) by {
        assert w[q] == WithKey(s[1..], key, k)[q - 1];
      }
      WithKeyMembers(s[1..], key, k, b);
      PrecedesHead(s, b);
    } else {
      if key(s[0]) == k {
        assert w[p] == WithKey(s[1..], key, k)[p - 1] && w[q] == WithKey(s[1..], key, k)[q - 1];
      }
      PrecedesFromWithKey(s[1..], key, k, a, b);
      PrecedesCons(s[0], s[1..], a, b);
      assert s == [s[0]] + s[1..];
    }
  }

  /** Ties come out in input order: of two sorted elements with equal keys, the earlier one was earlier in `xs`. */
  lemma SortDescTiesInOrder<T>(xs: seq<T>, key: T -> int, i: int, j: int)
    requires 0 <= i < j < |xs| && key(SortDesc(xs, key)[i]) == key(SortDesc(xs, key)[j])
    ensures Precedes(xs, SortDesc(xs, key)[i], SortDesc(xs, key)[j])
  {
    var r := SortDesc(xs, key);
    var k := key(r[i]);
    PrecedesInWithKey(r, key, i, j);
    SortDescStable(xs, key, k);
    PrecedesFromWithKey(xs, key, k, r[i], r[j]);
  }
}
