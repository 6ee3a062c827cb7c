/**
 * Sequence operations the components share: counting occurrences, the
 * distinct elements in order of first occurrence (the key order of a `Map` or
 * of a dictionary filled by a loop), the stable sort of
 * `Array.prototype.sort` with a numeric comparator, and `slice(0, n)`.
 */
module Collections {

  /** Number of occurrences of x in s. */
  function Count<T(==)>(s: seq<T>, x: T): (n: nat)
    ensures n <= |s|
    ensures n > 0 <==> x in s
  {
    if s == [] then 0 else Count(s[..|s| - 1], x) + (if s[|s| - 1] == x then 1 else 0)
  }

  /** The distinct elements of s, each where it first occurs. */
  function Distinct<T(==)>(s: seq<T>): (d: seq<T>)
    ensures |d| <= |s|
  {
    if s == [] then []
    else
      var d := Distinct(s[..|s| - 1]);
      if s[|s| - 1] in d then d else d + [s[|s| - 1]]
  }

  predicate NoDuplicates<T(==)>(s: seq<T>)
  {
    forall i, j :: 0 <= i < j < |s| ==> s[i] != s[j]
  }

  lemma {:induction false} PrefixLast<T>(s: seq<T>, i: nat)
    requires i < |s|
    ensures s[..i + 1][..i] == s[..i] && s[..i + 1][i] == s[i]
  {
  }

  /** Distinct lists every element once and nothing else. */
  lemma {:induction false} DistinctProperties<T>(s: seq<T>)
    ensures NoDuplicates(Distinct(s))
    ensures forall x :: x in Distinct(s) <==> x in s
  {
    if s != [] {
      var p := s[..|s| - 1];
      DistinctProperties(p);
      assert s == p + [s[|s| - 1]];
    }
  }

  /** Extending the input by one element extends Distinct by it, if it is new. */
  lemma DistinctSnoc<T>(s: seq<T>, x: T)
    ensures Distinct(s + [x]) == if x in Distinct(s) then Distinct(s) else Distinct(s) + [x]
    ensures Count(s + [x], x) == Count(s, x) + 1
    ensures forall y :: y != x ==> Count(s + [x], y) == Count(s, y)
  {
    assert (s + [x])[..|s|] == s;
  }

  /** The counts of the distinct elements add up to the length. */
  lemma {:induction false} CountsSum<T>(s: seq<T>)
    ensures SumCounts(s, Distinct(s)) == |s|
  {
    if s != [] {
      var p, x := s[..|s| - 1], s[|s| - 1];
      assert s == p + [x];
      CountsSum(p);
      DistinctProperties(p);
      SumCountsSnoc(p, x, Distinct(p));
      if x !in Distinct(p) {
        SumCountsAppend(s, Distinct(p), [x]);
      }
    }
  }

  /** Sum of Count(s, x) over the elements x of keys. */
  function SumCounts<T(==)>(s: seq<T>, keys: seq<T>): nat
  {
    if keys == [] then 0 else Count(s, keys[0]) + SumCounts(s, keys[1..])
  }

  lemma {:induction false} SumCountsAppend<T>(s: seq<T>, a: seq<T>, b: seq<T>)
    ensures SumCounts(s, a + b) == SumCounts(s, a) + SumCounts(s, b)
  {
    if a == [] {
      assert a + b == b;
    } else {
      assert (a + b)[0] == a[0];
      assert (a + b)[1..] == a[1..] + b;
      SumCountsAppend(s, a[1..], b);
    }
  }

  /** One more x in the input adds one to the sum over keys that list x once. */
  lemma {:induction false} SumCountsSnoc<T>(s: seq<T>, x: T, keys: seq<T>)
    requires NoDuplicates(keys)
    ensures SumCounts(s + [x], keys) == SumCounts(s, keys) + (if x in keys then 1 else 0)
  {
    DistinctSnoc(s, x);
    if keys != [] {
      SumCountsSnoc(s, x, keys[1..]);
      assert x in keys <==> x == keys[0] || x in keys[1..];
      assert x == keys[0] ==> x !in keys[1..];
    }
  }

  /** The sum over keys depends only on the multiset of keys. */
  lemma {:induction false} SumCountsPermutation<T>(s: seq<T>, a: seq<T>, b: seq<T>)
    requires multiset(a) == multiset(b)
    ensures SumCounts(s, a) == SumCounts(s, b)
    decreases |a|
  {
    if a != [] {
      var x := a[0];
      assert x in multiset(b);
      var k :| 0 <= k < |b| && b[k] == x;
      var rest := b[..k] + b[k + 1..];
      assert b == b[..k] + [x] + b[k + 1..];
      assert multiset(a[1..]) == multiset(rest) by {
        assert a == [x] + a[1..];
        assert multiset(a) == multiset{x} + multiset(a[1..]);
        assert multiset(b) == multiset(b[..k]) + multiset{x} + multiset(b[k + 1..]);
        assert multiset(rest) == multiset(b[..k]) + multiset(b[k + 1..]);
        assert multiset(a[1..]) == multiset(a) - multiset{x};
        assert multiset(rest) == multiset(b) - multiset{x};
      }
      SumCountsPermutation(s, a[1..], rest);
      SumCountsAppend(s, b[..k] + [x], b[k + 1..]);
      SumCountsAppend(s, b[..k], [x]);
      SumCountsAppend(s, b[..k], b[k + 1..]);
    }
  }

  // ---------------------------------------------------------------------------
  // Stable sorting by a numeric key

  /** The elements of xs whose key is v, in their order in xs. */
  function KeyEq<T>(xs: seq<T>, key: T -> nat, v: nat): (r: seq<T>)
    ensures |r| <= |xs|
    ensures forall i :: 0 <= i < |r| ==> key(r[i]) == v
  {
    if xs == [] then [] else (if key(xs[0]) == v then [xs[0]] else []) + KeyEq(xs[1..], key, v)
  }

  /** The elements of xs whose key is at most v, in their order in xs. */
  function KeyAtMost<T>(xs: seq<T>, key: T -> nat, v: nat): (r: seq<T>)
  {
    if xs == [] then [] else (if key(xs[0]) <= v then [xs[0]] else []) + KeyAtMost(xs[1..], key, v)
  }

  /** The buckets of keys v, v - 1, …, 0, one after another. */
  function SortDown<T>(xs: seq<T>, key: T -> nat, v: nat): (r: seq<T>)
  {
    if v == 0 then KeyEq(xs, key, 0) else KeyEq(xs, key, v) + SortDown(xs, key, v - 1)
  }

  /** The buckets of keys 0, 1, …, v, one after another. */
  function SortUp<T>(xs: seq<T>, key: T -> nat, v: nat): (r: seq<T>)
  {
    if v == 0 then KeyEq(xs, key, 0) else SortUp(xs, key, v - 1) + KeyEq(xs, key, v)
  }

  /** The largest key in xs, or 0. */
  function MaxKey<T>(xs: seq<T>, key: T -> nat): (m: nat)
    ensures forall i :: 0 <= i < |xs| ==> key(xs[i]) <= m
  {
    if xs == [] then 0
    else
      var m := MaxKey(xs[1..], key);
      if key(xs[0]) > m then key(xs[0]) else m
  }

  /**
   * `xs.sort((a, b) => key(b) - key(a))`: larger keys first, and elements with
   * equal keys in their original order, because the sort is stable.
   */
  function SortDescending<T>(xs: seq<T>, key: T -> nat): (r: seq<T>)
  {
    SortDown(xs, key, MaxKey(xs, key))
  }

  /** `xs.sort((a, b) => key(a) - key(b))`, stable, smaller keys first. */
  function SortAscending<T>(xs: seq<T>, key: T -> nat): (r: seq<T>)
  {
    SortUp(xs, key, MaxKey(xs, key))
  }

  lemma {:induction false} KeyAtMostSplit<T>(xs: seq<T>, key: T -> nat, v: nat)
    requires v > 0
    ensures multiset(KeyAtMost(xs, key, v)) == multiset(KeyEq(xs, key, v)) + multiset(KeyAtMost(xs, key, v - 1))
  {
    if xs != [] {
      KeyAtMostSplit(xs[1..], key, v);
    }
  }

  /** Replacing one side of a union by an equal multiset. */
  lemma UnionCongruence<T>(a: multiset<T>, b: multiset<T>, c: multiset<T>)
    requires b == c
    ensures a + b == a + c
  {
  }

  lemma {:induction false} KeyAtMostAll<T>(xs: seq<T>, key: T -> nat, v: nat)
    requires forall i :: 0 <= i < |xs| ==> key(xs[i]) <= v
    ensures KeyAtMost(xs, key, v) == xs
  {
    if xs != [] {
      KeyAtMostAll(xs[1..], key, v);
    }
  }

  lemma {:induction false} KeyAtMostZero<T>(xs: seq<T>, key: T -> nat)
    ensures KeyAtMost(xs, key, 0) == KeyEq(xs, key, 0)
  {
    if xs != [] {
      KeyAtMostZero(xs[1..], key);
    }
  }

  lemma {:induction false} SortDownElements<T>(xs: seq<T>, key: T -> nat, v: nat)
    ensures multiset(SortDown(xs, key, v)) == multiset(KeyAtMost(xs, key, v))
  {
    if v == 0 {
      KeyAtMostZero(xs, key);
    } else {
      SortDownStep(xs, key, v);
      SortDownElements(xs, key, v - 1);
      KeyAtMostSplit(xs, key, v);
      UnionCongruence(multiset(KeyEq(xs, key, v)), multiset(SortDown(xs, key, v - 1)), multiset(KeyAtMost(xs, key, v - 1)));
    }
  }

  lemma SortDownStep<T>(xs: seq<T>, key: T -> nat, v: nat)
    requires v > 0
    ensures multiset(SortDown(xs, key, v)) == multiset(KeyEq(xs, key, v)) + multiset(SortDown(xs, key, v - 1))
  {
    assert SortDown(xs, key, v) == KeyEq(xs, key, v) + SortDown(xs, key, v - 1);
  }

  lemma {:induction false} SortUpElements<T>(xs: seq<T>, key: T -> nat, v: nat)
    ensures multiset(SortUp(xs, key, v)) == multiset(KeyAtMost(xs, key, v))
  {
    if v == 0 {
      KeyAtMostZero(xs, key);
    } else {
      SortUpStep(xs, key, v);
      SortUpElements(xs, key, v - 1);
      KeyAtMostSplit(xs, key, v);
      UnionCongruence(multiset(KeyEq(xs, key, v)), multiset(SortUp(xs, key, v - 1)), multiset(KeyAtMost(xs, key, v - 1)));
    }
  }

  lemma SortUpStep<T>(xs: seq<T>, key: T -> nat, v: nat)
    requires v > 0
    ensures multiset(SortUp(xs, key, v)) == multiset(KeyEq(xs, key, v)) + multiset(SortUp(xs, key, v - 1))
  {
    assert SortUp(xs, key, v) == SortUp(xs, key, v - 1) + KeyEq(xs, key, v);
  }

  /** Every key in SortDown(xs, key, v) is at most v. */
  lemma {:induction false} SortDownBounded<T>(xs: seq<T>, key: T -> nat, v: nat)
    ensures forall i :: 0 <= i < |SortDown(xs, key, v)| ==> key(SortDown(xs, key, v)[i]) <= v
  {
    if v > 0 {
      SortDownBounded(xs, key, v - 1);
      var r := SortDown(xs, key, v);
      var a := KeyEq(xs, key, v);
      forall i | 0 <= i < |r| ensures key(r[i]) <= v {
        if i >= |a| {
          assert r[i] == SortDown(xs, key, v - 1)[i - |a|];
        }
      }
    }
  }

  lemma {:induction false} SortUpBounded<T>(xs: seq<T>, key: T -> nat, v: nat)
    ensures forall i :: 0 <= i < |SortUp(xs, key, v)| ==> key(SortUp(xs, key, v)[i]) <= v
  {
    if v > 0 {
      SortUpBounded(xs, key, v - 1);
      var r := SortUp(xs, key, v);
      var a := SortUp(xs, key, v - 1);
      forall i | 0 <= i < |r| ensures key(r[i]) <= v {
        if i < |a| {
          assert r[i] == a[i];
        }
      }
    }
  }

  /** SortDown puts larger keys first. */
  lemma {:induction false} SortDownOrdered<T>(xs: seq<T>, key: T -> nat, v: nat)
    ensures forall i, j :: 0 <= i < j < |SortDown(xs, key, v)| ==> key(SortDown(xs, key, v)[i]) >= key(SortDown(xs, key, v)[j])
  {
    if v > 0 {
      SortDownOrdered(xs, key, v - 1);
      SortDownBounded(xs, key, v - 1);
      var r := SortDown(xs, key, v);
      var a, b := KeyEq(xs, key, v), SortDown(xs, key, v - 1);
      forall i, j | 0 <= i < j < |r| ensures key(r[i]) >= key(r[j]) {
        if j < |a| {
          assert r[i] == a[i] && r[j] == a[j];
        } else if i < |a| {
          assert r[i] == a[i] && r[j] == b[j - |a|];
        } else {
          assert r[i] == b[i - |a|] && r[j] == b[j - |a|];
        }
      }
    }
  }

  /** SortUp puts smaller keys first. */
  lemma {:induction false} SortUpOrdered<T>(xs: seq<T>, key: T -> nat, v: nat)
    ensures forall i, j :: 0 <= i < j < |SortUp(xs, key, v)| ==> key(SortUp(xs, key, v)[i]) <= key(SortUp(xs, key, v)[j])
  {
    if v > 0 {
      SortUpOrdered(xs, key, v - 1);
      SortUpBounded(xs, key, v - 1);
      var r := SortUp(xs, key, v);
      var a, b := SortUp(xs, key, v - 1), KeyEq(xs, key, v);
      forall i, j | 0 <= i < j < |r| ensures key(r[i]) <= key(r[j]) {
        if j < |a| {
          assert r[i] == a[i] && r[j] == a[j];
          assert key(a[i]) <= key(a[j]);
        } else if i < |a| {
          assert r[i] == a[i] && r[j] == b[j - |a|];
        } else {
          assert r[i] == b[i - |a|] && r[j] == b[j - |a|];
        }
      }
    }
  }

  lemma {:induction false} KeyEqAppend<T>(a: seq<T>, b: seq<T>, key: T -> nat, c: nat)
    ensures KeyEq(a + b, key, c) == KeyEq(a, key, c) + KeyEq(b, key, c)
  {
    if a == [] {
      assert a + b == b;
    } else {
      assert (a + b)[0] == a[0];
      assert (a + b)[1..] == a[1..] + b;
      KeyEqAppend(a[1..], b, key, c);
    }
  }

  lemma {:induction false} KeyEqOfKeyEq<T>(xs: seq<T>, key: T -> nat, v: nat, c: nat)
    ensures KeyEq(KeyEq(xs, key, v), key, c) == if v == c then KeyEq(xs, key, v) else []
  {
    if xs != [] {
      KeyEqOfKeyEq(xs[1..], key, v, c);
      assert KeyEq([], key, c) == [];
      if key(xs[0]) != v {
        assert KeyEq(xs, key, v) == KeyEq(xs[1..], key, v);
      } else {
        assert KeyEq(xs, key, v) == [xs[0]] + KeyEq(xs[1..], key, v);
        KeyEqAppend([xs[0]], KeyEq(xs[1..], key, v), key, c);
        assert [xs[0]][1..] == [];
      }
    }
  }

  /** Stability: the elements of one key keep their order. */
  lemma {:induction false} SortDownStable<T>(xs: seq<T>, key: T -> nat, v: nat, c: nat)
    ensures KeyEq(SortDown(xs, key, v), key, c) == if c <= v then KeyEq(xs, key, c) else []
  {
    KeyEqOfKeyEq(xs, key, v, c);
    if v > 0 {
      SortDownStable(xs, key, v - 1, c);
      KeyEqAppend(KeyEq(xs, key, v), SortDown(xs, key, v - 1), key, c);
    }
  }

  lemma {:induction false} SortUpStable<T>(xs: seq<T>, key: T -> nat, v: nat, c: nat)
    ensures KeyEq(SortUp(xs, key, v), key, c) == if c <= v then KeyEq(xs, key, c) else []
  {
    KeyEqOfKeyEq(xs, key, v, c);
    if v > 0 {
      SortUpStable(xs, key, v - 1, c);
      KeyEqAppend(SortUp(xs, key, v - 1), KeyEq(xs, key, v), key, c);
    }
  }

  /**
   * The descending sort is a permutation of its input, has non-increasing
   * keys, and keeps elements with equal keys in their original order.
   */
  lemma SortDescendingCorrect<T>(xs: seq<T>, key: T -> nat)
    ensures multiset(SortDescending(xs, key)) == multiset(xs)
    ensures var r := SortDescending(xs, key);
      forall i, j :: 0 <= i < j < |r| ==> key(r[i]) >= key(r[j])
    ensures forall c :: KeyEq(SortDescending(xs, key), key, c) == KeyEq(xs, key, c)
  {
    var m := MaxKey(xs, key);
    SortDownElements(xs, key, m);
    KeyAtMostAll(xs, key, m);
    SortDownOrdered(xs, key, m);
    forall c ensures KeyEq(SortDescending(xs, key), key, c) == KeyEq(xs, key, c) {
      SortDownStable(xs, key, m, c);
      if c > m {
        KeyEqBeyond(xs, key, c);
      }
    }
  }

  /** The ascending sort is a permutation, has non-decreasing keys, and is stable. */
  lemma SortAscendingCorrect<T>(xs: seq<T>, key: T -> nat)
    ensures multiset(SortAscending(xs, key)) == multiset(xs)
    ensures var r := SortAscending(xs, key);
      forall i, j :: 0 <= i < j < |r| ==> key(r[i]) <= key(r[j])
    ensures forall c :: KeyEq(SortAscending(xs, key), key, c) == KeyEq(xs, key, c)
  {
    var m := MaxKey(xs, key);
    SortUpElements(xs, key, m);
    KeyAtMostAll(xs, key, m);
    SortUpOrdered(xs, key, m);
    forall c ensures KeyEq(SortAscending(xs, key), key, c) == KeyEq(xs, key, c) {
      SortUpStable(xs, key, m, c);
      if c > m {
        KeyEqBeyond(xs, key, c);
      }
    }
  }

  lemma {:induction false} KeyEqBeyond<T>(xs: seq<T>, key: T -> nat, c: nat)
    requires c > MaxKey(xs, key)
    ensures KeyEq(xs, key, c) == []
  {
    if xs != [] {
      KeyEqBeyond(xs[1..], key, c);
    }
  }

  /** An element found at two indices has multiplicity at least two. */
  lemma PairCount<T>(s: seq<T>, i: nat, j: nat)
    requires i < j < |s| && s[i] == s[j]
    ensures multiset(s)[s[i]] >= 2
  {
    assert s == s[..i] + [s[i]] + s[i + 1..j] + [s[j]] + s[j + 1..];
  }

  /** An element of a duplicate-free sequence has multiplicity one. */
  lemma {:induction false} DistinctOnce<T>(s: seq<T>, x: T)
    requires NoDuplicates(s)
    ensures multiset(s)[x] <= 1
  {
    if s != [] {
      DistinctOnce(s[1..], x);
      assert s == [s[0]] + s[1..];
      assert s[0] !in s[1..];
    }
  }

  /** A permutation of a duplicate-free sequence is duplicate-free. */
  lemma NoDuplicatesPermutation<T>(a: seq<T>, b: seq<T>)
    requires multiset(a) == multiset(b) && NoDuplicates(a)
    ensures NoDuplicates(b)
  {
    forall i, j | 0 <= i < j < |b|
      ensures b[i] != b[j]
    {
      if b[i] == b[j] {
        PairCount(b, i, j);
        DistinctOnce(a, b[i]);
      }
    }
  }

  /** `xs.slice(0, n)` */
  function Take<T>(xs: seq<T>, n: nat): (r: seq<T>)
    ensures |r| == if |xs| < n then |xs| else n
    ensures r == xs[..|r|]
  {
    if |xs| <= n then xs else xs[..n]
  }

  /**
   * The first n of a stable sort by descending key: elements of xs, by
   * non-increasing key, and for each key a prefix of the elements with that
   * key in their order in xs.
   */
  lemma TopByKey<T>(xs: seq<T>, key: T -> nat, n: nat)
    ensures |Take(SortDescending(xs, key), n)| <= n
    ensures forall i :: 0 <= i < |Take(SortDescending(xs, key), n)| ==> Take(SortDescending(xs, key), n)[i] in xs
    ensures forall i, j :: 0 <= i < j < |Take(SortDescending(xs, key), n)| ==>
      key(Take(SortDescending(xs, key), n)[i]) >= key(Take(SortDescending(xs, key), n)[j])
    ensures forall c :: KeyEq(Take(SortDescending(xs, key), n), key, c) <= KeyEq(xs, key, c)
  {
    var sorted := SortDescending(xs, key);
    var r := Take(sorted, n);
    SortDescendingCorrect(xs, key);
    forall i | 0 <= i < |r|
      ensures r[i] in xs
    {
      assert r[i] == sorted[i];
      assert sorted[i] in multiset(xs);
    }
    forall c
      ensures KeyEq(r, key, c) <= KeyEq(xs, key, c)
    {
      PrefixKeyEq(r, sorted, key, c);
    }
  }

  /** The elements with a given key in a prefix form a prefix of those in the whole. */
  lemma PrefixKeyEq<T>(r: seq<T>, s: seq<T>, key: T -> nat, c: nat)
    requires |r| <= |s| && r == s[..|r|]
    ensures KeyEq(r, key, c) <= KeyEq(s, key, c)
  {
    var rest := s[|r|..];
    assert s == r + rest;
    KeyEqAppend(r, rest, key, c);
    var x, y := KeyEq(r, key, c), KeyEq(rest, key, c);
    assert (x + y)[..|x|] == x;
  }

  /** Sorting one element gives it back. */
  lemma SortDescendingSingle<T>(x: T, key: T -> nat)
    ensures SortDescending([x], key) == [x]
  {
    SortDescendingCorrect([x], key);
    var sorted := SortDescending([x], key);
    assert |sorted| == 1 by {
      assert |multiset(sorted)| == |multiset([x])|;
    }
    assert sorted[0] in multiset([x]);
  }
}
