/** Sequence operations shared by the views: an order-preserving filter
    (`Array.prototype.filter`) and a stable insertion sort by a rank
    (`Array.prototype.sort`, which is stable, given a consistent comparator). */
module Seqs {

  /** Keeps the elements that satisfy `p`, in their original order. */
  function Filter<T(!new)>(s: seq<T>, p: T -> bool): (r: seq<T>)
    ensures |r| <= |s|
    ensures forall x :: x in r <==> x in s && p(x)
  {
    if s == [] then []
    else
      assert s == [s[0]] + s[1..];
      (if p(s[0]) then [s[0]] else []) + Filter(s[1..], p)
  }

  /** Filtering keeps every occurrence of a kept element and none of a dropped one. */
  lemma {:induction false} FilterCounts<T(!new)>(s: seq<T>, p: T -> bool)
    ensures forall x :: multiset(Filter(s, p))[x] == if p(x) then multiset(s)[x] else 0
  {
    if s != [] {
      assert s == [s[0]] + s[1..];
      FilterCounts(s[1..], p);
    }
  }

  lemma {:induction false} FilterConcat<T(!new)>(a: seq<T>, b: seq<T>, p: T -> bool)
    ensures Filter(a + b, p) == Filter(a, p) + Filter(b, p)
  {
    if a == [] {
      assert a + b == b;
    } else {
      assert (a + b)[0] == a[0];
      assert (a + b)[1..] == a[1..] + b;
      FilterConcat(a[1..], b, p);
    }
  }

  /** Filtering after appending one element. */
  lemma {:induction false} FilterSnoc<T(!new)>(s: seq<T>, x: T, p: T -> bool)
    ensures Filter(s + [x], p) == Filter(s, p) + (if p(x) then [x] else [])
  {
    FilterConcat(s, [x], p);
    assert [x][1..] == [];
  }

  lemma {:induction false} FilterKeepsAll<T(!new)>(s: seq<T>, p: T -> bool)
    requires forall x :: x in s ==> p(x)
    ensures Filter(s, p) == s
  {
    if s != [] {
      assert s == [s[0]] + s[1..];
      FilterKeepsAll(s[1..], p);
    }
  }

  lemma {:induction false} FilterDropsAll<T(!new)>(s: seq<T>, p: T -> bool)
    requires forall x :: x in s ==> !p(x)
    ensures Filter(s, p) == []
  {
    if s != [] {
      assert s == [s[0]] + s[1..];
      FilterDropsAll(s[1..], p);
    }
  }

  /** Two predicates that agree on the elements of `s` select the same subsequence. */
  lemma {:induction false} FilterAgree<T(!new)>(s: seq<T>, p: T -> bool, q: T -> bool)
    requires forall x :: x in s ==> p(x) == q(x)
    ensures Filter(s, p) == Filter(s, q)
  {
    if s != [] {
      assert s == [s[0]] + s[1..];
      FilterAgree(s[1..], p, q);
    }
  }

  /** A sort position, ordered lexicographically: first by tier, then by value. */
  datatype Rank = Rank(tier: int, value: int)

  predicate RankLe(a: Rank, b: Rank) {
    a.tier < b.tier || (a.tier == b.tier && a.value <= b.value)
  }

  ghost predicate SortedBy<T>(s: seq<T>, key: T -> Rank) {
    forall i, j :: 0 <= i < j < |s| ==> RankLe(key(s[i]), key(s[j]))
  }

  /** Inserts `x` before the first element it does not rank after. */
  function Insert<T>(x: T, s: seq<T>, key: T -> Rank): seq<T> {
    if s == [] then [x]
    else if RankLe(key(x), key(s[0])) then [x] + s
    else [s[0]] + Insert(x, s[1..], key)
  }

  /** Inserting adds exactly one occurrence of `x`. */
  lemma {:induction false} InsertCounts<T>(x: T, s: seq<T>, key: T -> Rank)
    ensures multiset(Insert(x, s, key)) == multiset(s) + multiset{x}
  {
    if s != [] && !RankLe(key(x), key(s[0])) {
      assert s == [s[0]] + s[1..];
      InsertCounts(x, s[1..], key);
    }
  }

  /** Stable insertion sort: ascending by `key`, equal ranks in input order. */
  function SortByKey<T>(s: seq<T>, key: T -> Rank): (r: seq<T>)
    ensures multiset(r) == multiset(s)
    ensures |r| == |s|
  {
    if s == [] then []
    else
      assert s == [s[0]] + s[1..];
      InsertCounts(s[0], SortByKey(s[1..], key), key);
      Insert(s[0], SortByKey(s[1..], key), key)
  }

  lemma {:induction false} InsertSorted<T>(x: T, s: seq<T>, key: T -> Rank)
    requires SortedBy(s, key)
    ensures SortedBy(Insert(x, s, key), key)
  {
    if s == [] {
    } else if RankLe(key(x), key(s[0])) {
      HeadBelowAll(s, key);
      assert s == [s[0]] + s[1..];
      ConsSorted(x, s, key);
    } else {
      var t := s[1..];
      InsertSorted(x, t, key);
      HeadBelowAll(s, key);
      var r' := Insert(x, t, key);
      InsertCounts(x, t, key);
      forall y | y in r' ensures RankLe(key(s[0]), key(y)) {
        assert y in multiset(r');
      }
      ConsSorted(s[0], r', key);
    }
  }

  lemma {:induction false} SortByKeySorted<T>(s: seq<T>, key: T -> Rank)
    ensures SortedBy(SortByKey(s, key), key)
  {
    if s != [] {
      SortByKeySorted(s[1..], key);
      InsertSorted(s[0], SortByKey(s[1..], key), key);
    }
  }

  /** The elements whose rank is exactly `k`, in order. */
  function WithRank<T>(s: seq<T>, key: T -> Rank, k: Rank): seq<T> {
    if s == [] then []
    else (if key(s[0]) == k then [s[0]] else []) + WithRank(s[1..], key, k)
  }

  lemma {:induction false} WithRankConcat<T>(a: seq<T>, b: seq<T>, key: T -> Rank, k: Rank)
    ensures WithRank(a + b, key, k) == WithRank(a, key, k) + WithRank(b, key, k)
  {
    if a == [] {
      assert a + b == b;
    } else {
      assert (a + b)[0] == a[0];
      assert (a + b)[1..] == a[1..] + b;
      WithRankConcat(a[1..], b, key, k);
    }
  }

  /** Selecting one rank from a sequence with a given head. */
  lemma WithRankCons<T>(y: T, t: seq<T>, key: T -> Rank, k: Rank)
    ensures WithRank([y] + t, key, k) == (if key(y) == k then [y] else []) + WithRank(t, key, k)
  {
    assert ([y] + t)[0] == y;
    assert ([y] + t)[1..] == t;
  }

  lemma {:induction false} InsertStable<T>(x: T, s: seq<T>, key: T -> Rank, k: Rank)
    ensures WithRank(Insert(x, s, key), key, k)
         == (if key(x) == k then [x] else []) + WithRank(s, key, k)
  {
    if s == [] {
      WithRankCons(x, [], key, k);
    } else if RankLe(key(x), key(s[0])) {
      WithRankCons(x, s, key, k);
    } else {
      var r' := Insert(x, s[1..], key);
      WithRankCons(s[0], r', key, k);
      InsertStable(x, s[1..], key, k);
      if key(x) == k {
        assert key(s[0]) != k;
      }
    }
  }

  /** Stability: among elements of equal rank, the sorted order is the input order. */
  lemma {:induction false} SortByKeyStable<T>(s: seq<T>, key: T -> Rank, k: Rank)
    ensures WithRank(SortByKey(s, key), key, k) == WithRank(s, key, k)
  {
    if s != [] {
      SortByKeyStable(s[1..], key, k);
      InsertStable(s[0], SortByKey(s[1..], key), key, k);
    }
  }

  /** Selecting the one rank every element has selects everything. */
  lemma {:induction false} WithRankAll<T>(s: seq<T>, key: T -> Rank, k: Rank)
    requires forall x :: x in s ==> key(x) == k
    ensures WithRank(s, key, k) == s
  {
    if s != [] {
      assert s == [s[0]] + s[1..];
      WithRankAll(s[1..], key, k);
    }
  }

  /** When every element has the same rank the sort changes nothing. */
  lemma SortByKeyConstant<T>(s: seq<T>, key: T -> Rank, k: Rank)
    requires forall x :: x in s ==> key(x) == k
    ensures SortByKey(s, key) == s
  {
    var r := SortByKey(s, key);
    SortByKeyStable(s, key, k);
    WithRankAll(s, key, k);
    forall x | x in r ensures key(x) == k {
      assert x in multiset(r);
    }
    WithRankAll(r, key, k);
  }

  lemma {:induction false} FilterSorted<T(!new)>(s: seq<T>, p: T -> bool, key: T -> Rank)
    requires SortedBy(s, key)
    ensures SortedBy(Filter(s, p), key)
  {
    if s != [] {
      var t := s[1..];
      FilterSorted(t, p, key);
      var f := Filter(t, p);
      if p(s[0]) {
        HeadBelowAll(s, key);
        forall y | y in f ensures RankLe(key(s[0]), key(y)) {
          assert y in t;
        }
        ConsSorted(s[0], f, key);
      }
    }
  }

  lemma HeadBelowAll<T>(s: seq<T>, key: T -> Rank)
    requires SortedBy(s, key) && s != []
    ensures forall y :: y in s[1..] ==> RankLe(key(s[0]), key(y))
  {
    forall y | y in s[1..] ensures RankLe(key(s[0]), key(y)) {
      var m :| 0 <= m < |s[1..]| && s[1..][m] == y;
      assert s[m + 1] == y;
    }
  }

  lemma ConsSorted<T>(x: T, f: seq<T>, key: T -> Rank)
    requires SortedBy(f, key)
    requires forall y :: y in f ==> RankLe(key(x), key(y))
    ensures SortedBy([x] + f, key)
  {
    var r := [x] + f;
    forall i, j | 0 <= i < j < |r| ensures RankLe(key(r[i]), key(r[j])) {
      assert r[j] == f[j - 1];
      if i > 0 {
        assert r[i] == f[i - 1];
      }
    }
  }

  lemma {:induction false} WithRankFilter<T(!new)>(s: seq<T>, p: T -> bool, key: T -> Rank, k: Rank)
    ensures WithRank(Filter(s, p), key, k) == Filter(WithRank(s, key, k), p)
  {
    if s != [] {
      WithRankFilter(s[1..], p, key, k);
      var h := if p(s[0]) then [s[0]] else [];
      WithRankConcat(h, Filter(s[1..], p), key, k);
      var g := if key(s[0]) == k then [s[0]] else [];
      FilterConcat(g, WithRank(s[1..], key, k), p);
    }
  }

  /** No element occurs at two positions. */
  ghost predicate Distinct<T>(s: seq<T>) {
    forall i, j :: 0 <= i < j < |s| ==> s[i] != s[j]
  }

  /** In a sequence without repetitions every element occurs once. */
  lemma {:induction false} DistinctOnce<T>(s: seq<T>, x: T)
    requires Distinct(s)
    ensures multiset(s)[x] <= 1
  {
    if s != [] {
      assert s == [s[0]] + s[1..];
      DistinctOnce(s[1..], x);
      if s[0] == x {
        assert x !in s[1..];
      }
    }
  }

  /** An element that occurs at two positions occurs at least twice. */
  lemma TwoPositions<T>(s: seq<T>, i: int, j: int)
    requires 0 <= i < j < |s| && s[i] == s[j]
    ensures multiset(s)[s[i]] >= 2
  {
    assert s == s[..j] + s[j..];
    assert s[i] == s[..j][i];
    assert s[j] == s[j..][0];
  }
}
