/** The library sort the components call (`Array.prototype.sort`, stable
    since ES2019), for comparators that order elements by a rank: a finite
    integer, or `Last` for elements that go after every ranked one.
    Modelled as a stable insertion sort. */
module Ranking {
  import Seqs

  datatype Rank = At(n: int) | Last

  /** Ranks are totally preordered: `Last` is the greatest. */
  predicate RankLe(a: Rank, b: Rank)
  {
    b.Last? || (a.At? && a.n <= b.n)
  }

  ghost predicate SortedBy<T>(s: seq<T>, rank: T -> Rank)
  {
    forall i, j :: 0 <= i < j < |s| ==> RankLe(rank(s[i]), rank(s[j]))
  }

  /** Places `x` before the first element it does not rank after, so it
      precedes every element of equal rank. */
  function Insert<T>(x: T, s: seq<T>, rank: T -> Rank): (r: seq<T>)
    ensures |r| == |s| + 1
    ensures multiset(r) == multiset(s) + multiset{x}
    ensures SortedBy(s, rank) ==> SortedBy(r, rank)
  {
    if s == [] || RankLe(rank(x), rank(s[0])) then
      [x] + s
    else
      var rest := Insert(x, s[1..], rank);
      assert s == [s[0]] + s[1..];
      InsertSortedStep(x, s, rest, rank);
      [s[0]] + rest
  }

  lemma InsertSortedStep<T>(x: T, s: seq<T>, rest: seq<T>, rank: T -> Rank)
    requires s != [] && !RankLe(rank(x), rank(s[0]))
    requires multiset(rest) == multiset(s[1..]) + multiset{x}
    requires SortedBy(s, rank) ==> SortedBy(rest, rank)
    ensures SortedBy(s, rank) ==> SortedBy([s[0]] + rest, rank)
  {
    if SortedBy(s, rank) {
      var r := [s[0]] + rest;
      forall j | 0 < j < |r|
        ensures RankLe(rank(s[0]), rank(r[j]))
      {
        var y := r[j];
        assert y in multiset(rest);
        if y != x {
          assert y in multiset(s[1..]);
          var k :| 0 <= k < |s[1..]| && s[1..][k] == y;
          assert s[k + 1] == y;
        }
      }
    }
  }

  /** The sorted list: a permutation of `s`, ordered by rank. */
  function SortBy<T>(s: seq<T>, rank: T -> Rank): (r: seq<T>)
    ensures |r| == |s|
    ensures multiset(r) == multiset(s)
    ensures SortedBy(r, rank)
  {
    if s == [] then []
    else
      assert s == [s[0]] + s[1..];
      Insert(s[0], SortBy(s[1..], rank), rank)
  }

  /** The elements of rank `k`, in order. */
  function WithRank<T>(s: seq<T>, rank: T -> Rank, k: Rank): (r: seq<T>)
    ensures forall i :: 0 <= i < |r| ==> rank(r[i]) == k
  {
    if s == [] then []
    else if rank(s[0]) == k then [s[0]] + WithRank(s[1..], rank, k)
    else WithRank(s[1..], rank, k)
  }

  lemma {:induction false} WithRankInsert<T>(x: T, s: seq<T>, rank: T -> Rank, k: Rank)
    requires SortedBy(s, rank)
    ensures WithRank(Insert(x, s, rank), rank, k)
         == (if rank(x) == k then [x] else []) + WithRank(s, rank, k)
  {
    if s == [] || RankLe(rank(x), rank(s[0])) {
      assert ([x] + s)[1..] == s;
    } else {
      var rest := Insert(x, s[1..], rank);
      assert ([s[0]] + rest)[1..] == rest;
      WithRankInsert(x, s[1..], rank, k);
    }
  }

  /** Stability: sorting keeps the relative order of equally ranked elements. */
  lemma {:induction false} SortByStable<T>(s: seq<T>, rank: T -> Rank, k: Rank)
    ensures WithRank(SortBy(s, rank), rank, k) == WithRank(s, rank, k)
  {
    if s != [] {
      SortByStable(s[1..], rank, k);
      WithRankInsert(s[0], SortBy(s[1..], rank), rank, k);
    }
  }

  /** Filtering a sorted list leaves it sorted. */
  lemma {:induction false} FilterKeepsSorted<T>(s: seq<T>, rank: T -> Rank, keep: T -> bool)
    requires SortedBy(s, rank)
    ensures SortedBy(Seqs.Filter(s, keep), rank)
  {
    if s != [] {
      assert s == [s[0]] + s[1..];
      FilterKeepsSorted(s[1..], rank, keep);
      var rest := Seqs.Filter(s[1..], keep);
      if keep(s[0]) {
        var r := [s[0]] + rest;
        forall j | 0 < j < |r|
          ensures RankLe(rank(s[0]), rank(r[j]))
        {
          var y := r[j];
          assert y in multiset(rest);
          assert y in multiset(s[1..]);
          var k :| 0 <= k < |s[1..]| && s[1..][k] == y;
          assert s[k + 1] == y;
        }
      }
    }
  }
}
