/**
 * Sample intervals and their median, the estimator behind both the automatic gap
 * threshold (gap_fill.go) and the dynamic anti-affinity buffer (merge.go).
 */
module Intervals {
  import Sorting

  function Self(x: int): int {
    x
  }

  /** The positive differences between consecutive times among the first n. */
  function PositiveGaps(ts: seq<int>, n: nat): seq<int>
    requires n <= |ts|
  {
    if n <= 1 then []
    else PositiveGaps(ts, n - 1) + if ts[n - 1] - ts[n - 2] > 0 then [ts[n - 1] - ts[n - 2]] else []
  }

  /** The upper median of a non-empty sequence. */
  function Median(gaps: seq<int>): int
    requires gaps != []
  {
    Sorting.StableSortFacts(Self, gaps);
    Sorting.StableSort(Self, gaps)[|gaps| / 2]
  }

  lemma {:induction false} CountInFront(s: seq<int>, i: nat, v: int)
    requires i <= |s| && forall j :: i <= j < |s| ==> s[j] != v
    ensures multiset(s)[v] <= i
  {
    assert s == s[..i] + s[i..];
    assert v !in s[i..];
    assert multiset(s)[v] == multiset(s[..i])[v] <= |multiset(s[..i])| == i;
  }

  /** When more than half of the intervals have the smallest length, that length is the median. */
  lemma {:induction false} MajorityIsMedian(gaps: seq<int>, v: int)
    requires forall g <- gaps :: g >= v
    requires 2 * multiset(gaps)[v] > |gaps|
    ensures gaps != [] && Median(gaps) == v
  {
    Sorting.StableSortFacts(Self, gaps);
    hide Sorting.StableSort;
    var s := Sorting.StableSort(Self, gaps);
    var i := |gaps| / 2;
    assert v in multiset(gaps);
    assert s[i] in multiset(s);
    assert s[i] in gaps;
    if s[i] > v {
      forall j | i <= j < |s| ensures s[j] != v {
        assert Self(s[i]) <= Self(s[j]);
      }
      CountInFront(s, i, v);
    }
  }

  lemma {:induction false} EqualGaps(gaps: seq<int>, v: int)
    requires gaps != [] && forall g <- gaps :: g == v
    ensures Median(gaps) == v
  {
    Sorting.StableSortFacts(Self, gaps);
    var s := Sorting.StableSort(Self, gaps);
    assert s[|gaps| / 2] in multiset(s);
    assert s[|gaps| / 2] in gaps;
  }

  lemma {:induction false} MedianIsElement(gaps: seq<int>)
    requires gaps != []
    ensures Median(gaps) in gaps
  {
    Sorting.StableSortFacts(Self, gaps);
    var s := Sorting.StableSort(Self, gaps);
    assert s[|gaps| / 2] in multiset(s);
  }

  // --- what a median is ----------------------------------------------------------

  /** How many elements lie below v. */
  function Below(s: seq<int>, v: int): nat {
    if s == [] then 0 else Below(s[..|s| - 1], v) + if s[|s| - 1] < v then 1 else 0
  }

  /** How many elements lie above v. */
  function Above(s: seq<int>, v: int): nat {
    if s == [] then 0 else Above(s[..|s| - 1], v) + if s[|s| - 1] > v then 1 else 0
  }

  /** An element with at most half of the others below it and fewer than half above. */
  predicate SplitsInHalf(gaps: seq<int>, v: int) {
    v in gaps && 2 * Below(gaps, v) <= |gaps| && 2 * Above(gaps, v) < |gaps|
  }

  lemma {:induction false} InsertCounts(s: seq<int>, x: int, v: int)
    ensures Below(Sorting.Insert(Self, s, x), v) == Below(s, v) + if x < v then 1 else 0
    ensures Above(Sorting.Insert(Self, s, x), v) == Above(s, v) + if x > v then 1 else 0
  {
    if s == [] || Self(s[|s| - 1]) <= Self(x) {
      assert (s + [x])[..|s|] == s;
    } else {
      var r := Sorting.Insert(Self, s[..|s| - 1], x);
      InsertCounts(s[..|s| - 1], x, v);
      assert (r + [s[|s| - 1]])[..|r|] == r;
    }
  }

  lemma {:induction false} SortCounts(s: seq<int>, v: int)
    ensures Below(Sorting.StableSort(Self, s), v) == Below(s, v)
    ensures Above(Sorting.StableSort(Self, s), v) == Above(s, v)
  {
    if s != [] {
      SortCounts(s[..|s| - 1], v);
      InsertCounts(Sorting.StableSort(Self, s[..|s| - 1]), s[|s| - 1], v);
    }
  }

  lemma {:induction false} SortedCounts(s: seq<int>, i: nat, n: nat)
    requires i < |s| && n <= |s| && Sorting.SortedBy(Self, s)
    ensures Below(s[..n], s[i]) <= i && Above(s[..n], s[i]) <= if n <= i then 0 else n - 1 - i
  {
    if n > 0 {
      SortedCounts(s, i, n - 1);
      assert s[..n][..n - 1] == s[..n - 1];
      assert i < n - 1 ==> Self(s[i]) <= Self(s[n - 1]);
      assert n - 1 < i ==> Self(s[n - 1]) <= Self(s[i]);
      BelowAtMost(s[..n - 1], s[i]);
    }
  }

  lemma {:induction false} BelowAtMost(s: seq<int>, v: int)
    ensures Below(s, v) <= |s|
  {
    if s != [] {
      BelowAtMost(s[..|s| - 1], v);
    }
  }

  lemma {:induction false} BelowOrAbove(s: seq<int>, v: int, w: int)
    requires v < w
    ensures Below(s, w) + Above(s, v) >= |s|
  {
    if s != [] {
      BelowOrAbove(s[..|s| - 1], v, w);
    }
  }

  /** The median is the one element that splits the intervals in half. */
  lemma {:induction false} MedianSplits(gaps: seq<int>, v: int)
    requires gaps != []
    ensures v == Median(gaps) <==> SplitsInHalf(gaps, v)
  {
    hide Below, Above;
    MedianIsElement(gaps);
    Sorting.StableSortFacts(Self, gaps);
    var s, m := Sorting.StableSort(Self, gaps), Median(gaps);
    SortedCounts(s, |gaps| / 2, |s|);
    assert s[..|s|] == s;
    SortCounts(gaps, m);
    if v < m {
      BelowOrAbove(gaps, v, m);
    } else if m < v {
      BelowOrAbove(gaps, m, v);
    }
  }

  /** The intervals of strictly increasing times are all of their differences, in order. */
  lemma {:induction false} AllGaps(ts: seq<int>, n: nat)
    requires 0 < n <= |ts| && forall i :: 0 < i < |ts| ==> ts[i - 1] < ts[i]
    ensures |PositiveGaps(ts, n)| == n - 1
    ensures forall i :: 0 < i < n ==> PositiveGaps(ts, n)[i - 1] == ts[i] - ts[i - 1]
  {
    if n > 1 {
      AllGaps(ts, n - 1);
    }
  }
}
