/**
 * Stable sorting by an integer key.  It stands for the library sorts the source
 * calls (`sort.Slice`, `sort.SliceStable`) and specifies the one it writes itself
 * (`sortSamplesByTime`).
 */
module Sorting {
  predicate SortedBy<T>(key: T -> int, s: seq<T>) {
    forall i, j :: 0 <= i < j < |s| ==> key(s[i]) <= key(s[j])
  }

  predicate StrictlySortedBy<T>(key: T -> int, s: seq<T>) {
    forall i, j :: 0 <= i < j < |s| ==> key(s[i]) < key(s[j])
  }

  /** Puts x behind every element whose key is not larger, scanning from the right. */
  function Insert<T>(key: T -> int, s: seq<T>, x: T): seq<T> {
    if s == [] || key(s[|s| - 1]) <= key(x) then s + [x]
    else Insert(key, s[..|s| - 1], x) + [s[|s| - 1]]
  }

  function StableSort<T>(key: T -> int, s: seq<T>): seq<T> {
    if s == [] then [] else Insert(key, StableSort(key, s[..|s| - 1]), s[|s| - 1])
  }

  function WithKey<T>(key: T -> int, k: int, s: seq<T>): seq<T> {
    if s == [] then []
    else WithKey(key, k, s[..|s| - 1]) + if key(s[|s| - 1]) == k then [s[|s| - 1]] else []
  }

  lemma {:induction false} InsertPermutes<T>(key: T -> int, s: seq<T>, x: T)
    ensures multiset(Insert(key, s, x)) == multiset(s) + multiset{x}
    ensures |Insert(key, s, x)| == |s| + 1
  {
    if s == [] || key(s[|s| - 1]) <= key(x) {
    } else {
      InsertPermutes(key, s[..|s| - 1], x);
      assert s == s[..|s| - 1] + [s[|s| - 1]];
    }
  }

  lemma {:induction false} InsertKeepsSorted<T>(key: T -> int, s: seq<T>, x: T)
    requires SortedBy(key, s)
    ensures SortedBy(key, Insert(key, s, x))
  {
    if s == [] || key(s[|s| - 1]) <= key(x) {
    } else {
      var front, last := s[..|s| - 1], s[|s| - 1];
      InsertKeepsSorted(key, front, x);
      InsertPermutes(key, front, x);
      var r := Insert(key, front, x);
      forall i | 0 <= i < |r| ensures key(r[i]) <= key(last) {
        assert r[i] in multiset(r);
        assert r[i] in front || r[i] == x;
      }
    }
  }

  lemma {:induction false} StableSortFacts<T>(key: T -> int, s: seq<T>)
    ensures SortedBy(key, StableSort(key, s))
    ensures multiset(StableSort(key, s)) == multiset(s)
    ensures |StableSort(key, s)| == |s|
  {
    if s != [] {
      var front, last := s[..|s| - 1], s[|s| - 1];
      StableSortFacts(key, front);
      InsertPermutes(key, StableSort(key, front), last);
      InsertKeepsSorted(key, StableSort(key, front), last);
      assert s == front + [last];
    }
  }

  lemma {:induction false} WithKeyConcat<T>(key: T -> int, k: int, a: seq<T>, b: seq<T>)
    ensures WithKey(key, k, a + b) == WithKey(key, k, a) + WithKey(key, k, b)
  {
    if b == [] {
      assert a + b == a;
    } else {
      WithKeyConcat(key, k, a, b[..|b| - 1]);
      assert (a + b)[..|a + b| - 1] == a + b[..|b| - 1];
    }
  }

  lemma {:induction false} InsertKeepsTies<T>(key: T -> int, s: seq<T>, x: T, k: int)
    ensures WithKey(key, k, Insert(key, s, x)) == WithKey(key, k, s + [x])
  {
    if s == [] || key(s[|s| - 1]) <= key(x) {
    } else {
      var front, last := s[..|s| - 1], s[|s| - 1];
      InsertKeepsTies(key, front, x, k);
      var r := Insert(key, front, x);
      assert (r + [last])[..|r + [last]| - 1] == r;
      assert (s + [x])[..|s + [x]| - 1] == s;
      assert (front + [x])[..|front + [x]| - 1] == front;
    }
  }

  /** Stability: elements with equal keys keep the order they came in. */
  lemma {:induction false} StableSortKeepsTies<T>(key: T -> int, s: seq<T>, k: int)
    ensures WithKey(key, k, StableSort(key, s)) == WithKey(key, k, s)
  {
    if s != [] {
      hide Insert;
      var front, last := s[..|s| - 1], s[|s| - 1];
      StableSortKeepsTies(key, front, k);
      InsertKeepsTies(key, StableSort(key, front), last, k);
      WithKeyConcat(key, k, StableSort(key, front), [last]);
      WithKeyConcat(key, k, front, [last]);
      assert s == front + [last];
    }
  }

  /** Strictly sorted sequences with the same elements are equal. */
  lemma {:induction false} SameElements<T>(key: T -> int, a: seq<T>, b: seq<T>)
    requires StrictlySortedBy(key, a) && StrictlySortedBy(key, b)
    requires (forall x <- a :: x in b) && (forall x <- b :: x in a)
    ensures a == b
  {
    hide StrictlySortedBy;
    assert |a| > 0 ==> a[0] in b;
    assert |b| > 0 ==> b[0] in a;
    if a != [] {
      SameLast(key, a, b);
      SameLast(key, b, a);
      SameElements(key, a[..|a| - 1], b[..|b| - 1]);
      assert a == a[..|a| - 1] + [a[|a| - 1]] && b == b[..|b| - 1] + [b[|b| - 1]];
    }
  }

  lemma {:induction false} SameLast<T>(key: T -> int, a: seq<T>, b: seq<T>)
    requires StrictlySortedBy(key, a) && StrictlySortedBy(key, b) && a != [] && b != []
    requires (forall x <- a :: x in b) && (forall x <- b :: x in a)
    ensures a[|a| - 1] == b[|b| - 1]
    ensures var front, other := a[..|a| - 1], b[..|b| - 1];
            StrictlySortedBy(key, front) && forall r <- front :: r in other
  {
    var p, q := a[|a| - 1], b[|b| - 1];
    assert p in b && q in a;
    assert p == q;
    var front, other := a[..|a| - 1], b[..|b| - 1];
    forall r <- front ensures r in other {
      assert r in a && key(r) < key(p);
      var i :| 0 <= i < |b| && b[i] == r;
      assert i < |b| - 1;
    }
  }

  predicate DistinctKeys<T>(key: T -> int, s: seq<T>) {
    forall i, j :: 0 <= i < j < |s| ==> key(s[i]) != key(s[j])
  }

  lemma {:induction false} SortedFront<T>(key: T -> int, s: seq<T>, x: T)
    requires StrictlySortedBy(key, s) && forall y <- s :: key(y) < key(x)
    ensures StrictlySortedBy(key, s + [x])
  {
  }

  lemma {:induction false} InsertStrict<T>(key: T -> int, s: seq<T>, x: T)
    requires StrictlySortedBy(key, s) && forall y <- s :: key(y) != key(x)
    ensures StrictlySortedBy(key, Insert(key, s, x))
  {
    if s == [] || key(s[|s| - 1]) <= key(x) {
      assert forall y <- s :: key(y) <= key(s[|s| - 1]);
      SortedFront(key, s, x);
    } else {
      var front, last := s[..|s| - 1], s[|s| - 1];
      InsertStrict(key, front, x);
      InsertPermutes(key, front, x);
      forall y <- Insert(key, front, x) ensures key(y) < key(last) {
        assert y in multiset(Insert(key, front, x));
        assert y in front || y == x;
      }
      SortedFront(key, Insert(key, front, x), last);
    }
  }

  lemma {:induction false} StableSortMembers<T>(key: T -> int, s: seq<T>)
    ensures (forall x <- s :: x in StableSort(key, s)) && (forall x <- StableSort(key, s) :: x in s)
  {
    StableSortFacts(key, s);
    var r := StableSort(key, s);
    forall x <- s ensures x in r {
      assert x in multiset(s);
      assert x in multiset(r);
    }
    forall x <- r ensures x in s {
      assert x in multiset(r);
      assert x in multiset(s);
    }
  }

  /** Sorting by distinct keys gives a strictly sorted sequence. */
  lemma {:induction false} StableSortStrict<T>(key: T -> int, s: seq<T>)
    requires DistinctKeys(key, s)
    ensures StrictlySortedBy(key, StableSort(key, s))
  {
    if s != [] {
      var front, last := s[..|s| - 1], s[|s| - 1];
      StableSortStrict(key, front);
      StableSortMembers(key, front);
      InsertStrict(key, StableSort(key, front), last);
    }
  }
}
