/** The counters both cross-group dedups report into (pkg/promhttputil/dedup.go). */
module CollisionStats {
  /** A winning and a losing ordinal. */
  type Pair = (int, int)

  class DedupStats {
    var collisions: nat
    var pairs: map<Pair, nat>
    /** Every collision recorded so far. */
    ghost var log: seq<Pair>

    ghost predicate Valid()
      reads this
    {
      && collisions == |log|
      && (forall p :: p in pairs <==> p in multiset(log))
      && (forall p <- pairs :: pairs[p] == multiset(log)[p])
    }

    constructor ()
      ensures Valid() && log == []
    {
      collisions := 0;
      pairs := map[];
      log := [];
    }

    /** Marks one collision resolved in favour of winner over loser. */
    method Record(winner: int, loser: int)
      requires Valid()
      modifies this
      ensures Valid() && log == old(log) + [(winner, loser)]
    {
      var pair := (winner, loser);
      collisions := collisions + 1;
      pairs := pairs[pair := (if pair in pairs then pairs[pair] else 0) + 1];
      log := log + [pair];
    }
  }

  /** The sum of the weights of a list of pairs. */
  function Weigh(weight: Pair -> int, s: seq<Pair>): int {
    if s == [] then 0 else Weigh(weight, s[..|s| - 1]) + weight(s[|s| - 1])
  }

  function Is(p: Pair): Pair -> int {
    q => if q == p then 1 else 0
  }

  function One(): Pair -> int {
    q => 1
  }

  function Winner(): Pair -> int {
    (q: Pair) => q.0
  }

  lemma {:induction false} WeighConcat(weight: Pair -> int, a: seq<Pair>, b: seq<Pair>)
    ensures Weigh(weight, a + b) == Weigh(weight, a) + Weigh(weight, b)
  {
    if b == [] {
      assert a + b == a;
    } else {
      WeighConcat(weight, a, b[..|b| - 1]);
      assert (a + b)[..|a + b| - 1] == a + b[..|b| - 1];
    }
  }

  lemma {:induction false} WeighOne(s: seq<Pair>)
    ensures Weigh(One(), s) == |s|
  {
    if s != [] {
      WeighOne(s[..|s| - 1]);
    }
  }

  lemma {:induction false} WeighIs(p: Pair, s: seq<Pair>)
    ensures Weigh(Is(p), s) == multiset(s)[p]
  {
    if s != [] {
      WeighIs(p, s[..|s| - 1]);
      assert s == s[..|s| - 1] + [s[|s| - 1]];
    }
  }

  lemma {:induction false} WeighWithout(weight: Pair -> int, s: seq<Pair>, i: nat)
    requires i < |s|
    ensures Weigh(weight, s) == Weigh(weight, s[..i] + s[i + 1..]) + weight(s[i])
    ensures multiset(s) == multiset(s[..i] + s[i + 1..]) + multiset{s[i]}
  {
    assert s == s[..i] + [s[i]] + s[i + 1..];
    WeighConcat(weight, s[..i], s[i + 1..]);
    WeighConcat(weight, s[..i], [s[i]]);
    WeighConcat(weight, s[..i] + [s[i]], s[i + 1..]);
  }

  /** The order of the pairs does not change their weight. */
  lemma {:induction false} WeighBag(weight: Pair -> int, a: seq<Pair>, b: seq<Pair>)
    requires multiset(a) == multiset(b)
    ensures Weigh(weight, a) == Weigh(weight, b)
  {
    if a == [] {
      assert |multiset(b)| == 0;
    } else {
      var front, last := a[..|a| - 1], a[|a| - 1];
      assert a == front + [last];
      assert last in multiset(b);
      var i :| 0 <= i < |b| && b[i] == last;
      var rest := b[..i] + b[i + 1..];
      WeighWithout(weight, b, i);
      assert multiset(front) == multiset(a) - multiset{last} == multiset(rest);
      WeighBag(weight, front, rest);
    }
  }
}
