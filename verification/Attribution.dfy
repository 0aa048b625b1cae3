/**
 * Whom a collision is charged to.  The query path waits for each bucket's final winner
 * (cross_group_dedup.go); the metadata path charges the winner of the moment (label.go).
 */
module Attribution {
  import opened CollisionStats
  import opened Dedup

  function Charged(winner: int, losers: seq<int>): seq<Pair> {
    seq(|losers|, i requires 0 <= i < |losers| => (winner, losers[i]))
  }

  /** What a bucket's losers are charged to: its winner. */
  function PairsOf<P>(s: Slot<P>): seq<Pair> {
    Charged(s.winner.ordinal, s.losers)
  }

  /** The pairs of those of the first n buckets whose key is among keys. */
  function PairsOver<P>(slots: seq<Slot<P>>, ignore: set<string>, keys: set<Labels>, n: nat): multiset<Pair>
    requires n <= |slots|
  {
    if n == 0 then multiset{}
    else
      PairsOver(slots, ignore, keys, n - 1)
      + if Key(slots[n - 1], ignore) in keys then multiset(PairsOf(slots[n - 1])) else multiset{}
  }

  /** Deferred attribution: every loser of a bucket is charged to the bucket's final winner. */
  function FinalPairs<P>(slots: seq<Slot<P>>): seq<Pair> {
    if slots == [] then [] else FinalPairs(slots[..|slots| - 1]) + PairsOf(slots[|slots| - 1])
  }

  /** Immediate attribution: every collision is charged to the winner of the moment. */
  function PairsSoFar<P>(ms: seq<Member<P>>, ignore: set<string>, n: nat): seq<Pair>
    requires n <= |ms|
  {
    if n == 0 then []
    else PairsSoFar(ms, ignore, n - 1) + PairNow(Fold(ms, ignore, n - 1), ignore, ms[n - 1])
  }

  function PairNow<P>(slots: seq<Slot<P>>, ignore: set<string>, m: Member<P>): seq<Pair> {
    var k := Bucket(slots, ignore, m);
    match Judge(slots, ignore, m)
    case Opens => []
    case Repeats => []
    case Wins => [(m.ordinal, slots[k].winner.ordinal)]
    case Loses => [(slots[k].winner.ordinal, m.ordinal)]
  }

  // --- visiting the buckets in any order ------------------------------------

  lemma {:induction false} VisitAbsent<P>(slots: seq<Slot<P>>, ignore: set<string>, keys: set<Labels>, key: Labels,
      n: nat)
    requires n <= |slots| && forall i :: 0 <= i < n ==> Key(slots[i], ignore) != key
    ensures PairsOver(slots, ignore, keys + {key}, n) == PairsOver(slots, ignore, keys, n)
  {
    if n > 0 {
      VisitAbsent(slots, ignore, keys, key, n - 1);
    }
  }

  lemma {:induction false} Visit<P>(slots: seq<Slot<P>>, ignore: set<string>, keys: set<Labels>, k: nat, n: nat)
    requires k < n <= |slots| && DistinctSlots(slots, ignore) && Key(slots[k], ignore) !in keys
    ensures PairsOver(slots, ignore, keys + {Key(slots[k], ignore)}, n)
        == PairsOver(slots, ignore, keys, n) + multiset(PairsOf(slots[k]))
  {
    if k == n - 1 {
      VisitAbsent(slots, ignore, keys, Key(slots[k], ignore), n - 1);
    } else {
      Visit(slots, ignore, keys, k, n - 1);
    }
  }

  lemma {:induction false} VisitNone<P>(slots: seq<Slot<P>>, ignore: set<string>, n: nat)
    requires n <= |slots|
    ensures PairsOver(slots, ignore, {}, n) == multiset{}
  {
    if n > 0 {
      VisitNone(slots, ignore, n - 1);
    }
  }

  lemma {:induction false} VisitAll<P>(slots: seq<Slot<P>>, ignore: set<string>, keys: set<Labels>, n: nat)
    requires n <= |slots| && forall i :: 0 <= i < n ==> Key(slots[i], ignore) in keys
    ensures PairsOver(slots, ignore, keys, n) == multiset(FinalPairs(slots[..n]))
  {
    if n > 0 {
      VisitAll(slots, ignore, keys, n - 1);
      assert slots[..n][..n - 1] == slots[..n - 1];
    }
  }

  // --- counting ---------------------------------------------------------------

  lemma {:induction false} FinalUpdate<P>(weight: Pair -> int, slots: seq<Slot<P>>, k: nat, s: Slot<P>)
    requires k < |slots|
    ensures Weigh(weight, FinalPairs(slots[k := s]))
         == Weigh(weight, FinalPairs(slots)) - Weigh(weight, PairsOf(slots[k])) + Weigh(weight, PairsOf(s))
  {
    var last := |slots| - 1;
    WeighConcat(weight, FinalPairs(slots[..last]), PairsOf(slots[last]));
    WeighConcat(weight, FinalPairs(slots[k := s][..last]), PairsOf(slots[k := s][last]));
    if k < last {
      FinalUpdate(weight, slots[..last], k, s);
      assert slots[k := s][..last] == slots[..last][k := s];
    } else {
      assert slots[k := s][..last] == slots[..last];
    }
  }

  lemma {:induction false} ChargedAppend(winner: int, losers: seq<int>, l: int)
    ensures Charged(winner, losers + [l]) == Charged(winner, losers) + [(winner, l)]
  {
  }

  lemma {:induction false} FinalSize<P>(slots: seq<Slot<P>>)
    ensures |FinalPairs(slots)| == Losses(slots)
  {
    if slots != [] {
      FinalSize(slots[..|slots| - 1]);
    }
  }

  lemma {:induction false} FinalMember<P>(slots: seq<Slot<P>>, p: Pair)
    requires p in FinalPairs(slots)
    ensures exists s <- slots :: p.0 == s.winner.ordinal && p.1 in s.losers
  {
    var s := slots[|slots| - 1];
    if p in PairsOf(s) {
      assert s in slots;
    } else {
      FinalMember(slots[..|slots| - 1], p);
    }
  }

  /**
   * Every pair the query path records names the final winner of a bucket, and that winner is not the higher ordinal.
   */
  lemma {:induction false} FinalPairsNameWinners<P>(ms: seq<Member<P>>, ignore: set<string>, n: nat)
    requires n <= |ms|
    ensures forall p <- FinalPairs(Fold(ms, ignore, n)) ::
      p.0 <= p.1 && exists s <- Fold(ms, ignore, n) :: p.0 == s.winner.ordinal && p.1 in s.losers
    ensures |FinalPairs(Fold(ms, ignore, n))| == Losses(Fold(ms, ignore, n))
  {
    FinalSize(Fold(ms, ignore, n));
    AllSound(ms, ignore, n);
    forall p <- FinalPairs(Fold(ms, ignore, n))
      ensures p.0 <= p.1 && exists s <- Fold(ms, ignore, n) :: p.0 == s.winner.ordinal && p.1 in s.losers
    {
      FinalMember(Fold(ms, ignore, n), p);
    }
  }

  lemma {:induction false} LossesAfter<P>(slots: seq<Slot<P>>, ignore: set<string>, m: Member<P>)
    ensures Losses(Absorb(slots, ignore, m)) == Losses(slots) + |PairNow(slots, ignore, m)|
  {
    AbsorbCounts(slots, ignore, m);
  }

  lemma {:induction false} NothingLost<P>()
    ensures Losses<P>([]) == 0
  {
  }

  /** Both attributions count the same collisions, in any order of the inputs. */
  lemma {:induction false} SameCount<P>(ms: seq<Member<P>>, ignore: set<string>, n: nat)
    requires n <= |ms|
    ensures |PairsSoFar(ms, ignore, n)| == Losses(Fold(ms, ignore, n)) == |FinalPairs(Fold(ms, ignore, n))|
  {
    hide Absorb, PairNow, Losses, FinalPairs;
    FinalSize(Fold(ms, ignore, n));
    NothingLost<P>();
    if n > 0 {
      SameCount(ms, ignore, n - 1);
      LossesAfter(Fold(ms, ignore, n - 1), ignore, ms[n - 1]);
    }
  }

  // --- when the two attributions agree ----------------------------------------

  /** Member i replaces a winner that already has losers. */
  predicate LateWin<P>(ms: seq<Member<P>>, ignore: set<string>, i: nat)
    requires i < |ms|
  {
    var slots := Fold(ms, ignore, i);
    Judge(slots, ignore, ms[i]).Wins? && slots[Bucket(slots, ignore, ms[i])].losers != []
  }

  lemma {:induction false} OpensNothing<P>(slots: seq<Slot<P>>, m: Member<P>)
    ensures FinalPairs(slots + [Slot(m, [], [m])]) == FinalPairs(slots)
  {
    assert (slots + [Slot(m, [], [m])])[..|slots|] == slots;
  }

  /** The pairs of the bucket that m goes to, had its losers been charged to m all along. */
  function Recharged<P>(slots: seq<Slot<P>>, ignore: set<string>, m: Member<P>): seq<Pair>
    requires Judge(slots, ignore, m).Wins?
  {
    Charged(m.ordinal, slots[Bucket(slots, ignore, m)].losers)
  }

  /** What one more member does to the final attribution, in any weight. */
  lemma {:induction false} FinalStep<P>(weight: Pair -> int, slots: seq<Slot<P>>, ignore: set<string>, m: Member<P>)
    ensures Weigh(weight, FinalPairs(Absorb(slots, ignore, m)))
         == Weigh(weight, FinalPairs(slots)) + Weigh(weight, PairNow(slots, ignore, m))
            + if Judge(slots, ignore, m).Wins?
              then Weigh(weight, Recharged(slots, ignore, m)) - Weigh(weight, PairsOf(slots[Bucket(slots, ignore, m)]))
              else 0
  {
    var k := Bucket(slots, ignore, m);
    match Judge(slots, ignore, m) {
      case Opens => OpensNothing(slots, m);
      case Repeats =>
      case Wins =>
        var s := Slot(m, slots[k].losers + [slots[k].winner.ordinal], slots[k].members + [m]);
        FinalUpdate(weight, slots, k, s);
        ChargedAppend(m.ordinal, slots[k].losers, slots[k].winner.ordinal);
        WeighConcat(weight, Charged(m.ordinal, slots[k].losers), PairNow(slots, ignore, m));
      case Loses =>
        var s := Slot(slots[k].winner, slots[k].losers + [m.ordinal], slots[k].members + [m]);
        FinalUpdate(weight, slots, k, s);
        ChargedAppend(s.winner.ordinal, slots[k].losers, m.ordinal);
        WeighConcat(weight, PairsOf(slots[k]), PairNow(slots, ignore, m));
    }
  }

  /** Charging the same losers to a lower winner weighs no more, and less when there are any. */
  ghost predicate FollowsWinner(weight: Pair -> int) {
    forall a: int, b: int, losers: seq<int> :: a < b ==>
      && Weigh(weight, Charged(a, losers)) <= Weigh(weight, Charged(b, losers))
      && (losers != [] ==> Weigh(weight, Charged(a, losers)) < Weigh(weight, Charged(b, losers)))
  }

  lemma {:induction false} LowerWinnerWeighsLess(a: int, b: int, losers: seq<int>)
    requires a < b
    ensures Weigh(Winner(), Charged(a, losers)) <= Weigh(Winner(), Charged(b, losers))
    ensures losers != [] ==> Weigh(Winner(), Charged(a, losers)) < Weigh(Winner(), Charged(b, losers))
  {
    if losers != [] {
      var front := losers[..|losers| - 1];
      LowerWinnerWeighsLess(a, b, front);
      assert Charged(a, losers)[..|front|] == Charged(a, front);
      assert Charged(b, losers)[..|front|] == Charged(b, front);
    }
  }

  lemma {:induction false} WinnerFollows()
    ensures FollowsWinner(Winner())
  {
    forall a: int, b: int, losers: seq<int> | a < b
      ensures Weigh(Winner(), Charged(a, losers)) <= Weigh(Winner(), Charged(b, losers))
      ensures losers != [] ==> Weigh(Winner(), Charged(a, losers)) < Weigh(Winner(), Charged(b, losers))
    {
      LowerWinnerWeighsLess(a, b, losers);
    }
  }

  /** By how much the immediate attribution of the first n members outweighs the final one. */
  function Excess<P>(weight: Pair -> int, ms: seq<Member<P>>, ignore: set<string>, n: nat): int
    requires n <= |ms|
  {
    Weigh(weight, PairsSoFar(ms, ignore, n)) - Weigh(weight, FinalPairs(Fold(ms, ignore, n)))
  }

  lemma {:induction false} WeightsStep<P>(weight: Pair -> int, slots: seq<Slot<P>>, ignore: set<string>, m: Member<P>,
      before: seq<Pair>)
    ensures var change := Weigh(weight, before + PairNow(slots, ignore, m))
        - Weigh(weight, FinalPairs(Absorb(slots, ignore, m)))
                          - (Weigh(weight, before) - Weigh(weight, FinalPairs(slots)));
            var late := Judge(slots, ignore, m).Wins? && slots[Bucket(slots, ignore, m)].losers != [];
            (!late ==> change == 0) && (FollowsWinner(weight) && late ==> change > 0)
  {
    WeighConcat(weight, before, PairNow(slots, ignore, m));
    FinalStep(weight, slots, ignore, m);
  }

  /** Without a late win, one more member changes both attributions alike; a late win sets them apart. */
  lemma {:induction false} ExcessStep<P>(weight: Pair -> int, ms: seq<Member<P>>, ignore: set<string>, n: nat)
    requires n < |ms|
    ensures !LateWin(ms, ignore, n) ==> Excess(weight, ms, ignore, n + 1) == Excess(weight, ms, ignore, n)
    ensures FollowsWinner(weight) && LateWin(ms, ignore, n)
        ==> Excess(weight, ms, ignore, n + 1) > Excess(weight, ms, ignore, n)
  {
    hide Judge, PairNow, Absorb, FinalPairs, Weigh, FollowsWinner, Bucket;
    WeightsStep(weight, Fold(ms, ignore, n), ignore, ms[n], PairsSoFar(ms, ignore, n));
  }

  /** Among the first n members none replaces a winner that already has losers. */
  predicate NoLateWin<P>(ms: seq<Member<P>>, ignore: set<string>, n: nat)
    requires n <= |ms|
  {
    n == 0 || (NoLateWin(ms, ignore, n - 1) && !LateWin(ms, ignore, n - 1))
  }

  lemma {:induction false} ExcessStart<P>(weight: Pair -> int, ms: seq<Member<P>>, ignore: set<string>)
    ensures Excess(weight, ms, ignore, 0) == 0
  {
  }

  /** The two attributions agree in every weight until the first late win, and never again in the winners' weight. */
  lemma {:induction false} ExcessSign<P>(weight: Pair -> int, ms: seq<Member<P>>, ignore: set<string>, n: nat)
    requires n <= |ms|
    ensures NoLateWin(ms, ignore, n) ==> Excess(weight, ms, ignore, n) == 0
    ensures !NoLateWin(ms, ignore, n) && FollowsWinner(weight) ==> Excess(weight, ms, ignore, n) > 0
  {
    hide LateWin, Excess;
    if n == 0 {
      ExcessStart(weight, ms, ignore);
    } else {
      ExcessSign(weight, ms, ignore, n - 1);
      ExcessStep(weight, ms, ignore, n - 1);
    }
  }

  /** The two attributions agree exactly when no winner is replaced after it already had a loser. */
  lemma {:induction false} AttributionExact<P>(ms: seq<Member<P>>, ignore: set<string>, n: nat)
    requires n <= |ms|
    ensures multiset(PairsSoFar(ms, ignore, n)) == multiset(FinalPairs(Fold(ms, ignore, n)))
        <==> NoLateWin(ms, ignore, n)
  {
    var now, later := PairsSoFar(ms, ignore, n), FinalPairs(Fold(ms, ignore, n));
    if NoLateWin(ms, ignore, n) {
      forall p ensures multiset(now)[p] == multiset(later)[p] {
        ExcessSign(Is(p), ms, ignore, n);
        WeighIs(p, now);
        WeighIs(p, later);
      }
    } else {
      WinnerFollows();
      ExcessSign(Winner(), ms, ignore, n);
      if multiset(now) == multiset(later) {
        WeighBag(Winner(), now, later);
        assert false;
      }
    }
  }

  /** Ordinals 2, 1, 0: the first collision stays with 1, although 0 goes on to win the bucket. */
  lemma {:induction false} LateWinMisattributes()
    ensures var ms := [Member(2, map["group" := "c"], ()), Member(1, map["group" := "b"], ()),
        Member(0, map["group" := "a"], ())];
            && PairsSoFar(ms, {"group"}, 3) == [(1, 2), (0, 1)]
            && FinalPairs(Fold(ms, {"group"}, 3)) == [(0, 2), (0, 1)]
  {
    hide Absorb, PairNow, Judge, Bucket, Reduced, FinalPairs;
    var a, b, c := Member(0, map["group" := "a"], ()), Member(1, map["group" := "b"], ()),
        Member(2, map["group" := "c"], ());
    var ms, ignore := [c, b, a], {"group"};
    NothingLeft(a.labels);
    NothingLeft(b.labels);
    NothingLeft(c.labels);
    assert a.labels["group"] != b.labels["group"] && b.labels["group"] != c.labels["group"];
    FirstOpens(ignore, c);
    Absorbs(c, [], [c], ignore, b);
    Absorbs(b, [2], [c, b], ignore, a);
    assert [] + [2] == [2] && [2] + [1] == [2, 1] && [c] + [b] == [c, b] && [c, b] + [a] == [c, b, a];
    assert Fold(ms, ignore, 1) == Absorb(Fold(ms, ignore, 0), ignore, c);
    assert Fold(ms, ignore, 2) == Absorb(Fold(ms, ignore, 1), ignore, b);
    assert Fold(ms, ignore, 3) == Absorb(Fold(ms, ignore, 2), ignore, a) == [Slot(a, [2, 1], [c, b, a])];
    assert PairsSoFar(ms, ignore, 1) == PairsSoFar(ms, ignore, 0) + PairNow(Fold(ms, ignore, 0), ignore, c) == [];
    assert PairsSoFar(ms, ignore, 2) == PairsSoFar(ms, ignore, 1) + [(1, 2)] == [(1, 2)];
    TwoCharged(Slot(a, [2, 1], [c, b, a]));
  }

  lemma {:induction false} NothingLeft(labels: Labels)
    requires labels.Keys == {"group"}
    ensures Reduced(labels, {"group"}) == map[]
  {
  }

  lemma {:induction false} FirstOpens<P>(ignore: set<string>, m: Member<P>)
    ensures Absorb([], ignore, m) == [Slot(m, [], [m])] && PairNow([], ignore, m) == []
  {
  }

  lemma {:induction false} TwoCharged<P>(s: Slot<P>)
    requires |s.losers| == 2
    ensures FinalPairs([s]) == [(s.winner.ordinal, s.losers[0]), (s.winner.ordinal, s.losers[1])]
  {
    assert [s][..0] == [] && FinalPairs([s]) == FinalPairs([s][..0]) + PairsOf(s);
    assert s.losers[..1] == [s.losers[0]] && s.losers[..1][..0] == [];
  }

  lemma {:induction false} Absorbs<P>(w: Member<P>, losers: seq<int>, members: seq<Member<P>>, ignore: set<string>,
      m: Member<P>)
    requires Reduced(w.labels, ignore) == Reduced(m.labels, ignore) && w.labels != m.labels && m.ordinal < w.ordinal
    ensures Absorb([Slot(w, losers, members)], ignore, m) == [Slot(m, losers + [w.ordinal], members + [m])]
    ensures PairNow([Slot(w, losers, members)], ignore, m) == [(m.ordinal, w.ordinal)]
  {
    var slots := [Slot(w, losers, members)];
    assert Key(slots[0], ignore) == Reduced(m.labels, ignore);
    assert Bucket(slots, ignore, m) == 0;
  }
}
