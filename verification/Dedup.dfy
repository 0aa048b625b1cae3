/**
 * What cross-group dedup decides: one winner per label set modulo the ignored names.
 * Both implementations, the query path's and the metadata path's, refine this fold.
 */
module Dedup {
  import opened Wrappers

  type Labels = map<string, string>

  /** A series of one backend: its labels and whatever it carries. */
  datatype Member<+P> = Member(ordinal: int, labels: Labels, payload: P)

  /** A bucket: the winner so far, the ordinals that lost to it, and all members that took part. */
  datatype Slot<+P> = Slot(winner: Member<P>, losers: seq<int>, members: seq<Member<P>>)

  function Reduced(labels: Labels, ignore: set<string>): Labels {
    labels - ignore
  }

  function Key<P>(s: Slot<P>, ignore: set<string>): Labels {
    Reduced(s.winner.labels, ignore)
  }

  /** The position of the bucket with the given key among the first n, or n. */
  function Find<P>(slots: seq<Slot<P>>, ignore: set<string>, key: Labels, n: nat): (k: nat)
    requires n <= |slots|
    ensures k <= n && (k < n ==> Key(slots[k], ignore) == key)
    ensures forall i :: 0 <= i < k ==> Key(slots[i], ignore) != key
  {
    if n == 0 then 0
    else
      var k := Find(slots, ignore, key, n - 1);
      if k < n - 1 || Key(slots[n - 1], ignore) == key then k else n
  }

  function Bucket<P>(slots: seq<Slot<P>>, ignore: set<string>, m: Member<P>): (k: nat)
    ensures k <= |slots|
  {
    Find(slots, ignore, Reduced(m.labels, ignore), |slots|)
  }

  datatype Verdict = Opens | Repeats | Wins | Loses

  function Judge<P>(slots: seq<Slot<P>>, ignore: set<string>, m: Member<P>): Verdict {
    var k := Bucket(slots, ignore, m);
    if k == |slots| then Opens
    else if slots[k].winner.labels == m.labels then Repeats
    else if m.ordinal < slots[k].winner.ordinal then Wins
    else Loses
  }

  /** Takes one more member into account. */
  function Absorb<P>(slots: seq<Slot<P>>, ignore: set<string>, m: Member<P>): seq<Slot<P>> {
    var k := Bucket(slots, ignore, m);
    match Judge(slots, ignore, m)
    case Opens => slots + [Slot(m, [], [m])]
    case Repeats => slots
    case Wins => slots[k := Slot(m, slots[k].losers + [slots[k].winner.ordinal], slots[k].members + [m])]
    case Loses => slots[k := Slot(slots[k].winner, slots[k].losers + [m.ordinal], slots[k].members + [m])]
  }

  /** The buckets after the first n members. */
  function Fold<P>(ms: seq<Member<P>>, ignore: set<string>, n: nat): seq<Slot<P>>
    requires n <= |ms|
  {
    if n == 0 then [] else Absorb(Fold(ms, ignore, n - 1), ignore, ms[n - 1])
  }

  lemma {:induction false} FoldNext<P>(ms: seq<Member<P>>, ignore: set<string>, n: nat)
    requires n < |ms|
    ensures Fold(ms, ignore, n + 1) == Absorb(Fold(ms, ignore, n), ignore, ms[n])
  {
  }

  // --- one series per reduced label set ------------------------------------

  predicate DistinctSlots<P>(slots: seq<Slot<P>>, ignore: set<string>) {
    forall i, j :: 0 <= i < j < |slots| ==> Key(slots[i], ignore) != Key(slots[j], ignore)
  }

  lemma {:induction false} AbsorbDistinct<P>(slots: seq<Slot<P>>, ignore: set<string>, m: Member<P>)
    requires DistinctSlots(slots, ignore)
    ensures DistinctSlots(Absorb(slots, ignore, m), ignore)
    ensures forall i :: 0 <= i < |slots| ==> Key(Absorb(slots, ignore, m)[i], ignore) == Key(slots[i], ignore)
  {
  }

  lemma {:induction false} FoldDistinct<P>(ms: seq<Member<P>>, ignore: set<string>, n: nat)
    requires n <= |ms|
    ensures DistinctSlots(Fold(ms, ignore, n), ignore)
  {
    if n > 0 {
      FoldDistinct(ms, ignore, n - 1);
      AbsorbDistinct(Fold(ms, ignore, n - 1), ignore, ms[n - 1]);
    }
  }

  function Keys<P>(slots: seq<Slot<P>>, ignore: set<string>): seq<Labels> {
    seq(|slots|, i requires 0 <= i < |slots| => Key(slots[i], ignore))
  }

  /** The reduced label sets of the first n members, each where it first appears. */
  function FirstSeen<P>(ms: seq<Member<P>>, ignore: set<string>, n: nat): seq<Labels>
    requires n <= |ms|
  {
    if n == 0 then []
    else
      var before, key := FirstSeen(ms, ignore, n - 1), Reduced(ms[n - 1].labels, ignore);
      if key in before then before else before + [key]
  }

  lemma {:induction false} KeysAfter<P>(slots: seq<Slot<P>>, ignore: set<string>, m: Member<P>)
    ensures var before, key := Keys(slots, ignore), Reduced(m.labels, ignore);
            Keys(Absorb(slots, ignore, m), ignore) == if key in before then before else before + [key]
  {
    var before, key, k := Keys(slots, ignore), Reduced(m.labels, ignore), Bucket(slots, ignore, m);
    if k < |slots| {
      assert before[k] == key;
    } else {
      assert key !in before;
    }
  }

  /** Exactly one bucket per reduced label set, in order of first appearance. */
  lemma {:induction false} OnePerReducedSet<P>(ms: seq<Member<P>>, ignore: set<string>, n: nat)
    requires n <= |ms|
    ensures Keys(Fold(ms, ignore, n), ignore) == FirstSeen(ms, ignore, n)
    ensures DistinctSlots(Fold(ms, ignore, n), ignore)
  {
    FoldDistinct(ms, ignore, n);
    if n > 0 {
      OnePerReducedSet(ms, ignore, n - 1);
      KeysAfter(Fold(ms, ignore, n - 1), ignore, ms[n - 1]);
    }
  }

  // --- collisions ----------------------------------------------------------------

  ghost predicate Collides<P>(ms: seq<Member<P>>, ignore: set<string>, i: nat, j: nat)
    requires i < |ms| && j < |ms|
  {
    Reduced(ms[i].labels, ignore) == Reduced(ms[j].labels, ignore)
  }

  ghost predicate NoCollisions<P>(ms: seq<Member<P>>, ignore: set<string>) {
    forall i, j :: 0 <= i < j < |ms| ==> !Collides(ms, ignore, i, j)
  }

  /** Without collisions every member opens its own bucket. */
  lemma {:induction false} AllOpen<P>(ms: seq<Member<P>>, ignore: set<string>, n: nat)
    requires n <= |ms| && NoCollisions(ms, ignore)
    ensures |Fold(ms, ignore, n)| == n
    ensures forall k :: 0 <= k < n ==> Fold(ms, ignore, n)[k].winner == ms[k]
  {
    if n > 0 {
      AllOpen(ms, ignore, n - 1);
      var slots, x := Fold(ms, ignore, n - 1), ms[n - 1];
      forall i | 0 <= i < n - 1 ensures Key(slots[i], ignore) != Reduced(x.labels, ignore) {
        assert !Collides(ms, ignore, i, n - 1);
      }
    }
  }

  lemma {:induction false} SeenOnce<P>(ms: seq<Member<P>>, ignore: set<string>, n: nat, i: nat)
    requires i < n <= |ms|
    ensures Reduced(ms[i].labels, ignore) in FirstSeen(ms, ignore, n)
  {
    if i < n - 1 {
      SeenOnce(ms, ignore, n - 1, i);
    }
  }

  /** A collision costs a series. */
  lemma {:induction false} CollisionShortens<P>(ms: seq<Member<P>>, ignore: set<string>, n: nat)
    requires n <= |ms|
    ensures |FirstSeen(ms, ignore, n)| <= n
    ensures (exists i, j :: 0 <= i < j < n && Collides(ms, ignore, i, j)) ==> |FirstSeen(ms, ignore, n)| < n
  {
    if n > 0 {
      CollisionShortens(ms, ignore, n - 1);
      if i, j :| 0 <= i < j < n && Collides(ms, ignore, i, j) {
        if j == n - 1 {
          SeenOnce(ms, ignore, n - 1, i);
        } else {
          assert Collides(ms, ignore, i, j);
        }
      }
    }
  }

  // --- conservation and attribution ------------------------------------------

  function Losses<P>(slots: seq<Slot<P>>): nat {
    if slots == [] then 0 else Losses(slots[..|slots| - 1]) + |slots[|slots| - 1].losers|
  }

  /** How many of the first n members repeat the labels of their bucket's winner at that moment. */
  function Repeated<P>(ms: seq<Member<P>>, ignore: set<string>, n: nat): nat
    requires n <= |ms|
  {
    if n == 0 then 0
    else Repeated(ms, ignore, n - 1) + if Judge(Fold(ms, ignore, n - 1), ignore, ms[n - 1]).Repeats? then 1 else 0
  }

  lemma {:induction false} LossesUpdate<P>(slots: seq<Slot<P>>, k: nat, s: Slot<P>)
    requires k < |slots|
    ensures Losses(slots[k := s]) == Losses(slots) - |slots[k].losers| + |s.losers|
  {
    var last := |slots| - 1;
    if k < last {
      LossesUpdate(slots[..last], k, s);
      assert slots[k := s][..last] == slots[..last][k := s];
    } else {
      assert slots[k := s][..last] == slots[..last];
    }
  }

  lemma {:induction false} AbsorbCounts<P>(slots: seq<Slot<P>>, ignore: set<string>, m: Member<P>)
    ensures |Absorb(slots, ignore, m)| + Losses(Absorb(slots, ignore, m))
         == |slots| + Losses(slots) + if Judge(slots, ignore, m).Repeats? then 0 else 1
  {
    var k := Bucket(slots, ignore, m);
    match Judge(slots, ignore, m) {
      case Opens =>
        assert (slots + [Slot(m, [], [m])])[..|slots|] == slots;
      case Repeats =>
      case Wins =>
        LossesUpdate(slots, k, Slot(m, slots[k].losers + [slots[k].winner.ordinal], slots[k].members + [m]));
      case Loses =>
        LossesUpdate(slots, k, Slot(slots[k].winner, slots[k].losers + [m.ordinal], slots[k].members + [m]));
    }
  }

  /** Every input is an output, a collision or an exact repetition. */
  lemma {:induction false} Conservation<P>(ms: seq<Member<P>>, ignore: set<string>, n: nat)
    requires n <= |ms|
    ensures n == |Fold(ms, ignore, n)| + Losses(Fold(ms, ignore, n)) + Repeated(ms, ignore, n)
  {
    hide Absorb, Judge;
    if n > 0 {
      Conservation(ms, ignore, n - 1);
      AbsorbCounts(Fold(ms, ignore, n - 1), ignore, ms[n - 1]);
    }
  }

  /** What holds of every bucket: the winner is an input of that bucket and no loser has a lower ordinal. */
  predicate Sound<P(==)>(s: Slot<P>, ms: seq<Member<P>>, ignore: set<string>) {
    && s.winner in ms && s.winner in s.members && |s.members| == |s.losers| + 1
    && (forall l <- s.losers :: s.winner.ordinal <= l)
    && (forall m <- s.members ::
        m in ms && Reduced(m.labels, ignore) == Key(s, ignore) && s.winner.ordinal <= m.ordinal)
  }

  lemma {:induction false} AllSound<P>(ms: seq<Member<P>>, ignore: set<string>, n: nat)
    requires n <= |ms|
    ensures forall s <- Fold(ms, ignore, n) :: Sound(s, ms, ignore)
  {
    if n > 0 {
      AllSound(ms, ignore, n - 1);
      var slots, m := Fold(ms, ignore, n - 1), ms[n - 1];
      var k := Bucket(slots, ignore, m);
      forall s <- Fold(ms, ignore, n) ensures Sound(s, ms, ignore) {
        if s !in slots {
          assert k < |slots| ==> Sound(slots[k], ms, ignore);
        }
      }
    }
  }

  // --- who owns a bucket -----------------------------------------------------

  /** Every one of the first n members has a bucket whose winner's ordinal is not above its own. */
  predicate LowestOwns<P>(slots: seq<Slot<P>>, ms: seq<Member<P>>, ignore: set<string>, n: nat)
    requires n <= |ms|
  {
    forall i :: 0 <= i < n ==> Outranked(slots, ignore, ms[i])
  }

  predicate Outranked<P>(slots: seq<Slot<P>>, ignore: set<string>, m: Member<P>) {
    var k := Bucket(slots, ignore, m);
    k < |slots| && slots[k].winner.ordinal <= m.ordinal
  }

  /** The first member of lowest ordinal with the given key. */
  function Best<P>(ms: seq<Member<P>>, ignore: set<string>, key: Labels, n: nat): Option<Member<P>>
    requires n <= |ms|
  {
    if n == 0 then None
    else
      var best, m := Best(ms, ignore, key, n - 1), ms[n - 1];
      if Reduced(m.labels, ignore) == key && (best.None? || m.ordinal < best.value.ordinal) then Some(m) else best
  }

  /** Member i merely repeats its bucket's winner although it comes from a lower ordinal. */
  predicate Hidden<P>(ms: seq<Member<P>>, ignore: set<string>, i: nat)
    requires i < |ms|
  {
    Judge(Fold(ms, ignore, i), ignore, ms[i]).Repeats? && !Outranked(Fold(ms, ignore, i), ignore, ms[i])
  }

  /** Member i replaces its bucket's winner. */
  predicate Displaces<P>(ms: seq<Member<P>>, ignore: set<string>, i: nat)
    requires i < |ms|
  {
    Judge(Fold(ms, ignore, i), ignore, ms[i]).Wins?
  }

  predicate NoHiddenRepeat<P>(ms: seq<Member<P>>, ignore: set<string>, n: nat)
    requires n <= |ms|
  {
    forall i :: 0 <= i < n ==> !Hidden(ms, ignore, i)
  }

  lemma {:induction false} OutrankedStays<P>(slots: seq<Slot<P>>, ignore: set<string>, m: Member<P>, x: Member<P>)
    requires DistinctSlots(slots, ignore) && Outranked(slots, ignore, x)
    ensures Outranked(Absorb(slots, ignore, m), ignore, x)
  {
    AbsorbDistinct(slots, ignore, m);
    var k, next := Bucket(slots, ignore, x), Absorb(slots, ignore, m);
    assert Key(next[k], ignore) == Reduced(x.labels, ignore);
    var j := Bucket(next, ignore, x);
    assert j == k;
  }

  lemma {:induction false} OutrankedNow<P>(slots: seq<Slot<P>>, ignore: set<string>, m: Member<P>)
    requires DistinctSlots(slots, ignore)
    ensures Outranked(Absorb(slots, ignore, m), ignore, m)
        <==> (Judge(slots, ignore, m).Repeats? ==> Outranked(slots, ignore, m))
  {
    AbsorbDistinct(slots, ignore, m);
    var k, next := Bucket(slots, ignore, m), Absorb(slots, ignore, m);
    var j := Bucket(next, ignore, m);
    assert Key(next[k], ignore) == Reduced(m.labels, ignore);
    assert j == k;
  }

  lemma {:induction false} NothingHidden<P>(ms: seq<Member<P>>, ignore: set<string>, n: nat, i: nat)
    requires i < n <= |ms| && NoHiddenRepeat(ms, ignore, n)
    ensures Outranked(Fold(ms, ignore, n), ignore, ms[i])
  {
    FoldDistinct(ms, ignore, n - 1);
    if i < n - 1 {
      NothingHidden(ms, ignore, n - 1, i);
      OutrankedStays(Fold(ms, ignore, n - 1), ignore, ms[n - 1], ms[i]);
    } else {
      assert !Hidden(ms, ignore, i);
      OutrankedNow(Fold(ms, ignore, i), ignore, ms[i]);
    }
  }

  lemma {:induction false} FindAfter<P>(slots: seq<Slot<P>>, ignore: set<string>, m: Member<P>, key: Labels)
    requires DistinctSlots(slots, ignore)
    ensures var k, next := Find(slots, ignore, key, |slots|), Absorb(slots, ignore, m);
            Find(next, ignore, key, |next|) == if k < |slots| || Reduced(m.labels, ignore) == key then k else |next|
  {
    AbsorbDistinct(slots, ignore, m);
    var k, next := Find(slots, ignore, key, |slots|), Absorb(slots, ignore, m);
    var j := Find(next, ignore, key, |next|);
    if k < |slots| || Reduced(m.labels, ignore) == key {
      assert Key(next[k], ignore) == key;
      assert j == k;
    }
  }

  /** As long as nothing was hidden, a bucket's winner is the best member seen. */
  lemma {:induction false} WinnerIsBest<P>(ms: seq<Member<P>>, ignore: set<string>, key: Labels, n: nat)
    requires n <= |ms| && NoHiddenRepeat(ms, ignore, n)
    ensures var slots := Fold(ms, ignore, n);
            var k := Find(slots, ignore, key, |slots|);
            Best(ms, ignore, key, n) == if k < |slots| then Some(slots[k].winner) else None
  {
    hide Find, Best, Fold, Hidden;
    if n == 0 {
      NowhereYet(ms, ignore, key);
    } else {
      WinnerIsBest(ms, ignore, key, n - 1);
      FoldDistinct(ms, ignore, n - 1);
      assert !Hidden(ms, ignore, n - 1);
      BestStep(ms, ignore, key, n);
    }
  }

  lemma {:induction false} BestStep<P>(ms: seq<Member<P>>, ignore: set<string>, key: Labels, n: nat)
    requires 0 < n <= |ms| && !Hidden(ms, ignore, n - 1) && DistinctSlots(Fold(ms, ignore, n - 1), ignore)
    requires var slots := Fold(ms, ignore, n - 1);
             var k := Find(slots, ignore, key, |slots|);
             Best(ms, ignore, key, n - 1) == if k < |slots| then Some(slots[k].winner) else None
    ensures var slots := Fold(ms, ignore, n);
            var k := Find(slots, ignore, key, |slots|);
            Best(ms, ignore, key, n) == if k < |slots| then Some(slots[k].winner) else None
  {
    hide Find, Reduced, DistinctSlots;
    var slots, m := Fold(ms, ignore, n - 1), ms[n - 1];
    FindAfter(slots, ignore, m, key);
    SameBucket(slots, ignore, m, key);
  }

  /** Another key's bucket is another bucket. */
  lemma {:induction false} SameBucket<P>(slots: seq<Slot<P>>, ignore: set<string>, m: Member<P>, key: Labels)
    ensures var k, j := Find(slots, ignore, key, |slots|), Bucket(slots, ignore, m);
            if Reduced(m.labels, ignore) == key then j == k else k < |slots| && j < |slots| ==> j != k
  {
  }

  lemma {:induction false} NowhereYet<P>(ms: seq<Member<P>>, ignore: set<string>, key: Labels)
    ensures Fold(ms, ignore, 0) == [] && Find(Fold(ms, ignore, 0), ignore, key, 0) == 0
        && Best(ms, ignore, key, 0) == None
  {
  }

  /** Member i repeats the labels of the best member before it, which has a higher ordinal. */
  predicate RepeatsHigher<P>(ms: seq<Member<P>>, ignore: set<string>, i: nat)
    requires i < |ms|
  {
    var best := Best(ms, ignore, Reduced(ms[i].labels, ignore), i);
    best.Some? && best.value.labels == ms[i].labels && ms[i].ordinal < best.value.ordinal
  }

  /** Whether anything is hidden can be read off the inputs. */
  lemma {:induction false} HiddenMeans<P>(ms: seq<Member<P>>, ignore: set<string>, n: nat)
    requires n <= |ms|
    ensures NoHiddenRepeat(ms, ignore, n) <==> forall i :: 0 <= i < n ==> !RepeatsHigher(ms, ignore, i)
  {
    hide Hidden, RepeatsHigher;
    if n > 0 {
      HiddenMeans(ms, ignore, n - 1);
      if NoHiddenRepeat(ms, ignore, n - 1) {
        HiddenIs(ms, ignore, n - 1);
      }
    }
  }

  lemma {:induction false} HiddenIs<P>(ms: seq<Member<P>>, ignore: set<string>, i: nat)
    requires i < |ms| && NoHiddenRepeat(ms, ignore, i)
    ensures Hidden(ms, ignore, i) <==> RepeatsHigher(ms, ignore, i)
  {
    hide Best, Find, Fold, Reduced;
    WinnerIsBest(ms, ignore, Reduced(ms[i].labels, ignore), i);
  }

  /**
   * The lowest ordinal owns every bucket after every prefix if and only if no member repeats the labels of the best
   * one before it from a lower ordinal.
   */
  lemma {:induction false} OwnershipExact<P>(ms: seq<Member<P>>, ignore: set<string>, n: nat)
    requires n <= |ms|
    ensures (forall i :: 0 <= i <= n ==> LowestOwns(Fold(ms, ignore, i), ms, ignore, i))
       <==> (forall i :: 0 <= i < n ==> !RepeatsHigher(ms, ignore, i))
  {
    HiddenMeans(ms, ignore, n);
    if NoHiddenRepeat(ms, ignore, n) {
      forall i, j | 0 <= j < i <= n ensures Outranked(Fold(ms, ignore, i), ignore, ms[j]) {
        NothingHidden(ms, ignore, i, j);
      }
    } else {
      var i :| 0 <= i < n && Hidden(ms, ignore, i);
      HiddenNow(ms, ignore, i);
      assert !LowestOwns(Fold(ms, ignore, i + 1), ms, ignore, i + 1);
    }
  }

  lemma {:induction false} HiddenNow<P>(ms: seq<Member<P>>, ignore: set<string>, i: nat)
    requires i < |ms|
    ensures Outranked(Fold(ms, ignore, i + 1), ignore, ms[i]) <==> !Hidden(ms, ignore, i)
  {
    FoldDistinct(ms, ignore, i);
    OutrankedNow(Fold(ms, ignore, i), ignore, ms[i]);
  }

  /** Member j, which is no repetition, takes or keeps the bucket for an ordinal not above member i's. */
  predicate Rescues<P>(ms: seq<Member<P>>, ignore: set<string>, i: nat, j: nat)
    requires i < |ms| && j < |ms|
  {
    && i < j && Reduced(ms[j].labels, ignore) == Reduced(ms[i].labels, ignore) && ms[j].ordinal <= ms[i].ordinal
    && !Judge(Fold(ms, ignore, j), ignore, ms[j]).Repeats?
  }

  lemma {:induction false} OutrankedLater<P>(ms: seq<Member<P>>, ignore: set<string>, x: Member<P>, i: nat, n: nat)
    requires i <= n <= |ms| && Outranked(Fold(ms, ignore, i), ignore, x)
    ensures Outranked(Fold(ms, ignore, n), ignore, x)
  {
    hide Outranked, Absorb, DistinctSlots;
    if i < n {
      OutrankedLater(ms, ignore, x, i, n - 1);
      FoldDistinct(ms, ignore, n - 1);
      OutrankedStays(Fold(ms, ignore, n - 1), ignore, ms[n - 1], x);
    }
  }

  lemma {:induction false} RescuedBy<P>(ms: seq<Member<P>>, ignore: set<string>, i: nat, n: nat) returns (j: nat)
    requires i < n <= |ms| && !Outranked(Fold(ms, ignore, i + 1), ignore, ms[i])
        && Outranked(Fold(ms, ignore, n), ignore, ms[i])
    ensures j < n && Rescues(ms, ignore, i, j)
  {
    hide Outranked, Find;
    if n == i + 1 {
      assert false;
    } else if Outranked(Fold(ms, ignore, n - 1), ignore, ms[i]) {
      j := RescuedBy(ms, ignore, i, n - 1);
    } else {
      j := n - 1;
      FoldDistinct(ms, ignore, n - 1);
      OnlyItsOwn(Fold(ms, ignore, n - 1), ignore, ms[n - 1], ms[i]);
    }
  }

  /** What outranks x from one step to the next is a member of x's bucket that is no repetition. */
  lemma {:induction false} OnlyItsOwn<P>(slots: seq<Slot<P>>, ignore: set<string>, m: Member<P>, x: Member<P>)
    requires DistinctSlots(slots, ignore) && !Outranked(slots, ignore, x)
        && Outranked(Absorb(slots, ignore, m), ignore, x)
    ensures Reduced(m.labels, ignore) == Reduced(x.labels, ignore) && m.ordinal <= x.ordinal
        && !Judge(slots, ignore, m).Repeats?
  {
    FindAfter(slots, ignore, m, Reduced(x.labels, ignore));
  }

  /**
   * Of the buckets that are returned, the lowest ordinal owns every one if and only if every hidden member is made
   * up for by a later one.
   */
  lemma {:induction false} FinalOwnershipExact<P>(ms: seq<Member<P>>, ignore: set<string>, n: nat)
    requires n <= |ms|
    ensures LowestOwns(Fold(ms, ignore, n), ms, ignore, n)
       <==> forall i :: 0 <= i < n && Hidden(ms, ignore, i) ==> exists j :: 0 <= j < n && Rescues(ms, ignore, i, j)
  {
    hide Find, Fold, Outranked, Hidden, Rescues;
    forall i | 0 <= i < n
      ensures Outranked(Fold(ms, ignore, n), ignore, ms[i])
         <==> (Hidden(ms, ignore, i) ==> exists j :: 0 <= j < n && Rescues(ms, ignore, i, j))
    {
      FateOf(ms, ignore, n, i);
    }
  }

  lemma {:induction false} FateOf<P>(ms: seq<Member<P>>, ignore: set<string>, n: nat, i: nat)
    requires i < n <= |ms|
    ensures Outranked(Fold(ms, ignore, n), ignore, ms[i])
       <==> (Hidden(ms, ignore, i) ==> exists j :: 0 <= j < n && Rescues(ms, ignore, i, j))
  {
    hide Find, Fold, Outranked, Hidden;
    HiddenNow(ms, ignore, i);
    if !Hidden(ms, ignore, i) {
      OutrankedLater(ms, ignore, ms[i], i + 1, n);
    } else if j :| 0 <= j < n && Rescues(ms, ignore, i, j) {
      NotHidden(ms, ignore, i, j);
      OutrankedLater(ms, ignore, ms[i], j + 1, n);
    } else if Outranked(Fold(ms, ignore, n), ignore, ms[i]) {
      var j := RescuedBy(ms, ignore, i, n);
    }
  }

  lemma {:induction false} NotHidden<P>(ms: seq<Member<P>>, ignore: set<string>, i: nat, j: nat)
    requires i < |ms| && j < |ms| && Rescues(ms, ignore, i, j)
    ensures Outranked(Fold(ms, ignore, j + 1), ignore, ms[i])
  {
    HiddenNow(ms, ignore, j);
  }

  predicate Ascending<P>(ms: seq<Member<P>>) {
    forall i, j :: 0 <= i < j < |ms| ==> ms[i].ordinal <= ms[j].ordinal
  }

  /** The backends' answers in ascending ordinal, as the fan-out delivers them, hide nothing. */
  lemma {:induction false} AscendingHidesNothing<P>(ms: seq<Member<P>>, ignore: set<string>, n: nat)
    requires n <= |ms| && Ascending(ms)
    ensures NoHiddenRepeat(ms, ignore, n)
    ensures forall i :: 0 <= i < n ==> !Displaces(ms, ignore, i)
  {
    forall i | 0 <= i < n
      ensures !Hidden(ms, ignore, i)
      ensures !Displaces(ms, ignore, i)
    {
      WinnersFromPast(ms, ignore, i);
      var slots := Fold(ms, ignore, i);
      var k := Bucket(slots, ignore, ms[i]);
      if k < |slots| {
        assert slots[k] in slots;
        var j :| 0 <= j < i && ms[j] == slots[k].winner;
      }
    }
  }

  lemma {:induction false} WinnersFromPast<P>(ms: seq<Member<P>>, ignore: set<string>, n: nat)
    requires n <= |ms|
    ensures forall s <- Fold(ms, ignore, n) :: exists j :: 0 <= j < n && ms[j] == s.winner
  {
    if n > 0 {
      WinnersFromPast(ms, ignore, n - 1);
      forall s <- Fold(ms, ignore, n) ensures exists j :: 0 <= j < n && ms[j] == s.winner {
        var slots := Fold(ms, ignore, n - 1);
        var k := Bucket(slots, ignore, ms[n - 1]);
        if s in slots {
          var j :| 0 <= j < n - 1 && ms[j] == s.winner;
        } else if k < |slots| && s.winner == slots[k].winner {
          assert slots[k] in slots;
          var j :| 0 <= j < n - 1 && ms[j] == slots[k].winner;
        } else {
          assert ms[n - 1] == s.winner;
        }
      }
    }
  }

  /** No earlier member has the same reduced label set. */
  predicate IsFirst<P>(ms: seq<Member<P>>, ignore: set<string>, i: nat)
    requires i < |ms|
  {
    forall j :: 0 <= j < i ==> ms[j].labels - ignore != ms[i].labels - ignore
  }

  /** The members that come first in their reduced label set, as they stand. */
  function Firsts<P>(ms: seq<Member<P>>, ignore: set<string>, n: nat): seq<Member<P>>
    requires n <= |ms|
  {
    if n == 0 then [] else Firsts(ms, ignore, n - 1) + if IsFirst(ms, ignore, n - 1) then [ms[n - 1]] else []
  }

  function WinnersOf<P>(slots: seq<Slot<P>>): seq<Member<P>> {
    seq(|slots|, k requires 0 <= k < |slots| => slots[k].winner)
  }

  /** Without a bucket for member n - 1 nobody before it has its key. */
  lemma {:induction false} NobodyBefore<P>(ms: seq<Member<P>>, ignore: set<string>, n: nat)
    requires 0 < n <= |ms| && Bucket(Fold(ms, ignore, n - 1), ignore, ms[n - 1]) == |Fold(ms, ignore, n - 1)|
    ensures forall j :: 0 <= j < n - 1 ==> ms[j].labels - ignore != ms[n - 1].labels - ignore
  {
    hide Fold;
    var slots := Fold(ms, ignore, n - 1);
    OnePerReducedSet(ms, ignore, n - 1);
    forall j | 0 <= j < n - 1 ensures ms[j].labels - ignore != ms[n - 1].labels - ignore {
      SeenOnce(ms, ignore, n - 1, j);
      assert Reduced(ms[j].labels, ignore) in Keys(slots, ignore);
    }
  }

  /** In ascending ordinals whoever comes first in a reduced label set wins it. */
  lemma {:induction false} FirstsWin<P>(ms: seq<Member<P>>, ignore: set<string>, n: nat)
    requires n <= |ms| && Ascending(ms)
    ensures WinnersOf(Fold(ms, ignore, n)) == Firsts(ms, ignore, n)
  {
    if n > 0 {
      FirstsWin(ms, ignore, n - 1);
      FirstOpens(ms, ignore, n);
    }
  }

  lemma {:induction false} FirstOpens<P>(ms: seq<Member<P>>, ignore: set<string>, n: nat)
    requires 0 < n <= |ms| && Ascending(ms)
    ensures WinnersOf(Fold(ms, ignore, n))
         == WinnersOf(Fold(ms, ignore, n - 1)) + if IsFirst(ms, ignore, n - 1) then [ms[n - 1]] else []
  {
    hide Fold;
    var slots, x := Fold(ms, ignore, n - 1), ms[n - 1];
    FoldNext(ms, ignore, n - 1);
    var k := Bucket(slots, ignore, x);
    if k < |slots| {
      WinnersFromPast(ms, ignore, n - 1);
      assert slots[k] in slots;
      var j :| 0 <= j < n - 1 && ms[j] == slots[k].winner;
      WinnerStays(slots, ignore, x);
    } else {
      NobodyBefore(ms, ignore, n);
      assert IsFirst(ms, ignore, n - 1);
    }
  }

  lemma {:induction false} WinnerStays<P>(slots: seq<Slot<P>>, ignore: set<string>, x: Member<P>)
    requires Bucket(slots, ignore, x) < |slots| && slots[Bucket(slots, ignore, x)].winner.ordinal <= x.ordinal
    ensures WinnersOf(Absorb(slots, ignore, x)) == WinnersOf(slots)
  {
    hide Find;
  }

  /** An earlier member came first in the same reduced label set, with these very labels. */
  predicate Echoes<P>(ms: seq<Member<P>>, ignore: set<string>, i: nat)
    requires i < |ms|
  {
    exists f: nat :: f < i && IsFirst(ms, ignore, f) && ms[f].labels == ms[i].labels
  }

  /** The members with the given reduced labels, but for those that only repeat the first one's labels. */
  function Contenders<P>(ms: seq<Member<P>>, ignore: set<string>, key: Labels, n: nat): seq<Member<P>>
    requires n <= |ms|
  {
    if n == 0 then []
    else
      Contenders(ms, ignore, key, n - 1)
      + if ms[n - 1].labels - ignore == key && !Echoes(ms, ignore, n - 1) then [ms[n - 1]] else []
  }

  /** s has all members with its key: the first has won, the others have lost in the order they came. */
  predicate TookAll<P(==)>(s: Slot<P>, ms: seq<Member<P>>, ignore: set<string>, n: nat)
    requires n <= |ms|
  {
    var all := Contenders(ms, ignore, s.winner.labels - ignore, n);
    && s.members == all && all != [] && s.winner == all[0]
    && s.losers == seq(|all| - 1, j requires 0 <= j < |all| - 1 => all[j + 1].ordinal)
  }

  lemma {:induction false} FirstIn<P>(ms: seq<Member<P>>, ignore: set<string>, n: nat, x: Member<P>)
    returns (f: nat)
    requires n <= |ms| && x in Firsts(ms, ignore, n)
    ensures f < n && ms[f] == x && IsFirst(ms, ignore, f)
  {
    if IsFirst(ms, ignore, n - 1) && x == ms[n - 1] {
      f := n - 1;
    } else {
      f := FirstIn(ms, ignore, n - 1, x);
    }
  }

  /** The winner of the bucket that member n - 1 falls into, when there is one, is the first with its key. */
  lemma {:induction false} BucketsFirst<P>(ms: seq<Member<P>>, ignore: set<string>, n: nat)
    requires 0 < n <= |ms| && Ascending(ms)
    ensures var slots, x := Fold(ms, ignore, n - 1), ms[n - 1];
            var k := Bucket(slots, ignore, x);
            && (k == |slots| ==> !Echoes(ms, ignore, n - 1))
            && (k < |slots| ==> slots[k].winner.ordinal <= x.ordinal
                                && (Echoes(ms, ignore, n - 1) <==> slots[k].winner.labels == x.labels))
  {
    hide Fold, Firsts, IsFirst;
    var slots, x := Fold(ms, ignore, n - 1), ms[n - 1];
    var k := Bucket(slots, ignore, x);
    FirstsWin(ms, ignore, n - 1);
    if k < |slots| {
      assert WinnersOf(slots)[k] == slots[k].winner;
      var f := FirstIn(ms, ignore, n - 1, slots[k].winner);
      if g: nat :| g < n - 1 && IsFirst(ms, ignore, g) && ms[g].labels == x.labels {
        OneFirst(ms, ignore, f, g);
      }
    } else {
      NobodyBefore(ms, ignore, n);
    }
  }

  lemma {:induction false} OneFirst<P>(ms: seq<Member<P>>, ignore: set<string>, f: nat, g: nat)
    requires f < |ms| && g < |ms| && IsFirst(ms, ignore, f) && IsFirst(ms, ignore, g)
    requires ms[f].labels - ignore == ms[g].labels - ignore
    ensures f == g
  {
  }

  /** In ascending ordinals a bucket has every member with its key but for plain repetitions of the winner's labels. */
  lemma {:induction false} ContendersTaken<P>(ms: seq<Member<P>>, ignore: set<string>, n: nat)
    requires n <= |ms| && Ascending(ms)
    ensures forall s <- Fold(ms, ignore, n) :: TookAll(s, ms, ignore, n)
  {
    hide Fold, TookAll, Find, Contenders, Echoes, Absorb;
    if n == 0 {
      NothingFolded(ms, ignore);
    } else {
      ContendersTaken(ms, ignore, n - 1);
      BucketsFirst(ms, ignore, n);
      FoldDistinct(ms, ignore, n - 1);
      FoldNext(ms, ignore, n - 1);
      var slots, x := Fold(ms, ignore, n - 1), ms[n - 1];
      var next := Absorb(slots, ignore, x);
      if Bucket(slots, ignore, x) == |slots| {
        NobodyBefore(ms, ignore, n);
        NoContenders(ms, ignore, x.labels - ignore, n - 1);
      }
      AbsorbGrows(slots, ignore, x);
      forall i | 0 <= i < |next| ensures TookAll(next[i], ms, ignore, n) {
        assert i < |slots| ==> slots[i] in slots;
        SlotTakes(slots, ms, ignore, n, i);
      }
    }
  }

  lemma {:induction false} AbsorbGrows<P>(slots: seq<Slot<P>>, ignore: set<string>, x: Member<P>)
    ensures |slots| <= |Absorb(slots, ignore, x)| <= |slots| + 1
  {
  }

  lemma {:induction false} NothingFolded<P>(ms: seq<Member<P>>, ignore: set<string>)
    ensures Fold(ms, ignore, 0) == []
  {
  }

  lemma {:induction false} NoContenders<P>(ms: seq<Member<P>>, ignore: set<string>, key: Labels, n: nat)
    requires n <= |ms| && forall j :: 0 <= j < n ==> ms[j].labels - ignore != key
    ensures Contenders(ms, ignore, key, n) == []
  {
    hide Echoes;
    if n > 0 {
      NoContenders(ms, ignore, key, n - 1);
    }
  }

  lemma {:induction false} SlotTakes<P>(slots: seq<Slot<P>>, ms: seq<Member<P>>, ignore: set<string>, n: nat, i: nat)
    requires 0 < n <= |ms| && DistinctSlots(slots, ignore)
    requires i < |Absorb(slots, ignore, ms[n - 1])| && (i < |slots| ==> TookAll(slots[i], ms, ignore, n - 1))
    requires var k, x := Bucket(slots, ignore, ms[n - 1]), ms[n - 1];
             && (k == |slots| ==> !Echoes(ms, ignore, n - 1)
                                  && Contenders(ms, ignore, x.labels - ignore, n - 1) == [])
             && (k < |slots| ==> slots[k].winner.ordinal <= x.ordinal
                                 && (Echoes(ms, ignore, n - 1) <==> slots[k].winner.labels == x.labels))
    ensures TookAll(Absorb(slots, ignore, ms[n - 1])[i], ms, ignore, n)
  {
    hide Echoes, TookAll, Find, Contenders;
    var k, x := Bucket(slots, ignore, ms[n - 1]), ms[n - 1];
    if i == |slots| {
      TakesNew(ms, ignore, n);
    } else if i != k {
      assert k < |slots| ==> Key(slots[i], ignore) != Key(slots[k], ignore);
      TakesNothing(slots[i], ms, ignore, n);
    } else if slots[k].winner.labels == x.labels {
      TakesNothing(slots[k], ms, ignore, n);
    } else {
      TakesLoser(slots[k], ms, ignore, n);
    }
  }

  lemma {:induction false} TakesNew<P>(ms: seq<Member<P>>, ignore: set<string>, n: nat)
    requires 0 < n <= |ms| && !Echoes(ms, ignore, n - 1)
    requires Contenders(ms, ignore, ms[n - 1].labels - ignore, n - 1) == []
    ensures TookAll(Slot(ms[n - 1], [], [ms[n - 1]]), ms, ignore, n)
  {
    hide Echoes;
  }

  lemma {:induction false} TakesNothing<P>(s: Slot<P>, ms: seq<Member<P>>, ignore: set<string>, n: nat)
    requires 0 < n <= |ms| && TookAll(s, ms, ignore, n - 1)
    requires Key(s, ignore) != ms[n - 1].labels - ignore || Echoes(ms, ignore, n - 1)
    ensures TookAll(s, ms, ignore, n)
  {
    hide Echoes;
  }

  lemma {:induction false} TakesLoser<P>(s: Slot<P>, ms: seq<Member<P>>, ignore: set<string>, n: nat)
    requires 0 < n <= |ms| && TookAll(s, ms, ignore, n - 1)
    requires Key(s, ignore) == ms[n - 1].labels - ignore && !Echoes(ms, ignore, n - 1)
    ensures TookAll(Slot(s.winner, s.losers + [ms[n - 1].ordinal], s.members + [ms[n - 1]]), ms, ignore, n)
  {
    hide Echoes;
  }

  /** Out of order, a repetition can leave a bucket with the higher of two ordinals that offer the same labels. */
  lemma {:induction false} OwnerCanBeHigher()
    ensures var a, b := Member(1, map["job" := "x"], 10), Member(0, map["job" := "x"], 20);
            && Fold([a, b], {}, 2) == [Slot(a, [], [a])]
            && Fold([b, a], {}, 2) == [Slot(b, [], [b])]
  {
    var a, b := Member(1, map["job" := "x"], 10), Member(0, map["job" := "x"], 20);
    assert Fold([a, b], {}, 1) == Absorb(Fold([a, b], {}, 0), {}, a) == [Slot(a, [], [a])];
    assert Fold([b, a], {}, 1) == Absorb(Fold([b, a], {}, 0), {}, b) == [Slot(b, [], [b])];
  }

  // --- rearranging the inputs ------------------------------------------------

  /** No full label set occurs twice among the first n members. */
  predicate NoRepeats<P>(ms: seq<Member<P>>, n: nat)
    requires n <= |ms|
  {
    forall i, j :: 0 <= i < j < n ==> ms[i].labels != ms[j].labels
  }

  /** What one backend contributed, in its own order. */
  function Class<P>(ms: seq<Member<P>>, ordinal: int, n: nat): seq<Member<P>>
    requires n <= |ms|
  {
    if n == 0 then []
    else Class(ms, ordinal, n - 1) + if ms[n - 1].ordinal == ordinal then [ms[n - 1]] else []
  }

  function FirstWith<P>(s: seq<Member<P>>, ignore: set<string>, key: Labels): Option<Member<P>> {
    if s == [] then None
    else
      var before := FirstWith(s[..|s| - 1], ignore, key);
      if before.Some? then before
      else if Reduced(s[|s| - 1].labels, ignore) == key then Some(s[|s| - 1]) else None
  }

  /** The ordinals of the members with the given key. */
  function Ordinals<P>(ms: seq<Member<P>>, ignore: set<string>, key: Labels, n: nat): multiset<int>
    requires n <= |ms|
  {
    if n == 0 then multiset{}
    else Ordinals(ms, ignore, key, n - 1) + if Reduced(ms[n - 1].labels, ignore) == key then multiset{ms[n - 1].ordinal}
        else multiset{}
  }

  /** The bucket with the given key holds the best member and has all others as losers. */
  predicate Holds<P(==)>(slots: seq<Slot<P>>, ms: seq<Member<P>>, ignore: set<string>, key: Labels, n: nat)
    requires n <= |ms|
  {
    var k := Find(slots, ignore, key, |slots|);
    if k == |slots| then Best(ms, ignore, key, n) == None && Ordinals(ms, ignore, key, n) == multiset{}
    else
      && Best(ms, ignore, key, n) == Some(slots[k].winner)
      && multiset(slots[k].losers) + multiset{slots[k].winner.ordinal} == Ordinals(ms, ignore, key, n)
  }

  lemma {:induction false} FindSome<P>(slots: seq<Slot<P>>, ignore: set<string>, key: Labels, i: nat)
    requires i < |slots| && Key(slots[i], ignore) == key
    ensures Find(slots, ignore, key, |slots|) < |slots|
  {
  }

  lemma {:induction false} HoldsStep<P>(slots: seq<Slot<P>>, ms: seq<Member<P>>, ignore: set<string>, key: Labels,
      n: nat)
    requires 0 < n <= |ms| && DistinctSlots(slots, ignore) && Holds(slots, ms, ignore, key, n - 1)
    requires !Judge(slots, ignore, ms[n - 1]).Repeats?
    ensures Holds(Absorb(slots, ignore, ms[n - 1]), ms, ignore, key, n)
  {
    FindAfter(slots, ignore, ms[n - 1], key);
  }

  lemma {:induction false} NoRepeatJudged<P>(ms: seq<Member<P>>, ignore: set<string>, n: nat)
    requires n < |ms| && NoRepeats(ms, n + 1)
    ensures !Judge(Fold(ms, ignore, n), ignore, ms[n]).Repeats?
  {
    var slots := Fold(ms, ignore, n);
    WinnersFromPast(ms, ignore, n);
    var k := Bucket(slots, ignore, ms[n]);
    if k < |slots| {
      assert slots[k] in slots;
      var j :| 0 <= j < n && ms[j] == slots[k].winner;
    }
  }

  /** Without repetitions every bucket is determined by the members with its key. */
  lemma {:induction false} BucketIsBest<P>(ms: seq<Member<P>>, ignore: set<string>, key: Labels, n: nat)
    requires n <= |ms| && NoRepeats(ms, n)
    ensures Holds(Fold(ms, ignore, n), ms, ignore, key, n)
  {
    if n > 0 {
      BucketIsBest(ms, ignore, key, n - 1);
      FoldDistinct(ms, ignore, n - 1);
      NoRepeatJudged(ms, ignore, n - 1);
      HoldsStep(Fold(ms, ignore, n - 1), ms, ignore, key, n);
    }
  }

  /** The best member is found class by class: the first with the key in the lowest class that has one. */
  lemma {:induction false} BestByClass<P>(ms: seq<Member<P>>, ignore: set<string>, key: Labels, ordinal: int, n: nat)
    requires n <= |ms|
    ensures var best, first := Best(ms, ignore, key, n), FirstWith(Class(ms, ordinal, n), ignore, key);
            && (best.None? ==> first.None?)
            && (best.Some? && ordinal < best.value.ordinal ==> first.None?)
            && (best.Some? && ordinal == best.value.ordinal ==> first == best)
  {
    if n > 0 {
      BestByClass(ms, ignore, key, ordinal, n - 1);
      var cls := Class(ms, ordinal, n - 1);
      assert (cls + [ms[n - 1]])[..|cls|] == cls;
      assert cls + [] == cls;
    }
  }

  function CountWith<P>(s: seq<Member<P>>, ignore: set<string>, key: Labels): nat {
    if s == [] then 0
    else CountWith(s[..|s| - 1], ignore, key) + if Reduced(s[|s| - 1].labels, ignore) == key then 1 else 0
  }

  lemma {:induction false} OrdinalsByClass<P>(ms: seq<Member<P>>, ignore: set<string>, key: Labels, ordinal: int,
      n: nat)
    requires n <= |ms|
    ensures Ordinals(ms, ignore, key, n)[ordinal] == CountWith(Class(ms, ordinal, n), ignore, key)
  {
    if n > 0 {
      OrdinalsByClass(ms, ignore, key, ordinal, n - 1);
      var cls := Class(ms, ordinal, n - 1);
      assert (cls + [ms[n - 1]])[..|cls|] == cls;
      assert cls + [] == cls;
    }
  }

  lemma {:induction false} SameBest<P>(xs: seq<Member<P>>, ys: seq<Member<P>>, ignore: set<string>, key: Labels)
    requires forall o :: Class(xs, o, |xs|) == Class(ys, o, |ys|)
    ensures Best(xs, ignore, key, |xs|) == Best(ys, ignore, key, |ys|)
  {
    var p, q := Best(xs, ignore, key, |xs|), Best(ys, ignore, key, |ys|);
    if p.Some? {
      BestByClass(xs, ignore, key, p.value.ordinal, |xs|);
      BestByClass(ys, ignore, key, p.value.ordinal, |ys|);
    }
    if q.Some? {
      BestByClass(xs, ignore, key, q.value.ordinal, |xs|);
      BestByClass(ys, ignore, key, q.value.ordinal, |ys|);
    }
  }

  lemma {:induction false} SameOrdinals<P>(xs: seq<Member<P>>, ys: seq<Member<P>>, ignore: set<string>, key: Labels)
    requires forall o :: Class(xs, o, |xs|) == Class(ys, o, |ys|)
    ensures Ordinals(xs, ignore, key, |xs|) == Ordinals(ys, ignore, key, |ys|)
  {
    forall o ensures Ordinals(xs, ignore, key, |xs|)[o] == Ordinals(ys, ignore, key, |ys|)[o] {
      OrdinalsByClass(xs, ignore, key, o, |xs|);
      OrdinalsByClass(ys, ignore, key, o, |ys|);
    }
  }

  /**
   * When no full label set occurs twice, rearranging the backends' answers (each keeping its own order) changes
   * neither the winner nor the losing ordinals of any bucket.
   */
  lemma {:induction false} RearrangementInvisible<P>(xs: seq<Member<P>>, ys: seq<Member<P>>, ignore: set<string>,
      key: Labels)
    requires NoRepeats(xs, |xs|) && NoRepeats(ys, |ys|)
    requires forall o :: Class(xs, o, |xs|) == Class(ys, o, |ys|)
    ensures var a, b := Fold(xs, ignore, |xs|), Fold(ys, ignore, |ys|);
            var i, j := Find(a, ignore, key, |a|), Find(b, ignore, key, |b|);
            && (i < |a| <==> j < |b|)
            && (i < |a| ==> a[i].winner == b[j].winner && multiset(a[i].losers) == multiset(b[j].losers))
  {
    BucketIsBest(xs, ignore, key, |xs|);
    BucketIsBest(ys, ignore, key, |ys|);
    SameBest(xs, ys, ignore, key);
    SameOrdinals(xs, ys, ignore, key);
    var a, b := Fold(xs, ignore, |xs|), Fold(ys, ignore, |ys|);
    var i, j := Find(a, ignore, key, |a|), Find(b, ignore, key, |b|);
    if i < |a| && j < |b| {
      var os, o := Ordinals(xs, ignore, key, |xs|), multiset{a[i].winner.ordinal};
      assert multiset(a[i].losers) == os - o == multiset(b[j].losers);
    }
  }
}
