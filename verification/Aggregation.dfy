/**
 * Aggregating in two steps: each group's partials, stamped with its external labels, combined
 * again by the engine.
 */
module Aggregation {
  import opened Wrappers
  import opened PromQL
  import opened FilterMatchers

  predicate Reentrant(op: Op) {
    op.Sum? || op.Min? || op.Max? || op.Group? || op.Count?
  }

  /** How the engine combines partials: counts are added up, the others aggregate as before. */
  function Recombine(op: Op): Op {
    if op.Count? then Sum else op
  }

  // --- combining values ------------------------------------------------------

  lemma {:induction false} BothAssoc(op: Op, a: Option<real>, b: Option<real>, c: Option<real>)
    ensures Both(op, Both(op, a, b), c) == Both(op, a, Both(op, b, c))
    ensures Both(op, a, b) == Both(op, b, a)
    ensures Both(op, a, None) == a && Both(op, None, a) == a
  {
  }

  lemma {:induction false} CombinedConcat(op: Op, g: Grouping, key: Labels, a: Vector, b: Vector)
    ensures Combined(op, g, key, a + b) == Both(op, Combined(op, g, key, a), Combined(op, g, key, b))
  {
    hide Both, KeyOf, Lift, Num;
    if b == [] {
      assert a + b == a;
    } else {
      var last := b[|b| - 1];
      var own := if KeyOf(g, last.labels) == key then Some(Lift(op, Num(last.value))) else None;
      CombinedConcat(op, g, key, a, b[..|b| - 1]);
      assert (a + b)[..|a + b| - 1] == a + b[..|b| - 1];
      BothAssoc(op, Combined(op, g, key, a), Combined(op, g, key, b[..|b| - 1]), own);
    }
    BothAssoc(op, Combined(op, g, key, a), None, None);
  }

  lemma {:induction false} CombinedNone(op: Op, g: Grouping, key: Labels, v: Vector)
    ensures Combined(op, g, key, v).Some? <==> key in KeysOf(g, v)
    ensures op.Group? && Combined(op, g, key, v).Some? ==> Combined(op, g, key, v).value == 1.0
    ensures op.Count? && Combined(op, g, key, v).Some? ==> Combined(op, g, key, v).value >= 1.0
  {
    if v != [] {
      CombinedNone(op, g, key, v[..|v| - 1]);
      assert KeysOf(g, v) == KeysOf(g, v[..|v| - 1]) + [KeyOf(g, v[|v| - 1].labels)];
    }
  }

  // --- keys ------------------------------------------------------------------

  lemma {:induction false} DistinctConcat(acc: seq<Labels>, a: seq<Labels>, b: seq<Labels>)
    ensures Distinct(acc, a + b) == Distinct(Distinct(acc, a), b)
  {
    if b == [] {
      assert a + b == a;
    } else {
      DistinctConcat(acc, a, b[..|b| - 1]);
      assert (a + b)[..|a + b| - 1] == a + b[..|b| - 1];
    }
  }

  lemma {:induction false} DistinctMembers(acc: seq<Labels>, ks: seq<Labels>, k: Labels)
    ensures k in Distinct(acc, ks) <==> k in acc || k in ks
  {
    if ks != [] {
      DistinctMembers(acc, ks[..|ks| - 1], k);
      assert ks == ks[..|ks| - 1] + [ks[|ks| - 1]];
    }
  }

  predicate NoRepeats(ks: seq<Labels>) {
    forall i, j :: 0 <= i < j < |ks| ==> ks[i] != ks[j]
  }

  lemma {:induction false} DistinctNoRepeats(ks: seq<Labels>)
    ensures NoRepeats(Distinct([], ks))
  {
    if ks != [] {
      DistinctNoRepeats(ks[..|ks| - 1]);
    }
  }

  lemma {:induction false} DistinctOfDistinct(acc: seq<Labels>, ks: seq<Labels>)
    requires NoRepeats(ks) && forall k <- ks :: k !in acc
    ensures Distinct(acc, ks) == acc + ks
  {
    if ks != [] {
      DistinctOfDistinct(acc, ks[..|ks| - 1]);
      assert ks == ks[..|ks| - 1] + [ks[|ks| - 1]];
    }
  }

  /** A partial's key, stamped, has the key the group's samples have. */
  lemma {:induction false} KeyOfKey(g: Grouping, ext: Labels, labels: Labels)
    ensures KeyOf(g, Stamped(ext, KeyOf(g, labels))) == KeyOf(g, Stamped(ext, labels))
  {
  }

  /** The keys that stamped label sets have in the end. */
  function FinalKeys(g: Grouping, ext: Labels, ks: seq<Labels>): seq<Labels> {
    seq(|ks|, i requires 0 <= i < |ks| => KeyOf(g, Stamped(ext, ks[i])))
  }

  lemma {:induction false} FinalKeysAppend(g: Grouping, ext: Labels, ks: seq<Labels>, k: Labels)
    ensures FinalKeys(g, ext, ks + [k]) == FinalKeys(g, ext, ks) + [KeyOf(g, Stamped(ext, k))]
  {
  }

  lemma {:induction false} DistinctNothing(acc: seq<Labels>)
    ensures Distinct(acc, []) == acc
  {
  }

  /** Dropping repetitions first does not change which keys come out, nor their order. */
  lemma {:induction false} DistinctFirst(acc: seq<Labels>, g: Grouping, ext: Labels, ks: seq<Labels>)
    ensures Distinct(acc, FinalKeys(g, ext, Distinct([], ks))) == Distinct(acc, FinalKeys(g, ext, ks))
  {
    hide KeyOf, Stamped, Distinct;
    DistinctNothing(acc);
    DistinctNothing([]);
    if ks == [] {
      assert FinalKeys(g, ext, ks) == [];
    } else {
      var front, k := ks[..|ks| - 1], ks[|ks| - 1];
      var before := Distinct([], front);
      DistinctAppend([], front, k);
      DistinctFirst(acc, g, ext, front);
      assert ks == front + [k];
      FinalKeysAppend(g, ext, front, k);
      DistinctAppend(acc, FinalKeys(g, ext, front), KeyOf(g, Stamped(ext, k)));
      if k in before {
        var i :| 0 <= i < |before| && before[i] == k;
        assert FinalKeys(g, ext, before)[i] == KeyOf(g, Stamped(ext, k));
        DistinctMembers(acc, FinalKeys(g, ext, before), KeyOf(g, Stamped(ext, k)));
      } else {
        FinalKeysAppend(g, ext, before, k);
        DistinctAppend(acc, FinalKeys(g, ext, before), KeyOf(g, Stamped(ext, k)));
      }
    }
  }

  lemma {:induction false} DistinctAppend(acc: seq<Labels>, ks: seq<Labels>, k: Labels)
    ensures Distinct(acc, ks + [k]) == if k in Distinct(acc, ks) then Distinct(acc, ks) else Distinct(acc, ks) + [k]
  {
    assert (ks + [k])[..|ks|] == ks;
  }

  // --- one group's partials ------------------------------------------------------

  lemma {:induction false} KeysOfStamped(g: Grouping, ext: Labels, v: Vector)
    ensures KeysOf(g, StampAll(ext, v)) == FinalKeys(g, ext, KeysOf(g, v))
  {
    hide KeyOf, Stamped;
    forall i | 0 <= i < |v|
      ensures KeyOf(g, Stamped(ext, v[i].labels)) == KeyOf(g, Stamped(ext, KeyOf(g, v[i].labels)))
    {
      KeyOfKey(g, ext, v[i].labels);
    }
  }

  lemma {:induction false} KeysOfAgg(op: Op, g: Grouping, ext: Labels, v: Vector)
    ensures KeysOf(g, StampAll(ext, Agg(op, g, v))) == FinalKeys(g, ext, Distinct([], KeysOf(g, v)))
  {
    hide KeyOf, Stamped, Combined;
  }

  /** What the partials with keys ks weigh for the final key. */
  function PartialsOf(op: Op, g: Grouping, ext: Labels, key: Labels, ks: seq<Labels>, v: Vector): Option<real> {
    if ks == [] then None
    else
      var k := ks[|ks| - 1];
      Both(op, PartialsOf(op, g, ext, key, ks[..|ks| - 1], v),
          if KeyOf(g, Stamped(ext, k)) == key then Combined(op, g, k, v) else None)
  }

  /** One more sample weighs in for the key k when it has it. */
  lemma {:induction false} LastPartial(op: Op, g: Grouping, ext: Labels, key: Labels, k: Labels, v: Vector, s: Sample)
    ensures var own := Some(Lift(op, Num(s.value)));
            (if KeyOf(g, Stamped(ext, k)) == key then Combined(op, g, k, v + [s]) else None)
            == Both(op, if KeyOf(g, Stamped(ext, k)) == key then Combined(op, g, k, v) else None,
                    if KeyOf(g, s.labels) == k && KeyOf(g, Stamped(ext, s.labels)) == key then own else None)
  {
    hide Both, KeyOf, Stamped, Lift, Num, Combined;
    CombinedAppend(op, g, k, v, s);
    KeyOfKey(g, ext, s.labels);
    BothAssoc(op, None, None, None);
    BothAssoc(op, Combined(op, g, k, v), None, None);
  }

  /** It has one of the keys at most. */
  lemma {:induction false} OneOfKeys(op: Op, ks: seq<Labels>, key: Labels, own: Option<real>)
    requires ks != [] && NoRepeats(ks)
    ensures Both(op, if key in ks[..|ks| - 1] then own else None, if key == ks[|ks| - 1] then own else None)
         == if key in ks then own else None
  {
    FrontNoRepeats(ks);
    hide NoRepeats, Plus;
  }

  lemma {:induction false} PartialsNext(op: Op, g: Grouping, ext: Labels, key: Labels, ks: seq<Labels>, v: Vector)
    ensures PartialsOf(op, g, ext, key, [], v) == None
    ensures ks != [] ==>
        PartialsOf(op, g, ext, key, ks, v)
        == Both(op, PartialsOf(op, g, ext, key, ks[..|ks| - 1], v),
               if KeyOf(g, Stamped(ext, ks[|ks| - 1])) == key then Combined(op, g, ks[|ks| - 1], v) else None)
  {
    hide Both, KeyOf, Stamped, Combined;
  }

  /** One more sample of the group weighs in exactly once, through its partial. */
  lemma {:induction false} PartialsStep(op: Op, g: Grouping, ext: Labels, key: Labels, ks: seq<Labels>, v: Vector,
      s: Sample)
    requires NoRepeats(ks)
    ensures PartialsOf(op, g, ext, key, ks, v + [s])
         == Both(op, PartialsOf(op, g, ext, key, ks, v),
                 if KeyOf(g, s.labels) in ks && KeyOf(g, Stamped(ext, s.labels)) == key
                 then Some(Lift(op, Num(s.value))) else None)
  {
    hide Both, KeyOf, Stamped, Lift, Num, Combined, NoRepeats, PartialsOf;
    PartialsNext(op, g, ext, key, ks, v);
    PartialsNext(op, g, ext, key, ks, v + [s]);
    if ks == [] {
      BothAssoc(op, None, None, None);
    } else {
      var front, k, mine := ks[..|ks| - 1], ks[|ks| - 1], KeyOf(g, s.labels);
      var own := if KeyOf(g, Stamped(ext, s.labels)) == key then Some(Lift(op, Num(s.value))) else None;
      FrontNoRepeats(ks);
      PartialsStep(op, g, ext, key, front, v, s);
      LastPartial(op, g, ext, key, k, v, s);
      OneOfKeys(op, ks, mine, own);
      MiddleFour(op, PartialsOf(op, g, ext, key, front, v), if mine in front then own else None,
          if KeyOf(g, Stamped(ext, k)) == key then Combined(op, g, k, v) else None, if mine == k then own else None);
    }
  }

  lemma {:induction false} MiddleFour(op: Op, a: Option<real>, b: Option<real>, c: Option<real>, d: Option<real>)
    ensures Both(op, Both(op, a, b), Both(op, c, d)) == Both(op, Both(op, a, c), Both(op, b, d))
    ensures Both(op, b, None) == b && Both(op, None, d) == d && Both(op, a, None) == a && Both(op, c, None) == c
  {
  }

  lemma {:induction false} FrontNoRepeats(ks: seq<Labels>)
    requires ks != [] && NoRepeats(ks)
    ensures NoRepeats(ks[..|ks| - 1]) && ks[|ks| - 1] !in ks[..|ks| - 1]
    ensures forall k :: k in ks <==> k in ks[..|ks| - 1] || k == ks[|ks| - 1]
  {
    assert ks == ks[..|ks| - 1] + [ks[|ks| - 1]];
  }

  lemma {:induction false} CombinedAppend(op: Op, g: Grouping, key: Labels, v: Vector, s: Sample)
    ensures Combined(op, g, key, v + [s])
         == Both(op, Combined(op, g, key, v), if KeyOf(g, s.labels) == key then Some(Lift(op, Num(s.value))) else None)
  {
    assert (v + [s])[..|v|] == v;
  }

  lemma {:induction false} PartialsAbsent(op: Op, g: Grouping, ext: Labels, key: Labels, ks: seq<Labels>, v: Vector)
    requires forall k <- ks :: k !in KeysOf(g, v)
    ensures PartialsOf(op, g, ext, key, ks, v) == None
  {
    hide KeyOf, Stamped;
    if ks != [] {
      PartialsAbsent(op, g, ext, key, ks[..|ks| - 1], v);
      assert ks[|ks| - 1] in ks;
      CombinedNone(op, g, ks[|ks| - 1], v);
    }
  }

  lemma {:induction false} PartialsAreAll(op: Op, g: Grouping, ext: Labels, key: Labels, ks: seq<Labels>, v: Vector)
    requires NoRepeats(ks) && forall k <- KeysOf(g, v) :: k in ks
    ensures PartialsOf(op, g, ext, key, ks, v) == Combined(op, g, key, StampAll(ext, v))
  {
    hide KeyOf, Stamped, Lift, Num, Both, PartialsOf;
    if v == [] {
      PartialsAbsent(op, g, ext, key, ks, v);
      assert StampAll(ext, []) == [];
    } else {
      var front, s := v[..|v| - 1], v[|v| - 1];
      assert v == front + [s];
      assert KeysOf(g, v) == KeysOf(g, front) + [KeyOf(g, s.labels)];
      forall k <- KeysOf(g, front) ensures k in ks {
        assert k in KeysOf(g, v);
      }
      assert KeyOf(g, s.labels) in KeysOf(g, v);
      PartialsAreAll(op, g, ext, key, ks, front);
      PartialsStep(op, g, ext, key, ks, front, s);
      assert StampAll(ext, v) == StampAll(ext, front) + [Sample(Stamped(ext, s.labels), s.value)];
      CombinedAppend(op, g, key, StampAll(ext, front), Sample(Stamped(ext, s.labels), s.value));
    }
  }

  /** The partials for the keys ks. */
  function PartialVector(op: Op, g: Grouping, ks: seq<Labels>, v: Vector): Vector {
    seq(|ks|, i requires 0 <= i < |ks| => Sample(ks[i], Number(Or0(Combined(op, g, ks[i], v)))))
  }

  /** A partial counts in the second step for what it is. */
  lemma {:induction false} PartialLift(op: Op, g: Grouping, k: Labels, v: Vector)
    requires Reentrant(op) && k in KeysOf(g, v)
    ensures Combined(op, g, k, v) == Some(Lift(Recombine(op), Or0(Combined(op, g, k, v))))
  {
    CombinedNone(op, g, k, v);
  }

  lemma {:induction false} RecombineBoth(op: Op, a: Option<real>, b: Option<real>)
    ensures Both(Recombine(op), a, b) == Both(op, a, b)
  {
  }

  /** Combining the listed partials weighs what they weigh. */
  lemma {:induction false} CombinedPartials(op: Op, g: Grouping, ext: Labels, key: Labels, ks: seq<Labels>, v: Vector)
    requires Reentrant(op) && forall k <- ks :: k in KeysOf(g, v)
    ensures Combined(Recombine(op), g, key, StampAll(ext, PartialVector(op, g, ks, v)))
        == PartialsOf(op, g, ext, key, ks, v)
  {
    hide KeyOf, Stamped, Both, Lift, Recombine, KeysOf, Reentrant;
    if ks == [] {
      assert StampAll(ext, PartialVector(op, g, ks, v)) == [];
    } else {
      var front, k := ks[..|ks| - 1], ks[|ks| - 1];
      assert k in ks;
      CombinedPartials(op, g, ext, key, front, v);
      PartialLift(op, g, k, v);
      PartialVectorAppend(op, g, ext, ks, v);
      var last := Sample(Stamped(ext, k), Number(Or0(Combined(op, g, k, v))));
      CombinedAppend(Recombine(op), g, key, StampAll(ext, PartialVector(op, g, front, v)), last);
      RecombineBoth(op, PartialsOf(op, g, ext, key, front, v),
          if KeyOf(g, Stamped(ext, k)) == key then Combined(op, g, k, v) else None);
    }
  }

  lemma {:induction false} PartialVectorAppend(op: Op, g: Grouping, ext: Labels, ks: seq<Labels>, v: Vector)
    requires ks != []
    ensures var k := ks[|ks| - 1];
            StampAll(ext, PartialVector(op, g, ks, v))
            == StampAll(ext, PartialVector(op, g, ks[..|ks| - 1], v))
                + [Sample(Stamped(ext, k), Number(Or0(Combined(op, g, k, v))))]
  {
    hide KeyOf, Stamped, Combined;
  }

  /** A group's partials weigh, for every final key, what its samples weigh. */
  lemma {:induction false} GroupPartials(op: Op, g: Grouping, ext: Labels, key: Labels, v: Vector)
    requires Reentrant(op)
    ensures Combined(Recombine(op), g, key, StampAll(ext, Agg(op, g, v))) == Combined(op, g, key, StampAll(ext, v))
  {
    hide KeyOf, Stamped, Combined, KeysOf;
    var ks := Distinct([], KeysOf(g, v));
    DistinctNoRepeats(KeysOf(g, v));
    forall k ensures k in ks <==> k in KeysOf(g, v) {
      DistinctMembers([], KeysOf(g, v), k);
    }
    assert Agg(op, g, v) == PartialVector(op, g, ks, v);
    CombinedPartials(op, g, ext, key, ks, v);
    PartialsAreAll(op, g, ext, key, ks, v);
  }

  lemma {:induction false} GroupKeys(acc: seq<Labels>, op: Op, g: Grouping, ext: Labels, v: Vector)
    ensures Distinct(acc, KeysOf(g, StampAll(ext, Agg(op, g, v)))) == Distinct(acc, KeysOf(g, StampAll(ext, v)))
  {
    KeysOfAgg(op, g, ext, v);
    KeysOfStamped(g, ext, v);
    DistinctFirst(acc, g, ext, KeysOf(g, v));
  }

  // --- all groups --------------------------------------------------------------

  /** The first n groups' vectors, stamped and side by side. */
  function Joined(exts: seq<Labels>, vs: seq<Vector>, n: nat): Vector
    requires n <= |exts| == |vs|
  {
    if n == 0 then [] else Joined(exts, vs, n - 1) + StampAll(exts[n - 1], vs[n - 1])
  }

  function Partials(op: Op, g: Grouping, vs: seq<Vector>): (r: seq<Vector>)
    ensures |r| == |vs|
  {
    seq(|vs|, i requires 0 <= i < |vs| => Agg(op, g, vs[i]))
  }

  lemma {:induction false} JoinedNext(op: Op, g: Grouping, exts: seq<Labels>, vs: seq<Vector>, n: nat)
    requires 0 < n <= |exts| == |vs|
    ensures Joined(exts, vs, n) == Joined(exts, vs, n - 1) + StampAll(exts[n - 1], vs[n - 1])
    ensures Joined(exts, Partials(op, g, vs), n)
        == Joined(exts, Partials(op, g, vs), n - 1) + StampAll(exts[n - 1], Agg(op, g, vs[n - 1]))
  {
  }

  lemma {:induction false} JoinedStart(op: Op, g: Grouping, exts: seq<Labels>, vs: seq<Vector>, key: Labels)
    requires |exts| == |vs|
    ensures Joined(exts, vs, 0) == [] == Joined(exts, Partials(op, g, vs), 0)
    ensures Combined(op, g, key, []) == None == Combined(Recombine(op), g, key, [])
  {
  }

  lemma {:induction false} JoinedCombined(op: Op, g: Grouping, exts: seq<Labels>, vs: seq<Vector>, n: nat, key: Labels)
    requires n <= |exts| == |vs| && Reentrant(op)
    ensures Combined(Recombine(op), g, key, Joined(exts, Partials(op, g, vs), n))
        == Combined(op, g, key, Joined(exts, vs, n))
  {
    hide Combined, Agg, Recombine, Joined, Partials, StampAll;
    if n == 0 {
      JoinedStart(op, g, exts, vs, key);
    } else {
      JoinedNext(op, g, exts, vs, n);
      JoinedCombined(op, g, exts, vs, n - 1, key);
      GroupPartials(op, g, exts[n - 1], key, vs[n - 1]);
      SidesAgree(op, g, key, Joined(exts, vs, n - 1), StampAll(exts[n - 1], vs[n - 1]),
                 Joined(exts, Partials(op, g, vs), n - 1), StampAll(exts[n - 1], Agg(op, g, vs[n - 1])));
    }
  }

  lemma {:induction false} SidesAgree(op: Op, g: Grouping, key: Labels, a: Vector, b: Vector, pa: Vector, pb: Vector)
    requires Combined(Recombine(op), g, key, pa) == Combined(op, g, key, a)
    requires Combined(Recombine(op), g, key, pb) == Combined(op, g, key, b)
    ensures Combined(Recombine(op), g, key, pa + pb) == Combined(op, g, key, a + b)
  {
    hide Combined, Both, Recombine;
    CombinedConcat(op, g, key, a, b);
    CombinedConcat(Recombine(op), g, key, pa, pb);
    RecombineBoth(op, Combined(op, g, key, a), Combined(op, g, key, b));
  }

  lemma {:induction false} KeysConcat(g: Grouping, a: Vector, b: Vector)
    ensures KeysOf(g, a + b) == KeysOf(g, a) + KeysOf(g, b)
  {
    hide KeyOf;
  }

  lemma {:induction false} JoinedKeys(op: Op, g: Grouping, exts: seq<Labels>, vs: seq<Vector>, n: nat)
    requires n <= |exts| == |vs|
    ensures Distinct([], KeysOf(g, Joined(exts, Partials(op, g, vs), n)))
        == Distinct([], KeysOf(g, Joined(exts, vs, n)))
  {
    hide Distinct, KeysOf, Agg, Joined, Partials, StampAll;
    if n == 0 {
      JoinedStart(op, g, exts, vs, map[]);
    } else {
      JoinedNext(op, g, exts, vs, n);
      JoinedKeys(op, g, exts, vs, n - 1);
      GroupKeys(Distinct([], KeysOf(g, Joined(exts, vs, n - 1))), op, g, exts[n - 1], vs[n - 1]);
      KeysAgree(g, Joined(exts, vs, n - 1), StampAll(exts[n - 1], vs[n - 1]),
                Joined(exts, Partials(op, g, vs), n - 1), StampAll(exts[n - 1], Agg(op, g, vs[n - 1])));
    }
  }

  lemma {:induction false} KeysAgree(g: Grouping, a: Vector, b: Vector, pa: Vector, pb: Vector)
    requires Distinct([], KeysOf(g, pa)) == Distinct([], KeysOf(g, a))
    requires Distinct(Distinct([], KeysOf(g, a)), KeysOf(g, pb)) == Distinct(Distinct([], KeysOf(g, a)), KeysOf(g, b))
    ensures Distinct([], KeysOf(g, pa + pb)) == Distinct([], KeysOf(g, a + b))
  {
    hide Distinct, KeysOf;
    KeysConcat(g, a, b);
    KeysConcat(g, pa, pb);
    DistinctConcat([], KeysOf(g, a), KeysOf(g, b));
    DistinctConcat([], KeysOf(g, pa), KeysOf(g, pb));
  }

  /** Combining the groups' stamped partials gives, sample for sample, the aggregate over all their stamped series. */
  lemma {:induction false} TwoStepAggregate(op: Op, g: Grouping, exts: seq<Labels>, vs: seq<Vector>)
    requires |exts| == |vs| && Reentrant(op)
    ensures Agg(Recombine(op), g, Joined(exts, Partials(op, g, vs), |vs|)) == Agg(op, g, Joined(exts, vs, |vs|))
  {
    hide Combined, KeysOf, Distinct, Joined, Partials;
    JoinedKeys(op, g, exts, vs, |vs|);
    forall key
      ensures Combined(Recombine(op), g, key, Joined(exts, Partials(op, g, vs), |vs|))
          == Combined(op, g, key, Joined(exts, vs, |vs|))
    {
      JoinedCombined(op, g, exts, vs, |vs|, key);
    }
  }

  // --- averages ------------------------------------------------------------------

  /** Keys that matching by labels-but-the-name leaves alone. */
  predicate NameFree(g: Grouping) {
    g.By? ==> NAME !in g.names
  }

  lemma {:induction false} PartnerFound(labels: Labels, v: Vector, i: nat)
    requires i < |v| && v[i].labels == labels
    requires forall j :: 0 <= j < |v| ==> NAME !in v[j].labels
    requires forall j :: 0 <= j < i ==> v[j].labels != labels
    ensures Partner(labels, v) == Some(v[i].value)
  {
    assert forall j :: 0 <= j < |v| ==> v[j].labels - {NAME} == v[j].labels;
    if i == |v| - 1 {
      PartnerMissing(labels, v[..i]);
    } else {
      PartnerFound(labels, v[..|v| - 1], i);
    }
  }

  lemma {:induction false} PartnerMissing(labels: Labels, v: Vector)
    requires forall j :: 0 <= j < |v| ==> v[j].labels - {NAME} != labels - {NAME}
    ensures Partner(labels, v) == None
  {
    if v != [] {
      PartnerMissing(labels, v[..|v| - 1]);
    }
  }

  lemma {:induction false} AggLabels(op: Op, g: Grouping, v: Vector, i: nat)
    requires NameFree(g) && i < |Agg(op, g, v)|
    ensures NAME !in Agg(op, g, v)[i].labels
    ensures forall j :: 0 <= j < i ==> Agg(op, g, v)[j].labels != Agg(op, g, v)[i].labels
    ensures Agg(op, g, v)[i].labels in KeysOf(g, v)
  {
    var keys := Distinct([], KeysOf(g, v));
    DistinctNoRepeats(KeysOf(g, v));
    DistinctMembers([], KeysOf(g, v), keys[i]);
    var j :| 0 <= j < |v| && KeysOf(g, v)[j] == keys[i];
  }

  lemma {:induction false} AggAt(op: Op, g: Grouping, v: Vector, i: nat)
    requires i < |Agg(op, g, v)|
    ensures |Agg(op, g, v)| == |Average(g, v)| && Agg(op, g, v)[i].labels == Average(g, v)[i].labels
    ensures Agg(op, g, v)[i].value == Number(Or0(Combined(op, g, Agg(op, g, v)[i].labels, v)))
  {
    hide KeysOf, Distinct, Combined, MeanOf;
  }

  /** What matching the sum with the count of its key gives. */
  lemma {:induction false} PairedWithCount(m: Meaning, s: Sample, counts: Vector, sum: real, count: real)
    requires m.Valid() && count != 0.0 && s.value == Number(sum) && NAME !in s.labels
    requires Partner(s.labels, counts) == Some(Number(count))
    ensures Paired(m, "/", s, counts) == [Sample(s.labels, Number(sum / count))]
  {
    hide Partner;
    assert s.labels - {NAME} == s.labels;
  }

  lemma {:induction false} AverageAt(g: Grouping, v: Vector, i: nat)
    requires i < |Average(g, v)|
    ensures Average(g, v)[i] == Sample(Average(g, v)[i].labels, Number(MeanOf(g, Average(g, v)[i].labels, v)))
  {
    hide KeysOf, Distinct, MeanOf;
  }

  lemma {:induction false} QuotientAt(m: Meaning, g: Grouping, v: Vector, i: nat)
    requires m.Valid() && NameFree(g) && i < |Average(g, v)| == |Agg(Sum, g, v)| == |Agg(Count, g, v)|
    ensures Paired(m, "/", Agg(Sum, g, v)[i], Agg(Count, g, v)) == [Average(g, v)[i]]
  {
    hide Agg, Average, Partner, Paired, Combined, KeysOf, NameFree, Meaning.Valid;
    var sums, counts := Agg(Sum, g, v), Agg(Count, g, v);
    var key := sums[i].labels;
    AggAt(Sum, g, v, i);
    AggAt(Count, g, v, i);
    AverageAt(g, v, i);
    forall j | 0 <= j < |counts| ensures NAME !in counts[j].labels {
      AggLabels(Count, g, v, j);
    }
    AggLabels(Count, g, v, i);
    PartnerFound(key, counts, i);
    CombinedNone(Count, g, key, v);
    CombinedNone(Sum, g, key, v);
    PairedWithCount(m, sums[i], counts, Or0(Combined(Sum, g, key, v)), Or0(Combined(Count, g, key, v)));
  }

  lemma {:induction false} MatchAppend(m: Meaning, op: string, front: Vector, s: Sample, rhs: Vector)
    ensures Match(m, op, front + [s], rhs) == Match(m, op, front, rhs) + Paired(m, op, s, rhs)
  {
    assert (front + [s])[..|front|] == front;
  }

  lemma {:induction false} AverageAligned(g: Grouping, v: Vector)
    ensures |Agg(Sum, g, v)| == |Average(g, v)| == |Agg(Count, g, v)|
  {
  }

  lemma {:induction false} Quotients(m: Meaning, g: Grouping, v: Vector, n: nat)
    requires m.Valid() && NameFree(g) && n <= |Average(g, v)|
    ensures Match(m, "/", Agg(Sum, g, v)[..n], Agg(Count, g, v)) == Average(g, v)[..n]
  {
    hide Paired, Agg, Average;
    AverageAligned(g, v);
    if n == 0 {
      assert Agg(Sum, g, v)[..0] == [] == Average(g, v)[..0];
    } else {
      Quotients(m, g, v, n - 1);
      QuotientAt(m, g, v, n - 1);
      MatchAppend(m, "/", Agg(Sum, g, v)[..n - 1], Agg(Sum, g, v)[n - 1], Agg(Count, g, v));
      assert Agg(Sum, g, v)[..n] == Agg(Sum, g, v)[..n - 1] + [Agg(Sum, g, v)[n - 1]];
      assert Average(g, v)[..n] == Average(g, v)[..n - 1] + [Average(g, v)[n - 1]];
    }
  }

  /** The mean is the sum over the count, matched on the key. */
  lemma {:induction false} AverageIsQuotient(m: Meaning, g: Grouping, v: Vector)
    requires m.Valid() && NameFree(g)
    ensures Match(m, "/", Agg(Sum, g, v), Agg(Count, g, v)) == Average(g, v)
  {
    Quotients(m, g, v, |Average(g, v)|);
    assert Agg(Sum, g, v)[..|Average(g, v)|] == Agg(Sum, g, v);
    assert Average(g, v)[..|Average(g, v)|] == Average(g, v);
  }

  /** No label of v is one of the group's external ones. */
  predicate Clear(ext: Labels, v: Vector) {
    forall s <- v :: s.labels.Keys !! ext.Keys
  }

  lemma {:induction false} FinalKeyInjective(g: Grouping, ext: Labels, a: Labels, b: Labels)
    requires a.Keys !! ext.Keys && b.Keys !! ext.Keys
    requires KeyOf(g, Stamped(ext, KeyOf(g, a))) == KeyOf(g, Stamped(ext, KeyOf(g, b)))
    ensures KeyOf(g, a) == KeyOf(g, b)
  {
    var p, q := KeyOf(g, a), KeyOf(g, b);
    forall l ensures (l in p <==> l in q) && (l in p ==> p[l] == q[l]) {
      assert (l in p ==> l !in ext) && (l in q ==> l !in ext);
      assert l in p ==> l in KeyOf(g, Stamped(ext, p)) && KeyOf(g, Stamped(ext, p))[l] == p[l];
      assert l in q ==> l in KeyOf(g, Stamped(ext, q)) && KeyOf(g, Stamped(ext, q))[l] == q[l];
      assert l !in ext && l in KeyOf(g, Stamped(ext, p)) ==> l in p;
      assert l !in ext && l in KeyOf(g, Stamped(ext, q)) ==> l in q;
    }
  }

  /** The samples of a group with a given key are, once stamped, those with the final key. */
  lemma {:induction false} CombinedStamped(op: Op, g: Grouping, ext: Labels, labels: Labels, v: Vector)
    requires Clear(ext, v) && labels.Keys !! ext.Keys
    ensures Combined(op, g, KeyOf(g, Stamped(ext, labels)), StampAll(ext, v)) == Combined(op, g, KeyOf(g, labels), v)
  {
    hide KeyOf, Stamped;
    if v != [] {
      var front, s := v[..|v| - 1], v[|v| - 1];
      assert s in v;
      CombinedStamped(op, g, ext, labels, front);
      assert StampAll(ext, v)[..|v| - 1] == StampAll(ext, front);
      KeyOfKey(g, ext, labels);
      KeyOfKey(g, ext, s.labels);
      if KeyOf(g, Stamped(ext, labels)) == KeyOf(g, Stamped(ext, s.labels)) {
        FinalKeyInjective(g, ext, labels, s.labels);
      }
    }
  }

  lemma {:induction false} CombinedOnly(op: Op, g: Grouping, v: Vector, i: nat)
    requires i < |v| && NoRepeats(KeysOf(g, v))
    ensures Combined(op, g, KeyOf(g, v[i].labels), v) == Some(Lift(op, Num(v[i].value)))
  {
    hide KeyOf, Lift, Num;
    var front := v[..|v| - 1];
    assert KeysOf(g, v) == KeysOf(g, front) + [KeyOf(g, v[|v| - 1].labels)];
    FrontNoRepeats(KeysOf(g, v));
    assert KeysOf(g, v)[..|v| - 1] == KeysOf(g, front);
    if i == |v| - 1 {
      CombinedNone(op, g, KeyOf(g, v[i].labels), front);
    } else {
      assert KeysOf(g, v)[i] != KeysOf(g, v)[|v| - 1];
      CombinedOnly(op, g, front, i);
    }
  }

  lemma {:induction false} FinalKeysNoRepeats(g: Grouping, ext: Labels, v: Vector)
    requires Clear(ext, v)
    ensures NoRepeats(FinalKeys(g, ext, Distinct([], KeysOf(g, v))))
  {
    hide KeyOf, Stamped;
    var keys := Distinct([], KeysOf(g, v));
    DistinctNoRepeats(KeysOf(g, v));
    forall i, j | 0 <= i < j < |keys| ensures FinalKeys(g, ext, keys)[i] != FinalKeys(g, ext, keys)[j] {
      DistinctMembers([], KeysOf(g, v), keys[i]);
      DistinctMembers([], KeysOf(g, v), keys[j]);
      var a :| 0 <= a < |v| && KeysOf(g, v)[a] == keys[i];
      var b :| 0 <= b < |v| && KeysOf(g, v)[b] == keys[j];
      if FinalKeys(g, ext, keys)[i] == FinalKeys(g, ext, keys)[j] {
        assert v[a] in v && v[b] in v;
        FinalKeyInjective(g, ext, v[a].labels, v[b].labels);
      }
    }
  }

  lemma {:induction false} SingleMean(g: Grouping, ext: Labels, v: Vector, i: nat)
    requires Clear(ext, v) && i < |Average(g, v)|
    ensures var again := KeyOf(g, Stamped(ext, Average(g, v)[i].labels));
            MeanOf(g, again, StampAll(ext, Average(g, v))) == MeanOf(g, again, StampAll(ext, v))
  {
    hide KeyOf, Stamped, Combined, Distinct;
    var keys, stamped := Distinct([], KeysOf(g, v)), StampAll(ext, Average(g, v));
    FinalKeysNoRepeats(g, ext, v);
    assert KeysOf(g, stamped) == FinalKeys(g, ext, keys);
    CombinedOnly(Sum, g, stamped, i);
    CombinedOnly(Count, g, stamped, i);
    DistinctMembers([], KeysOf(g, v), keys[i]);
    var a :| 0 <= a < |v| && KeysOf(g, v)[a] == keys[i];
    assert v[a] in v;
    KeyOfKey(g, ext, v[a].labels);
    CombinedStamped(Sum, g, ext, v[a].labels, v);
    CombinedStamped(Count, g, ext, v[a].labels, v);
  }

  lemma {:induction false} SingleAverageKeys(g: Grouping, ext: Labels, v: Vector)
    requires Clear(ext, v)
    ensures Distinct([], KeysOf(g, StampAll(ext, Average(g, v)))) == FinalKeys(g, ext, Distinct([], KeysOf(g, v)))
    ensures Distinct([], KeysOf(g, StampAll(ext, v))) == FinalKeys(g, ext, Distinct([], KeysOf(g, v)))
  {
    hide KeyOf, Stamped, MeanOf, Distinct;
    var keys := Distinct([], KeysOf(g, v));
    FinalKeysNoRepeats(g, ext, v);
    assert KeysOf(g, StampAll(ext, Average(g, v))) == FinalKeys(g, ext, keys);
    DistinctOfDistinct([], FinalKeys(g, ext, keys));
    assert [] + FinalKeys(g, ext, keys) == FinalKeys(g, ext, keys);
    KeysOfStamped(g, ext, v);
    DistinctFirst([], g, ext, KeysOf(g, v));
  }

  /** One group's mean goes down as it stands: averaging its stamped answer again changes nothing. */
  lemma {:induction false} SingleAverage(g: Grouping, ext: Labels, v: Vector)
    requires Clear(ext, v)
    ensures Average(g, StampAll(ext, Average(g, v))) == Average(g, StampAll(ext, v))
  {
    hide KeyOf, Stamped, MeanOf, Distinct, KeysOf, StampAll;
    SingleAverageKeys(g, ext, v);
    var keys := Distinct([], KeysOf(g, v));
    forall i | 0 <= i < |keys|
      ensures MeanOf(g, FinalKeys(g, ext, keys)[i], StampAll(ext, Average(g, v)))
          == MeanOf(g, FinalKeys(g, ext, keys)[i], StampAll(ext, v))
    {
      SingleMean(g, ext, v, i);
    }
  }

  // --- count_values ---------------------------------------------------------------

  /**
   * A group's external labels leave the counted values alone: the value label is not one of them, or is not part
   * of the result, or every value happens to be the external one.
   */
  predicate Untouched(m: Meaning, ext: Labels, l: string, g: Grouping, v: Vector) {
    l !in ext || (g.Without? && l in g.names) || forall s <- v :: m.format(s.value) == ext[l]
  }

  /** One sample, labelled before stamping and after. */
  lemma {:induction false} LabelledKey(m: Meaning, ext: Labels, l: string, g: Grouping, s: Sample)
    requires NAME !in ext
    ensures var w, x := WithLabel(g, l), m.format(s.value);
            var before, after := KeyOf(w, Stamped(ext, s.labels[l := x])), KeyOf(w, Stamped(ext, s.labels)[l := x]);
            && (Untouched(m, ext, l, g, [s]) ==> before == after)
            && (l in ext && !(g.Without? && l in g.names)
                ==> l in before && before[l] == ext[l] && l in after && after[l] == x)
  {
    assert s in [s];
    var x := m.format(s.value);
    if l !in ext {
      assert Stamped(ext, s.labels[l := x]) == Stamped(ext, s.labels)[l := x];
    } else {
      assert Stamped(ext, s.labels[l := x]) == Stamped(ext, s.labels)[l := ext[l]];
    }
  }

  lemma {:induction false} CountByKeys(g: Grouping, key: Labels, a: Vector, b: Vector)
    requires KeysOf(g, a) == KeysOf(g, b)
    ensures |a| == |b| && Combined(Count, g, key, a) == Combined(Count, g, key, b)
  {
    hide KeyOf;
    assert |a| == |KeysOf(g, a)| == |b|;
    if a != [] {
      assert KeysOf(g, a)[..|a| - 1] == KeysOf(g, a[..|a| - 1]) && KeysOf(g, b)[..|b| - 1] == KeysOf(g, b[..|b| - 1]);
      CountByKeys(g, key, a[..|a| - 1], b[..|b| - 1]);
      assert KeysOf(g, a)[|a| - 1] == KeysOf(g, b)[|b| - 1];
    }
  }

  /** Counting looks at the keys only. */
  lemma {:induction false} SameKeysSameCounts(g: Grouping, a: Vector, b: Vector)
    requires KeysOf(g, a) == KeysOf(g, b)
    ensures Agg(Count, g, a) == Agg(Count, g, b)
  {
    hide Combined, KeysOf;
    forall key ensures Combined(Count, g, key, a) == Combined(Count, g, key, b) {
      CountByKeys(g, key, a, b);
    }
  }

  lemma {:induction false} LabelledKeys(m: Meaning, ext: Labels, l: string, g: Grouping, v: Vector)
    requires NAME !in ext && Untouched(m, ext, l, g, v)
    ensures KeysOf(WithLabel(g, l), StampAll(ext, Labelled(m, l, v)))
        == KeysOf(WithLabel(g, l), Labelled(m, l, StampAll(ext, v)))
  {
    hide KeyOf, Stamped, WithLabel;
    forall i | 0 <= i < |v|
      ensures KeyOf(WithLabel(g, l), Stamped(ext, v[i].labels[l := m.format(v[i].value)]))
           == KeyOf(WithLabel(g, l), Stamped(ext, v[i].labels)[l := m.format(v[i].value)])
    {
      assert v[i] in v;
      LabelledKey(m, ext, l, g, v[i]);
    }
  }

  lemma {:induction false} KeysSurvive(op: Op, g: Grouping, v: Vector, key: Labels)
    ensures key in KeysOf(g, v) <==> exists i :: 0 <= i < |Agg(op, g, v)| && Agg(op, g, v)[i].labels == key
  {
    hide KeyOf, Combined;
    var keys := Distinct([], KeysOf(g, v));
    DistinctMembers([], KeysOf(g, v), key);
    if key in keys {
      var i :| 0 <= i < |keys| && keys[i] == key;
      assert Agg(op, g, v)[i].labels == key;
    }
  }

  /** A value that the external label overwrites has no row of its own in the end. */
  lemma {:induction false} ValueLost(m: Meaning, ext: Labels, l: string, g: Grouping, v: Vector, s: Sample)
    requires NAME !in ext && s in v && !Untouched(m, ext, l, g, [s])
    ensures KeyOf(WithLabel(g, l), Stamped(ext, s.labels)[l := m.format(s.value)])
        in KeysOf(WithLabel(g, l), Labelled(m, l, StampAll(ext, v)))
    ensures KeyOf(WithLabel(g, l), Stamped(ext, s.labels)[l := m.format(s.value)])
        !in KeysOf(WithLabel(g, l), StampAll(ext, Labelled(m, l, v)))
  {
    hide KeyOf, Stamped, WithLabel;
    var w, key := WithLabel(g, l), KeyOf(WithLabel(g, l), Stamped(ext, s.labels)[l := m.format(s.value)]);
    LabelledKey(m, ext, l, g, s);
    assert s in [s];
    var i :| 0 <= i < |v| && v[i] == s;
    assert KeysOf(w, Labelled(m, l, StampAll(ext, v)))[i] == key;
    forall j | 0 <= j < |v| ensures KeyOf(w, Stamped(ext, v[j].labels[l := m.format(v[j].value)])) != key {
      LabelledKey(m, ext, l, g, v[j]);
    }
  }

  /** Counting values before stamping is counting them after it if and only if stamping leaves the values alone. */
  lemma {:induction false} ValueCountsExact(m: Meaning, ext: Labels, l: string, g: Grouping, v: Vector)
    requires NAME !in ext
    ensures Agg(Count, WithLabel(g, l), StampAll(ext, Labelled(m, l, v)))
        == Agg(Count, WithLabel(g, l), Labelled(m, l, StampAll(ext, v)))
       <==> Untouched(m, ext, l, g, v)
  {
    hide KeyOf, Agg, KeysOf, Labelled, StampAll, Stamped, WithLabel;
    var w := WithLabel(g, l);
    var before, after := StampAll(ext, Labelled(m, l, v)), Labelled(m, l, StampAll(ext, v));
    if Untouched(m, ext, l, g, v) {
      LabelledKeys(m, ext, l, g, v);
      SameKeysSameCounts(w, before, after);
    } else {
      var s :| s in v && m.format(s.value) != ext[l];
      assert s in [s];
      ValueLost(m, ext, l, g, v, s);
      var key := KeyOf(w, Stamped(ext, s.labels)[l := m.format(s.value)]);
      KeysSurvive(Count, w, before, key);
      KeysSurvive(Count, w, after, key);
    }
  }

  lemma {:induction false} LabelledConcat(m: Meaning, l: string, a: Vector, b: Vector)
    ensures Labelled(m, l, a + b) == Labelled(m, l, a) + Labelled(m, l, b)
  {
  }

  function AllLabelled(m: Meaning, l: string, vs: seq<Vector>): seq<Vector> {
    seq(|vs|, i requires 0 <= i < |vs| => Labelled(m, l, vs[i]))
  }

  lemma {:induction false} JoinedLabelledKeys(m: Meaning, l: string, g: Grouping, exts: seq<Labels>, vs: seq<Vector>,
      n: nat)
    requires n <= |exts| == |vs| && forall i :: 0 <= i < |vs| ==> NAME !in exts[i] && Untouched(m, exts[i], l, g, vs[i])
    ensures KeysOf(WithLabel(g, l), Joined(exts, AllLabelled(m, l, vs), n))
        == KeysOf(WithLabel(g, l), Labelled(m, l, Joined(exts, vs, n)))
  {
    hide StampAll, KeysOf, Labelled, Untouched;
    if n == 0 {
      LabelledNothing(m, l);
    } else {
      JoinedLabelledKeys(m, l, g, exts, vs, n - 1);
      LabelledKeys(m, exts[n - 1], l, g, vs[n - 1]);
      LabelledConcat(m, l, Joined(exts, vs, n - 1), StampAll(exts[n - 1], vs[n - 1]));
      KeysConcat(WithLabel(g, l), Joined(exts, AllLabelled(m, l, vs), n - 1),
          StampAll(exts[n - 1], Labelled(m, l, vs[n - 1])));
      KeysConcat(WithLabel(g, l), Labelled(m, l, Joined(exts, vs, n - 1)),
          Labelled(m, l, StampAll(exts[n - 1], vs[n - 1])));
    }
  }

  lemma {:induction false} LabelledNothing(m: Meaning, l: string)
    ensures Labelled(m, l, []) == []
  {
  }

  /** What pushing count_values down gives is what it should give. */
  predicate ValuesCounted(m: Meaning, l: string, g: Grouping, exts: seq<Labels>, vs: seq<Vector>)
    requires |exts| == |vs|
  {
    var w := WithLabel(g, l);
    Agg(Sum, w, Joined(exts, Partials(Count, w, AllLabelled(m, l, vs)), |vs|))
        == Agg(Count, w, Labelled(m, l, Joined(exts, vs, |vs|)))
  }

  /** It does when every group's values are left alone; for a single group only then. */
  lemma {:induction false} TwoStepCountValues(m: Meaning, l: string, g: Grouping, exts: seq<Labels>, vs: seq<Vector>)
    requires |exts| == |vs| && forall ext <- exts :: NAME !in ext
    ensures (forall i :: 0 <= i < |vs| ==> Untouched(m, exts[i], l, g, vs[i])) ==> ValuesCounted(m, l, g, exts, vs)
    ensures |vs| == 1 ==> (ValuesCounted(m, l, g, exts, vs) <==> Untouched(m, exts[0], l, g, vs[0]))
  {
    hide Agg, Partials, Labelled, StampAll, KeysOf, Untouched;
    var w := WithLabel(g, l);
    TwoStepAggregate(Count, w, exts, AllLabelled(m, l, vs));
    if forall i :: 0 <= i < |vs| ==> Untouched(m, exts[i], l, g, vs[i]) {
      JoinedLabelledKeys(m, l, g, exts, vs, |vs|);
      SameKeysSameCounts(w, Joined(exts, AllLabelled(m, l, vs), |vs|), Labelled(m, l, Joined(exts, vs, |vs|)));
    }
    if |vs| == 1 {
      assert Joined(exts, vs, 0) == [] == Joined(exts, AllLabelled(m, l, vs), 0);
      assert Joined(exts, vs, 1) == StampAll(exts[0], vs[0]);
      assert Joined(exts, AllLabelled(m, l, vs), 1) == StampAll(exts[0], Labelled(m, l, vs[0]));
      ValueCountsExact(m, exts[0], l, g, vs[0]);
    }
  }

  /** The answers of n groups of which only the first has any. */
  function OnlyFirst(v: Vector, n: nat): seq<Vector> {
    seq(n, i requires 0 <= i < n => if i == 0 then v else [])
  }

  lemma {:induction false} OnlyFirstJoined(m: Meaning, l: string, exts: seq<Labels>, v: Vector, n: nat)
    requires 0 < n <= |exts|
    ensures Joined(exts, OnlyFirst(v, |exts|), n) == StampAll(exts[0], v)
    ensures Joined(exts, AllLabelled(m, l, OnlyFirst(v, |exts|)), n) == StampAll(exts[0], Labelled(m, l, v))
  {
    if n > 1 {
      OnlyFirstJoined(m, l, exts, v, n - 1);
      assert StampAll(exts[n - 1], []) == [];
      LabelledNothing(m, l);
    } else {
      assert Joined(exts, OnlyFirst(v, |exts|), 0) == [] == Joined(exts, AllLabelled(m, l, OnlyFirst(v, |exts|)), 0);
    }
  }

  /**
   * What can be told without the data: pushing count_values down is right for whatever the groups have if and only
   * if the value label is no external label or is left out of the result.  y is a value that does not read like the
   * first group's external label.
   */
  lemma {:induction false} ValueLabelRule(m: Meaning, l: string, g: Grouping, exts: seq<Labels>, y: Value)
    requires |exts| > 0 && forall ext <- exts :: NAME !in ext && ext.Keys == exts[0].Keys
    requires l in exts[0] ==> m.format(y) != exts[0][l]
    ensures (forall vs: seq<Vector> :: |vs| == |exts| ==> ValuesCounted(m, l, g, exts, vs))
       <==> (l !in exts[0] || (g.Without? && l in g.names))
  {
    hide Agg, Partials, StampAll, ValuesCounted, Joined;
    if l !in exts[0] || (g.Without? && l in g.names) {
      forall vs: seq<Vector> | |vs| == |exts| ensures ValuesCounted(m, l, g, exts, vs) {
        forall i | 0 <= i < |vs| ensures Untouched(m, exts[i], l, g, vs[i]) {
          assert exts[i] in exts;
        }
        TwoStepCountValues(m, l, g, exts, vs);
      }
    } else {
      var s := Sample(map[], y);
      assert s in [s] && exts[0] in exts;
      OneGroupWrong(m, l, g, exts, [s]);
    }
  }

  lemma {:induction false} OneGroupWrong(m: Meaning, l: string, g: Grouping, exts: seq<Labels>, v: Vector)
    requires |exts| > 0 && NAME !in exts[0] && !Untouched(m, exts[0], l, g, v)
    ensures |OnlyFirst(v, |exts|)| == |exts| && !ValuesCounted(m, l, g, exts, OnlyFirst(v, |exts|))
  {
    hide Agg, Partials, Labelled, StampAll, Untouched, Joined;
    OnlyFirstJoined(m, l, exts, v, |exts|);
    TwoStepAggregate(Count, WithLabel(g, l), exts, AllLabelled(m, l, OnlyFirst(v, |exts|)));
    ValueCountsExact(m, exts[0], l, g, v);
  }

  // --- what the aggregates are ----------------------------------------------------

  /** The positions of v's samples with the given key. */
  function With(g: Grouping, key: Labels, v: Vector): set<nat> {
    set i: nat | i < |v| && KeyOf(g, v[i].labels) == key
  }

  lemma {:induction false} WithLast(g: Grouping, key: Labels, v: Vector)
    requires v != []
    ensures var front := v[..|v| - 1];
            With(g, key, v)
            == With(g, key, front) + if KeyOf(g, v[|v| - 1].labels) == key then {(|v| - 1) as nat} else {}
  {
    hide KeyOf;
  }

  /** Counts count, and groups are 1. */
  lemma {:induction false} CountsAre(g: Grouping, key: Labels, v: Vector)
    ensures Combined(Count, g, key, v) == if With(g, key, v) == {} then None else Some(|With(g, key, v)| as real)
    ensures Combined(Group, g, key, v) == if With(g, key, v) == {} then None else Some(1.0)
  {
    hide KeyOf, With;
    if v == [] {
      WithNothing(g, key);
    } else {
      CountsAre(g, key, v[..|v| - 1]);
      WithLast(g, key, v);
      WithBelow(g, key, v[..|v| - 1]);
    }
  }

  lemma {:induction false} WithNothing(g: Grouping, key: Labels)
    ensures With(g, key, []) == {}
  {
  }

  lemma {:induction false} WithBelow(g: Grouping, key: Labels, v: Vector)
    ensures |v| !in With(g, key, v)
  {
  }

  /** The least (or greatest) value under a key. */
  predicate Extreme(g: Grouping, key: Labels, v: Vector, x: Option<real>, low: bool) {
    if With(g, key, v) == {} then x == None
    else
      && x.Some? && (exists i <- With(g, key, v) :: Num(v[i].value) == x.value)
      && (forall i <- With(g, key, v) :: if low then x.value <= Num(v[i].value) else Num(v[i].value) <= x.value)
  }

  lemma {:induction false} ExtremeNext(g: Grouping, key: Labels, v: Vector, x: Option<real>, low: bool)
    requires v != [] && Extreme(g, key, v[..|v| - 1], x, low)
    ensures var y := Num(v[|v| - 1].value);
            Extreme(g, key, v,
                    if KeyOf(g, v[|v| - 1].labels) != key then x
                    else if x.None? || (if low then y <= x.value else x.value <= y) then Some(y)
                    else x, low)
  {
    hide KeyOf, With, Num;
    WithLast(g, key, v);
    WithInside(g, key, v);
    WithInside(g, key, v[..|v| - 1]);
  }

  lemma {:induction false} WithInside(g: Grouping, key: Labels, v: Vector)
    ensures forall i <- With(g, key, v) :: i < |v|
  {
  }

  /** Minima and maxima are values of their key that no other is below or above. */
  lemma {:induction false} ExtremesAre(g: Grouping, key: Labels, v: Vector)
    ensures Extreme(g, key, v, Combined(Min, g, key, v), true)
    ensures Extreme(g, key, v, Combined(Max, g, key, v), false)
  {
    hide KeyOf, Extreme, With;
    if v == [] {
      NoExtreme(g, key);
    } else {
      ExtremesAre(g, key, v[..|v| - 1]);
      ExtremeNext(g, key, v, Combined(Min, g, key, v[..|v| - 1]), true);
      ExtremeNext(g, key, v, Combined(Max, g, key, v[..|v| - 1]), false);
    }
  }

  lemma {:induction false} NoExtreme(g: Grouping, key: Labels)
    ensures Extreme(g, key, [], None, true) && Extreme(g, key, [], None, false)
  {
  }
}
