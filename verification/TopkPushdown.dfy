/**
 * topk and bottomk leave ties open, so their answers are described, not computed: whatever the
 * groups and the engine pick, the two steps give an answer the one step could have given.
 */
module TopkPushdown {
  import opened PromQL
  import opened FilterMatchers
  import opened LocalQueries
  import opened Fetching
  import opened Pushdown
  import opened PushdownTheorem
  import A = Aggregation

  function InKey(s: set<Sample>, g: Grouping, key: Labels): set<Sample> {
    set x | x in s && KeyOf(g, x.labels) == key
  }

  /** x ranks strictly before y. */
  predicate Before(top: bool, x: Sample, y: Sample) {
    if top then Num(x.value) > Num(y.value) else Num(x.value) < Num(y.value)
  }

  function Least(a: nat, b: nat): nat {
    if a < b then a else b
  }

  /**
   * out is an answer to topk (or bottomk) over v: per key k samples, or all, and nothing left out ranks before anything
   * kept.
   */
  ghost predicate IsTop(out: set<Sample>, v: set<Sample>, g: Grouping, k: nat, top: bool) {
    && out <= v
    && (forall key :: |InKey(out, g, key)| == Least(k, |InKey(v, g, key)|))
    && (forall x, y ::
        x in v && x !in out && y in out && KeyOf(g, x.labels) == KeyOf(g, y.labels) ==> !Before(top, x, y))
  }

  /** Those with x's key that x does not rank before. */
  ghost function AsGood(s: set<Sample>, g: Grouping, top: bool, x: Sample): set<Sample> {
    set y | y in s && KeyOf(g, y.labels) == KeyOf(g, x.labels) && !Before(top, x, y)
  }

  /** Whatever of v is not in p has k as good ones with its key in p. */
  ghost predicate Sufficient(p: set<Sample>, v: set<Sample>, g: Grouping, k: nat, top: bool) {
    p <= v && forall x :: x in v && x !in p ==> |AsGood(p, g, top, x)| >= k
  }

  lemma {:induction false} Subset<T>(a: set<T>, b: set<T>)
    requires a <= b
    ensures |a| <= |b|
    ensures a != b ==> |a| < |b|
  {
    assert b == a + (b - a);
    assert a != b ==> b - a != {};
  }

  lemma {:induction false} TopSuffices(p: set<Sample>, v: set<Sample>, g: Grouping, k: nat, top: bool)
    requires IsTop(p, v, g, k, top)
    ensures Sufficient(p, v, g, k, top)
  {
    forall x | x in v && x !in p ensures |AsGood(p, g, top, x)| >= k {
      var key := KeyOf(g, x.labels);
      assert AsGood(p, g, top, x) == InKey(p, g, key);
      assert InKey(p, g, key) <= InKey(v, g, key) && x in InKey(v, g, key) - InKey(p, g, key);
      Subset(InKey(p, g, key), InKey(v, g, key));
    }
  }

  lemma {:induction false} SufficientUnion(p: set<Sample>, v: set<Sample>, q: set<Sample>, w: set<Sample>, g: Grouping,
      k: nat, top: bool)
    requires Sufficient(p, v, g, k, top) && Sufficient(q, w, g, k, top)
    ensures Sufficient(p + q, v + w, g, k, top)
  {
    forall x | x in v + w && x !in p + q ensures |AsGood(p + q, g, top, x)| >= k {
      if x in v {
        Subset(AsGood(p, g, top, x), AsGood(p + q, g, top, x));
      } else {
        Subset(AsGood(q, g, top, x), AsGood(p + q, g, top, x));
      }
    }
  }

  /** Picking the top of a sufficient part picks the top of the whole. */
  lemma {:induction false} TopOfSufficient(out: set<Sample>, p: set<Sample>, v: set<Sample>, g: Grouping, k: nat,
      top: bool)
    requires Sufficient(p, v, g, k, top) && IsTop(out, p, g, k, top)
    ensures IsTop(out, v, g, k, top)
  {
    forall key ensures |InKey(out, g, key)| == Least(k, |InKey(v, g, key)|) {
      SameSize(p, v, g, k, top, key);
    }
    forall x, y | x in v && x !in out && y in out && KeyOf(g, x.labels) == KeyOf(g, y.labels)
      ensures !Before(top, x, y)
    {
      if x !in p {
        LeftOut(out, p, v, g, k, top, x, y);
      }
    }
  }

  lemma {:induction false} SameSize(p: set<Sample>, v: set<Sample>, g: Grouping, k: nat, top: bool, key: Labels)
    requires Sufficient(p, v, g, k, top)
    ensures Least(k, |InKey(p, g, key)|) == Least(k, |InKey(v, g, key)|)
  {
    var some, all := InKey(p, g, key), InKey(v, g, key);
    Subset(some, all);
    if x :| x in all && x !in some {
      Subset(AsGood(p, g, top, x), some);
    } else {
      assert some == all;
    }
  }

  /** A sample outside p cannot rank before a kept one: one of its k betters would have been left out as well. */
  lemma {:induction false} LeftOut(out: set<Sample>, p: set<Sample>, v: set<Sample>, g: Grouping, k: nat, top: bool,
      x: Sample, y: Sample)
    requires Sufficient(p, v, g, k, top) && IsTop(out, p, g, k, top)
    requires x in v && x !in p && y in out && KeyOf(g, x.labels) == KeyOf(g, y.labels)
    ensures !Before(top, x, y)
  {
    var betters, kept := AsGood(p, g, top, x), InKey(out, g, KeyOf(g, x.labels));
    if q :| q in betters && q !in kept {
      assert !Before(top, q, y);
    } else {
      Subset(betters, kept);
      assert y in betters;
    }
  }

  // --- groups ------------------------------------------------------------------

  function StampSample(ext: Labels, s: Sample): Sample {
    Sample(Stamped(ext, s.labels), s.value)
  }

  function StampSet(ext: Labels, v: set<Sample>): set<Sample> {
    set s | s in v :: StampSample(ext, s)
  }

  ghost predicate OwnLabels(ext: Labels, v: set<Sample>) {
    forall s <- v :: s.labels.Keys !! ext.Keys
  }

  lemma {:induction false} StampInjective(ext: Labels, a: Sample, b: Sample)
    requires a.labels.Keys !! ext.Keys && b.labels.Keys !! ext.Keys && StampSample(ext, a) == StampSample(ext, b)
    ensures a == b
  {
    assert Stamped(ext, a.labels) - ext.Keys == a.labels && Stamped(ext, b.labels) - ext.Keys == b.labels;
  }

  lemma {:induction false} StampSize(ext: Labels, v: set<Sample>)
    requires OwnLabels(ext, v)
    ensures |StampSet(ext, v)| == |v|
  {
    hide StampSample;
    assert (forall s :: s !in v) ==> v == {};
    if v == {} {
      assert StampSet(ext, v) == {};
    } else {
      var s :| s in v;
      var rest := v - {s};
      StampSize(ext, rest);
      forall x <- rest ensures StampSample(ext, x) != StampSample(ext, s) {
        if StampSample(ext, x) == StampSample(ext, s) {
          StampInjective(ext, x, s);
        }
      }
      assert StampSet(ext, v) == StampSet(ext, rest) + {StampSample(ext, s)};
    }
  }

  lemma {:induction false} SameFinalKey(g: Grouping, ext: Labels, a: Labels, b: Labels)
    requires a.Keys !! ext.Keys && b.Keys !! ext.Keys
    ensures KeyOf(g, Stamped(ext, a)) == KeyOf(g, Stamped(ext, b)) <==> KeyOf(g, a) == KeyOf(g, b)
  {
    hide KeyOf, Stamped;
    A.KeyOfKey(g, ext, a);
    A.KeyOfKey(g, ext, b);
    if KeyOf(g, Stamped(ext, a)) == KeyOf(g, Stamped(ext, b)) {
      A.FinalKeyInjective(g, ext, a, b);
    }
  }

  lemma {:induction false} StampAsGood(p: set<Sample>, g: Grouping, top: bool, ext: Labels, x: Sample)
    requires OwnLabels(ext, p) && x.labels.Keys !! ext.Keys
    ensures AsGood(StampSet(ext, p), g, top, StampSample(ext, x)) == StampSet(ext, AsGood(p, g, top, x))
  {
    hide KeyOf, Stamped;
    forall y <- p
      ensures KeyOf(g, Stamped(ext, y.labels)) == KeyOf(g, Stamped(ext, x.labels))
          <==> KeyOf(g, y.labels) == KeyOf(g, x.labels)
    {
      SameFinalKey(g, ext, y.labels, x.labels);
    }
  }

  /** A group's top, stamped, is a sufficient part of the group's stamped samples. */
  lemma {:induction false} StampedTop(p: set<Sample>, v: set<Sample>, g: Grouping, k: nat, top: bool, ext: Labels)
    requires OwnLabels(ext, v) && IsTop(p, v, g, k, top)
    ensures Sufficient(StampSet(ext, p), StampSet(ext, v), g, k, top)
  {
    hide KeyOf, Stamped, Before;
    TopSuffices(p, v, g, k, top);
    forall z | z in StampSet(ext, v) && z !in StampSet(ext, p) ensures |AsGood(StampSet(ext, p), g, top, z)| >= k {
      var x :| x in v && z == StampSample(ext, x);
      StampAsGood(p, g, top, ext, x);
      StampSize(ext, AsGood(p, g, top, x));
    }
  }

  /** The stamped samples of the first n groups. */
  function All(exts: seq<Labels>, vs: seq<set<Sample>>, n: nat): set<Sample>
    requires n <= |exts| == |vs|
  {
    if n == 0 then {} else All(exts, vs, n - 1) + StampSet(exts[n - 1], vs[n - 1])
  }

  lemma {:induction false} PartialsSuffice(exts: seq<Labels>, ps: seq<set<Sample>>, vs: seq<set<Sample>>, g: Grouping,
      k: nat, top: bool, n: nat)
    requires n <= |exts| == |ps| == |vs|
    requires forall i :: 0 <= i < |vs| ==> OwnLabels(exts[i], vs[i]) && IsTop(ps[i], vs[i], g, k, top)
    ensures Sufficient(All(exts, ps, n), All(exts, vs, n), g, k, top)
  {
    hide IsTop, StampSet, OwnLabels;
    if n > 0 {
      PartialsSuffice(exts, ps, vs, g, k, top, n - 1);
      StampedTop(ps[n - 1], vs[n - 1], g, k, top, exts[n - 1]);
      SufficientUnion(All(exts, ps, n - 1), All(exts, vs, n - 1), StampSet(exts[n - 1], ps[n - 1]),
          StampSet(exts[n - 1], vs[n - 1]), g, k, top);
    }
  }

  /** Whatever top the groups return and the engine picks from them is a top of all their stamped samples. */
  lemma {:induction false} TwoStepTop(exts: seq<Labels>, ps: seq<set<Sample>>, vs: seq<set<Sample>>, g: Grouping,
      k: nat, top: bool, out: set<Sample>)
    requires |exts| == |ps| == |vs|
    requires forall i :: 0 <= i < |vs| ==> OwnLabels(exts[i], vs[i]) && IsTop(ps[i], vs[i], g, k, top)
    requires IsTop(out, All(exts, ps, |vs|), g, k, top)
    ensures IsTop(out, All(exts, vs, |vs|), g, k, top)
  {
    hide IsTop, OwnLabels, All;
    PartialsSuffice(exts, ps, vs, g, k, top, |vs|);
    TopOfSufficient(out, All(exts, ps, |vs|), All(exts, vs, |vs|), g, k, top);
  }

  // --- the values are determined -------------------------------------------------

  /** Its value is beyond t (above, or below for bottomk), or t itself unless strict. */
  predicate Beyond(x: Sample, top: bool, t: real, strict: bool) {
    (if top then Num(x.value) > t else Num(x.value) < t) || (!strict && Num(x.value) == t)
  }

  /** Those with the given key and a value beyond t. */
  function Reaching(s: set<Sample>, g: Grouping, key: Labels, top: bool, t: real, strict: bool): set<Sample> {
    set x | x in s && KeyOf(g, x.labels) == key && Beyond(x, top, t, strict)
  }

  /** Ties aside there is no choice: of each key an answer has as many values beyond any bound as v has, up to k. */
  lemma {:induction false} TopValues(out: set<Sample>, v: set<Sample>, g: Grouping, k: nat, top: bool, key: Labels,
      t: real, strict: bool)
    requires IsTop(out, v, g, k, top)
    ensures |Reaching(out, g, key, top, t, strict)| == Least(k, |Reaching(v, g, key, top, t, strict)|)
  {
    hide KeyOf;
    var some, all, kept := Reaching(out, g, key, top, t, strict), Reaching(v, g, key, top, t, strict),
        InKey(out, g, key);
    Subset(some, all);
    Subset(some, kept);
    if x :| x in all && x !in out {
      assert some == kept;
      assert kept <= InKey(v, g, key) && x in InKey(v, g, key) - kept;
      Subset(kept, InKey(v, g, key));
    } else {
      assert some == all;
    }
  }

  /** Those with the given key and value. */
  function Valued(s: set<Sample>, g: Grouping, key: Labels, t: real): set<Sample> {
    set x | x in s && KeyOf(g, x.labels) == key && Num(x.value) == t
  }

  lemma {:induction false} ValuedCount(s: set<Sample>, g: Grouping, key: Labels, top: bool, t: real)
    ensures |Valued(s, g, key, t)| == |Reaching(s, g, key, top, t, false)| - |Reaching(s, g, key, top, t, true)|
  {
    hide KeyOf;
    var all, beyond := Reaching(s, g, key, top, t, false), Reaching(s, g, key, top, t, true);
    assert Valued(s, g, key, t) == all - beyond && beyond <= all;
  }

  /** Two answers to the same topk or bottomk have, per key, every value equally often. */
  lemma {:induction false} SameValues(a: set<Sample>, b: set<Sample>, v: set<Sample>, g: Grouping, k: nat, top: bool,
      key: Labels, t: real)
    requires IsTop(a, v, g, k, top) && IsTop(b, v, g, k, top)
    ensures |Valued(a, g, key, t)| == |Valued(b, g, key, t)|
  {
    hide IsTop, Reaching, Valued;
    ValuedCount(a, g, key, top, t);
    ValuedCount(b, g, key, top, t);
    TopValues(a, v, g, k, top, key, t, false);
    TopValues(a, v, g, k, top, key, t, true);
    TopValues(b, v, g, k, top, key, t, false);
    TopValues(b, v, g, k, top, key, t, true);
  }

  // --- the pushed-down request -----------------------------------------------------

  function SetOf(v: Vector): set<Sample> {
    set s | s in v
  }

  function SetsOf(vs: seq<Vector>): (r: seq<set<Sample>>)
    ensures |r| == |vs|
  {
    seq(|vs|, i requires 0 <= i < |vs| => SetOf(vs[i]))
  }

  lemma {:induction false} SetOfStamped(ext: Labels, v: Vector)
    ensures SetOf(StampAll(ext, v)) == StampSet(ext, SetOf(v))
  {
    hide Stamped;
    forall s <- StampSet(ext, SetOf(v)) ensures s in StampAll(ext, v) {
      var x :| x in v && s == StampSample(ext, x);
      var i :| 0 <= i < |v| && v[i] == x;
      assert StampAll(ext, v)[i] == s;
    }
    forall s <- StampAll(ext, v) ensures s in StampSet(ext, SetOf(v)) {
      var i :| 0 <= i < |v| && StampAll(ext, v)[i] == s;
      assert v[i] in SetOf(v) && s == StampSample(ext, v[i]);
    }
  }

  lemma {:induction false} SetOfJoined(exts: seq<Labels>, vs: seq<Vector>, n: nat)
    requires n <= |exts| == |vs|
    ensures SetOf(A.Joined(exts, vs, n)) == All(exts, SetsOf(vs), n)
  {
    hide StampAll, StampSet;
    if n > 0 {
      SetOfJoined(exts, vs, n - 1);
      SetOfStamped(exts[n - 1], vs[n - 1]);
    }
  }

  /**
   * Whatever top each backend answers (ps) and whatever top the engine picks from what the merge hook makes of the
   * answers: it is a top of the query's value over all groups' stamped series.
   */
  lemma {:induction false} TopkExact(m: Meaning, groups: seq<Backend>, arg: Expr, g: Grouping, k: nat, top: bool,
      ps: seq<Vector>, out: set<Sample>)
    requires m.Valid() && Good(groups) && Safe(m, groups, arg) && Local(arg) && |ps| == |groups|
    requires forall i :: 0 <= i < |ps| ==> IsTop(SetOf(ps[i]), SetOf(OwnAnswer(m, groups[i], arg)), g, k, top)
    requires IsTop(out, SetOf(UnionMerge(StampEach(groups, ps), |groups|)), g, k, top)
    ensures IsTop(out, SetOf(Eval(m, arg, Union(groups, |groups|))), g, k, top)
  {
    hide IsTop, SetOf, Eval, Local, Union, UnionMerge, StampEach, All, OwnAnswer, A.Joined, Own;
    var exts, own := Exts(groups), OwnAnswers(m, groups, arg);
    UnionOfStamped(groups, ps, |groups|);
    Pushable(m, groups, arg);
    SetOfJoined(exts, ps, |groups|);
    SetOfJoined(exts, own, |groups|);
    forall i | 0 <= i < |groups| ensures OwnLabels(exts[i], SetsOf(own)[i]) {
      assert groups[i] in groups;
      OwnAnswerClear(m, groups[i], arg);
      ClearSet(exts[i], own[i]);
    }
    TwoStepTop(exts, SetsOf(ps), SetsOf(own), g, k, top, out);
  }

  lemma {:induction false} ClearSet(ext: Labels, v: Vector)
    requires A.Clear(ext, v)
    ensures OwnLabels(ext, SetOf(v))
  {
  }

  /** Backends and engine may pick as they like, as long as they pick a top. */
  ghost predicate Picks(m: Meaning) {
    forall op: Op, g: Grouping, v: Vector ::
      && (op.Topk? ==> IsTop(SetOf(m.holistic(op, g, v)), SetOf(v), g, op.k, true))
      && (op.Bottomk? ==> IsTop(SetOf(m.holistic(op, g, v)), SetOf(v), g, op.k, false))
  }

  lemma {:induction false} PicksTop(m: Meaning, op: Op, g: Grouping, v: Vector)
    requires Picks(m) && (op.Topk? || op.Bottomk?)
    ensures IsTop(SetOf(m.holistic(op, g, v)), SetOf(v), g, op.k, op.Topk?)
  {
    hide IsTop, SetOf;
  }

  lemma {:induction false} OwnTop(m: Meaning, b: Backend, op: Op, g: Grouping, arg: Expr)
    requires Picks(m) && (op.Topk? || op.Bottomk?)
    ensures IsTop(SetOf(OwnAnswer(m, b, Aggregate(op, g, arg))), SetOf(OwnAnswer(m, b, arg)), g, op.k, op.Topk?)
  {
    hide Picks, IsTop;
    var e := Aggregate(op, g, arg);
    if AllAgree(m, b.ext, arg) {
      PicksTop(m, op, g, OwnAnswer(m, b, arg));
      assert OwnAnswer(m, b, e) == m.holistic(op, g, OwnAnswer(m, b, arg));
    } else {
      assert OwnAnswer(m, b, e) == [] == OwnAnswer(m, b, arg);
      NothingOnTop(g, op.k, op.Topk?);
    }
  }

  lemma {:induction false} NothingOnTop(g: Grouping, k: nat, top: bool)
    ensures IsTop(SetOf([]), SetOf([]), g, k, top)
  {
    forall key ensures InKey(SetOf([]), g, key) == {} {
    }
  }

  /** What replaces a topk or bottomk has, per key, every value as often as the original over all groups' series. */
  lemma {:induction false} TopkReplaceExact(m: Meaning, groups: seq<Backend>, op: Op, g: Grouping, arg: Expr,
      data: seq<Series>, key: Labels, t: real)
    requires m.Valid() && Picks(m) && Good(groups) && Safe(m, groups, arg) && Local(arg)
        && data == Union(groups, |groups|)
    requires op.Topk? || op.Bottomk?
    ensures var pushed, original := Eval(m, ReplaceAggregate(m, groups, op, g, arg).value, data),
        Eval(m, Aggregate(op, g, arg), data);
            && IsTop(SetOf(pushed), SetOf(Eval(m, arg, data)), g, op.k, op.Topk?)
            && |Valued(SetOf(pushed), g, key, t)| == |Valued(SetOf(original), g, key, t)|
  {
    hide IsTop, SetOf, Local, Good, Safe, Union, UnionMerge, StampEach, OwnAnswer, Picks, Valued;
    var e, v := Aggregate(op, g, arg), Eval(m, arg, data);
    var partials := FetchPartials(m, groups, e);
    var pushed := Eval(m, ReplaceAggregate(m, groups, op, g, arg).value, data);
    assert Eval(m, Fetched(partials), data) == partials;
    assert pushed == m.holistic(op, g, partials);
    assert Eval(m, e, data) == m.holistic(op, g, v);
    PicksTop(m, op, g, partials);
    PicksTop(m, op, g, v);
    forall i | 0 <= i < |groups|
      ensures IsTop(SetOf(OwnAnswers(m, groups, e)[i]), SetOf(OwnAnswer(m, groups[i], arg)), g, op.k, op.Topk?)
    {
      OwnTop(m, groups[i], op, g, arg);
    }
    TopkExact(m, groups, arg, g, op.k, op.Topk?, OwnAnswers(m, groups, e), SetOf(pushed));
    SameValues(SetOf(pushed), SetOf(m.holistic(op, g, v)), SetOf(v), g, op.k, op.Topk?, key, t);
  }
}
