/**
 * topk and bottomk anywhere in an expression: what a query can answer is a set of values, and pushdown
 * never answers what the query could not have answered in place.
 */
module PushdownChoices {
  import opened PromQL
  import opened FilterMatchers
  import opened LocalQueries
  import opened Fetching
  import opened Pushdown
  import opened PushdownTheorem
  import opened TopkPushdown

  predicate Chooses(op: Op) {
    op.Topk? || op.Bottomk?
  }

  ghost predicate Once(v: Vector) {
    forall i, j :: 0 <= i < j < |v| ==> v[i] != v[j]
  }

  /** v is an answer to the topk or bottomk op over w. */
  ghost predicate TopOf(op: Op, g: Grouping, v: Vector, w: Vector)
    requires Chooses(op)
  {
    Once(v) && IsTop(SetOf(v), SetOf(w), g, op.k, op.Topk?)
  }

  /** What a call makes of its argument's value. */
  function Called(m: Meaning, name: string, w: Vector): Vector {
    if PerSeries(name) then Each(m, OfCall(name), w) else m.cross(name, w)
  }

  /** e can have the value v: every topk and bottomk in it picks whatever top it likes. */
  ghost predicate Can(m: Meaning, e: Expr, data: seq<Series>, v: Vector) {
    match e
    case Selector(xs) => v == Select(m, xs, false, data)
    case Matrix(xs) => v == Select(m, xs, true, data)
    case Fetched(w) => v == w
    case Call(name, arg) => exists w :: Can(m, arg, data, w) && v == Called(m, name, w)
    case Literal(op, arg, x, first) => exists w :: Can(m, arg, data, w) && v == Each(m, OfLiteral(op, x, first), w)
    case Binary(op, lhs, rhs) => exists a, b :: Can(m, lhs, data, a) && Can(m, rhs, data, b) && v == Match(m, op, a, b)
    case Aggregate(op, g, arg) =>
      exists w :: Can(m, arg, data, w) && if Chooses(op) then TopOf(op, g, v, w) else v == EvalAggregate(m, op, g, w)
    case Subquery(arg) => exists w :: Can(m, arg, data, w) && v == Each(m, OfSubquery, w)
  }

  /** Nothing in e picks. */
  predicate Certain(e: Expr) {
    match e
    case Selector(_) => true
    case Matrix(_) => true
    case Fetched(_) => true
    case Call(_, arg) => Certain(arg)
    case Literal(_, arg, _, _) => Certain(arg)
    case Binary(_, lhs, rhs) => Certain(lhs) && Certain(rhs)
    case Aggregate(op, _, arg) => !Chooses(op) && Certain(arg)
    case Subquery(arg) => Certain(arg)
  }

  /** Without a choice an expression can have its value and no other. */
  lemma {:induction false} CertainHasOneValue(m: Meaning, e: Expr, data: seq<Series>, v: Vector)
    requires Certain(e)
    ensures Can(m, e, data, v) <==> v == Eval(m, e, data)
    decreases e, 0
  {
    hide Select, Each, Match, EvalAggregate, Called, PerSeries;
    match e
    case Selector(_) =>
    case Matrix(_) =>
    case Fetched(_) =>
    case Call(name, arg) =>
      CertainArgument(m, arg, data);
      CalledIs(m, name, arg, data);
    case Literal(_, arg, _, _) => CertainArgument(m, arg, data);
    case Binary(_, lhs, rhs) =>
      CertainArgument(m, lhs, data);
      CertainArgument(m, rhs, data);
    case Aggregate(_, _, arg) => CertainArgument(m, arg, data);
    case Subquery(arg) => CertainArgument(m, arg, data);
  }

  lemma {:induction false} CertainArgument(m: Meaning, arg: Expr, data: seq<Series>)
    requires Certain(arg)
    ensures forall w :: Can(m, arg, data, w) <==> w == Eval(m, arg, data)
    decreases arg, 1
  {
    hide Can, Eval;
    forall w ensures Can(m, arg, data, w) <==> w == Eval(m, arg, data) {
      CertainHasOneValue(m, arg, data, w);
    }
  }

  lemma {:induction false} CalledIs(m: Meaning, name: string, arg: Expr, data: seq<Series>)
    ensures Eval(m, Call(name, arg), data) == Called(m, name, Eval(m, arg, data))
  {
    hide PerSeries;
  }

  lemma {:induction false} LocalCertain(e: Expr)
    requires Local(e)
    ensures Certain(e)
  {
    hide PerSeries;
    match e
    case Selector(_) =>
    case Matrix(_) =>
    case Call(_, arg) => LocalCertain(arg);
    case Literal(_, arg, _, _) => LocalCertain(arg);
    case Subquery(arg) => LocalCertain(arg);
  }

  /** The engine picks tops, and none of their samples twice. */
  ghost predicate PicksOnce(m: Meaning) {
    Picks(m) && forall op: Op, g: Grouping, v: Vector :: Chooses(op) ==> Once(m.holistic(op, g, v))
  }

  /** What an engine that picks tops evaluates to is a value the expression can have. */
  lemma {:induction false} EvalPossible(m: Meaning, e: Expr, data: seq<Series>)
    requires PicksOnce(m)
    ensures Can(m, e, data, Eval(m, e, data))
  {
    hide Select, Each, Match, Called, PerSeries, Picks, TopOf;
    match e
    case Selector(_) =>
    case Matrix(_) =>
    case Fetched(_) =>
    case Call(name, arg) =>
      EvalPossible(m, arg, data);
      CalledIs(m, name, arg, data);
    case Literal(_, arg, _, _) => EvalPossible(m, arg, data);
    case Binary(_, lhs, rhs) =>
      EvalPossible(m, lhs, data);
      EvalPossible(m, rhs, data);
    case Aggregate(op, g, arg) =>
      EvalPossible(m, arg, data);
      if Chooses(op) {
        PickAnswers(m, op, g, Eval(m, arg, data));
      }
    case Subquery(arg) => EvalPossible(m, arg, data);
  }

  lemma {:induction false} PickAnswers(m: Meaning, op: Op, g: Grouping, w: Vector)
    requires PicksOnce(m) && Chooses(op)
    ensures EvalAggregate(m, op, g, w) == m.holistic(op, g, w) && TopOf(op, g, m.holistic(op, g, w), w)
  {
    hide IsTop, SetOf, Picks;
    PicksTop(m, op, g, w);
  }

  // --- there are such engines ------------------------------------------------------------

  /** One of s that no other ranks behind. */
  lemma {:induction false} Worst(s: set<Sample>, top: bool) returns (y: Sample)
    requires s != {}
    ensures y in s && forall z <- s :: !Before(top, y, z)
  {
    y :| y in s;
    var rest := s - {y};
    assert s == rest + {y};
    if rest != {} {
      var w := Worst(rest, top);
      if Before(top, y, w) {
        y := w;
      }
    }
  }

  /** Adding x to v leaves the samples of other keys alone. */
  lemma {:induction false} KeysWithOneMore(s: set<Sample>, x: Sample, g: Grouping, key: Labels)
    ensures InKey(s + {x}, g, key) == if KeyOf(g, x.labels) == key then InKey(s, g, key) + {x} else InKey(s, g, key)
    ensures InKey(s - {x}, g, key) == if KeyOf(g, x.labels) == key then InKey(s, g, key) - {x} else InKey(s, g, key)
  {
  }

  /** x is kept when its key has room. */
  lemma {:induction false} TopAdds(some: set<Sample>, v: set<Sample>, x: Sample, g: Grouping, k: nat, top: bool)
    requires IsTop(some, v, g, k, top) && x !in v && |InKey(some, g, KeyOf(g, x.labels))| < k
    ensures IsTop(some + {x}, v + {x}, g, k, top)
  {
    hide KeyOf, Before, InKey;
    var mine := KeyOf(g, x.labels);
    RoomMeansAll(some, v, g, k, top, mine);
    forall key ensures |InKey(some + {x}, g, key)| == Least(k, |InKey(v + {x}, g, key)|) {
      KeysWithOneMore(some, x, g, key);
      KeysWithOneMore(v, x, g, key);
      OnlyIn(v, x, g, key);
    }
    forall a, b | a in v + {x} && a !in some + {x} && b in some + {x} && KeyOf(g, a.labels) == KeyOf(g, b.labels)
      ensures !Before(top, a, b)
    {
      InOwnKey(v, a, g);
      InOwnKey(some, a, g);
    }
  }

  lemma {:induction false} InOwnKey(s: set<Sample>, a: Sample, g: Grouping)
    ensures a in InKey(s, g, KeyOf(g, a.labels)) <==> a in s
  {
  }

  lemma {:induction false} OnlyIn(v: set<Sample>, x: Sample, g: Grouping, key: Labels)
    requires x !in v
    ensures x !in InKey(v, g, key)
  {
  }

  lemma {:induction false} RoomMeansAll(some: set<Sample>, v: set<Sample>, g: Grouping, k: nat, top: bool, key: Labels)
    requires IsTop(some, v, g, k, top) && |InKey(some, g, key)| < k
    ensures InKey(some, g, key) == InKey(v, g, key)
  {
    assert InKey(some, g, key) <= InKey(v, g, key);
    Subset(InKey(some, g, key), InKey(v, g, key));
  }

  /** Otherwise x replaces the worst sample kept of its key, when it ranks before that. */
  lemma {:induction false} TopReplaces(some: set<Sample>, v: set<Sample>, x: Sample, worst: Sample, g: Grouping, k: nat,
      top: bool)
    requires IsTop(some, v, g, k, top) && x !in v && worst in some && KeyOf(g, worst.labels) == KeyOf(g, x.labels)
    requires |InKey(some, g, KeyOf(g, x.labels))| >= k && Before(top, x, worst)
    requires forall z <- InKey(some, g, KeyOf(g, x.labels)) :: !Before(top, worst, z)
    ensures IsTop(some - {worst} + {x}, v + {x}, g, k, top)
  {
    hide KeyOf, Before, InKey;
    var mine, out := KeyOf(g, x.labels), some - {worst} + {x};
    forall key ensures |InKey(out, g, key)| == Least(k, |InKey(v + {x}, g, key)|) {
      KeysWithOneMore(some, worst, g, key);
      KeysWithOneMore(some - {worst}, x, g, key);
      KeysWithOneMore(v, x, g, key);
      OnlyIn(v, x, g, key);
      OnlyIn(some - {worst}, x, g, key);
      InOwnKey(some, worst, g);
    }
    forall a, b | a in v + {x} && a !in out && b in out && KeyOf(g, a.labels) == KeyOf(g, b.labels)
      ensures !Before(top, a, b)
    {
      RanksAgree(top, x, worst, a);
      InOwnKey(some, b, g);
    }
  }

  /** Or it is left out. */
  lemma {:induction false} TopStays(some: set<Sample>, v: set<Sample>, x: Sample, g: Grouping, k: nat, top: bool)
    requires IsTop(some, v, g, k, top) && x !in v && |InKey(some, g, KeyOf(g, x.labels))| >= k
    requires forall z <- InKey(some, g, KeyOf(g, x.labels)) :: !Before(top, x, z)
    ensures IsTop(some, v + {x}, g, k, top)
  {
    hide KeyOf, Before, InKey;
    forall key ensures |InKey(some, g, key)| == Least(k, |InKey(v + {x}, g, key)|) {
      KeysWithOneMore(v, x, g, key);
      OnlyIn(v, x, g, key);
    }
    forall a, b | a in v + {x} && a !in some && b in some && KeyOf(g, a.labels) == KeyOf(g, b.labels)
      ensures !Before(top, a, b)
    {
      InOwnKey(some, b, g);
    }
  }

  /** The top of v with x added. */
  lemma {:induction false} TopWithOneMore(some: set<Sample>, v: set<Sample>, x: Sample, g: Grouping, k: nat, top: bool)
    returns (out: set<Sample>)
    requires IsTop(some, v, g, k, top) && x !in v
    ensures IsTop(out, v + {x}, g, k, top)
  {
    hide KeyOf, Before, IsTop;
    var kept := InKey(some, g, KeyOf(g, x.labels));
    if |kept| < k {
      out := some + {x};
      TopAdds(some, v, x, g, k, top);
    } else if y :| y in kept && Before(top, x, y) {
      var worst := Worst(kept, top);
      out := some - {worst} + {x};
      RanksBehind(top, x, y, worst);
      TopReplaces(some, v, x, worst, g, k, top);
    } else {
      out := some;
      TopStays(some, v, x, g, k, top);
    }
  }

  lemma {:induction false} RanksBehind(top: bool, x: Sample, y: Sample, worst: Sample)
    requires Before(top, x, y) && !Before(top, worst, y)
    ensures Before(top, x, worst)
  {
  }

  lemma {:induction false} RanksAgree(top: bool, x: Sample, worst: Sample, a: Sample)
    requires Before(top, x, worst)
    ensures !Before(top, worst, x) && (!Before(top, a, worst) ==> !Before(top, a, x))
  {
  }

  /** Every vector has a top, with none of its samples twice. */
  lemma {:induction false} TopExists(v: set<Sample>, g: Grouping, k: nat, top: bool) returns (out: set<Sample>)
    ensures IsTop(out, v, g, k, top)
  {
    assert (forall s :: s !in v) ==> v == {};
    if v == {} {
      out := {};
      forall key ensures InKey(out, g, key) == {} {
      }
    } else {
      var x :| x in v;
      var some := TopExists(v - {x}, g, k, top);
      out := TopWithOneMore(some, v - {x}, x, g, k, top);
      assert v - {x} + {x} == v;
    }
  }

  lemma {:induction false} Listed(s: set<Sample>) returns (v: Vector)
    ensures SetOf(v) == s && Once(v)
  {
    assert (forall x :: x !in s) ==> s == {};
    if s == {} {
      v := [];
    } else {
      var x :| x in s;
      var rest := Listed(s - {x});
      v := rest + [x];
      assert SetOf(v) == SetOf(rest) + {x} == s;
      assert forall i :: 0 <= i < |rest| ==> rest[i] in SetOf(rest);
    }
  }

  lemma {:induction false} AnswerExists(op: Op, g: Grouping, w: Vector)
    requires Chooses(op)
    ensures exists v :: TopOf(op, g, v, w)
  {
    hide IsTop, SetOf;
    var out := TopExists(SetOf(w), g, op.k, op.Topk?);
    var v := Listed(out);
    assert TopOf(op, g, v, w);
  }

  /** An answer to op over w, whichever. */
  ghost function SomeTop(m: Meaning, op: Op, g: Grouping, w: Vector): (v: Vector)
    ensures Chooses(op) ==> TopOf(op, g, v, w)
    ensures !Chooses(op) ==> v == m.holistic(op, g, w)
  {
    if Chooses(op) then
      AnswerExists(op, g, w);
      var v :| TopOf(op, g, v, w);
      v
    else m.holistic(op, g, w)
  }

  /** Every meaning has a variant whose engine and backends pick tops. */
  lemma {:induction false} EnginesExist(m: Meaning)
    ensures exists pick: (Op, Grouping, Vector) -> Vector :: PicksOnce(m.(holistic := pick))
  {
    hide IsTop, SetOf;
    var pick := (op: Op, g: Grouping, w: Vector) => SomeTop(m, op, g, w);
    var n := m.(holistic := pick);
    assert forall op: Op, g: Grouping, v: Vector :: Chooses(op) ==> TopOf(op, g, n.holistic(op, g, v), v);
    assert PicksOnce(n);
  }

  // --- one replacement -----------------------------------------------------------------

  /** What takes the place of a topk or bottomk answers what that could answer. */
  lemma {:induction false} TopReplacement(m: Meaning, groups: seq<Backend>, op: Op, g: Grouping, arg: Expr,
      data: seq<Series>, v: Vector)
    requires m.Valid() && Picks(m) && Good(groups) && Safe(m, groups, arg) && Local(arg)
        && data == Union(groups, |groups|)
    requires Chooses(op) && Can(m, ReplaceAggregate(m, groups, op, g, arg).value, data, v)
    ensures Can(m, Aggregate(op, g, arg), data, v)
  {
    hide IsTop, SetOf, Local, Good, Safe, Union, UnionMerge, StampEach, OwnAnswer, Picks, Eval;
    var e, w := Aggregate(op, g, arg), Eval(m, arg, data);
    var partials := FetchPartials(m, groups, e);
    OnlyFetched(m, op, g, partials, data, v);
    forall i | 0 <= i < |groups|
      ensures IsTop(SetOf(OwnAnswers(m, groups, e)[i]), SetOf(OwnAnswer(m, groups[i], arg)), g, op.k, op.Topk?)
    {
      OwnTop(m, groups[i], op, g, arg);
    }
    TopkExact(m, groups, arg, g, op.k, op.Topk?, OwnAnswers(m, groups, e), SetOf(v));
    LocalCertain(arg);
    CertainHasOneValue(m, arg, data, w);
  }

  lemma {:induction false} OnlyFetched(m: Meaning, op: Op, g: Grouping, w: Vector, data: seq<Series>, v: Vector)
    requires Can(m, Aggregate(op, g, Fetched(w)), data, v)
    ensures if Chooses(op) then TopOf(op, g, v, w) else v == EvalAggregate(m, op, g, w)
  {
    hide TopOf, EvalAggregate;
  }

  /** What takes the place of a node can only have values the node can have. */
  lemma {:induction false} ReplacementPossible(m: Meaning, groups: seq<Backend>, cfg: Config, e: Expr,
      data: seq<Series>, v: Vector)
    requires m.Valid() && Picks(m) && Good(groups) && data == Union(groups, |groups|)
    requires Sound(m, groups, cfg, e, data, true) && !Stopped(cfg, groups, e, false)
    requires Replace(m, groups, cfg, e).Some? && Can(m, Replace(m, groups, cfg, e).value, data, v)
    ensures Can(m, e, data, v)
  {
    if e.Aggregate? {
      AggregatePossible(m, groups, cfg, e, data, v);
    } else {
      RawPossible(m, groups, cfg, e, data, v);
    }
  }

  lemma {:induction false} AggregatePossible(m: Meaning, groups: seq<Backend>, cfg: Config, e: Expr, data: seq<Series>,
      v: Vector)
    requires m.Valid() && Picks(m) && Good(groups) && data == Union(groups, |groups|) && e.Aggregate?
    requires Sound(m, groups, cfg, e, data, true) && !Stopped(cfg, groups, e, false)
    requires Replace(m, groups, cfg, e).Some? && Can(m, Replace(m, groups, cfg, e).value, data, v)
    ensures Can(m, e, data, v)
  {
    hide Good, Safe, Union, Can, Eval, Stopped, PlainAggregate, LetThrough, RewritesLabels, Picks, PerSeries;
    HolisticStays(m, groups, e.agg, e.grouping, e.arg);
    AggregatesLocal(groups, cfg, e, true);
    if Chooses(e.agg) {
      TopReplacement(m, groups, e.agg, e.grouping, e.arg, data, v);
    } else {
      PlainWithoutTop(groups, e.agg, e.grouping);
      AggregateExact(m, groups, e.agg, e.grouping, e.arg, data);
      LocalCertain(e.arg);
      ReplacementCertain(m, groups, e.agg, e.grouping, e.arg);
      CertainHasOneValue(m, Replace(m, groups, cfg, e).value, data, v);
      CertainHasOneValue(m, e, data, v);
    }
  }

  lemma {:induction false} PlainWithoutTop(groups: seq<Backend>, op: Op, g: Grouping)
    requires PlainAggregate(groups, op, g, true) && !Chooses(op)
    ensures PlainAggregate(groups, op, g, false)
  {
  }

  lemma {:induction false} ReplacementCertain(m: Meaning, groups: seq<Backend>, op: Op, g: Grouping, arg: Expr)
    requires Certain(arg) && !Chooses(op)
    ensures ReplaceAggregate(m, groups, op, g, arg).Some? ==> Certain(ReplaceAggregate(m, groups, op, g, arg).value)
  {
    hide FetchPartials;
  }

  lemma {:induction false} RawPossible(m: Meaning, groups: seq<Backend>, cfg: Config, e: Expr, data: seq<Series>,
      v: Vector)
    requires m.Valid() && Good(groups) && data == Union(groups, |groups|) && !e.Aggregate?
    requires Sound(m, groups, cfg, e, data, true) && !Stopped(cfg, groups, e, false)
    requires Replace(m, groups, cfg, e).Some? && Can(m, Replace(m, groups, cfg, e).value, data, v)
    ensures Can(m, e, data, v)
  {
    hide Good, Union, Can, Eval, Stopped, PlainAggregate, LetThrough, RewritesLabels, FetchRaw, Intact, PerSeries,
        ReplaceAggregate, Meaning.Valid;
    RawIsLocal(groups, cfg, e, true);
    RawExact(m, groups, cfg, e, data);
    LocalCertain(e);
    CertainHasOneValue(m, e, data, v);
    CertainHasOneValue(m, Replace(m, groups, cfg, e).value, data, v);
    RawValue(m, groups, cfg, e, data);
  }

  /** A raw answer, sorted again or not, is the value of its node. */
  lemma {:induction false} RawValue(m: Meaning, groups: seq<Backend>, cfg: Config, e: Expr, data: seq<Series>)
    requires m.Valid() && !e.Aggregate? && Replace(m, groups, cfg, e).Some?
        && FetchRaw(m, groups, cfg.ignore, e) == Eval(m, e, data)
    ensures Eval(m, Replace(m, groups, cfg, e).value, data) == Eval(m, e, data)
  {
    hide FetchRaw, Meaning.Valid, Select, Each, Match, PerSeries, ReplaceAggregate;
    if e.Call? && SortCall(e.name) {
      SortAgain(m, e.name, Eval(m, e, data));
      assert Eval(m, Fetched(Eval(m, e, data)), data) == Eval(m, e, data);
    }
  }

  // --- the walk --------------------------------------------------------------------------

  /**
   * PUSHDOWN NEVER ANSWERS OTHERWISE: whatever value the rewritten tree has, with whatever tops the backends and the
   * engine pick, the original could have had over all groups' stamped series.
   */
  lemma {:induction false} PushdownPossible(m: Meaning, groups: seq<Backend>, cfg: Config, e: Expr, inSubquery: bool,
      data: seq<Series>, v: Vector)
    requires m.Valid() && Picks(m) && Good(groups) && data == Union(groups, |groups|)
    requires inSubquery || (cfg.exact && |groups| > 1) || Sound(m, groups, cfg, e, data, true)
    requires Can(m, Rewrite(m, groups, cfg, e, inSubquery).expr, data, v)
    ensures Can(m, e, data, v)
    decreases Size(e), 1
  {
    hide Good, Union, Replace, Stopped, Meaning.Valid, Undisturbed, ChildrenUndisturbed, Plain, PlainAggregate, Can,
        Picks;
    ReplacementSmaller(m, groups, cfg, e);
    if inSubquery {
      SubqueryLeftAlone(m, groups, cfg, e);
    } else if cfg.exact && |groups| > 1 {
      ExactLeftAlone(m, groups, cfg, e, inSubquery);
    } else if Stopped(cfg, groups, e, false) {
      StayingAsksChildren(m, groups, cfg, e, data);
      DescendPossible(m, groups, cfg, e, Size(e), data, v);
    } else if e.Subquery? {
      StayingAsksChildren(m, groups, cfg, e, data);
      SubqueryPossible(m, groups, cfg, e, data, v);
    } else {
      var r := Replace(m, groups, cfg, e);
      if r.None? {
        StayingAsksChildren(m, groups, cfg, e, data);
        DescendPossible(m, groups, cfg, e, Size(e), data, v);
      } else {
        ReplacementKinds(m, groups, cfg, e);
        if r.value.Binary? {
          SumAndCountFine(m, groups, cfg, e, data, true);
          DescendPossible(m, groups, cfg, r.value, Size(e), data, v);
        } else {
          FetchedStays(m, groups, cfg, r.value, inSubquery, Size(e));
        }
        ReplacementPossible(m, groups, cfg, e, data, v);
      }
    }
  }

  lemma {:induction false} SubqueryPossible(m: Meaning, groups: seq<Backend>, cfg: Config, e: Expr, data: seq<Series>,
      v: Vector)
    requires m.Valid() && Picks(m) && Good(groups) && data == Union(groups, |groups|) && e.Subquery?
    requires Plain(groups, e, true) && ChildrenUndisturbed(m, groups, e, data, cfg.ignore)
        && !Stopped(cfg, groups, e, false)
    requires Can(m, Rewrite(m, groups, cfg, e, false).expr, data, v)
    ensures Can(m, e, data, v)
    decreases Size(e), 0
  {
    hide Good, Union, Replace, Stopped, Meaning.Valid, Undisturbed, PlainAggregate, Picks, Each;
    ReplacementSmaller(m, groups, cfg, e);
    InnerUndisturbed(m, groups, e, data, cfg.ignore, true);
    var inner := Rewrite(m, groups, cfg, e.arg, false);
    if inner.pushed {
      var w :| Can(m, inner.expr, data, w) && v == Each(m, OfSubquery, w);
      PushdownPossible(m, groups, cfg, e.arg, false, data, w);
    } else {
      SubqueryLeftAlone(m, groups, cfg, e.arg);
    }
  }

  lemma {:induction false} DescendPossible(m: Meaning, groups: seq<Backend>, cfg: Config, e: Expr, n: nat,
      data: seq<Series>, v: Vector)
    requires m.Valid() && Picks(m) && Good(groups) && Plain(groups, e, true) && data == Union(groups, |groups|)
    requires ChildrenUndisturbed(m, groups, e, data, cfg.ignore) && ChildrenBelow(e, n)
    requires Can(m, Descend(m, groups, cfg, e, false, n).expr, data, v)
    ensures Can(m, e, data, v)
    decreases n, 0
  {
    hide Good, Union, PlainAggregate, LabelRewrite, PerSeries, Undisturbed, Select, Each, EvalAggregate, Match, Called,
        TopOf, Meaning.Valid, LetThrough, RewritesLabels, Picks, Rewrite;
    match e
    case Selector(_) =>
    case Matrix(_) =>
    case Call(name, arg) =>
      var w :| Can(m, Rewrite(m, groups, cfg, arg, false).expr, data, w) && v == Called(m, name, w);
      PushdownPossible(m, groups, cfg, arg, false, data, w);
    case Literal(op, arg, x, first) =>
      var w :| Can(m, Rewrite(m, groups, cfg, arg, false).expr, data, w) && v == Each(m, OfLiteral(op, x, first), w);
      PushdownPossible(m, groups, cfg, arg, false, data, w);
    case Binary(op, lhs, rhs) =>
      var a, b :| Can(m, Rewrite(m, groups, cfg, lhs, false).expr, data, a)
               && Can(m, Rewrite(m, groups, cfg, rhs, false).expr, data, b) && v == Match(m, op, a, b);
      PushdownPossible(m, groups, cfg, lhs, false, data, a);
      PushdownPossible(m, groups, cfg, rhs, false, data, b);
    case Aggregate(op, g, arg) =>
      var w :| Can(m, Rewrite(m, groups, cfg, arg, false).expr, data, w)
            && if Chooses(op) then TopOf(op, g, v, w) else v == EvalAggregate(m, op, g, w);
      PushdownPossible(m, groups, cfg, arg, false, data, w);
    case Subquery(arg) => SubqueryLeftAlone(m, groups, cfg, arg);
  }

  /** So what an engine that picks tops makes of the rewritten tree is an answer to the original query. */
  lemma {:induction false} PushdownAnswers(m: Meaning, groups: seq<Backend>, cfg: Config, e: Expr, data: seq<Series>)
    requires m.Valid() && PicksOnce(m) && Good(groups) && data == Union(groups, |groups|)
    requires (cfg.exact && |groups| > 1) || Sound(m, groups, cfg, e, data, true)
    ensures Can(m, e, data, Eval(m, Rewrite(m, groups, cfg, e, false).expr, data))
  {
    hide Good, Union, Can, Sound, Eval, Rewrite;
    var r := Rewrite(m, groups, cfg, e, false).expr;
    EvalPossible(m, r, data);
    PushdownPossible(m, groups, cfg, e, false, data, Eval(m, r, data));
  }
}
