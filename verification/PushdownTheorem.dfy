/**
 * Pushdown preserves meaning.
 */
module PushdownTheorem {
  import opened Wrappers
  import opened PromQL
  import opened FilterMatchers
  import opened LocalQueries
  import opened Fetching
  import opened Pushdown
  import A = Aggregation

  /** Nothing was fetched yet: e is as the parser delivers it. */
  predicate Parsed(e: Expr) {
    match e
    case Selector(_) => true
    case Matrix(_) => true
    case Fetched(_) => false
    case Call(_, arg) => Parsed(arg)
    case Literal(_, arg, _, _) => Parsed(arg)
    case Binary(_, lhs, rhs) => Parsed(lhs) && Parsed(rhs)
    case Aggregate(_, _, arg) => Parsed(arg)
    case Subquery(arg) => Parsed(arg)
  }

  /** Some call in e sets labels from others (or reads the clock only). */
  predicate RewritesLabels(e: Expr) {
    match e
    case Selector(_) => false
    case Matrix(_) => false
    case Fetched(_) => false
    case Call(name, arg) => LabelRewrite(name) || RewritesLabels(arg)
    case Literal(_, arg, _, _) => RewritesLabels(arg)
    case Binary(_, lhs, rhs) => RewritesLabels(lhs) || RewritesLabels(rhs)
    case Aggregate(_, _, arg) => RewritesLabels(arg)
    case Subquery(arg) => RewritesLabels(arg)
  }

  /** The guards let a call or an aggregation of arg through. */
  predicate LetThrough(arg: Expr) {
    Aggregates(arg) == 0 && Selectors(arg) <= 1 && CrossCalls(arg) == 0
  }

  /**
   * The expressions the theorem is about.  Only what is pushed down is restricted: no call that rewrites labels below
   * it, no average of several groups by the metric name, no value label in the result that is an external one (see
   * Aggregation.ValueLabelRule), and without tops no topk or bottomk, which have more than one right answer.  What the
   * guards leave to the engine is arbitrary.
   */
  ghost predicate Plain(groups: seq<Backend>, e: Expr, tops: bool) {
    match e
    case Selector(_) => true
    case Matrix(_) => true
    case Fetched(_) => false
    case Call(name, arg) => Plain(groups, arg, tops) && (PerSeries(name) && LetThrough(arg) ==> !RewritesLabels(arg))
    case Literal(_, arg, _, _) => Plain(groups, arg, tops)
    case Binary(_, lhs, rhs) => Plain(groups, lhs, tops) && Plain(groups, rhs, tops)
    case Aggregate(op, g, arg) =>
      && Plain(groups, arg, tops)
      && (LetThrough(arg) && !op.Holistic? ==> !RewritesLabels(arg) && PlainAggregate(groups, op, g, tops))
    case Subquery(arg) => Plain(groups, arg, tops)
  }

  ghost predicate PlainAggregate(groups: seq<Backend>, op: Op, g: Grouping, tops: bool) {
    && (op.Topk? || op.Bottomk? ==> tops)
    && (op.Avg? ==> |groups| == 1 || A.NameFree(g))
    && (op.CountValues? ==> (g.Without? && op.valueLabel in g.names) || forall b <- groups :: op.valueLabel !in b.ext)
  }

  lemma {:induction false} PlainParsed(groups: seq<Backend>, e: Expr, tops: bool)
    requires Plain(groups, e, tops)
    ensures Parsed(e)
  {
    hide PlainAggregate, RewritesLabels, LetThrough, PerSeries;
    match e
    case Selector(_) =>
    case Matrix(_) =>
    case Call(_, arg) => PlainParsed(groups, arg, tops);
    case Literal(_, arg, _, _) => PlainParsed(groups, arg, tops);
    case Binary(_, lhs, rhs) =>
      PlainParsed(groups, lhs, tops);
      PlainParsed(groups, rhs, tops);
    case Aggregate(_, _, arg) => PlainParsed(groups, arg, tops);
    case Subquery(arg) => PlainParsed(groups, arg, tops);
  }

  lemma {:induction false} SelectorsPositive(e: Expr)
    requires Parsed(e)
    ensures Selectors(e) >= 1
  {
    match e
    case Selector(_) =>
    case Matrix(_) =>
    case Call(_, arg) => SelectorsPositive(arg);
    case Literal(_, arg, _, _) => SelectorsPositive(arg);
    case Binary(_, lhs, rhs) => SelectorsPositive(lhs);
    case Aggregate(_, _, arg) => SelectorsPositive(arg);
    case Subquery(arg) => SelectorsPositive(arg);
  }

  /** What the guards let through acts series by series, unless it rewrites labels. */
  lemma {:induction false} GuardsMeanLocal(e: Expr)
    requires Parsed(e) && LetThrough(e) && !RewritesLabels(e)
    ensures Local(e)
  {
    hide LabelRewrite, PerSeries;
    match e
    case Selector(_) =>
    case Matrix(_) =>
    case Call(_, arg) => GuardsMeanLocal(arg);
    case Literal(_, arg, _, _) => GuardsMeanLocal(arg);
    case Binary(_, lhs, rhs) =>
      SelectorsPositive(lhs);
      SelectorsPositive(rhs);
    case Subquery(arg) => GuardsMeanLocal(arg);
  }

  /** What acts series by series is let through. */
  lemma {:induction false} LocalLetThrough(e: Expr)
    requires Local(e)
    ensures LetThrough(e) && Selectors(e) == 1
  {
    hide PerSeries, LabelRewrite;
    match e
    case Selector(_) =>
    case Matrix(_) =>
    case Call(_, arg) => LocalLetThrough(arg);
    case Literal(_, arg, _, _) => LocalLetThrough(arg);
    case Subquery(arg) => LocalLetThrough(arg);
  }

  // --- what one group answers to an aggregation --------------------------------------

  lemma {:induction false} SelectClear(m: Meaning, xs: seq<Matcher>, matrix: bool, data: seq<Series>, ext: Labels)
    requires Own(ext, data)
    ensures A.Clear(ext, Select(m, xs, matrix, data))
  {
    hide MatchesAll;
    if data != [] {
      assert data[|data| - 1] in data;
      SelectClear(m, xs, matrix, data[..|data| - 1], ext);
    }
  }

  lemma {:induction false} EachClear(m: Meaning, step: Step, v: Vector, ext: Labels)
    requires A.Clear(ext, v)
    ensures A.Clear(ext, Each(m, step, v))
  {
    if v != [] {
      assert v[|v| - 1] in v;
      EachClear(m, step, v[..|v| - 1], ext);
    }
  }

  lemma {:induction false} LocalClear(m: Meaning, e: Expr, data: seq<Series>, ext: Labels)
    requires Local(e) && Own(ext, data)
    ensures A.Clear(ext, Eval(m, FilterExpr(ext, e), data))
  {
    hide Select, Each, A.Clear, PerSeries, Filtered, Own;
    match e
    case Selector(xs) => SelectClear(m, Filtered(ext, xs), false, data, ext);
    case Matrix(xs) => SelectClear(m, Filtered(ext, xs), true, data, ext);
    case Call(name, arg) =>
      LocalClear(m, arg, data, ext);
      EachClear(m, OfCall(name), Eval(m, FilterExpr(ext, arg), data), ext);
    case Literal(op, arg, n, first) =>
      LocalClear(m, arg, data, ext);
      EachClear(m, OfLiteral(op, n, first), Eval(m, FilterExpr(ext, arg), data), ext);
    case Subquery(arg) =>
      LocalClear(m, arg, data, ext);
      EachClear(m, OfSubquery, Eval(m, FilterExpr(ext, arg), data), ext);
  }

  lemma {:induction false} OwnAnswerClear(m: Meaning, b: Backend, e: Expr)
    requires Local(e) && Own(b.ext, b.series)
    ensures A.Clear(b.ext, OwnAnswer(m, b, e))
  {
    hide Eval, AllAgree, FilterExpr, Local, Own;
    LocalClear(m, e, b.series, b.ext);
  }

  /** The aggregations sent down whose answer one can write down: a group's partial. */
  ghost function PartialOf(m: Meaning, op: Op, g: Grouping, v: Vector): Vector
    requires !op.Topk? && !op.Bottomk? && !op.Holistic?
  {
    EvalAggregate(m, op, g, v)
  }

  lemma {:induction false} NothingAggregates(m: Meaning, op: Op, g: Grouping)
    requires !op.Topk? && !op.Bottomk? && !op.Holistic?
    ensures PartialOf(m, op, g, []) == []
  {
    assert KeysOf(g, []) == [];
    if op.CountValues? {
      assert Labelled(m, op.valueLabel, []) == [];
      assert KeysOf(WithLabel(g, op.valueLabel), []) == [];
    }
  }

  /** An aggregation is filtered, and evaluated, through its argument. */
  lemma {:induction false} ThroughArgument(m: Meaning, ext: Labels, op: Op, g: Grouping, arg: Expr, data: seq<Series>)
    ensures AllAgree(m, ext, Aggregate(op, g, arg)) == AllAgree(m, ext, arg)
    ensures FilterExpr(ext, Aggregate(op, g, arg)) == Aggregate(op, g, FilterExpr(ext, arg))
    ensures Eval(m, Aggregate(op, g, arg), data) == EvalAggregate(m, op, g, Eval(m, arg, data))
  {
    hide EvalAggregate;
  }

  lemma {:induction false} OwnPartial(m: Meaning, b: Backend, op: Op, g: Grouping, arg: Expr)
    requires !op.Topk? && !op.Bottomk? && !op.Holistic?
    ensures OwnAnswer(m, b, Aggregate(op, g, arg)) == PartialOf(m, op, g, OwnAnswer(m, b, arg))
  {
    hide EvalAggregate, PartialOf, AllAgree, FilterExpr, Eval;
    NothingAggregates(m, op, g);
    ThroughArgument(m, b.ext, op, g, arg, b.series);
    ThroughArgument(m, b.ext, op, g, FilterExpr(b.ext, arg), b.series);
    PartialIs(m, op, g, OwnAnswer(m, b, arg));
  }

  lemma {:induction false} PartialIs(m: Meaning, op: Op, g: Grouping, v: Vector)
    requires !op.Topk? && !op.Bottomk? && !op.Holistic?
    ensures PartialOf(m, op, g, v) == EvalAggregate(m, op, g, v)
  {
  }

  lemma {:induction false} Pushable(m: Meaning, groups: seq<Backend>, arg: Expr)
    requires m.Valid() && Good(groups) && Safe(m, groups, arg) && Local(arg)
    ensures Eval(m, arg, Union(groups, |groups|)) == A.Joined(Exts(groups), OwnAnswers(m, groups, arg), |groups|)
  {
    hide Eval, Local, Good, Union, Answers, OwnAnswers, Exts;
    LocalUnion(m, groups, arg, |groups|);
    AnswersJoined(m, groups, arg, |groups|);
  }

  // --- each aggregation ----------------------------------------------------------------

  lemma {:induction false} ReentrantExact(m: Meaning, groups: seq<Backend>, op: Op, g: Grouping, arg: Expr)
    requires m.Valid() && Good(groups) && Safe(m, groups, arg) && Local(arg) && A.Reentrant(op)
    ensures Agg(A.Recombine(op), g, FetchPartials(m, groups, Aggregate(op, g, arg)))
         == Agg(op, g, Eval(m, arg, Union(groups, |groups|)))
  {
    hide Eval, Local, Good, Safe, Union, Agg, A.Joined, FetchPartials, OwnAnswer, A.Recombine;
    FetchPartialsExact(m, groups, Aggregate(op, g, arg));
    var vs := OwnAnswers(m, groups, arg);
    forall i | 0 <= i < |groups| ensures OwnAnswers(m, groups, Aggregate(op, g, arg))[i] == Agg(op, g, vs[i]) {
      OwnPartial(m, groups[i], op, g, arg);
    }
    assert OwnAnswers(m, groups, Aggregate(op, g, arg)) == A.Partials(op, g, vs);
    Pushable(m, groups, arg);
    A.TwoStepAggregate(op, g, Exts(groups), vs);
  }

  /** Group b's external labels leave the values that arg has there alone. */
  predicate Uncounted(m: Meaning, b: Backend, l: string, g: Grouping, arg: Expr) {
    A.Untouched(m, b.ext, l, g, OwnAnswer(m, b, arg))
  }

  /** The count_values that is put in the place of the original. */
  ghost predicate CountsValues(m: Meaning, groups: seq<Backend>, l: string, g: Grouping, arg: Expr) {
    var e, data := Aggregate(CountValues(l), g, arg), Union(groups, |groups|);
    Eval(m, ReplaceAggregate(m, groups, CountValues(l), g, arg).value, data) == Eval(m, e, data)
  }

  lemma {:induction false} CountsValuesIs(m: Meaning, groups: seq<Backend>, l: string, g: Grouping, arg: Expr)
    ensures CountsValues(m, groups, l, g, arg)
       <==> Agg(Sum, WithLabel(g, l), FetchPartials(m, groups, Aggregate(CountValues(l), g, arg)))
            == Agg(Count, WithLabel(g, l), Labelled(m, l, Eval(m, arg, Union(groups, |groups|))))
  {
    hide Agg, Labelled, FetchPartials, Union;
    var e, data := Aggregate(CountValues(l), g, arg), Union(groups, |groups|);
    var partials := Fetched(FetchPartials(m, groups, e));
    assert Eval(m, partials, data) == partials.vector;
    assert Eval(m, Aggregate(Sum, WithLabel(g, l), partials), data) == Agg(Sum, WithLabel(g, l), partials.vector);
    assert Eval(m, e, data) == EvalAggregate(m, CountValues(l), g, Eval(m, arg, data));
  }

  /** What the groups bring back for count_values is what its two steps work on. */
  lemma {:induction false} CountsValuesInTwoSteps(m: Meaning, groups: seq<Backend>, l: string, g: Grouping, arg: Expr)
    requires m.Valid() && Good(groups) && Safe(m, groups, arg) && Local(arg)
    ensures CountsValues(m, groups, l, g, arg) <==> A.ValuesCounted(m, l, g, Exts(groups), OwnAnswers(m, groups, arg))
  {
    hide Eval, Local, Good, Safe, Union, Agg, A.Joined, FetchPartials, OwnAnswer, Labelled, CountsValues;
    var e, vs := Aggregate(CountValues(l), g, arg), OwnAnswers(m, groups, arg);
    FetchPartialsExact(m, groups, e);
    forall i | 0 <= i < |groups|
      ensures OwnAnswers(m, groups, e)[i] == Agg(Count, WithLabel(g, l), Labelled(m, l, vs[i]))
    {
      OwnPartial(m, groups[i], CountValues(l), g, arg);
    }
    assert OwnAnswers(m, groups, e) == A.Partials(Count, WithLabel(g, l), A.AllLabelled(m, l, vs));
    Pushable(m, groups, arg);
    CountsValuesIs(m, groups, l, g, arg);
  }

  /**
   * Pushing count_values down is right when no group's external labels touch the counted values, and for a single
   * group only then.
   */
  lemma {:induction false} CountValuesExact(m: Meaning, groups: seq<Backend>, l: string, g: Grouping, arg: Expr)
    requires m.Valid() && Good(groups) && Safe(m, groups, arg) && Local(arg)
    ensures (forall b <- groups :: Uncounted(m, b, l, g, arg)) ==> CountsValues(m, groups, l, g, arg)
    ensures |groups| == 1 ==> (CountsValues(m, groups, l, g, arg) <==> Uncounted(m, groups[0], l, g, arg))
  {
    hide Eval, Local, Safe, OwnAnswer, A.ValuesCounted, A.Untouched, CountsValues, Own;
    CountsValuesInTwoSteps(m, groups, l, g, arg);
    var vs := OwnAnswers(m, groups, arg);
    forall ext <- Exts(groups) ensures NAME !in ext {
      var i :| 0 <= i < |groups| && Exts(groups)[i] == ext;
      assert groups[i] in groups;
    }
    A.TwoStepCountValues(m, l, g, Exts(groups), vs);
    if forall b <- groups :: Uncounted(m, b, l, g, arg) {
      forall i | 0 <= i < |vs| ensures A.Untouched(m, Exts(groups)[i], l, g, vs[i]) {
        assert Uncounted(m, groups[i], l, g, arg);
      }
    }
  }

  lemma {:induction false} SingleAvgExact(m: Meaning, groups: seq<Backend>, g: Grouping, arg: Expr)
    requires m.Valid() && Good(groups) && Safe(m, groups, arg) && Local(arg) && |groups| == 1
    ensures Average(g, FetchPartials(m, groups, Aggregate(Avg, g, arg)))
        == Average(g, Eval(m, arg, Union(groups, |groups|)))
  {
    hide Eval, Local, Safe, Union, Average, FetchPartials, OwnAnswer, StampAll, Own;
    var e, b := Aggregate(Avg, g, arg), groups[0];
    FetchPartialsExact(m, groups, e);
    OwnPartial(m, b, Avg, g, arg);
    Pushable(m, groups, arg);
    JoinedOne(Exts(groups), OwnAnswers(m, groups, arg));
    JoinedOne(Exts(groups), OwnAnswers(m, groups, e));
    assert b in groups;
    OwnAnswerClear(m, b, arg);
    A.SingleAverage(g, b.ext, OwnAnswer(m, b, arg));
  }

  lemma {:induction false} JoinedOne(exts: seq<Labels>, vs: seq<Vector>)
    requires |exts| == |vs| == 1
    ensures A.Joined(exts, vs, 1) == StampAll(exts[0], vs[0])
  {
    hide StampAll;
    assert A.Joined(exts, vs, 0) == [];
  }

  // --- each replacement ------------------------------------------------------------------

  lemma {:induction false} AggregateExact(m: Meaning, groups: seq<Backend>, op: Op, g: Grouping, arg: Expr,
      data: seq<Series>)
    requires m.Valid() && Good(groups) && Safe(m, groups, arg) && Local(arg)
    requires PlainAggregate(groups, op, g, false) && data == Union(groups, |groups|)
        && ReplaceAggregate(m, groups, op, g, arg).Some?
    ensures Eval(m, ReplaceAggregate(m, groups, op, g, arg).value, data) == Eval(m, Aggregate(op, g, arg), data)
  {
    hide Good, Safe, Local, Union, FetchPartials, Agg, Average, A.NameFree, Labelled;
    match op
    case Sum | Min | Max | Group | Count => ReentrantExact(m, groups, op, g, arg);
    case Avg =>
      if |groups| == 1 {
        SingleAvgExact(m, groups, g, arg);
      } else {
        A.AverageIsQuotient(m, g, Eval(m, arg, data));
      }
    case CountValues(l) => CountValuesExact(m, groups, l, g, arg);
  }

  /** A raw request for e brings back what e means: no matching series is missed, and the dedup drops nothing. */
  ghost predicate Intact(m: Meaning, groups: seq<Backend>, e: Expr, data: seq<Series>, ignore: set<string>) {
    Safe(m, groups, e) && (|groups| == 1 || NoClash(Eval(m, e, data), ignore))
  }

  /**
   * What is asked of the data: the nodes that are answered by a raw request come back intact, and no series is missed
   * below an aggregation that is pushed down.  Of what stays with the engine nothing is asked.
   */
  ghost predicate Undisturbed(m: Meaning, groups: seq<Backend>, e: Expr, data: seq<Series>, ignore: set<string>) {
    match e
    case Selector(_) => Intact(m, groups, e, data, ignore)
    case Matrix(_) => true
    case Fetched(_) => true
    case Call(_, arg) => if Local(e) then Intact(m, groups, e, data, ignore)
        else Undisturbed(m, groups, arg, data, ignore)
    case Literal(_, arg, _, _) =>
      if arg.Selector? then Intact(m, groups, e, data, ignore) else Undisturbed(m, groups, arg, data, ignore)
    case Binary(_, lhs, rhs) => Undisturbed(m, groups, lhs, data, ignore) && Undisturbed(m, groups, rhs, data, ignore)
    case Aggregate(op, _, arg) =>
      if Local(arg) && !op.Holistic? then Safe(m, groups, arg) else Undisturbed(m, groups, arg, data, ignore)
    case Subquery(arg) => Undisturbed(m, groups, arg, data, ignore)
  }

  /** A raw request's answer in the place of its node. */
  lemma {:induction false} RawExact(m: Meaning, groups: seq<Backend>, cfg: Config, e: Expr, data: seq<Series>)
    requires m.Valid() && Good(groups) && data == Union(groups, |groups|) && Local(e)
        && Intact(m, groups, e, data, cfg.ignore)
    ensures FetchRaw(m, groups, cfg.ignore, e) == Eval(m, e, data)
  {
    hide Good, Safe, Union, FetchRaw, Eval, NoClash, Local;
    FetchRawExact(m, groups, cfg.ignore, e);
  }

  /** A node that is answered by a raw request acts series by series. */
  lemma {:induction false} RawIsLocal(groups: seq<Backend>, cfg: Config, e: Expr, tops: bool)
    requires Plain(groups, e, tops) && !Stopped(cfg, groups, e, false)
    requires e.Selector? || (e.Call? && PerSeries(e.name)) || (e.Literal? && e.arg.Selector?)
    ensures Local(e)
  {
    hide PerSeries, PlainAggregate;
    if e.Call? {
      PlainParsed(groups, e.arg, tops);
      GuardsMeanLocal(e.arg);
    }
  }

  lemma {:induction false} AggregatesLocal(groups: seq<Backend>, cfg: Config, e: Expr, tops: bool)
    requires e.Aggregate? && !e.agg.Holistic? && Plain(groups, e, tops) && !Stopped(cfg, groups, e, false)
    ensures Local(e.arg) && PlainAggregate(groups, e.agg, e.grouping, tops)
  {
    hide PlainAggregate, PerSeries;
    PlainParsed(groups, e.arg, tops);
    GuardsMeanLocal(e.arg);
  }

  /** What takes the place of a node means what the node means over all groups' series. */
  lemma {:induction false} ReplaceExact(m: Meaning, groups: seq<Backend>, cfg: Config, e: Expr, data: seq<Series>)
    requires m.Valid() && Good(groups) && Plain(groups, e, false) && data == Union(groups, |groups|)
    requires Undisturbed(m, groups, e, data, cfg.ignore)
    requires !Stopped(cfg, groups, e, false) && !e.Subquery? && Replace(m, groups, cfg, e).Some?
    ensures Eval(m, Replace(m, groups, cfg, e).value, data) == Eval(m, e, data)
  {
    hide Good, Safe, Union, FetchRaw, ReplaceAggregate, PlainAggregate, LabelRewrite, PerSeries, Select, Each,
        EvalAggregate, NoClash, Intact, RewritesLabels, LetThrough, Stopped;
    match e
    case Selector(_) => RawExact(m, groups, cfg, e, data);
    case Call(name, _) =>
      RawIsLocal(groups, cfg, e, false);
      RawExact(m, groups, cfg, e, data);
      if SortCall(name) {
        SortAgain(m, name, Eval(m, e, data));
      }
    case Literal(_, _, _, _) => RawExact(m, groups, cfg, e, data);
    case Aggregate(op, g, arg) =>
      HolisticStays(m, groups, op, g, arg);
      AggregatesLocal(groups, cfg, e, false);
      AggregateExact(m, groups, op, g, arg, data);
  }

  lemma {:induction false} HolisticStays(m: Meaning, groups: seq<Backend>, op: Op, g: Grouping, arg: Expr)
    ensures ReplaceAggregate(m, groups, op, g, arg).None? <==> op.Holistic?
  {
    hide FetchPartials;
  }

  lemma {:induction false} SortAgain(m: Meaning, name: string, v: Vector)
    requires m.Valid() && SortCall(name)
    ensures Each(m, OfCall(name), v) == v
  {
    if v != [] {
      assert m.step(OfCall(name), v[|v| - 1].value) == Some(v[|v| - 1].value) && m.keepsName(OfCall(name));
      SortAgain(m, name, v[..|v| - 1]);
      assert v == v[..|v| - 1] + [v[|v| - 1]];
    }
  }

  // --- the walk ------------------------------------------------------------------------------

  /** A replacement that holds fetched data is not changed further. */
  lemma {:induction false} FetchedStays(m: Meaning, groups: seq<Backend>, cfg: Config, e: Expr, inSubquery: bool,
      n: nat)
    requires ChildrenBelow(e, n)
    requires match e
             case Fetched(_) => true
             case Call(_, arg) => arg.Fetched?
             case Aggregate(_, _, arg) => arg.Fetched?
             case _ => false
    ensures Descend(m, groups, cfg, e, inSubquery, n).expr == e
  {
    hide FetchRaw, FetchPartials, PerSeries;
    match e
    case Fetched(_) =>
    case Call(_, arg) => FetchedFixed(m, groups, cfg, arg, inSubquery);
    case Aggregate(_, _, arg) => FetchedFixed(m, groups, cfg, arg, inSubquery);
  }

  lemma {:induction false} FetchedFixed(m: Meaning, groups: seq<Backend>, cfg: Config, e: Expr, inSubquery: bool)
    requires e.Fetched?
    ensures Rewrite(m, groups, cfg, e, inSubquery) == Rewritten(e, false)
  {
    hide FetchRaw, FetchPartials, PerSeries;
    ReplacementSmaller(m, groups, cfg, e);
  }

  lemma {:induction false} ReplacementKinds(m: Meaning, groups: seq<Backend>, cfg: Config, e: Expr)
    requires Replace(m, groups, cfg, e).Some?
    ensures var x := Replace(m, groups, cfg, e).value;
            || x.Fetched? || (x.Call? && x.arg.Fetched?) || (x.Aggregate? && x.arg.Fetched?)
            || (e.Aggregate? && e.agg.Avg?
                && x == Binary("/", Aggregate(Sum, e.grouping, e.arg), Aggregate(Count, e.grouping, e.arg)))
  {
    hide FetchRaw, FetchPartials, PerSeries;
  }

  /** What the guards stop outside subqueries and exact mode does not act series by series, nor aggregates what does. */
  lemma {:induction false} LocalNotStopped(groups: seq<Backend>, cfg: Config, e: Expr)
    requires !(cfg.exact && |groups| > 1)
    ensures Local(e) ==> !Stopped(cfg, groups, e, false)
    ensures e.Aggregate? && Local(e.arg) ==> !Stopped(cfg, groups, e, false)
  {
    hide PerSeries;
    if Local(e) {
      LocalLetThrough(e);
    } else if e.Aggregate? && Local(e.arg) {
      LocalLetThrough(e.arg);
    }
  }

  /** What is asked of a node's children when the node itself stays. */
  ghost predicate ChildrenUndisturbed(m: Meaning, groups: seq<Backend>, e: Expr, data: seq<Series>, ignore: set<string>)
  {
    match e
    case Selector(_) => true
    case Matrix(_) => true
    case Fetched(_) => true
    case Call(_, arg) => Undisturbed(m, groups, arg, data, ignore)
    case Literal(_, arg, _, _) => Undisturbed(m, groups, arg, data, ignore)
    case Binary(_, lhs, rhs) => Undisturbed(m, groups, lhs, data, ignore) && Undisturbed(m, groups, rhs, data, ignore)
    case Aggregate(_, _, arg) => Undisturbed(m, groups, arg, data, ignore)
    case Subquery(arg) => Undisturbed(m, groups, arg, data, ignore)
  }

  lemma {:induction false} StayingAsksChildren(m: Meaning, groups: seq<Backend>, cfg: Config, e: Expr,
      data: seq<Series>)
    requires !(cfg.exact && |groups| > 1) && Undisturbed(m, groups, e, data, cfg.ignore)
    requires Stopped(cfg, groups, e, false) || e.Subquery? || Replace(m, groups, cfg, e).None?
    ensures ChildrenUndisturbed(m, groups, e, data, cfg.ignore)
  {
    hide Stopped, Intact, Safe, PerSeries, FetchRaw, FetchPartials;
    LocalNotStopped(groups, cfg, e);
    match e
    case Selector(_) =>
    case Matrix(_) =>
    case Fetched(_) =>
    case Call(_, arg) =>
    case Literal(_, arg, _, _) => assert arg.Selector? ==> Local(arg);
    case Binary(_, lhs, rhs) =>
    case Aggregate(_, _, arg) => assert arg.Fetched? ==> !Local(arg);
    case Subquery(arg) =>
  }

  /** Everything the theorem asks of an expression that may change. */
  ghost predicate Sound(m: Meaning, groups: seq<Backend>, cfg: Config, e: Expr, data: seq<Series>, tops: bool) {
    Plain(groups, e, tops) && Undisturbed(m, groups, e, data, cfg.ignore)
  }

  /**
   * PUSHDOWN PRESERVES MEANING: the rewritten tree has the value the original has over all groups' stamped series.
   * Below a subquery and in exact mode the tree does not change, so nothing is asked.
   */
  lemma {:induction false} PushdownPreserves(m: Meaning, groups: seq<Backend>, cfg: Config, e: Expr, inSubquery: bool,
      data: seq<Series>)
    requires m.Valid() && Good(groups) && data == Union(groups, |groups|)
    requires inSubquery || (cfg.exact && |groups| > 1) || Sound(m, groups, cfg, e, data, false)
    ensures Eval(m, Rewrite(m, groups, cfg, e, inSubquery).expr, data) == Eval(m, e, data)
    decreases Size(e), 1
  {
    hide Good, Union, Replace, Stopped, Meaning.Valid, Undisturbed, ChildrenUndisturbed, Plain, PlainAggregate;
    ReplacementSmaller(m, groups, cfg, e);
    if inSubquery {
      SubqueryLeftAlone(m, groups, cfg, e);
    } else if cfg.exact && |groups| > 1 {
      ExactLeftAlone(m, groups, cfg, e, inSubquery);
    } else if Stopped(cfg, groups, e, false) {
      StayingAsksChildren(m, groups, cfg, e, data);
      DescendPreserves(m, groups, cfg, e, Size(e), data);
    } else if e.Subquery? {
      StayingAsksChildren(m, groups, cfg, e, data);
      InnerUndisturbed(m, groups, e, data, cfg.ignore, false);
      PushdownPreserves(m, groups, cfg, e.arg, false, data);
      DescendPreserves(m, groups, cfg, e, Size(e), data);
    } else {
      var r := Replace(m, groups, cfg, e);
      if r.None? {
        StayingAsksChildren(m, groups, cfg, e, data);
        DescendPreserves(m, groups, cfg, e, Size(e), data);
      } else {
        ReplaceExact(m, groups, cfg, e, data);
        ReplacementKinds(m, groups, cfg, e);
        if r.value.Binary? {
          SumAndCountFine(m, groups, cfg, e, data, false);
          DescendPreserves(m, groups, cfg, r.value, Size(e), data);
        } else {
          FetchedStays(m, groups, cfg, r.value, inSubquery, Size(e));
        }
      }
    }
  }

  lemma {:induction false} InnerUndisturbed(m: Meaning, groups: seq<Backend>, e: Expr, data: seq<Series>,
      ignore: set<string>, tops: bool)
    requires e.Subquery? && ChildrenUndisturbed(m, groups, e, data, ignore) && Plain(groups, e, tops)
    ensures Undisturbed(m, groups, e.arg, data, ignore) && Plain(groups, e.arg, tops)
  {
    hide Undisturbed, PlainAggregate;
  }

  lemma {:induction false} SumAndCountFine(m: Meaning, groups: seq<Backend>, cfg: Config, e: Expr, data: seq<Series>,
      tops: bool)
    requires e.Aggregate? && e.agg.Avg? && Plain(groups, e, tops) && !Stopped(cfg, groups, e, false)
    requires Undisturbed(m, groups, e, data, cfg.ignore)
    ensures var x := Binary("/", Aggregate(Sum, e.grouping, e.arg), Aggregate(Count, e.grouping, e.arg));
            Plain(groups, x, tops) && ChildrenUndisturbed(m, groups, x, data, cfg.ignore)
  {
    hide LetThrough, RewritesLabels, Stopped, Safe;
    AggregatesLocal(groups, cfg, e, tops);
  }

  lemma {:induction false} DescendPreserves(m: Meaning, groups: seq<Backend>, cfg: Config, e: Expr, n: nat,
      data: seq<Series>)
    requires m.Valid() && Good(groups) && Plain(groups, e, false) && data == Union(groups, |groups|)
    requires ChildrenUndisturbed(m, groups, e, data, cfg.ignore) && ChildrenBelow(e, n)
    ensures Eval(m, Descend(m, groups, cfg, e, false, n).expr, data) == Eval(m, e, data)
    decreases n, 0
  {
    hide Good, Union, PlainAggregate, LabelRewrite, PerSeries, Undisturbed, Select, Each, EvalAggregate, Match,
        Meaning.Valid, LetThrough, RewritesLabels;
    match e
    case Selector(_) =>
    case Matrix(_) =>
    case Call(_, arg) => PushdownPreserves(m, groups, cfg, arg, false, data);
    case Literal(_, arg, _, _) => PushdownPreserves(m, groups, cfg, arg, false, data);
    case Binary(_, lhs, rhs) =>
      PushdownPreserves(m, groups, cfg, lhs, false, data);
      PushdownPreserves(m, groups, cfg, rhs, false, data);
    case Aggregate(_, _, arg) => PushdownPreserves(m, groups, cfg, arg, false, data);
    case Subquery(arg) => SubqueryLeftAlone(m, groups, cfg, arg);
  }
}
