/**
 * What the rewriter does send down (pkg/proxystorage/node_replacer.go): leaving every tree alone would preserve its
 * meaning too.
 */
module PushdownReach {
  import opened PromQL
  import opened LocalQueries
  import opened Fetching
  import opened Pushdown
  import T = PushdownTheorem

  /** The groups' partial answers to an aggregation. */
  function Partials(m: Meaning, groups: seq<Backend>, op: Op, g: Grouping, arg: Expr): Expr {
    Fetched(FetchPartials(m, groups, Aggregate(op, g, arg)))
  }

  lemma {:induction false} FetchedStays(m: Meaning, groups: seq<Backend>, cfg: Config, v: Vector, inSubquery: bool)
    ensures Rewrite(m, groups, cfg, Fetched(v), inSubquery) == Rewritten(Fetched(v), false)
  {
    hide FetchRaw, FetchPartials;
  }

  lemma {:induction false} AnswerStays(m: Meaning, groups: seq<Backend>, cfg: Config, v: Vector, n: nat)
    ensures Descend(m, groups, cfg, Fetched(v), false, n).expr == Fetched(v)
  {
  }

  lemma {:induction false} CallStays(m: Meaning, groups: seq<Backend>, cfg: Config, name: string, v: Vector, n: nat)
    requires n > 1
    ensures Descend(m, groups, cfg, Call(name, Fetched(v)), false, n).expr == Call(name, Fetched(v))
  {
    hide Rewrite;
    FetchedStays(m, groups, cfg, v, false);
  }

  lemma {:induction false} AggregateStays(m: Meaning, groups: seq<Backend>, cfg: Config, op: Op, g: Grouping,
      v: Vector, n: nat)
    requires n > 1
    ensures Descend(m, groups, cfg, Aggregate(op, g, Fetched(v)), false, n).expr == Aggregate(op, g, Fetched(v))
  {
    hide Rewrite;
    FetchedStays(m, groups, cfg, v, false);
  }

  lemma {:induction false} ArgumentHasSize(e: Expr)
    ensures Size(e) > 0
  {
    if e.Binary? {
      ArgumentHasSize(e.lhs);
    } else if !e.Selector? && !e.Matrix? && !e.Fetched? {
      ArgumentHasSize(e.arg);
    }
  }

  /**
   * A selector, a selector against a literal and a per-series call over what acts series by series are asked of the
   * groups whole; sort is applied again to the answer.
   */
  lemma {:induction false} LocalSentDown(m: Meaning, groups: seq<Backend>, cfg: Config, e: Expr)
    requires !(cfg.exact && |groups| > 1) && Local(e)
    requires e.Selector? || e.Call? || (e.Literal? && e.arg.Selector?)
    ensures var answer := Fetched(FetchRaw(m, groups, cfg.ignore, e));
            Rewrite(m, groups, cfg, e, false)
            == Rewritten(if e.Call? && e.name in {"sort", "sort_desc"} then Call(e.name, answer) else answer, true)
  {
    hide Descend, FetchRaw, FetchPartials, PerSeries, Stopped;
    T.LocalNotStopped(groups, cfg, e);
    ReplacementSmaller(m, groups, cfg, e);
    var answer := FetchRaw(m, groups, cfg.ignore, e);
    AnswerStays(m, groups, cfg, answer, Size(e));
    if e.Call? {
      ArgumentHasSize(e.arg);
      CallStays(m, groups, cfg, e.name, answer, Size(e));
    }
  }

  /** What the engine is left with of an aggregation whose argument acts series by series. */
  function Combination(m: Meaning, groups: seq<Backend>, cfg: Config, op: Op, g: Grouping, arg: Expr): Expr {
    match op
    case Sum | Min | Max | Group | Topk(_) | Bottomk(_) => Aggregate(op, g, Partials(m, groups, op, g, arg))
    case Count => Aggregate(Sum, g, Partials(m, groups, Count, g, arg))
    case Avg =>
      if |groups| == 1 then Aggregate(Avg, g, Partials(m, groups, Avg, g, arg))
      else
        Binary("/", Aggregate(Sum, g, Partials(m, groups, Sum, g, arg)),
            Aggregate(Sum, g, Partials(m, groups, Count, g, arg)))
    case CountValues(l) => Aggregate(Sum, WithLabel(g, l), Partials(m, groups, op, g, arg))
    case Holistic(_) => Aggregate(op, g, Rewrite(m, groups, cfg, arg, false).expr)
  }

  /** An aggregation over what acts series by series is asked of every group, unless it needs all samples at once. */
  lemma {:induction false} AggregateSentDown(m: Meaning, groups: seq<Backend>, cfg: Config, op: Op, g: Grouping,
      arg: Expr)
    requires !(cfg.exact && |groups| > 1) && Local(arg)
    ensures Rewrite(m, groups, cfg, Aggregate(op, g, arg), false).expr == Combination(m, groups, cfg, op, g, arg)
    ensures !op.Holistic? ==> Rewrite(m, groups, cfg, Aggregate(op, g, arg), false).pushed
    decreases op.Avg?
  {
    hide FetchRaw, FetchPartials, PerSeries, Stopped;
    var e := Aggregate(op, g, arg);
    T.LocalNotStopped(groups, cfg, e);
    ReplacementSmaller(m, groups, cfg, e);
    ArgumentHasSize(arg);
    var partials := FetchPartials(m, groups, e);
    match op
    case Sum | Min | Max | Group | Topk(_) | Bottomk(_) => AggregateStays(m, groups, cfg, op, g, partials, Size(e));
    case Count => AggregateStays(m, groups, cfg, Sum, g, partials, Size(e));
    case Avg =>
      if |groups| == 1 {
        AggregateStays(m, groups, cfg, Avg, g, partials, Size(e));
      } else {
        AggregateSentDown(m, groups, cfg, Sum, g, arg);
        AggregateSentDown(m, groups, cfg, Count, g, arg);
      }
    case CountValues(l) => AggregateStays(m, groups, cfg, Sum, WithLabel(g, l), partials, Size(e));
    case Holistic(_) =>
  }

  // --- whole trees -----------------------------------------------------------------

  /** No selector is left to be read series by series outside of subqueries. */
  predicate NoneUnsent(e: Expr) {
    match e
    case Selector(_) => false
    case Matrix(_) => true
    case Fetched(_) => true
    case Call(_, arg) => NoneUnsent(arg)
    case Literal(_, arg, _, _) => NoneUnsent(arg)
    case Binary(_, lhs, rhs) => NoneUnsent(lhs) && NoneUnsent(rhs)
    case Aggregate(_, _, arg) => NoneUnsent(arg)
    case Subquery(_) => true
  }

  /** Whatever the tree: of its instant selectors outside of subqueries none stays, all come with answers. */
  lemma {:induction false} EverySelectorSent(m: Meaning, groups: seq<Backend>, cfg: Config, e: Expr)
    requires !(cfg.exact && |groups| > 1)
    ensures NoneUnsent(Rewrite(m, groups, cfg, e, false).expr)
    decreases Size(e), 1
  {
    hide Replace, FetchRaw, FetchPartials, PerSeries, Descend;
    ReplacementSmaller(m, groups, cfg, e);
    NeverSelector(m, groups, cfg, e);
    if Stopped(cfg, groups, e, false) || (!e.Subquery? && Replace(m, groups, cfg, e).None?) {
      DescendSends(m, groups, cfg, e, Size(e));
    } else if e.Subquery? {
      SubqueryStays(m, groups, cfg, e, Size(e));
    } else {
      DescendSends(m, groups, cfg, Replace(m, groups, cfg, e).value, Size(e));
    }
  }

  lemma {:induction false} NeverSelector(m: Meaning, groups: seq<Backend>, cfg: Config, e: Expr)
    requires !(cfg.exact && |groups| > 1)
    ensures e.Selector? ==> !Stopped(cfg, groups, e, false) && Replace(m, groups, cfg, e).Some?
    ensures Replace(m, groups, cfg, e).Some? ==> !Replace(m, groups, cfg, e).value.Selector?
  {
    hide FetchRaw, FetchPartials, PerSeries;
  }

  lemma {:induction false} SubqueryStays(m: Meaning, groups: seq<Backend>, cfg: Config, e: Expr, n: nat)
    requires e.Subquery? && ChildrenBelow(e, n)
    ensures NoneUnsent(Descend(m, groups, cfg, e, false, n).expr)
  {
    hide Rewrite;
  }

  lemma {:induction false} DescendSends(m: Meaning, groups: seq<Backend>, cfg: Config, e: Expr, n: nat)
    requires !(cfg.exact && |groups| > 1) && ChildrenBelow(e, n) && !e.Selector?
    ensures NoneUnsent(Descend(m, groups, cfg, e, false, n).expr)
    decreases n, 0
  {
    hide Rewrite;
    match e
    case Selector(_) =>
    case Matrix(_) =>
    case Fetched(_) =>
    case Call(_, arg) => EverySelectorSent(m, groups, cfg, arg);
    case Literal(_, arg, _, _) => EverySelectorSent(m, groups, cfg, arg);
    case Binary(_, lhs, rhs) =>
      EverySelectorSent(m, groups, cfg, lhs);
      EverySelectorSent(m, groups, cfg, rhs);
    case Aggregate(_, _, arg) => EverySelectorSent(m, groups, cfg, arg);
    case Subquery(_) =>
  }
}
