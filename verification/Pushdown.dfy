/**
 * The rewriter of pkg/proxystorage/node_replacer.go: which nodes it sends to the groups and what it
 * puts in their place.
 */
module Pushdown {
  import opened Wrappers
  import opened PromQL
  import opened FilterMatchers
  import opened LocalQueries
  import opened Fetching
  import A = Aggregation

  /** exact: evaluate everything over the deduplicated raw series; ignore: the names cross-group dedup ignores. */
  datatype Config = Config(exact: bool, ignore: set<string>)

  // --- the guards ----------------------------------------------------------------

  function Aggregates(e: Expr): nat {
    match e
    case Selector(_) => 0
    case Matrix(_) => 0
    case Fetched(_) => 0
    case Call(_, arg) => Aggregates(arg)
    case Literal(_, arg, _, _) => Aggregates(arg)
    case Binary(_, lhs, rhs) => Aggregates(lhs) + Aggregates(rhs)
    case Aggregate(_, _, arg) => 1 + Aggregates(arg)
    case Subquery(arg) => Aggregates(arg)
  }

  function Selectors(e: Expr): nat {
    match e
    case Selector(_) => 1
    case Matrix(_) => 1
    case Fetched(_) => 1
    case Call(_, arg) => Selectors(arg)
    case Literal(_, arg, _, _) => Selectors(arg)
    case Binary(_, lhs, rhs) => Selectors(lhs) + Selectors(rhs)
    case Aggregate(_, _, arg) => Selectors(arg)
    case Subquery(arg) => Selectors(arg)
  }

  predicate LabelRewrite(name: string) {
    name in {"time", "pi", "label_replace", "label_join"}
  }

  /** Calls whose answer depends on the whole input. */
  function CrossCalls(e: Expr): nat {
    match e
    case Selector(_) => 0
    case Matrix(_) => 0
    case Fetched(_) => 0
    case Call(name, arg) => CrossCalls(arg) + if PerSeries(name) || LabelRewrite(name) then 0 else 1
    case Literal(_, arg, _, _) => CrossCalls(arg)
    case Binary(_, lhs, rhs) => CrossCalls(lhs) + CrossCalls(rhs)
    case Aggregate(_, _, arg) => CrossCalls(arg)
    case Subquery(arg) => CrossCalls(arg)
  }

  /** The guards of prepare, in order; inSubquery says that a subquery is above e. */
  predicate Stopped(cfg: Config, groups: seq<Backend>, e: Expr, inSubquery: bool) {
    || inSubquery
    || (cfg.exact && |groups| > 1)
    || (Aggregates(e) > 0 && !((e.Aggregate? || e.Literal? || e.Binary?) && Aggregates(e) == 1) && !e.Subquery?)
    || (Selectors(e) > 1 && !e.Subquery?)
    || Selectors(e) == 0
    || (CrossCalls(e) > 0 && !e.Subquery?)
  }

  // --- the replacements --------------------------------------------------------------

  /** What takes the place of a node that is no subquery and has passed the guards, if anything. */
  function Replace(m: Meaning, groups: seq<Backend>, cfg: Config, e: Expr): Option<Expr> {
    match e
    case Aggregate(op, g, arg) => if arg.Fetched? then None else ReplaceAggregate(m, groups, op, g, arg)
    case Call(name, _) =>
      if !PerSeries(name) then None
      else
        var fetched := Fetched(FetchRaw(m, groups, cfg.ignore, e));
        Some(if SortCall(name) then Call(name, fetched) else fetched)
    case Selector(_) => Some(Fetched(FetchRaw(m, groups, cfg.ignore, e)))
    case Literal(_, arg, _, _) => if arg.Selector? || arg.Fetched? then Some(Fetched(FetchRaw(m, groups, cfg.ignore,
        e))) else None
    case Matrix(_) => None
    case Fetched(_) => None
    case Binary(_, _, _) => None
    case Subquery(_) => None
  }

  function ReplaceAggregate(m: Meaning, groups: seq<Backend>, op: Op, g: Grouping, arg: Expr): Option<Expr> {
    var partials := Fetched(FetchPartials(m, groups, Aggregate(op, g, arg)));
    match op
    case Sum | Min | Max | Group | Topk(_) | Bottomk(_) => Some(Aggregate(op, g, partials))
    case Count => Some(Aggregate(Sum, g, partials))
    case Avg =>
      if |groups| == 1 then Some(Aggregate(Avg, g, partials))
      else Some(Binary("/", Aggregate(Sum, g, arg), Aggregate(Count, g, arg)))
    case CountValues(l) => Some(Aggregate(Sum, WithLabel(g, l), partials))
    case Holistic(_) => None
  }

  datatype Rewritten = Rewritten(expr: Expr, pushed: bool)

  function Size(e: Expr): nat {
    match e
    case Selector(_) => 1
    case Matrix(_) => 1
    case Fetched(_) => 1
    case Call(_, arg) => 1 + Size(arg)
    case Literal(_, arg, _, _) => 1 + Size(arg)
    case Binary(_, lhs, rhs) => 1 + Size(lhs) + Size(rhs)
    case Aggregate(op, _, arg) => if op.Avg? then 2 + Size(arg) else 1 + Size(arg)
    case Subquery(arg) => 1 + Size(arg)
  }

  predicate ChildrenBelow(e: Expr, n: nat) {
    match e
    case Selector(_) => true
    case Matrix(_) => true
    case Fetched(_) => true
    case Call(_, arg) => Size(arg) < n
    case Literal(_, arg, _, _) => Size(arg) < n
    case Binary(_, lhs, rhs) => Size(lhs) < n && Size(rhs) < n
    case Aggregate(_, _, arg) => Size(arg) < n
    case Subquery(arg) => Size(arg) < n
  }

  /** A replacement's children are smaller than the node it replaces, so the walk ends. */
  lemma {:induction false} ReplacementSmaller(m: Meaning, groups: seq<Backend>, cfg: Config, e: Expr)
    ensures ChildrenBelow(e, Size(e))
    ensures Replace(m, groups, cfg, e).Some? ==> ChildrenBelow(Replace(m, groups, cfg, e).value, Size(e))
  {
    hide FetchRaw, FetchPartials, PerSeries;
  }

  /** The walk: a node is replaced or kept, then its children are visited, the replacement's when there is one. */
  function Rewrite(m: Meaning, groups: seq<Backend>, cfg: Config, e: Expr, inSubquery: bool): Rewritten
    decreases Size(e), 1
  {
    ReplacementSmaller(m, groups, cfg, e);
    if Stopped(cfg, groups, e, inSubquery) then Descend(m, groups, cfg, e, inSubquery, Size(e))
    else if e.Subquery? then
      // A statement of its own; what it became is not visited again, as the first guard says (see SubqueryLeftAlone).
      var inner := Rewrite(m, groups, cfg, e.arg, false);
      if inner.pushed then Rewritten(Subquery(inner.expr), true) else Descend(m, groups, cfg, e, inSubquery, Size(e))
    else
      var r := Replace(m, groups, cfg, e);
      if r.None? then Descend(m, groups, cfg, e, inSubquery, Size(e))
      else Rewritten(Descend(m, groups, cfg, r.value, inSubquery, Size(e)).expr, true)
  }

  function Descend(m: Meaning, groups: seq<Backend>, cfg: Config, e: Expr, inSubquery: bool, ghost n: nat): Rewritten
    requires ChildrenBelow(e, n)
    decreases n, 0
  {
    match e
    case Selector(_) => Rewritten(e, false)
    case Matrix(_) => Rewritten(e, false)
    case Fetched(_) => Rewritten(e, false)
    case Call(name, arg) =>
      var r := Rewrite(m, groups, cfg, arg, inSubquery);
      Rewritten(Call(name, r.expr), r.pushed)
    case Literal(op, arg, x, first) =>
      var r := Rewrite(m, groups, cfg, arg, inSubquery);
      Rewritten(Literal(op, r.expr, x, first), r.pushed)
    case Binary(op, lhs, rhs) =>
      var l, r := Rewrite(m, groups, cfg, lhs, inSubquery), Rewrite(m, groups, cfg, rhs, inSubquery);
      Rewritten(Binary(op, l.expr, r.expr), l.pushed || r.pushed)
    case Aggregate(op, g, arg) =>
      var r := Rewrite(m, groups, cfg, arg, inSubquery);
      Rewritten(Aggregate(op, g, r.expr), r.pushed)
    case Subquery(arg) =>
      var r := Rewrite(m, groups, cfg, arg, true);
      Rewritten(Subquery(r.expr), r.pushed)
  }

  /** Below a subquery the walk changes nothing. */
  lemma {:induction false} SubqueryLeftAlone(m: Meaning, groups: seq<Backend>, cfg: Config, e: Expr)
    ensures Rewrite(m, groups, cfg, e, true) == Rewritten(e, false)
  {
    hide Replace, FetchRaw, FetchPartials, PerSeries;
    ReplacementSmaller(m, groups, cfg, e);
    match e
    case Selector(_) =>
    case Matrix(_) =>
    case Fetched(_) =>
    case Call(_, arg) => SubqueryLeftAlone(m, groups, cfg, arg);
    case Literal(_, arg, _, _) => SubqueryLeftAlone(m, groups, cfg, arg);
    case Binary(_, lhs, rhs) =>
      SubqueryLeftAlone(m, groups, cfg, lhs);
      SubqueryLeftAlone(m, groups, cfg, rhs);
    case Aggregate(_, _, arg) => SubqueryLeftAlone(m, groups, cfg, arg);
    case Subquery(arg) => SubqueryLeftAlone(m, groups, cfg, arg);
  }

  /** In exact mode with several groups the walk changes nothing. */
  lemma {:induction false} ExactLeftAlone(m: Meaning, groups: seq<Backend>, cfg: Config, e: Expr, inSubquery: bool)
    requires cfg.exact && |groups| > 1
    ensures Rewrite(m, groups, cfg, e, inSubquery) == Rewritten(e, false)
    decreases e
  {
    hide Replace, FetchRaw, FetchPartials, PerSeries;
    ReplacementSmaller(m, groups, cfg, e);
    match e
    case Selector(_) =>
    case Matrix(_) =>
    case Fetched(_) =>
    case Call(_, arg) => ExactLeftAlone(m, groups, cfg, arg, inSubquery);
    case Literal(_, arg, _, _) => ExactLeftAlone(m, groups, cfg, arg, inSubquery);
    case Binary(_, lhs, rhs) =>
      ExactLeftAlone(m, groups, cfg, lhs, inSubquery);
      ExactLeftAlone(m, groups, cfg, rhs, inSubquery);
    case Aggregate(_, _, arg) => ExactLeftAlone(m, groups, cfg, arg, inSubquery);
    case Subquery(arg) => ExactLeftAlone(m, groups, cfg, arg, true);
  }
}
