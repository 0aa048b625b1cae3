/**
 * Queries that act series by series: each server group can answer them over its own series, and
 * the stamped answers side by side are the answer over everything.
 */
module LocalQueries {
  import opened PromQL
  import opened FilterMatchers

  /** One server group: its external labels and its backend's own series. */
  datatype Backend = Backend(ext: Labels, series: seq<Series>)

  /** Every call, operator and subquery of e maps each series by itself. */
  predicate Local(e: Expr) {
    match e
    case Selector(_) => true
    case Matrix(_) => true
    case Fetched(_) => false
    case Call(name, arg) => PerSeries(name) && Local(arg)
    case Literal(_, arg, _, _) => Local(arg)
    case Binary(_, _, _) => false
    case Aggregate(_, _, _) => false
    case Subquery(arg) => Local(arg)
  }

  // --- concatenation -----------------------------------------------------------

  lemma {:induction false} SelectConcat(m: Meaning, xs: seq<Matcher>, matrix: bool, a: seq<Series>, b: seq<Series>)
    ensures Select(m, xs, matrix, a + b) == Select(m, xs, matrix, a) + Select(m, xs, matrix, b)
  {
    hide Selected;
    if b == [] {
      assert a + b == a;
    } else {
      SelectConcat(m, xs, matrix, a, b[..|b| - 1]);
      assert (a + b)[..|a + b| - 1] == a + b[..|b| - 1];
    }
  }

  lemma {:induction false} EachConcat(m: Meaning, step: Step, a: Vector, b: Vector)
    ensures Each(m, step, a + b) == Each(m, step, a) + Each(m, step, b)
  {
    hide One;
    if b == [] {
      assert a + b == a;
    } else {
      EachConcat(m, step, a, b[..|b| - 1]);
      assert (a + b)[..|a + b| - 1] == a + b[..|b| - 1];
    }
  }

  /** Over two lots of series a local query answers for each of them. */
  lemma {:induction false} LocalConcat(m: Meaning, e: Expr, a: seq<Series>, b: seq<Series>)
    requires Local(e)
    ensures Eval(m, e, a + b) == Eval(m, e, a) + Eval(m, e, b)
  {
    hide Select, Each, PerSeries;
    match e
    case Selector(xs) => SelectConcat(m, xs, false, a, b);
    case Matrix(xs) => SelectConcat(m, xs, true, a, b);
    case Call(name, arg) =>
      LocalConcat(m, arg, a, b);
      EachConcat(m, OfCall(name), Eval(m, arg, a), Eval(m, arg, b));
    case Literal(op, arg, n, first) =>
      LocalConcat(m, arg, a, b);
      EachConcat(m, OfLiteral(op, n, first), Eval(m, arg, a), Eval(m, arg, b));
    case Subquery(arg) =>
      LocalConcat(m, arg, a, b);
      EachConcat(m, OfSubquery, Eval(m, arg, a), Eval(m, arg, b));
  }

  // --- stamping ------------------------------------------------------------------

  lemma {:induction false} OneStamped(m: Meaning, step: Step, ext: Labels, s: Sample)
    requires NAME !in ext
    ensures One(m, step, Sample(Stamped(ext, s.labels), s.value)) == StampAll(ext, One(m, step, s))
  {
    assert Stamped(ext, s.labels) - {NAME} == Stamped(ext, s.labels - {NAME});
  }

  lemma {:induction false} EachStamped(m: Meaning, step: Step, ext: Labels, v: Vector)
    requires NAME !in ext
    ensures Each(m, step, StampAll(ext, v)) == StampAll(ext, Each(m, step, v))
  {
    hide One, Stamped;
    if v == [] {
      assert StampAll(ext, []) == [];
    } else {
      var front, s := v[..|v| - 1], v[|v| - 1];
      EachStamped(m, step, ext, front);
      OneStamped(m, step, ext, s);
      StampConcat(ext, Each(m, step, front), One(m, step, s));
      assert StampAll(ext, v)[..|v| - 1] == StampAll(ext, front);
    }
  }

  /** A local query over stamped series is what the group answers to the filtered query, stamped. */
  lemma {:induction false} LocalStamped(m: Meaning, ext: Labels, e: Expr, data: seq<Series>)
    requires m.Valid() && NAME !in ext && Own(ext, data) && AllSafe(m, ext, e, data) && Local(e)
    ensures Eval(m, e, StampSeries(ext, data))
        == if AllAgree(m, ext, e) then StampAll(ext, Eval(m, FilterExpr(ext, e), data)) else []
  {
    hide Select, Each, PerSeries, StampAll, StampSeries, Own, Agrees, Filtered, StandInSafe;
    match e
    case Selector(xs) => SelectStamped(m, ext, xs, false, data);
    case Matrix(xs) => SelectStamped(m, ext, xs, true, data);
    case Call(name, arg) =>
      LocalStamped(m, ext, arg, data);
      EachStamped(m, OfCall(name), ext, Eval(m, FilterExpr(ext, arg), data));
      EachNothing(m, OfCall(name));
    case Literal(op, arg, n, first) =>
      LocalStamped(m, ext, arg, data);
      EachStamped(m, OfLiteral(op, n, first), ext, Eval(m, FilterExpr(ext, arg), data));
      EachNothing(m, OfLiteral(op, n, first));
    case Subquery(arg) =>
      LocalStamped(m, ext, arg, data);
      EachStamped(m, OfSubquery, ext, Eval(m, FilterExpr(ext, arg), data));
      EachNothing(m, OfSubquery);
  }

  lemma {:induction false} EachNothing(m: Meaning, step: Step)
    ensures Each(m, step, []) == []
  {
  }

  // --- all groups ------------------------------------------------------------------

  /** All groups' series with their external labels. */
  function Union(groups: seq<Backend>, n: nat): seq<Series>
    requires n <= |groups|
  {
    if n == 0 then [] else Union(groups, n - 1) + StampSeries(groups[n - 1].ext, groups[n - 1].series)
  }

  /**
   * What a group's backend returns for e, before its labels are added; nothing when a selector cannot match the group.
   */
  function OwnAnswer(m: Meaning, b: Backend, e: Expr): Vector {
    if AllAgree(m, b.ext, e) then Eval(m, FilterExpr(b.ext, e), b.series) else []
  }

  function Answer(m: Meaning, b: Backend, e: Expr): Vector {
    StampAll(b.ext, OwnAnswer(m, b, e))
  }

  function Answers(m: Meaning, groups: seq<Backend>, e: Expr, n: nat): Vector
    requires n <= |groups|
  {
    if n == 0 then [] else Answers(m, groups, e, n - 1) + Answer(m, groups[n - 1], e)
  }

  /**
   * Groups as configured: the same external label names, other values, never the metric name; backends do not carry
   * those names.
   */
  ghost predicate Good(groups: seq<Backend>) {
    && (forall b <- groups :: NAME !in b.ext && Own(b.ext, b.series))
    && (forall i, j ::
        0 <= i < j < |groups| ==> groups[i].ext.Keys == groups[j].ext.Keys && groups[i].ext != groups[j].ext)
  }

  /** What the groups' backends have is found by the filtered selectors of e. */
  predicate Safe(m: Meaning, groups: seq<Backend>, e: Expr) {
    forall b <- groups :: AllSafe(m, b.ext, e, b.series)
  }

  lemma {:induction false} EmptyData(m: Meaning, e: Expr)
    requires Local(e)
    ensures Eval(m, e, []) == []
  {
    match e
    case Selector(xs) =>
    case Matrix(xs) =>
    case Call(name, arg) => EmptyData(m, arg);
    case Literal(op, arg, n, first) => EmptyData(m, arg);
    case Subquery(arg) => EmptyData(m, arg);
  }

  /** The groups' answers side by side are the answer over all their stamped series. */
  lemma {:induction false} LocalUnion(m: Meaning, groups: seq<Backend>, e: Expr, n: nat)
    requires m.Valid() && Good(groups) && Safe(m, groups, e) && Local(e) && n <= |groups|
    ensures Eval(m, e, Union(groups, n)) == Answers(m, groups, e, n)
  {
    hide Eval, StampSeries, FilterExpr, AllAgree, AllSafe, Own, Local;
    if n == 0 {
      EmptyData(m, e);
    } else {
      var b := groups[n - 1];
      assert b in groups;
      LocalUnion(m, groups, e, n - 1);
      LocalStamped(m, b.ext, e, b.series);
      assert StampAll(b.ext, []) == [];
      LocalConcat(m, e, Union(groups, n - 1), StampSeries(b.ext, b.series));
    }
  }
}
