/**
 * The fragment of PromQL that pushdown works on and its meaning at one evaluation time: an
 * expression denotes a vector of labelled values.  Functions whose inside does not matter to
 * pushdown are fields of `Meaning`.
 */
module PromQL {
  import opened Wrappers

  type Labels = map<string, string>

  const NAME := "__name__"

  type Point = (int, real)

  datatype Series = Series(labels: Labels, points: seq<Point>)

  /** A sample's value: a number, or the points a range selector or a subquery passes to a call. */
  datatype Value = Number(n: real) | Range(points: seq<Point>)

  datatype Sample = Sample(labels: Labels, value: Value)

  type Vector = seq<Sample>

  datatype MatchType = Equal | NotEqual | Regexp | NotRegexp

  datatype Matcher = Matcher(kind: MatchType, name: string, value: string)

  datatype Grouping = By(names: set<string>) | Without(names: set<string>)

  datatype Op =
    | Sum | Min | Max | Group | Count | Avg | CountValues(valueLabel: string) | Topk(k: nat) | Bottomk(k: nat)
    | Holistic(name: string)

  /** Fetched is a selector that already holds the answer of a pushed-down request. */
  datatype Expr =
    | Selector(matchers: seq<Matcher>)
    | Matrix(matchers: seq<Matcher>)
    | Fetched(vector: Vector)
    | Call(name: string, arg: Expr)
    | Literal(op: string, arg: Expr, literal: real, literalFirst: bool)
    | Binary(op: string, lhs: Expr, rhs: Expr)
    | Aggregate(agg: Op, grouping: Grouping, arg: Expr)
    | Subquery(arg: Expr)

  /** What happens to each series by itself: a call, an operator against a literal, a subquery's window. */
  datatype Step = OfCall(name: string) | OfLiteral(op: string, literal: real, literalFirst: bool) | OfSubquery

  predicate SortCall(name: string) {
    name == "sort" || name == "sort_desc"
  }

  datatype Meaning = Meaning(
    regexp: (string, string) -> bool,
    instant: seq<Point> -> Option<Value>,
    window: seq<Point> -> Option<Value>,
    step: (Step, Value) -> Option<Value>,
    keepsName: Step -> bool,
    cross: (string, Vector) -> Vector,
    pair: (string, Value, Value) -> Option<Value>,
    format: Value -> string,
    holistic: (Op, Grouping, Vector) -> Vector
  ) {
    /**
     * A regular expression `.+` matches what is not empty; sorting changes the order only, which is not modelled;
     * division divides.
     */
    ghost predicate Valid() {
      && (forall s :: regexp(".+", s) <==> s != "")
      && (forall name, v | SortCall(name) :: step(OfCall(name), v) == Some(v) && keepsName(OfCall(name)))
      && (forall a: real, b: real | b != 0.0 :: pair("/", Number(a), Number(b)) == Some(Number(a / b)))
    }
  }

  // --- selecting -----------------------------------------------------------

  function LabelValue(labels: Labels, name: string): string {
    if name in labels then labels[name] else ""
  }

  predicate Matches(m: Meaning, x: Matcher, v: string) {
    match x.kind
    case Equal => v == x.value
    case NotEqual => v != x.value
    case Regexp => m.regexp(x.value, v)
    case NotRegexp => !m.regexp(x.value, v)
  }

  predicate MatchesAll(m: Meaning, xs: seq<Matcher>, labels: Labels) {
    forall x <- xs :: Matches(m, x, LabelValue(labels, x.name))
  }

  /** What one series contributes to a selector, or to a range selector. */
  function Selected(m: Meaning, xs: seq<Matcher>, matrix: bool, s: Series): Vector {
    var v := if matrix then m.window(s.points) else m.instant(s.points);
    if MatchesAll(m, xs, s.labels) && v.Some? then [Sample(s.labels, v.value)] else []
  }

  function Select(m: Meaning, xs: seq<Matcher>, matrix: bool, data: seq<Series>): Vector {
    if data == [] then [] else Select(m, xs, matrix, data[..|data| - 1]) + Selected(m, xs, matrix, data[|data| - 1])
  }

  // --- series by series -------------------------------------------------------

  function One(m: Meaning, step: Step, s: Sample): Vector {
    var v := m.step(step, s.value);
    if v.Some? then [Sample(if m.keepsName(step) then s.labels else s.labels - {NAME}, v.value)] else []
  }

  function Each(m: Meaning, step: Step, v: Vector): Vector {
    if v == [] then [] else Each(m, step, v[..|v| - 1]) + One(m, step, v[|v| - 1])
  }

  // --- aggregating ------------------------------------------------------------

  function KeyOf(g: Grouping, labels: Labels): Labels {
    match g
    case By(names) => map l | l in labels && l in names :: labels[l]
    case Without(names) => labels - names - {NAME}
  }

  function Num(v: Value): real {
    if v.Number? then v.n else 0.0
  }

  /** What one sample weighs in an aggregate. */
  function Lift(op: Op, x: real): real {
    if op.Count? || op.Group? then 1.0 else x
  }

  function Plus(op: Op, a: real, b: real): real {
    match op
    case Min => if a < b then a else b
    case Max => if a > b then a else b
    case Group => 1.0
    case _ => a + b
  }

  function Both(op: Op, a: Option<real>, b: Option<real>): Option<real> {
    if a.None? then b else if b.None? then a else Some(Plus(op, a.value, b.value))
  }

  /** The aggregate of the samples with the given key, in order. */
  function Combined(op: Op, g: Grouping, key: Labels, v: Vector): Option<real> {
    if v == [] then None
    else
      var last := v[|v| - 1];
      Both(op, Combined(op, g, key, v[..|v| - 1]),
          if KeyOf(g, last.labels) == key then Some(Lift(op, Num(last.value))) else None)
  }

  /** acc, extended by those of ks it does not have yet. */
  function Distinct(acc: seq<Labels>, ks: seq<Labels>): seq<Labels> {
    if ks == [] then acc
    else
      var before := Distinct(acc, ks[..|ks| - 1]);
      if ks[|ks| - 1] in before then before else before + [ks[|ks| - 1]]
  }

  function KeysOf(g: Grouping, v: Vector): seq<Labels> {
    seq(|v|, i requires 0 <= i < |v| => KeyOf(g, v[i].labels))
  }

  function Or0(x: Option<real>): real {
    if x.Some? then x.value else 0.0
  }

  /** One sample per key, in order of first appearance. */
  function Agg(op: Op, g: Grouping, v: Vector): Vector {
    var keys := Distinct([], KeysOf(g, v));
    seq(|keys|, i requires 0 <= i < |keys| => Sample(keys[i], Number(Or0(Combined(op, g, keys[i], v)))))
  }

  function MeanOf(g: Grouping, key: Labels, v: Vector): real {
    var count := Or0(Combined(Count, g, key, v));
    if count == 0.0 then 0.0 else Or0(Combined(Sum, g, key, v)) / count
  }

  /** The mean per key. */
  function Average(g: Grouping, v: Vector): Vector {
    var keys := Distinct([], KeysOf(g, v));
    seq(|keys|, i requires 0 <= i < |keys| => Sample(keys[i], Number(MeanOf(g, keys[i], v))))
  }

  /** The samples with their value as an additional label. */
  function Labelled(m: Meaning, l: string, v: Vector): Vector {
    seq(|v|, i requires 0 <= i < |v| => Sample(v[i].labels[l := m.format(v[i].value)], v[i].value))
  }

  function WithLabel(g: Grouping, l: string): Grouping {
    if g.By? then By(g.names + {l}) else g
  }

  // --- matching two vectors -----------------------------------------------------

  /** The first sample of v with the same labels but for the name, if any. */
  function Partner(labels: Labels, v: Vector): Option<Value> {
    if v == [] then None
    else
      var before := Partner(labels, v[..|v| - 1]);
      if before.Some? then before
      else if v[|v| - 1].labels - {NAME} == labels - {NAME} then Some(v[|v| - 1].value) else None
  }

  function Paired(m: Meaning, op: string, s: Sample, rhs: Vector): Vector {
    var other := Partner(s.labels, rhs);
    var v := if other.Some? then m.pair(op, s.value, other.value) else None;
    if v.Some? then [Sample(s.labels - {NAME}, v.value)] else []
  }

  /** One-to-one matching. */
  function Match(m: Meaning, op: string, lhs: Vector, rhs: Vector): Vector {
    if lhs == [] then [] else Match(m, op, lhs[..|lhs| - 1], rhs) + Paired(m, op, lhs[|lhs| - 1], rhs)
  }

  // --- the meaning of an expression ----------------------------------------------

  /** The calls that map each series by itself (pushed down as they are). */
  predicate PerSeries(name: string) {
    name in {
      "abs", "acos", "acosh", "asin", "asinh", "atan", "atanh", "avg_over_time", "ceil", "changes", "clamp",
      "clamp_max", "clamp_min", "cos", "cosh", "count_over_time", "days_in_month", "day_of_month",
      "day_of_week", "day_of_year", "deg", "delta", "deriv", "double_exponential_smoothing", "exp", "floor",
      "histogram_avg", "histogram_count", "histogram_fraction", "histogram_quantile", "histogram_stddev",
      "histogram_stdvar", "histogram_sum", "hour", "idelta", "increase", "irate", "last_over_time", "ln",
      "log10", "log2", "mad_over_time", "max_over_time", "min_over_time", "minute", "month", "predict_linear",
      "present_over_time", "quantile_over_time", "rad", "rate", "resets", "round", "sgn", "sin", "sinh", "sort",
      "sort_desc", "sqrt", "stddev_over_time", "stdvar_over_time", "sum_over_time", "tan", "tanh", "timestamp",
      "ts_of_last_over_time", "ts_of_max_over_time", "ts_of_min_over_time", "year"
    }
  }

  function EvalAggregate(m: Meaning, op: Op, g: Grouping, v: Vector): Vector {
    match op
    case Sum | Min | Max | Group | Count => Agg(op, g, v)
    case Avg => Average(g, v)
    case CountValues(l) => Agg(Count, WithLabel(g, l), Labelled(m, l, v))
    case Topk(_) | Bottomk(_) | Holistic(_) => m.holistic(op, g, v)
  }

  function Eval(m: Meaning, e: Expr, data: seq<Series>): Vector {
    match e
    case Selector(xs) => Select(m, xs, false, data)
    case Matrix(xs) => Select(m, xs, true, data)
    case Fetched(v) => v
    case Call(name, arg) => if PerSeries(name) then Each(m, OfCall(name), Eval(m, arg, data))
        else m.cross(name, Eval(m, arg, data))
    case Literal(op, arg, n, first) => Each(m, OfLiteral(op, n, first), Eval(m, arg, data))
    case Binary(op, lhs, rhs) => Match(m, op, Eval(m, lhs, data), Eval(m, rhs, data))
    case Aggregate(op, g, arg) => EvalAggregate(m, op, g, Eval(m, arg, data))
    case Subquery(arg) => Each(m, OfSubquery, Eval(m, arg, data))
  }
}
