/**
 * When the hypotheses of the pushdown theorem hold, and what goes wrong without the guards.
 */
module PushdownLimits {
  import opened Wrappers
  import opened PromQL
  import opened FilterMatchers
  import opened LocalQueries
  import opened Fetching
  import opened PushdownTheorem
  import A = Aggregation

  // --- what the theorem asks of the data --------------------------------------

  /** Every node of e that is answered by a raw request has no two samples that are the same but for ignored labels. */
  ghost predicate Apart(m: Meaning, e: Expr, data: seq<Series>, ignore: set<string>) {
    match e
    case Selector(_) => NoClash(Eval(m, e, data), ignore)
    case Matrix(_) => true
    case Fetched(_) => true
    case Call(_, arg) => if Local(e) then NoClash(Eval(m, e, data), ignore) else Apart(m, arg, data, ignore)
    case Literal(_, arg, _, _) =>
      if arg.Selector? then NoClash(Eval(m, e, data), ignore) else Apart(m, arg, data, ignore)
    case Binary(_, lhs, rhs) => Apart(m, lhs, data, ignore) && Apart(m, rhs, data, ignore)
    case Aggregate(op, _, arg) => (Local(arg) && !op.Holistic?) || Apart(m, arg, data, ignore)
    case Subquery(arg) => Apart(m, arg, data, ignore)
  }

  /** The filters miss nothing, and there is one group or the raw answers have nothing to dedup. */
  lemma {:induction false} ApartSuffices(m: Meaning, groups: seq<Backend>, e: Expr, data: seq<Series>,
      ignore: set<string>)
    requires Safe(m, groups, e) && (|groups| == 1 || Apart(m, e, data, ignore))
    ensures Undisturbed(m, groups, e, data, ignore)
    decreases e, 0
  {
    hide Eval, NoClash, PerSeries, StandInSafe;
    match e
    case Selector(_) =>
    case Matrix(_) =>
    case Fetched(_) =>
    case Call(_, arg) => ApartArgument(m, groups, e, arg, data, ignore);
    case Literal(_, arg, _, _) => ApartArgument(m, groups, e, arg, data, ignore);
    case Binary(_, lhs, rhs) =>
      assert Safe(m, groups, lhs) && Safe(m, groups, rhs);
      ApartSuffices(m, groups, lhs, data, ignore);
      ApartSuffices(m, groups, rhs, data, ignore);
    case Aggregate(_, _, arg) => ApartArgument(m, groups, e, arg, data, ignore);
    case Subquery(arg) => ApartArgument(m, groups, e, arg, data, ignore);
  }

  lemma {:induction false} ApartArgument(m: Meaning, groups: seq<Backend>, e: Expr, arg: Expr, data: seq<Series>,
      ignore: set<string>)
    requires Safe(m, groups, e) && arg < e
    requires (e.Call? && arg == e.arg) || (e.Literal? && arg == e.arg) || (e.Aggregate? && arg == e.arg)
        || (e.Subquery? && arg == e.arg)
    ensures Safe(m, groups, arg)
    ensures |groups| == 1 || Apart(m, arg, data, ignore) ==> Undisturbed(m, groups, arg, data, ignore)
    decreases arg, 1
  {
    hide StandInSafe, Eval, NoClash, Undisturbed, Apart;
    forall b <- groups ensures AllSafe(m, b.ext, arg, b.series) {
      assert AllSafe(m, b.ext, e, b.series);
    }
    if |groups| == 1 || Apart(m, arg, data, ignore) {
      ApartSuffices(m, groups, arg, data, ignore);
    }
  }

  // --- disjoint groups --------------------------------------------------------

  ghost predicate SameBare(a: Labels, b: Labels, ignore: set<string>) {
    a - (ignore + {NAME}) == b - (ignore + {NAME})
  }

  ghost predicate NoneShared(xs: seq<Series>, ys: seq<Series>, ignore: set<string>) {
    forall x, y :: x in xs && y in ys ==> !SameBare(x.labels, y.labels, ignore)
  }

  function Stored(b: Backend): seq<Series> {
    StampSeries(b.ext, b.series)
  }

  /** No series of one group is the same as one of another once ignored labels and the metric name are removed. */
  ghost predicate DisjointGroups(groups: seq<Backend>, ignore: set<string>) {
    forall i, j :: 0 <= i < j < |groups| ==> NoneShared(Stored(groups[i]), Stored(groups[j]), ignore)
  }

  lemma {:induction false} SelectOrigin(m: Meaning, xs: seq<Matcher>, matrix: bool, data: seq<Series>, s: Sample)
    requires s in Select(m, xs, matrix, data)
    ensures exists d <- data :: s.labels == d.labels
  {
    hide MatchesAll;
    var last := data[|data| - 1];
    if s in Select(m, xs, matrix, data[..|data| - 1]) {
      SelectOrigin(m, xs, matrix, data[..|data| - 1], s);
      var d :| d in data[..|data| - 1] && s.labels == d.labels;
      assert d in data;
    } else {
      assert last in data && s.labels == last.labels;
    }
  }

  lemma {:induction false} EachOrigin(m: Meaning, step: Step, v: Vector, s: Sample)
    requires s in Each(m, step, v)
    ensures exists t <- v :: s.labels - {NAME} == t.labels - {NAME}
  {
    var last := v[|v| - 1];
    if s in Each(m, step, v[..|v| - 1]) {
      EachOrigin(m, step, v[..|v| - 1], s);
      var t :| t in v[..|v| - 1] && s.labels - {NAME} == t.labels - {NAME};
      assert t in v;
    } else {
      assert last in v && s.labels - {NAME} == last.labels - {NAME};
    }
  }

  ghost predicate ComesFrom(labels: Labels, data: seq<Series>) {
    exists d <- data :: labels - {NAME} == d.labels - {NAME}
  }

  /** A local query's samples are labelled like series, up to the name. */
  lemma {:induction false} LocalOrigin(m: Meaning, e: Expr, data: seq<Series>, s: Sample)
    requires Local(e) && s in Eval(m, e, data)
    ensures ComesFrom(s.labels, data)
    decreases e, 0
  {
    hide Select, Each, PerSeries;
    match e
    case Selector(xs) => SelectOrigin(m, xs, false, data, s);
    case Matrix(xs) => SelectOrigin(m, xs, true, data, s);
    case Call(name, arg) => StepOrigin(m, OfCall(name), arg, data, s);
    case Literal(op, arg, n, first) => StepOrigin(m, OfLiteral(op, n, first), arg, data, s);
    case Subquery(arg) => StepOrigin(m, OfSubquery, arg, data, s);
  }

  lemma {:induction false} StepOrigin(m: Meaning, step: Step, arg: Expr, data: seq<Series>, s: Sample)
    requires Local(arg) && s in Each(m, step, Eval(m, arg, data))
    ensures ComesFrom(s.labels, data)
    decreases arg, 1
  {
    hide Each, Eval, PerSeries, Local;
    EachOrigin(m, step, Eval(m, arg, data), s);
    var t :| t in Eval(m, arg, data) && s.labels - {NAME} == t.labels - {NAME};
    LocalOrigin(m, arg, data, t);
  }

  lemma {:induction false} UnionOrigin(groups: seq<Backend>, n: nat, d: Series) returns (k: nat)
    requires n <= |groups| && d in Union(groups, n)
    ensures k < n && d in Stored(groups[k])
  {
    if d in Union(groups, n - 1) {
      k := UnionOrigin(groups, n - 1, d);
    } else {
      k := n - 1;
    }
  }

  lemma {:induction false} NoClashConcat(a: Vector, b: Vector, ignore: set<string>)
    requires forall s, t :: s in a && t in b ==> s.labels - ignore != t.labels - ignore
    ensures NoClash(a + b, ignore) <==> NoClash(a, ignore) && NoClash(b, ignore)
  {
    var c := a + b;
    if NoClash(c, ignore) {
      forall i, j | 0 <= i < j < |a| ensures !Clash(a, ignore, i, j) {
        assert !Clash(c, ignore, i, j);
      }
      forall i, j | 0 <= i < j < |b| ensures !Clash(b, ignore, i, j) {
        assert !Clash(c, ignore, |a| + i, |a| + j);
      }
    }
    if NoClash(a, ignore) && NoClash(b, ignore) {
      forall i, j | 0 <= i < j < |c| ensures !Clash(c, ignore, i, j) {
        if j < |a| {
          assert !Clash(a, ignore, i, j);
        } else if i >= |a| {
          assert !Clash(b, ignore, i - |a|, j - |a|);
        } else {
          assert a[i] in a && b[j - |a|] in b;
        }
      }
    }
  }

  lemma {:induction false} BareAgain(x: Labels, y: Labels, a: Labels, b: Labels, ignore: set<string>)
    requires x - ignore == y - ignore && x - {NAME} == a - {NAME} && y - {NAME} == b - {NAME}
    ensures SameBare(a, b, ignore)
  {
    assert a - (ignore + {NAME}) == (a - {NAME}) - ignore == (x - {NAME}) - ignore == (x - ignore) - {NAME};
    assert b - (ignore + {NAME}) == (b - {NAME}) - ignore == (y - {NAME}) - ignore == (y - ignore) - {NAME};
  }

  /** Group k's answer clashes with none of the groups before it. */
  lemma {:induction false} NoneAcross(m: Meaning, groups: seq<Backend>, e: Expr, ignore: set<string>, k: nat,
      s: Sample, t: Sample)
    requires DisjointGroups(groups, ignore) && Local(e) && k < |groups|
    requires s in Eval(m, e, Union(groups, k)) && t in Eval(m, e, Stored(groups[k]))
    ensures s.labels - ignore != t.labels - ignore
  {
    hide Eval, Local, Union, SameBare, Stored;
    LocalOrigin(m, e, Union(groups, k), s);
    LocalOrigin(m, e, Stored(groups[k]), t);
    var a :| a in Union(groups, k) && s.labels - {NAME} == a.labels - {NAME};
    var b :| b in Stored(groups[k]) && t.labels - {NAME} == b.labels - {NAME};
    var i := UnionOrigin(groups, k, a);
    assert NoneShared(Stored(groups[i]), Stored(groups[k]), ignore);
    if s.labels - ignore == t.labels - ignore {
      BareAgain(s.labels, t.labels, a.labels, b.labels, ignore);
    }
  }

  /** Nothing of the group's own answer to e is lost in the dedup. */
  ghost predicate AloneClear(m: Meaning, b: Backend, e: Expr, ignore: set<string>) {
    NoClash(Eval(m, e, Stored(b)), ignore)
  }

  lemma {:induction false} ClearUnion(m: Meaning, groups: seq<Backend>, e: Expr, ignore: set<string>, n: nat)
    requires DisjointGroups(groups, ignore) && Local(e) && n <= |groups|
    ensures NoClash(Eval(m, e, Union(groups, n)), ignore) <==> forall i ::
        0 <= i < n ==> AloneClear(m, groups[i], e, ignore)
  {
    hide Eval, Local, DisjointGroups;
    if n == 0 {
      EmptyData(m, e);
    } else {
      ClearUnion(m, groups, e, ignore, n - 1);
      LocalConcat(m, e, Union(groups, n - 1), Stored(groups[n - 1]));
      forall s, t | s in Eval(m, e, Union(groups, n - 1)) && t in Eval(m, e, Stored(groups[n - 1]))
        ensures s.labels - ignore != t.labels - ignore
      {
        NoneAcross(m, groups, e, ignore, n - 1, s, t);
      }
      NoClashConcat(Eval(m, e, Union(groups, n - 1)), Eval(m, e, Stored(groups[n - 1])), ignore);
    }
  }

  ghost predicate ApartAlone(m: Meaning, b: Backend, e: Expr, ignore: set<string>) {
    Apart(m, e, Stored(b), ignore)
  }

  /**
   * With disjoint groups the pushdown theorem asks of all groups' series together what it asks of each group's by
   * themselves.
   */
  lemma {:induction false} DisjointGroupsSuffice(m: Meaning, groups: seq<Backend>, e: Expr, ignore: set<string>)
    requires DisjointGroups(groups, ignore)
    ensures Apart(m, e, Union(groups, |groups|), ignore) <==> forall b <- groups :: ApartAlone(m, b, e, ignore)
  {
    hide Eval, DisjointGroups, Union, NoClash, PerSeries, Stored;
    match e
    case Selector(_) => ClearEach(m, groups, e, ignore);
    case Matrix(_) =>
    case Fetched(_) =>
    case Call(_, arg) =>
      if Local(e) {
        ClearEach(m, groups, e, ignore);
      } else {
        DisjointGroupsSuffice(m, groups, arg, ignore);
        forall b <- groups ensures ApartAlone(m, b, e, ignore) <==> ApartAlone(m, b, arg, ignore) {
        }
      }
    case Literal(_, arg, _, _) =>
      if arg.Selector? {
        ClearEach(m, groups, e, ignore);
      } else {
        DisjointGroupsSuffice(m, groups, arg, ignore);
        forall b <- groups ensures ApartAlone(m, b, e, ignore) <==> ApartAlone(m, b, arg, ignore) {
        }
      }
    case Binary(_, lhs, rhs) =>
      DisjointGroupsSuffice(m, groups, lhs, ignore);
      DisjointGroupsSuffice(m, groups, rhs, ignore);
      forall b <- groups
        ensures ApartAlone(m, b, e, ignore) <==> ApartAlone(m, b, lhs, ignore) && ApartAlone(m, b, rhs, ignore)
      {
      }
    case Aggregate(_, _, arg) =>
      DisjointGroupsSuffice(m, groups, arg, ignore);
      forall b <- groups
        ensures ApartAlone(m, b, e, ignore) <==> ((Local(arg) && !e.agg.Holistic?) || ApartAlone(m, b, arg, ignore))
      {
      }
    case Subquery(arg) =>
      DisjointGroupsSuffice(m, groups, arg, ignore);
      forall b <- groups ensures ApartAlone(m, b, e, ignore) <==> ApartAlone(m, b, arg, ignore) {
      }
  }

  lemma {:induction false} ClearEach(m: Meaning, groups: seq<Backend>, e: Expr, ignore: set<string>)
    requires DisjointGroups(groups, ignore) && Local(e)
    ensures NoClash(Eval(m, e, Union(groups, |groups|)), ignore) <==> forall b <- groups :: AloneClear(m, b, e, ignore)
  {
    hide Eval, Local, Union, DisjointGroups, AloneClear;
    ClearUnion(m, groups, e, ignore, |groups|);
    if forall i :: 0 <= i < |groups| ==> AloneClear(m, groups[i], e, ignore) {
      forall b <- groups ensures AloneClear(m, b, e, ignore) {
        var i :| 0 <= i < |groups| && groups[i] == b;
      }
    }
    forall i | 0 <= i < |groups| ensures groups[i] in groups {
    }
  }

  ghost predicate DistinctLabels(v: Vector) {
    forall i, j :: 0 <= i < j < |v| ==> v[i].labels != v[j].labels
  }

  /**
   * When only external labels are ignored, what is asked of one group is what every engine sees to: no answer has
   * the same label set twice.
   */
  lemma {:induction false} AloneExact(m: Meaning, b: Backend, e: Expr, ignore: set<string>)
    requires m.Valid() && NAME !in b.ext && Own(b.ext, b.series) && AllSafe(m, b.ext, e, b.series) && Local(e)
    requires ignore <= b.ext.Keys
    ensures AloneClear(m, b, e, ignore) <==> DistinctLabels(OwnAnswer(m, b, e))
  {
    hide Eval, Local, Own, AllSafe, FilterExpr, AllAgree, Stamped;
    LocalStamped(m, b.ext, e, b.series);
    assert StampAll(b.ext, []) == [];
    OwnAnswerClear(m, b, e);
    var v := OwnAnswer(m, b, e);
    forall i, j | 0 <= i < j < |v| ensures Clash(StampAll(b.ext, v), ignore, i, j) <==> v[i].labels == v[j].labels {
      assert v[i] in v && v[j] in v;
      StampedClash(b.ext, ignore, v[i].labels, v[j].labels);
    }
    if DistinctLabels(v) {
      forall i, j | 0 <= i < j < |v| ensures !Clash(StampAll(b.ext, v), ignore, i, j) {
        assert v[i].labels != v[j].labels;
      }
    }
    if NoClash(StampAll(b.ext, v), ignore) {
      forall i, j | 0 <= i < j < |v| ensures v[i].labels != v[j].labels {
        assert !Clash(StampAll(b.ext, v), ignore, i, j);
      }
    }
  }

  lemma {:induction false} StampedClash(ext: Labels, ignore: set<string>, a: Labels, b: Labels)
    requires a.Keys !! ext.Keys && b.Keys !! ext.Keys && ignore <= ext.Keys
    ensures Stamped(ext, a) - ignore == Stamped(ext, b) - ignore <==> a == b
  {
    assert (Stamped(ext, a) - ignore) - ext.Keys == a && (Stamped(ext, b) - ignore) - ext.Keys == b;
  }

  /** Two groups that store the same series: the raw request for it brings back one of the two. */
  lemma {:induction false} SharedSeriesDropped(m: Meaning, points: seq<Point>)
    requires m.Valid() && m.instant(points).Some?
    ensures var up := Series(map[NAME := "up"], points);
            var groups := [Backend(map["g" := "a"], [up]), Backend(map["g" := "b"], [up])];
            var e := Selector([Matcher(Equal, NAME, "up")]);
            |Eval(m, e, Union(groups, 2))| == 2 && |FetchRaw(m, groups, {"g"}, e)| < 2
  {
    hide Answer, Eval, Own, AllSafe, Merged, AllTagged, Union, Meaning.Valid;
    var up := Series(map[NAME := "up"], points);
    var groups := [Backend(map["g" := "a"], [up]), Backend(map["g" := "b"], [up])];
    var xs := [Matcher(Equal, NAME, "up")];
    var e := Selector(xs);
    OneEach(m, groups[0], xs, up);
    OneEach(m, groups[1], xs, up);
    assert groups[0].ext["g"] != groups[1].ext["g"];
    assert Safe(m, groups, e) && Good(groups);
    LocalUnion(m, groups, e, 2);
    assert Answers(m, groups, e, 0) == [] && Answers(m, groups, e, 1) == Answer(m, groups[0], e);
    var v := Answers(m, groups, e, 2);
    assert v == Answer(m, groups[0], e) + Answer(m, groups[1], e);
    assert v[0].labels - {"g"} == map[NAME := "up"] == v[1].labels - {"g"};
    assert Clash(v, {"g"}, 0, 1);
    MergeLoses(m, groups, e, {"g"});
  }

  lemma {:induction false} OneEach(m: Meaning, b: Backend, xs: seq<Matcher>, up: Series)
    requires xs == [Matcher(Equal, NAME, "up")] && up.labels == map[NAME := "up"] && m.instant(up.points).Some?
    requires b.series == [up] && NAME !in b.ext
    ensures Own(b.ext, b.series) && AllSafe(m, b.ext, Selector(xs), b.series)
    ensures Answer(m, b, Selector(xs)) == [Sample(Stamped(b.ext, up.labels), m.instant(up.points).value)]
  {
    assert xs[..0] == [] && Remaining(b.ext, xs) == xs;
    assert [up][..0] == [];
    assert MatchesAll(m, xs, up.labels);
    assert Select(m, xs, false, [up]) == [Sample(up.labels, m.instant(up.points).value)];
  }

  // --- why the guards are there ---------------------------------------------------

  function Keep(limit: real, v: Vector): Vector {
    if v == [] then []
    else Keep(limit, v[..|v| - 1]) + if Num(v[|v| - 1].value) < limit then [v[|v| - 1]] else []
  }

  const ALL: Grouping := By({})

  const NO_LABELS: Labels := map[]

  lemma {:induction false} AggOfOne(op: Op, s: Sample)
    requires KeyOf(ALL, s.labels) == NO_LABELS
    ensures Agg(op, ALL, [s]) == [Sample(NO_LABELS, Number(Lift(op, Num(s.value))))]
  {
    assert KeysOf(ALL, [s]) == [NO_LABELS];
    assert [] + [NO_LABELS] == [NO_LABELS];
    A.DistinctAppend([], [], NO_LABELS);
    assert [s][..0] == [];
    assert Combined(op, ALL, NO_LABELS, [s]) == Some(Lift(op, Num(s.value)));
  }

  lemma {:induction false} AggOfTwo(op: Op, s: Sample, t: Sample)
    requires KeyOf(ALL, s.labels) == KeyOf(ALL, t.labels) == NO_LABELS
    ensures Agg(op, ALL, [s, t]) == [Sample(NO_LABELS, Number(Plus(op, Lift(op, Num(s.value)), Lift(op,
        Num(t.value)))))]
  {
    hide KeyOf, Lift, Num, Plus;
    assert KeysOf(ALL, [s, t]) == [NO_LABELS, NO_LABELS];
    assert [] + [NO_LABELS] == [NO_LABELS] && [NO_LABELS] + [NO_LABELS] == [NO_LABELS, NO_LABELS];
    A.DistinctAppend([], [], NO_LABELS);
    A.DistinctAppend([], [NO_LABELS], NO_LABELS);
    assert [s, t][..1] == [s] && [s][..0] == [];
    assert Combined(op, ALL, NO_LABELS, [s]) == Some(Lift(op, Num(s.value)));
    assert Combined(op, ALL, NO_LABELS, [s, t]) == Some(Plus(op, Lift(op, Num(s.value)), Lift(op, Num(t.value))));
  }

  lemma {:induction false} NoKey(labels: Labels)
    ensures KeyOf(ALL, labels) == NO_LABELS
  {
  }

  /**
   * max(foo) < 5 over one group holding 1 and one holding 10: nothing, but 1 survives when each group filters its own
   * maximum.
   */
  lemma {:induction false} FilteredAggregateIsNotReentrant()
    ensures var a, b := Sample(map["g" := "a"], Number(1.0)), Sample(map["g" := "b"], Number(10.0));
            && Keep(5.0, Agg(Max, ALL, [a, b])) == []
            && Agg(Max, ALL, Keep(5.0, Agg(Max, ALL, [a])) + Keep(5.0, Agg(Max, ALL, [b])))
                == [Sample(NO_LABELS, Number(1.0))]
  {
    var a, b := Sample(map["g" := "a"], Number(1.0)), Sample(map["g" := "b"], Number(10.0));
    NoKey(a.labels);
    NoKey(b.labels);
    NoKey(NO_LABELS);
    AggOfTwo(Max, a, b);
    AggOfOne(Max, a);
    AggOfOne(Max, b);
    var one, ten := Sample(NO_LABELS, Number(1.0)), Sample(NO_LABELS, Number(10.0));
    assert [ten][..0] == [] && [one][..0] == [];
    assert Keep(5.0, [ten]) == [] && Keep(5.0, [one]) == [one];
    AggOfOne(Max, one);
    assert [one] + [] == [one];
  }

  /** Averaging the groups' averages weighs a group's samples by its size: 1 and 4 against 1 alone. */
  lemma {:induction false} AverageIsNotReentrant()
    ensures exists a: Sample, b: Sample, c: Sample ::
      Average(ALL, Average(ALL, [a, b]) + Average(ALL, [c])) != Average(ALL, [a, b, c])
  {
    var a, b, c := Sample(map["i" := "1"], Number(1.0)), Sample(map["i" := "2"], Number(4.0)),
        Sample(map["i" := "3"], Number(1.0));
    NoKey(a.labels);
    NoKey(b.labels);
    NoKey(c.labels);
    NoKey(NO_LABELS);
    MeanTwo(a, b);
    MeanOne(c);
    var x, y := Sample(NO_LABELS, Number(2.5)), Sample(NO_LABELS, Number(1.0));
    assert [x] + [y] == [x, y];
    MeanTwo(x, y);
    MeanThree(a, b, c);
    assert Average(ALL, Average(ALL, [a, b]) + Average(ALL, [c])) != Average(ALL, [a, b, c]);
  }

  lemma {:induction false} MeanFrom(v: Vector, sum: real, count: real)
    requires count > 0.0 && Distinct([], KeysOf(ALL, v)) == [NO_LABELS]
    requires Combined(Sum, ALL, NO_LABELS, v) == Some(sum) && Combined(Count, ALL, NO_LABELS, v) == Some(count)
    ensures Average(ALL, v) == [Sample(NO_LABELS, Number(sum / count))]
  {
  }

  lemma {:induction false} Weights(op: Op, s: Sample, v: Vector)
    requires KeyOf(ALL, s.labels) == NO_LABELS
    ensures Combined(op, ALL, NO_LABELS, v + [s])
        == Both(op, Combined(op, ALL, NO_LABELS, v), Some(Lift(op, Num(s.value))))
    ensures Distinct([], KeysOf(ALL, v)) == [NO_LABELS] || v == [] ==> Distinct([], KeysOf(ALL, v + [s])) == [NO_LABELS]
  {
    A.CombinedAppend(op, ALL, NO_LABELS, v, s);
    assert KeysOf(ALL, v + [s]) == KeysOf(ALL, v) + [NO_LABELS];
    A.DistinctAppend([], KeysOf(ALL, v), NO_LABELS);
  }

  lemma {:induction false} CombinedEmpty()
    ensures forall op :: Combined(op, ALL, NO_LABELS, []) == None
  {
  }

  lemma {:induction false} MeanOne(a: Sample)
    requires KeyOf(ALL, a.labels) == NO_LABELS
    ensures Average(ALL, [a]) == [Sample(NO_LABELS, Number(Num(a.value) / 1.0))]
  {
    assert [] + [a] == [a];
    Weights(Sum, a, []);
    Weights(Count, a, []);
    MeanFrom([a], Num(a.value), 1.0);
  }

  lemma {:induction false} MeanTwo(a: Sample, b: Sample)
    requires KeyOf(ALL, a.labels) == KeyOf(ALL, b.labels) == NO_LABELS
    ensures Average(ALL, [a, b]) == [Sample(NO_LABELS, Number((Num(a.value) + Num(b.value)) / 2.0))]
  {
    assert [] + [a] == [a] && [a] + [b] == [a, b];
    Weights(Sum, a, []);
    Weights(Count, a, []);
    Weights(Sum, b, [a]);
    Weights(Count, b, [a]);
    MeanFrom([a, b], Num(a.value) + Num(b.value), 2.0);
  }

  lemma {:induction false} MeanThree(a: Sample, b: Sample, c: Sample)
    requires KeyOf(ALL, a.labels) == KeyOf(ALL, b.labels) == KeyOf(ALL, c.labels) == NO_LABELS
    ensures Average(ALL, [a, b, c]) == [Sample(NO_LABELS, Number((Num(a.value) + Num(b.value) + Num(c.value)) / 3.0))]
  {
    hide KeyOf, Combined, Distinct, KeysOf, Average;
    CombinedEmpty();
    assert [] + [a] == [a] && [a] + [b] == [a, b] && [a, b] + [c] == [a, b, c];
    Weights(Sum, a, []);
    Weights(Count, a, []);
    Weights(Sum, b, [a]);
    Weights(Count, b, [a]);
    assert Combined(Sum, ALL, NO_LABELS, [a, b]) == Some(Num(a.value) + Num(b.value));
    assert Combined(Count, ALL, NO_LABELS, [a, b]) == Some(2.0);
    Weights(Sum, c, [a, b]);
    Weights(Count, c, [a, b]);
    assert Combined(Sum, ALL, NO_LABELS, [a, b, c]) == Some(Num(a.value) + Num(b.value) + Num(c.value));
    assert Combined(Count, ALL, NO_LABELS, [a, b, c]) == Some(3.0);
    MeanFrom([a, b, c], Num(a.value) + Num(b.value) + Num(c.value), 3.0);
  }

  /**
   * A value label that is an external label: the group's own value overwrites the counted one, so different values fall
   * together.
   */
  lemma {:induction false} ExternalValueLabel(m: Meaning, x: Value, y: Value)
    requires m.format(x) != m.format(y)
    ensures var ext: Labels, v := map["l" := "g"], [Sample(map["i" := "1"], x), Sample(map["i" := "2"], y)];
            && |Agg(Count, By({"l"}), Labelled(m, "l", StampAll(ext, v)))| == 2
            && |Agg(Sum, By({"l"}), StampAll(ext, Agg(Count, By({"l"}), Labelled(m, "l", v))))| == 1
  {
    var ext: Labels, v := map["l" := "g"], [Sample(map["i" := "1"], x), Sample(map["i" := "2"], y)];
    var g := By({"l"});
    var p: Labels, q: Labels := map["l" := m.format(x)], map["l" := m.format(y)];
    assert p["l"] != q["l"];
    OnlyL(p, m.format(x));
    OnlyL(q, m.format(y));
    OnlyL(ext, "g");
    KeyOfL(map["i" := "1"]["l" := m.format(x)], p);
    KeyOfL(map["i" := "2"]["l" := m.format(y)], q);
    KeyOfL(Stamped(ext, map["i" := "1"])["l" := m.format(x)], p);
    KeyOfL(Stamped(ext, map["i" := "2"])["l" := m.format(y)], q);
    TwoKeys(g, Labelled(m, "l", StampAll(ext, v)), p, q);
    TwoKeys(g, Labelled(m, "l", v), p, q);
    var stamped := StampAll(ext, Agg(Count, g, Labelled(m, "l", v)));
    assert |stamped| == 2;
    assert Stamped(ext, p) == ext && Stamped(ext, q) == ext;
    TwoKeys(g, stamped, ext, ext);
  }

  lemma {:induction false} KeyOfL(labels: Labels, key: Labels)
    requires key.Keys == {"l"} && "l" in labels && labels["l"] == key["l"]
    ensures KeyOf(By({"l"}), labels) == key
  {
  }

  lemma {:induction false} OnlyL(labels: Labels, value: string)
    requires labels == map["l" := value]
    ensures KeyOf(By({"l"}), labels) == labels
  {
  }

  lemma {:induction false} TwoKeys(g: Grouping, v: Vector, p: Labels, q: Labels)
    requires |v| == 2 && KeyOf(g, v[0].labels) == p && KeyOf(g, v[1].labels) == q
    ensures Distinct([], KeysOf(g, v)) == if p == q then [p] else [p, q]
  {
    assert KeysOf(g, v) == [p, q];
    assert [] + [p] == [p] && [p] + [q] == [p, q];
    A.DistinctAppend([], [], p);
    A.DistinctAppend([], [p], q);
  }

  lemma {:induction false} ThreeKeys(g: Grouping, v: Vector, x: Labels, y: Labels, z: Labels)
    requires |v| == 3 && KeysOf(g, v) == [x, y, z]
    ensures forall key ::
        Or0(Combined(Count, g, key, v))
        == (if x == key then 1.0 else 0.0) + (if y == key then 1.0 else 0.0) + (if z == key then 1.0 else 0.0)
    ensures Distinct([], KeysOf(g, v)) == Distinct(Distinct(Distinct([], [x]), [y]), [z])
  {
    hide KeyOf;
    assert KeyOf(g, v[0].labels) == KeysOf(g, v)[0] == x;
    assert KeyOf(g, v[1].labels) == KeysOf(g, v)[1] == y;
    assert KeyOf(g, v[2].labels) == KeysOf(g, v)[2] == z;
    assert v == [] + [v[0]] + [v[1]] + [v[2]];
    forall key
      ensures Or0(Combined(Count, g, key, v))
          == (if x == key then 1.0 else 0.0) + (if y == key then 1.0 else 0.0) + (if z == key then 1.0 else 0.0)
    {
      A.CombinedAppend(Count, g, key, [], v[0]);
      A.CombinedAppend(Count, g, key, [] + [v[0]], v[1]);
      A.CombinedAppend(Count, g, key, [] + [v[0]] + [v[1]], v[2]);
    }
    assert [x, y, z] == ([x] + [y]) + [z];
    A.DistinctConcat([], [x] + [y], [z]);
    A.DistinctConcat([], [x], [y]);
  }

  lemma {:induction false} OrderOfCounts(g: Grouping, a: Vector, b: Vector, p: Labels, q: Labels)
    requires |a| == 3 && |b| == 3 && KeysOf(g, a) == [p, p, q] && KeysOf(g, b) == [p, q, p] && p != q
    ensures Agg(Count, g, a) == Agg(Count, g, b)
  {
    hide KeyOf, Combined, Distinct, KeysOf;
    ThreeKeys(g, a, p, p, q);
    ThreeKeys(g, b, p, q, p);
    TwoDistinct(p, q);
  }

  lemma {:induction false} TwoDistinct(p: Labels, q: Labels)
    requires p != q
    ensures Distinct(Distinct(Distinct([], [p]), [p]), [q]) == [p, q] == Distinct(Distinct(Distinct([], [p]), [q]), [p])
  {
    assert [p][..0] == [] && [q][..0] == [] && [] + [p] == [p] && [p] + [q] == [p, q];
  }

  /** Two groups' mistakes can cancel out: the first group's 2 is counted as a 1, the second group's 1 as a 2. */
  lemma {:induction false} MistakesCancel(m: Meaning, one: Value, two: Value)
    requires m.format(one) == "1" && m.format(two) == "2"
    ensures var exts: seq<Labels> := [map["l" := "1"], map["l" := "2"]];
            var vs := [[Sample(map["i" := "1"], one), Sample(map["i" := "2"], two)], [Sample(map["i" := "3"], one)]];
            !A.Untouched(m, exts[0], "l", By({}), vs[0]) && A.ValuesCounted(m, "l", By({}), exts, vs)
  {
    var exts: seq<Labels> := [map["l" := "1"], map["l" := "2"]];
    var a, b, c := Sample(map["i" := "1"], one), Sample(map["i" := "2"], two), Sample(map["i" := "3"], one);
    var vs := [[a, b], [c]];
    assert b in vs[0];
    var g := WithLabel(By({}), "l");
    assert g == By({"l"});
    A.TwoStepAggregate(Count, g, exts, A.AllLabelled(m, "l", vs));
    CancelledKeys(m, exts, a, b, c);
    var before, after := A.Joined(exts, A.AllLabelled(m, "l", vs), 2), Labelled(m, "l", A.Joined(exts, vs, 2));
    assert exts[0]["l"] != exts[1]["l"];
    assert |before| == |KeysOf(g, before)| == 3 && |after| == |KeysOf(g, after)| == 3;
    OrderOfCounts(g, before, after, exts[0], exts[1]);
  }

  lemma {:induction false} StampedKey(ext: Labels, labels: Labels)
    requires ext.Keys == {"l"}
    ensures KeyOf(By({"l"}), Stamped(ext, labels)) == ext
  {
    KeyOfL(Stamped(ext, labels), ext);
  }

  lemma {:induction false} JoinedTwo(exts: seq<Labels>, vs: seq<Vector>)
    requires |exts| == |vs| == 2
    ensures A.Joined(exts, vs, 2) == StampAll(exts[0], vs[0]) + StampAll(exts[1], vs[1])
  {
    hide StampAll;
    assert A.Joined(exts, vs, 0) == [] && A.Joined(exts, vs, 1) == StampAll(exts[0], vs[0]);
  }

  lemma {:induction false} CancelledKeys(m: Meaning, exts: seq<Labels>, a: Sample, b: Sample, c: Sample)
    requires exts == [map["l" := "1"], map["l" := "2"]]
    requires m.format(a.value) == m.format(c.value) == "1" && m.format(b.value) == "2"
    ensures var g, vs := By({"l"}), [[a, b], [c]];
            && KeysOf(g, A.Joined(exts, A.AllLabelled(m, "l", vs), 2)) == [exts[0], exts[0], exts[1]]
            && KeysOf(g, Labelled(m, "l", A.Joined(exts, vs, 2))) == [exts[0], exts[1], exts[0]]
  {
    hide KeyOf, A.Joined, Stamped;
    var g, vs := By({"l"}), [[a, b], [c]];
    var p, q := exts[0], exts[1];
    var before, after := A.Joined(exts, A.AllLabelled(m, "l", vs), 2), A.Joined(exts, vs, 2);
    JoinedTwo(exts, vs);
    JoinedTwo(exts, A.AllLabelled(m, "l", vs));
    StampedKey(p, a.labels["l" := "1"]);
    StampedKey(p, b.labels["l" := "2"]);
    StampedKey(q, c.labels["l" := "1"]);
    KeyOfL(Stamped(p, a.labels)["l" := "1"], p);
    KeyOfL(Stamped(p, b.labels)["l" := "2"], q);
    KeyOfL(Stamped(q, c.labels)["l" := "1"], p);
  }
}
