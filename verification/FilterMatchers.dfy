/**
 * Selecting through a group's external labels: pkg/promclient/filtermatcher.go strips what a
 * backend cannot know, pkg/promclient/label.go stamps it on the answers.
 */
module FilterMatchers {
  import opened Wrappers
  import opened PromQL

  /** addLabels: the group's external labels set on a series. */
  function Stamped(ext: Labels, labels: Labels): Labels {
    labels + ext
  }

  /** What replaces a selector that has lost all its matchers. */
  const ANY_NAME := Matcher(Regexp, NAME, ".+")

  predicate Agrees(m: Meaning, ext: Labels, xs: seq<Matcher>) {
    forall x <- xs :: x.name in ext ==> Matches(m, x, ext[x.name])
  }

  function Remaining(ext: Labels, xs: seq<Matcher>): seq<Matcher> {
    if xs == [] then []
    else Remaining(ext, xs[..|xs| - 1]) + if xs[|xs| - 1].name in ext then [] else [xs[|xs| - 1]]
  }

  function Filtered(ext: Labels, xs: seq<Matcher>): seq<Matcher> {
    if Remaining(ext, xs) == [] then [ANY_NAME] else Remaining(ext, xs)
  }

  /** Checks the matchers of external labels here and keeps the others; fails when one does not match. */
  method Filter(m: Meaning, ext: Labels, xs: seq<Matcher>) returns (r: Option<seq<Matcher>>)
    ensures r == if Agrees(m, ext, xs) then Some(Filtered(ext, xs)) else None
  {
    var filtered: seq<Matcher> := [];
    for i := 0 to |xs|
      invariant filtered == Remaining(ext, xs[..i]) && Agrees(m, ext, xs[..i])
    {
      assert xs[..i + 1][..i] == xs[..i] && xs[..i + 1][i] == xs[i];
      if xs[i].name in ext {
        if !Matches(m, xs[i], ext[xs[i].name]) {
          assert xs[i] in xs;
          return None;
        }
      } else {
        filtered := filtered + [xs[i]];
      }
    }
    assert xs[..|xs|] == xs;
    if |filtered| == 0 {
      filtered := filtered + [ANY_NAME];
    }
    assert Agrees(m, ext, xs) && filtered == Filtered(ext, xs);
    return Some(filtered);
  }

  lemma {:induction false} RemainingIs(ext: Labels, xs: seq<Matcher>, x: Matcher)
    ensures x in Remaining(ext, xs) <==> x in xs && x.name !in ext
  {
    if xs != [] {
      RemainingIs(ext, xs[..|xs| - 1], x);
      assert xs == xs[..|xs| - 1] + [xs[|xs| - 1]];
    }
  }

  lemma {:induction false} StampedValue(ext: Labels, labels: Labels, name: string)
    requires labels.Keys !! ext.Keys
    ensures LabelValue(Stamped(ext, labels), name) == if name in ext then ext[name] else LabelValue(labels, name)
  {
  }

  /** Stamped series match as the filtered matchers say, up to the stand-in for a selector that lost all of them. */
  lemma {:induction false} RemainingDecides(m: Meaning, ext: Labels, xs: seq<Matcher>, labels: Labels)
    requires labels.Keys !! ext.Keys
    ensures MatchesAll(m, xs, Stamped(ext, labels)) <==> Agrees(m, ext, xs) && MatchesAll(m, Remaining(ext, xs), labels)
  {
    hide Matches, Stamped, LabelValue;
    if MatchesAll(m, xs, Stamped(ext, labels)) {
      forall x <- xs | x.name in ext ensures Matches(m, x, ext[x.name]) {
        StampedValue(ext, labels, x.name);
      }
      forall x <- Remaining(ext, xs) ensures Matches(m, x, LabelValue(labels, x.name)) {
        RemainingIs(ext, xs, x);
        StampedValue(ext, labels, x.name);
      }
    }
    if Agrees(m, ext, xs) && MatchesAll(m, Remaining(ext, xs), labels) {
      forall x <- xs ensures Matches(m, x, LabelValue(Stamped(ext, labels), x.name)) {
        RemainingIs(ext, xs, x);
        StampedValue(ext, labels, x.name);
      }
    }
  }

  /**
   * Filtering is exact for a backend's series if and only if the series has a name, or some matcher is left, or
   * the group does not match at all: the stand-in `{__name__=~".+"}` drops what has no name.
   */
  lemma {:induction false} FilterExact(m: Meaning, ext: Labels, xs: seq<Matcher>, labels: Labels)
    requires m.Valid() && labels.Keys !! ext.Keys
    ensures (MatchesAll(m, xs, Stamped(ext, labels))
        <==> Agrees(m, ext, xs) && MatchesAll(m, Filtered(ext, xs), labels))
       <==> (LabelValue(labels, NAME) != "" || Remaining(ext, xs) != [] || !Agrees(m, ext, xs))
  {
    RemainingDecides(m, ext, xs, labels);
    if Remaining(ext, xs) == [] {
      assert MatchesAll(m, [ANY_NAME], labels) <==> Matches(m, ANY_NAME, LabelValue(labels, NAME));
    }
  }

  /** A series without a name is found by its group's external label, but not by what the filter makes of that. */
  lemma {:induction false} NamelessMissed(m: Meaning)
    requires m.Valid()
    ensures var ext: Labels, labels: Labels, xs := map["region" := "eu"], map["job" := "x"],
        [Matcher(Equal, "region", "eu")];
            && MatchesAll(m, xs, Stamped(ext, labels))
            && Agrees(m, ext, xs) && !MatchesAll(m, Filtered(ext, xs), labels)
  {
    var ext: Labels, labels: Labels, xs := map["region" := "eu"], map["job" := "x"], [Matcher(Equal, "region", "eu")];
    assert NAME !in labels && "region" !in labels;
    assert xs[..0] == [] && Remaining(ext, xs) == [];
    FilterExact(m, ext, xs, labels);
    RemainingDecides(m, ext, xs, labels);
  }

  // --- whole expressions -----------------------------------------------------

  /** Every selector of e agrees with the external labels; otherwise the group answers nothing. */
  predicate AllAgree(m: Meaning, ext: Labels, e: Expr) {
    match e
    case Selector(xs) => Agrees(m, ext, xs)
    case Matrix(xs) => Agrees(m, ext, xs)
    case Fetched(_) => true
    case Call(_, arg) => AllAgree(m, ext, arg)
    case Literal(_, arg, _, _) => AllAgree(m, ext, arg)
    case Binary(_, lhs, rhs) => AllAgree(m, ext, lhs) && AllAgree(m, ext, rhs)
    case Aggregate(_, _, arg) => AllAgree(m, ext, arg)
    case Subquery(arg) => AllAgree(m, ext, arg)
  }

  /** The expression as the group's backend gets it. */
  function FilterExpr(ext: Labels, e: Expr): Expr {
    match e
    case Selector(xs) => Selector(Filtered(ext, xs))
    case Matrix(xs) => Matrix(Filtered(ext, xs))
    case Fetched(_) => e
    case Call(name, arg) => Call(name, FilterExpr(ext, arg))
    case Literal(op, arg, n, first) => Literal(op, FilterExpr(ext, arg), n, first)
    case Binary(op, lhs, rhs) => Binary(op, FilterExpr(ext, lhs), FilterExpr(ext, rhs))
    case Aggregate(op, g, arg) => Aggregate(op, g, FilterExpr(ext, arg))
    case Subquery(arg) => Subquery(FilterExpr(ext, arg))
  }

  function StampAll(ext: Labels, v: Vector): Vector {
    seq(|v|, i requires 0 <= i < |v| => Sample(Stamped(ext, v[i].labels), v[i].value))
  }

  function StampSeries(ext: Labels, data: seq<Series>): seq<Series> {
    seq(|data|, i requires 0 <= i < |data| => Series(Stamped(ext, data[i].labels), data[i].points))
  }

  /** A backend's series do not carry the group's external labels. */
  predicate Own(ext: Labels, data: seq<Series>) {
    forall s <- data :: s.labels.Keys !! ext.Keys
  }

  /** The stand-in, if it is used, drops none of the series. */
  predicate StandInSafe(m: Meaning, ext: Labels, xs: seq<Matcher>, data: seq<Series>) {
    Remaining(ext, xs) != [] || !Agrees(m, ext, xs) || forall s <- data :: LabelValue(s.labels, NAME) != ""
  }

  /** The same for every selector of e. */
  predicate AllSafe(m: Meaning, ext: Labels, e: Expr, data: seq<Series>) {
    match e
    case Selector(xs) => StandInSafe(m, ext, xs, data)
    case Matrix(xs) => StandInSafe(m, ext, xs, data)
    case Fetched(_) => true
    case Call(_, arg) => AllSafe(m, ext, arg, data)
    case Literal(_, arg, _, _) => AllSafe(m, ext, arg, data)
    case Binary(_, lhs, rhs) => AllSafe(m, ext, lhs, data) && AllSafe(m, ext, rhs, data)
    case Aggregate(_, _, arg) => AllSafe(m, ext, arg, data)
    case Subquery(arg) => AllSafe(m, ext, arg, data)
  }

  lemma {:induction false} SelectedStamped(m: Meaning, ext: Labels, xs: seq<Matcher>, matrix: bool, s: Series)
    requires m.Valid() && s.labels.Keys !! ext.Keys && StandInSafe(m, ext, xs, [s])
    ensures Selected(m, xs, matrix, Series(Stamped(ext, s.labels), s.points))
         == if Agrees(m, ext, xs) then StampAll(ext, Selected(m, Filtered(ext, xs), matrix, s)) else []
  {
    assert s in [s];
    FilterExact(m, ext, xs, s.labels);
  }

  lemma {:induction false} SelectAppend(m: Meaning, xs: seq<Matcher>, matrix: bool, front: seq<Series>, s: Series)
    ensures Select(m, xs, matrix, front + [s]) == Select(m, xs, matrix, front) + Selected(m, xs, matrix, s)
  {
    assert (front + [s])[..|front|] == front;
  }

  lemma {:induction false} StampSeriesAppend(ext: Labels, front: seq<Series>, s: Series)
    ensures StampSeries(ext, front + [s]) == StampSeries(ext, front) + [Series(Stamped(ext, s.labels), s.points)]
  {
  }

  lemma {:induction false} StampConcat(ext: Labels, a: Vector, b: Vector)
    ensures StampAll(ext, a + b) == StampAll(ext, a) + StampAll(ext, b)
  {
  }

  /** A selector over stamped series is the filtered selector over the backend's own, stamped. */
  lemma {:induction false} SelectStamped(m: Meaning, ext: Labels, xs: seq<Matcher>, matrix: bool, data: seq<Series>)
    requires m.Valid() && Own(ext, data) && StandInSafe(m, ext, xs, data)
    ensures Select(m, xs, matrix, StampSeries(ext, data))
         == if Agrees(m, ext, xs) then StampAll(ext, Select(m, Filtered(ext, xs), matrix, data)) else []
  {
    hide Selected, Filtered, Agrees, Stamped;
    if data == [] {
      assert StampAll(ext, []) == [];
    } else {
      var front, last := data[..|data| - 1], data[|data| - 1];
      assert data == front + [last];
      SelectStamped(m, ext, xs, matrix, front);
      SelectedStamped(m, ext, xs, matrix, last);
      StampSeriesAppend(ext, front, last);
      SelectAppend(m, xs, matrix, StampSeries(ext, front), Series(Stamped(ext, last.labels), last.points));
      SelectAppend(m, Filtered(ext, xs), matrix, front, last);
      StampConcat(ext, Select(m, Filtered(ext, xs), matrix, front), Selected(m, Filtered(ext, xs), matrix, last));
    }
  }
}
