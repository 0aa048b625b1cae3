/**
 * What a pushed-down request brings back: the groups' answers through the merge hook of
 * pkg/promclient/cross_group_multi_api.go, which unions aggregate partials and dedups the rest.
 */
module Fetching {
  import opened PromQL
  import opened FilterMatchers
  import opened LocalQueries
  import Aggregation
  import D = Dedup

  /** A group's answer as members of the merge, tagged with the group's ordinal. */
  function Tagged(v: Vector, ordinal: nat): seq<D.Member<Value>> {
    seq(|v|, i requires 0 <= i < |v| => D.Member(ordinal, v[i].labels, v[i].value))
  }

  function AllTagged(m: Meaning, groups: seq<Backend>, e: Expr, n: nat): seq<D.Member<Value>>
    requires n <= |groups|
  {
    if n == 0 then [] else AllTagged(m, groups, e, n - 1) + Tagged(Answer(m, groups[n - 1], e), n - 1)
  }

  function Winners(slots: seq<D.Slot<Value>>): Vector {
    seq(|slots|, k requires 0 <= k < |slots| => Sample(slots[k].winner.labels, slots[k].winner.payload))
  }

  function Merged(ms: seq<D.Member<Value>>, ignore: set<string>): Vector {
    Winners(D.Fold(ms, ignore, |ms|))
  }

  /** A request that is no aggregation: deduplicated across groups, a single group's answer passed through. */
  function FetchRaw(m: Meaning, groups: seq<Backend>, ignore: set<string>, e: Expr): Vector {
    if |groups| == 1 then Answer(m, groups[0], e) else Merged(AllTagged(m, groups, e, |groups|), ignore)
  }

  /** The samples of v that are not labelled like one of before. */
  function Unseen(v: Vector, before: Vector): Vector {
    if v == [] then []
    else
      var front, last := Unseen(v[..|v| - 1], before), v[|v| - 1];
      if exists s <- before :: s.labels == last.labels then front else front + [last]
  }

  /** The merge of aggregate partials: side by side, a series that an earlier group also has merged into that one. */
  function UnionMerge(answers: seq<Vector>, n: nat): Vector
    requires n <= |answers|
  {
    if n == 0 then [] else UnionMerge(answers, n - 1) + Unseen(answers[n - 1], UnionMerge(answers, n - 1))
  }

  function OwnAnswers(m: Meaning, groups: seq<Backend>, e: Expr): (r: seq<Vector>)
    ensures |r| == |groups|
  {
    seq(|groups|, i requires 0 <= i < |groups| => OwnAnswer(m, groups[i], e))
  }

  /** The groups' answers with their external labels. */
  function StampEach(groups: seq<Backend>, own: seq<Vector>): (r: seq<Vector>)
    requires |own| == |groups|
    ensures |r| == |groups|
  {
    seq(|groups|, i requires 0 <= i < |groups| => StampAll(groups[i].ext, own[i]))
  }

  /** A request for an aggregation. */
  function FetchPartials(m: Meaning, groups: seq<Backend>, e: Expr): Vector {
    UnionMerge(StampEach(groups, OwnAnswers(m, groups, e)), |groups|)
  }

  // --- merging what does not collide -----------------------------------------------

  lemma {:induction false} TaggedIs(m: Meaning, groups: seq<Backend>, e: Expr, n: nat)
    requires n <= |groups|
    ensures var ms, v := AllTagged(m, groups, e, n), Answers(m, groups, e, n);
            |ms| == |v| && forall i :: 0 <= i < |v| ==> ms[i].labels == v[i].labels && ms[i].payload == v[i].value
  {
    hide Answer;
    if n > 0 {
      TaggedIs(m, groups, e, n - 1);
    }
  }

  /** Two samples of v have the same labels but for the ignored names. */
  ghost predicate Clash(v: Vector, ignore: set<string>, i: nat, j: nat)
    requires i < |v| && j < |v|
  {
    v[i].labels - ignore == v[j].labels - ignore
  }

  ghost predicate NoClash(v: Vector, ignore: set<string>) {
    forall i, j :: 0 <= i < j < |v| ==> !Clash(v, ignore, i, j)
  }

  /** Merging answers that do not clash puts them side by side. */
  lemma {:induction false} MergeIsUnion(m: Meaning, groups: seq<Backend>, e: Expr, ignore: set<string>)
    requires NoClash(Answers(m, groups, e, |groups|), ignore)
    ensures Merged(AllTagged(m, groups, e, |groups|), ignore) == Answers(m, groups, e, |groups|)
  {
    hide Answers, AllTagged;
    var ms, v := AllTagged(m, groups, e, |groups|), Answers(m, groups, e, |groups|);
    TaggedIs(m, groups, e, |groups|);
    forall i, j | 0 <= i < j < |ms| ensures !D.Collides(ms, ignore, i, j) {
      assert !Clash(v, ignore, i, j);
    }
    D.AllOpen(ms, ignore, |ms|);
  }

  /** Merging answers that clash loses some. */
  lemma {:induction false} MergeLoses(m: Meaning, groups: seq<Backend>, e: Expr, ignore: set<string>)
    requires !NoClash(Answers(m, groups, e, |groups|), ignore)
    ensures |Merged(AllTagged(m, groups, e, |groups|), ignore)| < |Answers(m, groups, e, |groups|)|
  {
    hide Answers, AllTagged;
    var ms, v := AllTagged(m, groups, e, |groups|), Answers(m, groups, e, |groups|);
    TaggedIs(m, groups, e, |groups|);
    var i, j :| 0 <= i < j < |v| && Clash(v, ignore, i, j);
    assert D.Collides(ms, ignore, i, j);
    D.CollisionShortens(ms, ignore, |ms|);
    D.OnePerReducedSet(ms, ignore, |ms|);
    assert |D.Keys(D.Fold(ms, ignore, |ms|), ignore)| == |D.Fold(ms, ignore, |ms|)|;
  }

  // --- which samples a merge keeps -----------------------------------------------------

  /** No earlier sample of v clashes with sample i. */
  ghost predicate Foremost(v: Vector, ignore: set<string>, i: nat)
    requires i < |v|
  {
    forall j: nat :: j < i ==> !Clash(v, ignore, j, i)
  }

  /** The samples of v that no earlier one clashes with, as they stand. */
  ghost function ForemostOf(v: Vector, ignore: set<string>, n: nat): Vector
    requires n <= |v|
  {
    if n == 0 then [] else ForemostOf(v, ignore, n - 1) + if Foremost(v, ignore, n - 1) then [v[n - 1]] else []
  }

  lemma {:induction false} ForemostIn(v: Vector, ignore: set<string>, n: nat, x: Sample)
    requires n <= |v|
    ensures x in ForemostOf(v, ignore, n) <==> exists i: nat :: i < n && v[i] == x && Foremost(v, ignore, i)
  {
    hide Foremost;
    if n > 0 {
      ForemostIn(v, ignore, n - 1, x);
    }
  }

  lemma {:induction false} TaggedAscending(m: Meaning, groups: seq<Backend>, e: Expr, n: nat)
    requires n <= |groups|
    ensures D.Ascending(AllTagged(m, groups, e, n))
    ensures forall x <- AllTagged(m, groups, e, n) :: x.ordinal < n
  {
    hide Answer;
    if n > 0 {
      TaggedAscending(m, groups, e, n - 1);
    }
  }

  lemma {:induction false} SameFirsts(ms: seq<D.Member<Value>>, v: Vector, ignore: set<string>, n: nat)
    requires n <= |ms| == |v| && forall i :: 0 <= i < |v| ==> ms[i].labels == v[i].labels && ms[i].payload == v[i].value
    ensures var f, w := D.Firsts(ms, ignore, n), ForemostOf(v, ignore, n);
            |f| == |w| && forall k :: 0 <= k < |f| ==> f[k].labels == w[k].labels && f[k].payload == w[k].value
  {
    if n > 0 {
      SameFirsts(ms, v, ignore, n - 1);
      SameFirst(ms, v, ignore, n - 1);
    }
  }

  lemma {:induction false} SameFirst(ms: seq<D.Member<Value>>, v: Vector, ignore: set<string>, i: nat)
    requires i < |ms| == |v| && forall i :: 0 <= i < |v| ==> ms[i].labels == v[i].labels
    ensures D.IsFirst(ms, ignore, i) <==> Foremost(v, ignore, i)
  {
    if Foremost(v, ignore, i) {
      forall j | 0 <= j < i ensures ms[j].labels - ignore != ms[i].labels - ignore {
        assert !Clash(v, ignore, j, i);
      }
    }
  }

  /**
   * Of samples that clash, which differ in ignored labels only, a raw request over several groups keeps the one of the
   * first group, and the samples it keeps stay in the groups' order.
   */
  lemma {:induction false} FetchRawKeepsFirst(m: Meaning, groups: seq<Backend>, ignore: set<string>, e: Expr)
    requires |groups| != 1
    ensures var v := Answers(m, groups, e, |groups|);
            && FetchRaw(m, groups, ignore, e) == ForemostOf(v, ignore, |v|)
            && forall x :: x in FetchRaw(m, groups, ignore, e)
                 <==> exists i: nat :: i < |v| && v[i] == x && forall j: nat :: j < i ==> !Clash(v, ignore, j, i)
  {
    hide Answers, AllTagged;
    var ms, v := AllTagged(m, groups, e, |groups|), Answers(m, groups, e, |groups|);
    TaggedIs(m, groups, e, |groups|);
    TaggedAscending(m, groups, e, |groups|);
    D.FirstsWin(ms, ignore, |ms|);
    SameFirsts(ms, v, ignore, |v|);
    var slots := D.Fold(ms, ignore, |ms|);
    forall k | 0 <= k < |slots| ensures Winners(slots)[k] == ForemostOf(v, ignore, |v|)[k] {
      assert D.WinnersOf(slots)[k] == slots[k].winner;
    }
    forall x ensures x in FetchRaw(m, groups, ignore, e)
                 <==> exists i: nat :: i < |v| && v[i] == x && Foremost(v, ignore, i) {
      ForemostIn(v, ignore, |v|, x);
    }
  }

  // --- local queries ---------------------------------------------------------------

  /**
   * Pushing a local query down brings back its answer over everything if and only if there is one group only, or
   * no two samples of that answer are the same but for ignored labels.
   */
  lemma {:induction false} FetchRawExact(m: Meaning, groups: seq<Backend>, ignore: set<string>, e: Expr)
    requires m.Valid() && Good(groups) && Safe(m, groups, e) && Local(e)
    ensures FetchRaw(m, groups, ignore, e) == Eval(m, e, Union(groups, |groups|))
       <==> (|groups| == 1 || NoClash(Eval(m, e, Union(groups, |groups|)), ignore))
  {
    hide Eval, Local, Good, Safe, Answer, Union, Merged, AllTagged, NoClash;
    LocalUnion(m, groups, e, |groups|);
    if |groups| == 1 {
      AnswersOfOne(m, groups, e);
    } else if NoClash(Eval(m, e, Union(groups, |groups|)), ignore) {
      MergeIsUnion(m, groups, e, ignore);
    } else {
      MergeLoses(m, groups, e, ignore);
    }
  }

  lemma {:induction false} AnswersOfOne(m: Meaning, groups: seq<Backend>, e: Expr)
    requires |groups| == 1
    ensures Answers(m, groups, e, |groups|) == Answer(m, groups[0], e)
  {
    hide Answer;
    assert Answers(m, groups, e, 0) == [];
  }

  // --- partials ----------------------------------------------------------------------

  function Exts(groups: seq<Backend>): seq<Labels> {
    seq(|groups|, i requires 0 <= i < |groups| => groups[i].ext)
  }

  lemma {:induction false} AnswersJoined(m: Meaning, groups: seq<Backend>, e: Expr, n: nat)
    requires n <= |groups|
    ensures Answers(m, groups, e, n) == Aggregation.Joined(Exts(groups), OwnAnswers(m, groups, e), n)
  {
    hide OwnAnswer, StampAll;
    if n > 0 {
      AnswersJoined(m, groups, e, n - 1);
    }
  }

  lemma {:induction false} StampedDiffer(a: Labels, b: Labels, x: Labels, y: Labels)
    requires x.Keys == y.Keys && x != y
    ensures Stamped(x, a) != Stamped(y, b)
  {
    assert (forall l <- x :: x[l] == y[l]) ==> x == y;
    var l :| l in x && x[l] != y[l];
    assert Stamped(x, a)[l] != Stamped(y, b)[l];
  }

  /** Every sample of the joined answers carries the external labels of its group. */
  lemma {:induction false} JoinedMarked(groups: seq<Backend>, own: seq<Vector>, n: nat, s: Sample)
    returns (k: nat, labels: Labels)
    requires n <= |groups| == |own| && s in Aggregation.Joined(Exts(groups), own, n)
    ensures k < n && s.labels == Stamped(groups[k].ext, labels)
  {
    var before := Aggregation.Joined(Exts(groups), own, n - 1);
    if s in before {
      k, labels := JoinedMarked(groups, own, n - 1, s);
    } else {
      assert s in StampAll(groups[n - 1].ext, own[n - 1]);
      var i :| 0 <= i < |own[n - 1]| && StampAll(groups[n - 1].ext, own[n - 1])[i] == s;
      k, labels := n - 1, own[n - 1][i].labels;
    }
  }

  lemma {:induction false} AllUnseen(v: Vector, before: Vector)
    requires forall s, t :: s in v && t in before ==> s.labels != t.labels
    ensures Unseen(v, before) == v
  {
    if v != [] {
      assert v[|v| - 1] in v;
      AllUnseen(v[..|v| - 1], before);
      assert v == v[..|v| - 1] + [v[|v| - 1]];
    }
  }

  /** Group k's answer has no labels in common with those of the groups before it. */
  lemma {:induction false} NothingInCommon(groups: seq<Backend>, own: seq<Vector>, k: nat)
    requires Good(groups) && k < |groups| == |own|
    ensures Unseen(StampAll(groups[k].ext, own[k]), Aggregation.Joined(Exts(groups), own, k))
        == StampAll(groups[k].ext, own[k])
  {
    hide Stamped, Own, Unseen, Aggregation.Joined;
    var v, before := StampAll(groups[k].ext, own[k]), Aggregation.Joined(Exts(groups), own, k);
    forall s, t | s in v && t in before ensures s.labels != t.labels {
      var i :| 0 <= i < |v| && v[i] == s;
      var j, labels := JoinedMarked(groups, own, k, t);
      StampedDiffer(own[k][i].labels, labels, groups[k].ext, groups[j].ext);
    }
    AllUnseen(v, before);
  }

  /**
   * Answers of different groups never have the same labels, so merging them puts them side by side, whatever they are.
   */
  lemma {:induction false} UnionOfStamped(groups: seq<Backend>, own: seq<Vector>, n: nat)
    requires Good(groups) && n <= |groups| == |own|
    ensures UnionMerge(StampEach(groups, own), n) == Aggregation.Joined(Exts(groups), own, n)
  {
    hide StampAll, Unseen, Good;
    if n > 0 {
      UnionOfStamped(groups, own, n - 1);
      NothingInCommon(groups, own, n - 1);
    }
  }

  /** An aggregation's partials come back side by side. */
  lemma {:induction false} FetchPartialsExact(m: Meaning, groups: seq<Backend>, e: Expr)
    requires Good(groups)
    ensures FetchPartials(m, groups, e) == Aggregation.Joined(Exts(groups), OwnAnswers(m, groups, e), |groups|)
  {
    UnionOfStamped(groups, OwnAnswers(m, groups, e), |groups|);
  }
}
