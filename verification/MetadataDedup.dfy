/**
 * The metadata path's dedup (mergeLabelSetsDeterministic in pkg/promclient/label.go) and its
 * agreement with the query path's.
 */
module MetadataDedup {
  import opened CollisionStats
  import opened Dedup
  import opened Attribution

  type Bare = Member<()>

  datatype OrdinalLabelSets = OrdinalLabelSets(ordinal: int, sets: seq<Labels>)

  datatype Entry = Entry(idx: nat, ordinal: int)

  function BareMembers(input: OrdinalLabelSets): seq<Bare> {
    seq(|input.sets|, j requires 0 <= j < |input.sets| => Member(input.ordinal, input.sets[j], ()))
  }

  function AllBare(inputs: seq<OrdinalLabelSets>, n: nat): seq<Bare>
    requires n <= |inputs|
  {
    if n == 0 then [] else AllBare(inputs, n - 1) + BareMembers(inputs[n - 1])
  }

  lemma {:induction false} BareAt(inputs: seq<OrdinalLabelSets>, i: nat, n: nat, j: nat)
    requires i < n <= |inputs| && j < |inputs[i].sets|
    ensures |AllBare(inputs, i)| + |inputs[i].sets| <= |AllBare(inputs, n)|
    ensures AllBare(inputs, n)[|AllBare(inputs, i)| + j] == BareMembers(inputs[i])[j]
  {
    if i < n - 1 {
      BareAt(inputs, i, n - 1, j);
    }
  }

  lemma {:induction false} BareGrows(inputs: seq<OrdinalLabelSets>, i: nat, n: nat)
    requires i <= n <= |inputs|
    ensures |AllBare(inputs, i)| <= |AllBare(inputs, n)|
  {
    if i < n {
      BareGrows(inputs, i, n - 1);
    }
  }

  // --- the two index maps ----------------------------------------------------

  function LabelsOf<P>(slots: seq<Slot<P>>): seq<Labels> {
    seq(|slots|, k requires 0 <= k < |slots| => slots[k].winner.labels)
  }

  predicate Indexed(reduced: map<Labels, Entry>, s: Slot<()>, k: nat, ignore: set<string>) {
    Key(s, ignore) in reduced && reduced[Key(s, ignore)] == Entry(k, s.winner.ordinal)
  }

  /** full locates exactly the current result; a replaced winner is not in it. */
  ghost predicate FullIndex(full: map<Labels, nat>, result: seq<Labels>) {
    && (forall l <- full :: full[l] < |result| && result[full[l]] == l)
    && (forall k :: 0 <= k < |result| ==> result[k] in full)
    && (forall k :: 0 <= k < |result| ==> full[result[k]] == k)
  }

  /** Both index maps describe exactly the current result. */
  ghost predicate Indexes(full: map<Labels, nat>, reduced: map<Labels, Entry>, result: seq<Labels>,
      slots: seq<Slot<()>>, ignore: set<string>)
  {
    && result == LabelsOf(slots)
    && FullIndex(full, result)
    && (forall k :: 0 <= k < |slots| ==> Indexed(reduced, slots[k], k, ignore))
    && (forall key <- reduced :: Find(slots, ignore, key, |slots|) < |slots|)
  }

  lemma {:induction false} FullAppend(full: map<Labels, nat>, result: seq<Labels>, l: Labels)
    requires FullIndex(full, result) && l !in result
    ensures FullIndex(full[l := |result|], result + [l])
  {
  }

  lemma {:induction false} FullReplace(full: map<Labels, nat>, result: seq<Labels>, k: nat, l: Labels)
    requires FullIndex(full, result) && k < |result| && l !in result
    ensures FullIndex((full - {result[k]})[l := k], result[k := l])
  {
    var next := result[k := l];
    forall j | 0 <= j < |next|
      ensures next[j] in (full - {result[k]})[l := k] && (full - {result[k]})[l := k][next[j]] == j
    {
      assert j != k ==> full[result[j]] == j && result[j] != l;
    }
  }

  /** What the two lookups tell about a label set. */
  lemma {:induction false} LookedUp(full: map<Labels, nat>, reduced: map<Labels, Entry>, result: seq<Labels>,
      slots: seq<Slot<()>>, ignore: set<string>, m: Bare)
    requires DistinctSlots(slots, ignore) && Indexes(full, reduced, result, slots, ignore)
    ensures |result| == |slots|
    ensures m.labels in full <==> Judge(slots, ignore, m).Repeats?
    ensures Reduced(m.labels, ignore) in reduced <==> Bucket(slots, ignore, m) < |slots|
    ensures var k := Bucket(slots, ignore, m);
            k < |slots| ==>
              && Key(slots[k], ignore) == Reduced(m.labels, ignore) && result[k] == slots[k].winner.labels
              && reduced[Reduced(m.labels, ignore)] == Entry(k, slots[k].winner.ordinal)
  {
    var k := Bucket(slots, ignore, m);
    if m.labels in full {
      var i := full[m.labels];
      assert result[i] == slots[i].winner.labels == m.labels;
      FindSome(slots, ignore, Reduced(m.labels, ignore), i);
      assert i == k;
    }
    if k < |slots| && slots[k].winner.labels == m.labels {
      assert result[k] in full;
    }
    assert k < |slots| ==> Indexed(reduced, slots[k], k, ignore);
  }

  lemma {:induction false} Opened(full: map<Labels, nat>, reduced: map<Labels, Entry>, result: seq<Labels>,
      slots: seq<Slot<()>>, ignore: set<string>, m: Bare)
    requires DistinctSlots(slots, ignore) && Indexes(full, reduced, result, slots, ignore)
        && Bucket(slots, ignore, m) == |slots|
    ensures Indexes(full[m.labels := |slots|], reduced[Reduced(m.labels, ignore) := Entry(|slots|, m.ordinal)],
                    result + [m.labels], slots + [Slot(m, [], [m])], ignore)
  {
    hide Reduced, Find, FullIndex;
    var s := Slot(m, [], [m]);
    var next, after := slots + [s], reduced[Key(s, ignore) := Entry(|slots|, m.ordinal)];
    assert LabelsOf(next) == result + [m.labels];
    forall key <- after ensures Find(next, ignore, key, |next|) < |next| {
      FindSome(next, ignore, key, if key == Key(s, ignore) then |slots| else Find(slots, ignore, key, |slots|));
    }
    forall k: nat | k < |next| ensures Indexed(after, next[k], k, ignore) {
      assert k < |slots| ==> Indexed(reduced, slots[k], k, ignore) && Key(slots[k], ignore) != Key(s, ignore);
    }
    forall k: nat | k < |slots| ensures result[k] != m.labels {
      assert Key(slots[k], ignore) != Key(s, ignore);
    }
    FullAppend(full, result, m.labels);
  }

  /** A winner is replaced in place: its labels leave the full index, the new ones take its position. */
  lemma {:induction false} Replaced(full: map<Labels, nat>, reduced: map<Labels, Entry>, result: seq<Labels>,
      slots: seq<Slot<()>>, ignore: set<string>, k: nat, s: Slot<()>)
    requires DistinctSlots(slots, ignore) && Indexes(full, reduced, result, slots, ignore)
    requires k < |slots| && Key(s, ignore) == Key(slots[k], ignore) && s.winner.labels != slots[k].winner.labels
    ensures Indexes((full - {slots[k].winner.labels})[s.winner.labels := k],
        reduced[Key(s, ignore) := Entry(k, s.winner.ordinal)],
                    result[k := s.winner.labels], slots[k := s], ignore)
  {
    hide Reduced, Find, FullIndex;
    var next, after := slots[k := s], reduced[Key(s, ignore) := Entry(k, s.winner.ordinal)];
    assert LabelsOf(next) == result[k := s.winner.labels];
    assert Indexed(reduced, slots[k], k, ignore);
    forall key <- after ensures Find(next, ignore, key, |next|) < |next| {
      FindSome(next, ignore, key, Find(slots, ignore, key, |slots|));
    }
    forall j: nat | j < |next| ensures Indexed(after, next[j], j, ignore) {
      assert Indexed(reduced, slots[j], j, ignore);
      assert j != k ==> Key(slots[j], ignore) != Key(slots[k], ignore);
    }
    forall j: nat | j < |slots| ensures result[j] != s.winner.labels {
      assert j != k ==> Key(slots[j], ignore) != Key(slots[k], ignore);
    }
    FullReplace(full, result, k, s.winner.labels);
  }

  // --- the pass -----------------------------------------------------------------

  /** Takes one label set of the backend with the given ordinal. */
  method TakeLabels(full0: map<Labels, nat>, reduced0: map<Labels, Entry>, result0: seq<Labels>, ordinal: int,
      ls: Labels, ignore: set<string>, stats: DedupStats, ghost slots: seq<Slot<()>>)
    returns (full: map<Labels, nat>, reduced: map<Labels, Entry>, result: seq<Labels>)
    requires stats.Valid() && DistinctSlots(slots, ignore) && Indexes(full0, reduced0, result0, slots, ignore)
    modifies stats
    ensures stats.Valid() && stats.log == old(stats.log) + PairNow(slots, ignore, Member(ordinal, ls, ()))
    ensures Indexes(full, reduced, result, Absorb(slots, ignore, Member(ordinal, ls, ())), ignore)
  {
    hide Indexes, Find, DistinctSlots, Reduced;
    ghost var m := Member(ordinal, ls, ());
    full, reduced, result := full0, reduced0, result0;
    LookedUp(full, reduced, result, slots, ignore, m);
    if ls in full {
      return;
    }
    var key := Reduced(ls, ignore);
    if key in reduced {
      var existing := reduced[key];
      ghost var s := Absorb(slots, ignore, m)[existing.idx];
      if ordinal < existing.ordinal {
        stats.Record(ordinal, existing.ordinal);
        var oldLabels := result[existing.idx];
        full := full - {oldLabels};
        result := result[existing.idx := ls];
        full := full[ls := existing.idx];
        reduced := reduced[key := existing.(ordinal := ordinal)];
        Replaced(full0, reduced0, result0, slots, ignore, existing.idx, s);
      } else {
        stats.Record(existing.ordinal, ordinal);
        LostLeavesIndexes(full, reduced, result, slots, ignore, existing.idx, s);
      }
      return;
    }
    var idx := |result|;
    result := result + [ls];
    full := full[ls := idx];
    reduced := reduced[key := Entry(idx, ordinal)];
    Opened(full0, reduced0, result0, slots, ignore, m);
  }

  lemma {:induction false} LostLeavesIndexes(full: map<Labels, nat>, reduced: map<Labels, Entry>, result: seq<Labels>,
      slots: seq<Slot<()>>, ignore: set<string>, k: nat, s: Slot<()>)
    requires DistinctSlots(slots, ignore) && Indexes(full, reduced, result, slots, ignore)
    requires k < |slots| && s.winner == slots[k].winner
    ensures Indexes(full, reduced, result, slots[k := s], ignore)
  {
    hide Reduced, Find;
    var next := slots[k := s];
    assert LabelsOf(next) == LabelsOf(slots);
    forall key <- reduced ensures Find(next, ignore, key, |next|) < |next| {
      FindSome(next, ignore, key, Find(slots, ignore, key, |slots|));
    }
    forall j: nat | j < |next| ensures Indexed(reduced, next[j], j, ignore) {
      assert Indexed(reduced, slots[j], j, ignore);
    }
  }

  lemma {:induction false} NextBare(inputs: seq<OrdinalLabelSets>, i: nat)
    requires i < |inputs|
    ensures |AllBare(inputs, i + 1)| == |AllBare(inputs, i)| + |inputs[i].sets|
  {
  }

  method TakeInput(full0: map<Labels, nat>, reduced0: map<Labels, Entry>, result0: seq<Labels>,
      inputs: seq<OrdinalLabelSets>, i: nat, ignore: set<string>, stats: DedupStats, ghost ms: seq<Bare>)
    returns (full: map<Labels, nat>, reduced: map<Labels, Entry>, result: seq<Labels>)
    requires i < |inputs| && ms == AllBare(inputs, |inputs|)
    requires |AllBare(inputs, i)| <= |AllBare(inputs, i + 1)| <= |ms|
    requires stats.Valid() && stats.log == PairsSoFar(ms, ignore, |AllBare(inputs, i)|)
    requires Indexes(full0, reduced0, result0, Fold(ms, ignore, |AllBare(inputs, i)|), ignore)
    modifies stats
    ensures stats.Valid() && stats.log == PairsSoFar(ms, ignore, |AllBare(inputs, i + 1)|)
    ensures Indexes(full, reduced, result, Fold(ms, ignore, |AllBare(inputs, i + 1)|), ignore)
  {
    hide DistinctSlots, Absorb, LabelsOf, PairNow, Indexes, Fold, PairsSoFar, AllBare;
    full, reduced, result := full0, reduced0, result0;
    ghost var start := |AllBare(inputs, i)|;
    NextBare(inputs, i);
    for j := 0 to |inputs[i].sets|
      invariant stats.Valid() && stats.log == PairsSoFar(ms, ignore, start + j)
      invariant Indexes(full, reduced, result, Fold(ms, ignore, start + j), ignore)
    {
      BareAt(inputs, i, |inputs|, j);
      FoldDistinct(ms, ignore, start + j);
      OneMore(ms, ignore, start + j);
      full, reduced, result := TakeLabels(full, reduced, result, inputs[i].ordinal, inputs[i].sets[j], ignore, stats,
                                          Fold(ms, ignore, start + j));
    }
  }

  /**
   * The same buckets as the query path's, with every collision charged to the winner of the moment.  The two
   * index maps describe exactly the current result throughout.
   */
  method MergeLabelSetsDeterministic(inputs: seq<OrdinalLabelSets>, ignore: set<string>)
    returns (result: seq<Labels>, stats: DedupStats)
    ensures fresh(stats) && stats.Valid()
    ensures var ms := AllBare(inputs, |inputs|);
            result == LabelsOf(Fold(ms, ignore, |ms|)) && stats.log == PairsSoFar(ms, ignore, |ms|)
  {
    hide DistinctSlots, Absorb, LabelsOf, PairNow, Indexes, Fold, PairsSoFar, AllBare;
    stats := new DedupStats();
    ghost var ms := AllBare(inputs, |inputs|);
    var full: map<Labels, nat> := map[];
    var reduced: map<Labels, Entry> := map[];
    result := [];
    NoBareYet(inputs);
    StartIndexes(ms, ignore);
    for i := 0 to |inputs|
      invariant |AllBare(inputs, i)| <= |ms|
      invariant fresh(stats) && stats.Valid() && stats.log == PairsSoFar(ms, ignore, |AllBare(inputs, i)|)
      invariant Indexes(full, reduced, result, Fold(ms, ignore, |AllBare(inputs, i)|), ignore)
    {
      BareGrows(inputs, i + 1, |inputs|);
      NextBare(inputs, i);
      full, reduced, result := TakeInput(full, reduced, result, inputs, i, ignore, stats, ms);
    }
    ResultOf(full, reduced, result, Fold(ms, ignore, |ms|), ignore);
  }

  lemma {:induction false} NoBareYet(inputs: seq<OrdinalLabelSets>)
    ensures AllBare(inputs, 0) == []
  {
  }

  lemma {:induction false} StartIndexes(ms: seq<Bare>, ignore: set<string>)
    ensures Indexes(map[], map[], [], Fold(ms, ignore, 0), ignore) && PairsSoFar(ms, ignore, 0) == []
  {
  }

  lemma {:induction false} OneMore(ms: seq<Bare>, ignore: set<string>, n: nat)
    requires n < |ms|
    ensures Fold(ms, ignore, n + 1) == Absorb(Fold(ms, ignore, n), ignore, ms[n])
    ensures PairsSoFar(ms, ignore, n + 1) == PairsSoFar(ms, ignore, n) + PairNow(Fold(ms, ignore, n), ignore, ms[n])
  {
  }

  lemma {:induction false} ResultOf(full: map<Labels, nat>, reduced: map<Labels, Entry>, result: seq<Labels>,
      slots: seq<Slot<()>>, ignore: set<string>)
    requires Indexes(full, reduced, result, slots, ignore)
    ensures result == LabelsOf(slots)
  {
  }

  // --- the two paths agree --------------------------------------------------------

  /** The same series, whatever they carry. */
  predicate SameSeries<P, Q>(xs: seq<Member<P>>, ys: seq<Member<Q>>) {
    |xs| == |ys| && forall i :: 0 <= i < |xs| ==> xs[i].ordinal == ys[i].ordinal && xs[i].labels == ys[i].labels
  }

  /** The same winners and losers, whatever the series carry. */
  predicate Alike<P, Q>(a: seq<Slot<P>>, b: seq<Slot<Q>>) {
    |a| == |b| && forall k :: 0 <= k < |a| ==>
      a[k].winner.ordinal == b[k].winner.ordinal && a[k].winner.labels == b[k].winner.labels
          && a[k].losers == b[k].losers
  }

  lemma {:induction false} AlikeFind<P, Q>(a: seq<Slot<P>>, b: seq<Slot<Q>>, ignore: set<string>, key: Labels, n: nat)
    requires Alike(a, b) && n <= |a|
    ensures Find(a, ignore, key, n) == Find(b, ignore, key, n)
  {
    if n > 0 {
      AlikeFind(a, b, ignore, key, n - 1);
    }
  }

  lemma {:induction false} AlikeAbsorb<P, Q>(a: seq<Slot<P>>, b: seq<Slot<Q>>, ignore: set<string>, x: Member<P>,
      y: Member<Q>)
    requires Alike(a, b) && x.ordinal == y.ordinal && x.labels == y.labels
    ensures Alike(Absorb(a, ignore, x), Absorb(b, ignore, y))
    ensures PairNow(a, ignore, x) == PairNow(b, ignore, y)
    ensures Judge(a, ignore, x) == Judge(b, ignore, y)
  {
    hide Find;
    AlikeFind(a, b, ignore, Reduced(x.labels, ignore), |a|);
  }

  lemma {:induction false} AlikeFolds<P, Q>(xs: seq<Member<P>>, ys: seq<Member<Q>>, ignore: set<string>, n: nat)
    requires n <= |xs| && SameSeries(xs, ys)
    ensures Alike(Fold(xs, ignore, n), Fold(ys, ignore, n))
    ensures PairsSoFar(xs, ignore, n) == PairsSoFar(ys, ignore, n)
  {
    if n > 0 {
      hide Absorb, PairNow, Judge;
      AlikeFolds(xs, ys, ignore, n - 1);
      AlikeAbsorb(Fold(xs, ignore, n - 1), Fold(ys, ignore, n - 1), ignore, xs[n - 1], ys[n - 1]);
    }
  }

  /** In ascending ordinals no winner is ever replaced, so none late. */
  lemma {:induction false} AscendingNoLateWin<P>(ms: seq<Member<P>>, ignore: set<string>, n: nat)
    requires n <= |ms| && Ascending(ms)
    ensures NoLateWin(ms, ignore, n)
  {
    if n > 0 {
      AscendingNoLateWin(ms, ignore, n - 1);
      AscendingHidesNothing(ms, ignore, n);
      assert !Displaces(ms, ignore, n - 1);
    }
  }

  /** The label sets the query path returns: a single set passes through whole, without dedup. */
  function QueryResult<P>(ms: seq<Member<P>>, ignore: set<string>, single: bool): seq<Labels> {
    if single then seq(|ms|, i requires 0 <= i < |ms| => ms[i].labels) else LabelsOf(Fold(ms, ignore, |ms|))
  }

  /** A pass-through returns what the dedup does if and only if there is nothing to dedup. */
  lemma {:induction false} PassThroughExact<P>(ms: seq<Member<P>>, ignore: set<string>)
    ensures QueryResult(ms, ignore, true) == LabelsOf(Fold(ms, ignore, |ms|)) <==> NoCollisions(ms, ignore)
  {
    hide Fold, Collides;
    var slots := Fold(ms, ignore, |ms|);
    if NoCollisions(ms, ignore) {
      AllOpen(ms, ignore, |ms|);
    } else {
      var i, j :| 0 <= i < j < |ms| && Collides(ms, ignore, i, j);
      CollisionShortens(ms, ignore, |ms|);
      OnePerReducedSet(ms, ignore, |ms|);
      assert |Keys(slots, ignore)| == |slots| == |LabelsOf(slots)|;
    }
  }

  /**
   * On the same series the query path (xs) and the metadata path (ys) return the same label sets in the same order,
   * in any order of the inputs, unless a single set holds a collision, which only the metadata path resolves.  Of two
   * or more sets both count the same collisions, and charge the same pairs exactly when no winner with losers is
   * replaced, as in ascending ordinals.
   */
  lemma {:induction false} PathsAgree<P, Q>(xs: seq<Member<P>>, ys: seq<Member<Q>>, ignore: set<string>, single: bool)
    requires SameSeries(xs, ys)
    ensures QueryResult(xs, ignore, single) == LabelsOf(Fold(ys, ignore, |ys|))
        <==> (single ==> NoCollisions(xs, ignore))
    ensures !single ==>
      && |FinalPairs(Fold(xs, ignore, |xs|))| == |PairsSoFar(ys, ignore, |ys|)|
      && (multiset(FinalPairs(Fold(xs, ignore, |xs|))) == multiset(PairsSoFar(ys, ignore, |ys|))
          <==> NoLateWin(xs, ignore, |xs|))
    ensures Ascending(xs) ==> NoLateWin(xs, ignore, |xs|)
  {
    AlikeFolds(xs, ys, ignore, |xs|);
    AlikeLabels(Fold(xs, ignore, |xs|), Fold(ys, ignore, |ys|));
    PassThroughExact(xs, ignore);
    SameCount(xs, ignore, |xs|);
    AttributionExact(xs, ignore, |xs|);
    if Ascending(xs) {
      AscendingNoLateWin(xs, ignore, |xs|);
    }
  }

  lemma {:induction false} AlikeLabels<P, Q>(a: seq<Slot<P>>, b: seq<Slot<Q>>)
    requires Alike(a, b)
    ensures LabelsOf(a) == LabelsOf(b)
  {
  }
}
