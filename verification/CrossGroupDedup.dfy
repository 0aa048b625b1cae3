/**
 * The query path's dedup (pkg/promclient/cross_group_dedup.go): one pass over the backends'
 * series sets that keeps a bucket map and overwrites winners in place, then attributes
 * collisions and fills gaps bucket by bucket.
 */
module CrossGroupDedup {
  import opened Wrappers
  import opened CollisionStats
  import opened Dedup
  import opened Attribution
  import E = FillExactness
  import G = GapFill
  import P = PriorityMerge
  import T = GapFillTheory
  import Sorting

  type Candidate = Member<G.SampleStream>

  datatype Series = Series(labels: Labels, samples: G.SampleStream)

  /** One backend's series in its own order; failed when iterating them ended in an error. */
  datatype OrdinalSeriesSet = OrdinalSeriesSet(ordinal: int, series: seq<Series>, failed: bool)

  datatype MergedSet = MergedSet(series: seq<Series>, failed: bool)

  function MembersOf(set_: OrdinalSeriesSet): seq<Candidate> {
    seq(|set_.series|, j requires 0 <= j < |set_.series| => Member(set_.ordinal, set_.series[j].labels,
        set_.series[j].samples))
  }

  /** The series of the first n sets, set by set. */
  function AllMembers(sets: seq<OrdinalSeriesSet>, n: nat): seq<Candidate>
    requires n <= |sets|
  {
    if n == 0 then [] else AllMembers(sets, n - 1) + MembersOf(sets[n - 1])
  }

  lemma {:induction false} MemberAt(sets: seq<OrdinalSeriesSet>, i: nat, n: nat, j: nat)
    requires i < n <= |sets| && j < |sets[i].series|
    ensures |AllMembers(sets, i)| + |sets[i].series| <= |AllMembers(sets, n)|
    ensures AllMembers(sets, n)[|AllMembers(sets, i)| + j] == MembersOf(sets[i])[j]
  {
    if i < n - 1 {
      MemberAt(sets, i, n - 1, j);
    }
  }

  lemma {:induction false} MembersGrow(sets: seq<OrdinalSeriesSet>, i: nat, n: nat)
    requires i <= n <= |sets|
    ensures |AllMembers(sets, i)| <= |AllMembers(sets, n)|
  {
    if i < n {
      MembersGrow(sets, i, n - 1);
    }
  }

  // --- the bucket map --------------------------------------------------------

  datatype Entry = Entry(labels: Labels, ordinal: int, idx: nat, losers: seq<int>, members: seq<Candidate>)

  function WinnerOf(s: Slot<G.SampleStream>): Series {
    Series(s.winner.labels, s.winner.payload)
  }

  function EntryOf(s: Slot<G.SampleStream>, k: nat, fillGaps: bool): Entry {
    Entry(s.winner.labels, s.winner.ordinal, k, s.losers, if fillGaps then s.members else [])
  }

  predicate Stored(buckets: map<Labels, Entry>, s: Slot<G.SampleStream>, k: nat, ignore: set<string>, fillGaps: bool) {
    Key(s, ignore) in buckets && buckets[Key(s, ignore)] == EntryOf(s, k, fillGaps)
  }

  /** The map has exactly the buckets of slots, and result their winners. */
  ghost predicate Mirrors(buckets: map<Labels, Entry>, result: seq<Series>, slots: seq<Slot<G.SampleStream>>,
      ignore: set<string>, fillGaps: bool)
  {
    && |result| == |slots|
    && (forall k :: 0 <= k < |slots| ==> result[k] == WinnerOf(slots[k]))
    && (forall k :: 0 <= k < |slots| ==> Stored(buckets, slots[k], k, ignore, fillGaps))
    && (forall key <- buckets :: Find(slots, ignore, key, |slots|) < |slots|)
  }

  /** Takes one series of the backend with the given ordinal into its bucket. */
  method TakeSeries(buckets0: map<Labels, Entry>, result0: seq<Series>, ordinal: int, series: Series,
      ignore: set<string>, fillGaps: bool, ghost slots: seq<Slot<G.SampleStream>>)
    returns (buckets: map<Labels, Entry>, result: seq<Series>)
    requires DistinctSlots(slots, ignore) && Mirrors(buckets0, result0, slots, ignore, fillGaps)
    ensures Mirrors(buckets, result, Absorb(slots, ignore, Member(ordinal, series.labels, series.samples)), ignore,
        fillGaps)
  {
    hide Mirrors, Find, DistinctSlots, Reduced;
    buckets, result := buckets0, result0;
    var key := Reduced(series.labels, ignore);
    var member := Member(ordinal, series.labels, series.samples);
    BucketFound(buckets, result, slots, ignore, fillGaps, member);
    if key !in buckets {
      result := result + [series];
      buckets := buckets[key := Entry(series.labels, ordinal, |result| - 1, [], if fillGaps then [member] else [])];
      Opened(buckets0, result0, slots, ignore, fillGaps, member);
      return;
    }
    var existing := buckets[key];
    if existing.labels == series.labels {
      return;
    }
    if ordinal < existing.ordinal {
      existing := existing.(losers := existing.losers + [existing.ordinal]);
      result := result[existing.idx := series];
      existing := existing.(labels := series.labels, ordinal := ordinal);
    } else {
      existing := existing.(losers := existing.losers + [ordinal]);
    }
    if fillGaps {
      existing := existing.(members := existing.members + [member]);
    }
    buckets := buckets[key := existing];
    ghost var s := Absorb(slots, ignore, member)[Bucket(slots, ignore, member)];
    Replaced(buckets0, result0, slots, ignore, fillGaps, Bucket(slots, ignore, member), s);
    assert result == result0[Bucket(slots, ignore, member) := WinnerOf(s)];
  }

  lemma {:induction false} BucketFound(buckets: map<Labels, Entry>, result: seq<Series>,
      slots: seq<Slot<G.SampleStream>>, ignore: set<string>, fillGaps: bool, m: Candidate)
    requires DistinctSlots(slots, ignore) && Mirrors(buckets, result, slots, ignore, fillGaps)
    ensures |result| == |slots|
    ensures Reduced(m.labels, ignore) in buckets <==> Bucket(slots, ignore, m) < |slots|
    ensures var k := Bucket(slots, ignore, m);
            k < |slots| ==> && Key(slots[k], ignore) == Reduced(m.labels, ignore) && result[k] == WinnerOf(slots[k])
                            && buckets[Reduced(m.labels, ignore)] == EntryOf(slots[k], k, fillGaps)
  {
  }

  lemma {:induction false} Opened(buckets: map<Labels, Entry>, result: seq<Series>, slots: seq<Slot<G.SampleStream>>,
      ignore: set<string>, fillGaps: bool, m: Candidate)
    requires DistinctSlots(slots, ignore) && Mirrors(buckets, result, slots, ignore, fillGaps)
        && Bucket(slots, ignore, m) == |slots|
    ensures var s := Slot(m, [], [m]);
            Mirrors(buckets[Reduced(m.labels, ignore) := EntryOf(s, |slots|, fillGaps)], result + [WinnerOf(s)],
                slots + [s], ignore, fillGaps)
  {
    hide Reduced, Find, EntryOf, WinnerOf;
    var s := Slot(m, [], [m]);
    var next, after := slots + [s], buckets[Key(s, ignore) := EntryOf(s, |slots|, fillGaps)];
    forall key <- after ensures Find(next, ignore, key, |next|) < |next| {
      FindSome(next, ignore, key, if key == Key(s, ignore) then |slots| else Find(slots, ignore, key, |slots|));
    }
    forall k: nat | k < |next| ensures Stored(after, next[k], k, ignore, fillGaps) {
      assert k < |slots| ==> Stored(buckets, slots[k], k, ignore, fillGaps) && Key(slots[k], ignore) != Key(s, ignore);
    }
  }

  lemma {:induction false} Replaced(buckets: map<Labels, Entry>, result: seq<Series>, slots: seq<Slot<G.SampleStream>>,
      ignore: set<string>, fillGaps: bool, k: nat, s: Slot<G.SampleStream>)
    requires DistinctSlots(slots, ignore) && Mirrors(buckets, result, slots, ignore, fillGaps)
    requires k < |slots| && Key(s, ignore) == Key(slots[k], ignore)
    ensures Mirrors(buckets[Key(s, ignore) := EntryOf(s, k, fillGaps)], result[k := WinnerOf(s)], slots[k := s],
        ignore, fillGaps)
  {
    hide Reduced, Find, EntryOf, WinnerOf;
    var next, after := slots[k := s], buckets[Key(s, ignore) := EntryOf(s, k, fillGaps)];
    assert Stored(buckets, slots[k], k, ignore, fillGaps);
    forall key <- after ensures Find(next, ignore, key, |next|) < |next| {
      FindSome(next, ignore, key, Find(slots, ignore, key, |slots|));
    }
    forall j: nat | j < |next| ensures Stored(after, next[j], j, ignore, fillGaps) {
      assert Stored(buckets, slots[j], j, ignore, fillGaps);
      assert j != k ==> Key(slots[j], ignore) != Key(slots[k], ignore);
    }
  }

  // --- filling a bucket's gaps --------------------------------------------------

  function OrdinalOf<Q>(m: Member<Q>): int {
    m.ordinal
  }

  /** order lists the members by ordinal; the source's sort leaves the order of equal ordinals open. */
  ghost predicate ByOrdinal<Q>(order: seq<Member<Q>>, members: seq<Member<Q>>) {
    multiset(order) == multiset(members) && Sorting.SortedBy(OrdinalOf, order)
  }

  method SortByOrdinal(members: seq<Candidate>) returns (order: seq<Candidate>)
    ensures ByOrdinal(order, members)
  {
    order := Sorting.StableSort(OrdinalOf, members);
    Sorting.StableSortFacts(OrdinalOf<G.SampleStream>, members);
  }

  ghost predicate TimelinesOf(lines: seq<G.Timeline>, order: seq<Candidate>) {
    |lines| == |order| && forall l :: 0 <= l < |order| ==> P.IsTimeline(lines[l], order[l].payload)
  }

  /** The gap the members' own sample intervals call for. */
  function GapOf(lines: seq<G.Timeline>, gap: int): int
    requires lines != []
  {
    var g := P.Threshold(gap, lines[0], if |lines| > 1 then Some(lines[1]) else None);
    if g <= 0 then 1 else g
  }

  /** out has the labels of the first of order and its samples, filled from the others in their order. */
  ghost predicate FilledFrom(out: Series, order: seq<Candidate>, gap: int) {
    && order != [] && out.labels == order[0].labels
    && exists lines ::
        TimelinesOf(lines, order) && P.IsTimeline(G.Samples(G.Fill(None, None, lines, 0, GapOf(lines, gap))),
            out.samples)
  }

  method FillBucketGaps(members: seq<Candidate>, gap: int) returns (out: Series, ghost order: seq<Candidate>)
    requires members != [] && forall m <- members :: m.payload.Sorted()
    ensures ByOrdinal(order, members) && FilledFrom(out, order, gap)
    ensures exists o :: ByOrdinal(o, members) && FilledFrom(out, o, gap)
  {
    var sorted := SortByOrdinal(members);
    order := sorted;
    assert |multiset(order)| == |multiset(members)|;
    forall m <- order ensures m.payload.Sorted() {
      assert m in multiset(order);
      assert m in members;
    }
    var base := sorted[0].payload;
    var fillers: seq<G.SampleStream> := [];
    for i := 1 to |sorted|
      invariant |fillers| == i - 1 && forall j :: 0 <= j < i - 1 ==> fillers[j] == sorted[j + 1].payload
    {
      fillers := fillers + [sorted[i].payload];
    }
    var threshold := P.GapThreshold(gap, base, if |fillers| > 0 then Some(fillers[0]) else None);
    var merged, filled;
    ghost var lines, passed;
    merged, filled, lines, passed := P.PriorityMergeSampleStream(base, fillers, threshold);
    Assembled(lines, base, fillers, order);
    assert P.IsHint(if |lines| > 1 then Some(lines[1]) else None, if |fillers| > 0 then Some(fillers[0]) else None);
    out := Series(sorted[0].labels, merged);
  }

  lemma {:induction false} Assembled(lines: seq<G.Timeline>, base: G.SampleStream, fillers: seq<G.SampleStream>,
      order: seq<Candidate>)
    requires |lines| == |order| == |fillers| + 1 && base == order[0].payload && P.IsTimeline(lines[0], base)
    requires forall j :: 0 <= j < |fillers| ==> fillers[j] == order[j + 1].payload
    requires forall l :: 0 <= l < |fillers| ==> P.IsTimeline(lines[l + 1], fillers[l])
    ensures TimelinesOf(lines, order)
  {
    hide P.IsTimeline;
    forall l | 0 <= l < |order| ensures P.IsTimeline(lines[l], order[l].payload) {
      if l > 0 {
        assert P.IsTimeline(lines[l - 1 + 1], fillers[l - 1]);
      }
    }
  }

  lemma {:induction false} SameLines(x: seq<G.Timeline>, y: seq<G.Timeline>, order: seq<Candidate>)
    requires TimelinesOf(x, order) && TimelinesOf(y, order)
    ensures x == y
  {
    forall l | 0 <= l < |order| ensures x[l] == y[l] {
      P.TimelineUnique(x[l], y[l]);
    }
  }

  /** The order of the members decides the filled series. */
  lemma {:induction false} FilledDetermined(x: Series, y: Series, order: seq<Candidate>, gap: int)
    requires FilledFrom(x, order, gap) && FilledFrom(y, order, gap)
    ensures x == y
  {
    var xs :| TimelinesOf(xs, order) && P.IsTimeline(G.Samples(G.Fill(None, None, xs, 0, GapOf(xs, gap))), x.samples);
    var ys :| TimelinesOf(ys, order) && P.IsTimeline(G.Samples(G.Fill(None, None, ys, 0, GapOf(ys, gap))), y.samples);
    SameLines(xs, ys, order);
  }

  // --- attribution and filling, bucket by bucket in any order ----------------------

  /** What the result holds for a bucket at the end. */
  ghost predicate Emitted(out: Series, s: Slot<G.SampleStream>, fillGaps: bool, gap: int) {
    if fillGaps && |s.members| > 1 then exists order :: ByOrdinal(order, s.members) && FilledFrom(out, order, gap)
    else out == WinnerOf(s)
  }

  method RecordLosers(ordinal: int, losers: seq<int>, stats: DedupStats)
    requires stats.Valid()
    modifies stats
    ensures stats.Valid() && stats.log == old(stats.log) + Charged(ordinal, losers)
  {
    for n := 0 to |losers|
      invariant stats.Valid() && stats.log == old(stats.log) + Charged(ordinal, losers[..n])
    {
      stats.Record(ordinal, losers[n]);
      assert Charged(ordinal, losers[..n + 1]) == Charged(ordinal, losers[..n]) + [(ordinal, losers[n])];
    }
    assert losers[..|losers|] == losers;
  }

  ghost predicate AllSorted(members: seq<Candidate>) {
    forall m <- members :: m.payload.Sorted()
  }

  /** The buckets with a key in done are finished, the others still hold their winner. */
  ghost predicate Finished(result: seq<Series>, slots: seq<Slot<G.SampleStream>>, ignore: set<string>,
      done: set<Labels>, fillGaps: bool, gap: int)
  {
    && |result| == |slots|
    && forall k :: 0 <= k < |slots| ==>
      if Key(slots[k], ignore) in done then Emitted(result[k], slots[k], fillGaps, gap)
          else result[k] == WinnerOf(slots[k])
  }

  lemma {:induction false} FinishedStep(result: seq<Series>, slots: seq<Slot<G.SampleStream>>, ignore: set<string>,
      done: set<Labels>, fillGaps: bool, gap: int, k: nat, out: Series)
    requires DistinctSlots(slots, ignore) && Finished(result, slots, ignore, done, fillGaps, gap)
    requires k < |slots| && Emitted(out, slots[k], fillGaps, gap)
    ensures Finished(result[k := out], slots, ignore, done + {Key(slots[k], ignore)}, fillGaps, gap)
  {
    hide Emitted, WinnerOf, Reduced;
  }

  /** log continues before with exactly the slots' collisions, each charged to its bucket's final winner. */
  ghost predicate Charges(log: seq<Pair>, before: seq<Pair>, slots: seq<Slot<G.SampleStream>>) {
    before <= log && multiset(log[|before|..]) == multiset(FinalPairs(slots))
  }

  method FinishBucket(e: Entry, winner: Series, fillGaps: bool, gap: int, stats: DedupStats,
      ghost s: Slot<G.SampleStream>)
    returns (out: Series)
    requires stats.Valid() && e == EntryOf(s, e.idx, fillGaps) && winner == WinnerOf(s)
    requires fillGaps ==> AllSorted(s.members)
    modifies stats
    ensures stats.Valid() && stats.log == old(stats.log) + PairsOf(s)
    ensures Emitted(out, s, fillGaps, gap)
  {
    hide FilledFrom, ByOrdinal, Charged;
    RecordLosers(e.ordinal, e.losers, stats);
    out := winner;
    if fillGaps && |e.members| > 1 {
      ghost var order;
      out, order := FillBucketGaps(e.members, gap);
    }
  }

  /** charged lists the collisions of the buckets with a key in done. */
  ghost predicate ChargedFor(charged: seq<Pair>, slots: seq<Slot<G.SampleStream>>, ignore: set<string>,
      done: set<Labels>)
  {
    multiset(charged) == PairsOver(slots, ignore, done, |slots|)
  }

  lemma {:induction false} ChargedStart(slots: seq<Slot<G.SampleStream>>, ignore: set<string>)
    ensures ChargedFor([], slots, ignore, {})
  {
    VisitNone(slots, ignore, |slots|);
  }

  lemma {:induction false} ChargedStep(charged: seq<Pair>, slots: seq<Slot<G.SampleStream>>, ignore: set<string>,
      done: set<Labels>, k: nat)
    requires ChargedFor(charged, slots, ignore, done) && DistinctSlots(slots, ignore) && k < |slots|
        && Key(slots[k], ignore) !in done
    ensures ChargedFor(charged + PairsOf(slots[k]), slots, ignore, done + {Key(slots[k], ignore)})
  {
    Visit(slots, ignore, done, k, |slots|);
  }

  lemma {:induction false} ChargedEnd(charged: seq<Pair>, slots: seq<Slot<G.SampleStream>>, ignore: set<string>,
      done: set<Labels>)
    requires ChargedFor(charged, slots, ignore, done) && forall k :: 0 <= k < |slots| ==> Key(slots[k], ignore) in done
    ensures multiset(charged) == multiset(FinalPairs(slots))
  {
    VisitAll(slots, ignore, done, |slots|);
    assert slots[..|slots|] == slots;
  }

  lemma {:induction false} ChargesMade(log: seq<Pair>, before: seq<Pair>, charged: seq<Pair>,
      slots: seq<Slot<G.SampleStream>>)
    requires log == before + charged && multiset(charged) == multiset(FinalPairs(slots))
    ensures Charges(log, before, slots)
  {
    hide FinalPairs;
    assert log[|before|..] == charged;
  }

  /** Visits the bucket of one key. */
  method VisitBucket(buckets: map<Labels, Entry>, result: seq<Series>, key: Labels, fillGaps: bool, gap: int,
      stats: DedupStats, ghost result0: seq<Series>, ghost slots: seq<Slot<G.SampleStream>>, ghost ignore: set<string>,
      ghost done: set<Labels>, ghost charged: seq<Pair>)
    returns (next: seq<Series>, ghost added: seq<Pair>)
    requires stats.Valid() && DistinctSlots(slots, ignore) && Mirrors(buckets, result0, slots, ignore, fillGaps)
    requires fillGaps ==> forall s <- slots :: AllSorted(s.members)
    requires key in buckets && key !in done && |result| == |slots|
    requires ChargedFor(charged, slots, ignore, done) && Finished(result, slots, ignore, done, fillGaps, gap)
    modifies stats
    ensures stats.Valid() && stats.log == old(stats.log) + added
    ensures ChargedFor(charged + added, slots, ignore, done + {key})
    ensures |next| == |slots| && Finished(next, slots, ignore, done + {key}, fillGaps, gap)
  {
    hide Emitted, Reduced, FilledFrom, ByOrdinal, FinalPairs, PairsOver, PairsOf, Charged, WinnerOf, Mirrors,
        DistinctSlots, Find, Finished, ChargedFor, AllSorted;
    var e := buckets[key];
    ghost var k := Find(slots, ignore, key, |slots|);
    EntryFound(buckets, result0, slots, ignore, fillGaps, key);
    StillWinner(result, slots, ignore, done, fillGaps, gap, k);
    var out := FinishBucket(e, result[e.idx], fillGaps, gap, stats, slots[k]);
    FinishedStep(result, slots, ignore, done, fillGaps, gap, k, out);
    ChargedStep(charged, slots, ignore, done, k);
    next := result[e.idx := out];
    added := PairsOf(slots[k]);
  }

  method FinishBuckets(buckets: map<Labels, Entry>, result0: seq<Series>, fillGaps: bool, gap: int, stats: DedupStats,
      ghost slots: seq<Slot<G.SampleStream>>, ghost ignore: set<string>)
    returns (result: seq<Series>)
    requires stats.Valid() && DistinctSlots(slots, ignore) && Mirrors(buckets, result0, slots, ignore, fillGaps)
    requires fillGaps ==> forall s <- slots :: AllSorted(s.members)
    modifies stats
    ensures stats.Valid() && Charges(stats.log, old(stats.log), slots)
    ensures |result| == |slots| && forall k :: 0 <= k < |slots| ==> Emitted(result[k], slots[k], fillGaps, gap)
  {
    hide Emitted, Reduced, FinalPairs, Mirrors, DistinctSlots, Finished, ChargedFor, Charges, AllSorted;
    result := result0;
    var keys := buckets.Keys;
    ghost var done: set<Labels> := {};
    ghost var charged: seq<Pair> := [];
    ChargedStart(slots, ignore);
    FinishedStart(buckets, result0, slots, ignore, fillGaps, gap);
    while keys != {}
      invariant keys <= buckets.Keys && done == buckets.Keys - keys
      invariant stats.Valid() && stats.log == old(stats.log) + charged && ChargedFor(charged, slots, ignore, done)
      invariant |result| == |slots|
      invariant Finished(result, slots, ignore, done, fillGaps, gap)
    {
      assert (forall key :: key !in keys) ==> keys == {};
      var key :| key in keys;
      ghost var added;
      result, added := VisitBucket(buckets, result, key, fillGaps, gap, stats, result0, slots, ignore, done, charged);
      charged := charged + added;
      done := done + {key};
      keys := keys - {key};
    }
    FinishedAll(buckets, result0, result, slots, ignore, done, fillGaps, gap);
    ChargedEnd(charged, slots, ignore, done);
    ChargesMade(stats.log, old(stats.log), charged, slots);
  }

  lemma {:induction false} StillWinner(result: seq<Series>, slots: seq<Slot<G.SampleStream>>, ignore: set<string>,
      done: set<Labels>, fillGaps: bool, gap: int, k: nat)
    requires Finished(result, slots, ignore, done, fillGaps, gap) && k < |slots| && Key(slots[k], ignore) !in done
    ensures result[k] == WinnerOf(slots[k])
  {
  }

  lemma {:induction false} FinishedStart(buckets: map<Labels, Entry>, result: seq<Series>,
      slots: seq<Slot<G.SampleStream>>, ignore: set<string>, fillGaps: bool, gap: int)
    requires Mirrors(buckets, result, slots, ignore, fillGaps)
    ensures Finished(result, slots, ignore, {}, fillGaps, gap) && |result| == |slots|
  {
    hide Emitted, WinnerOf, Reduced, Find;
  }

  lemma {:induction false} FinishedAll(buckets: map<Labels, Entry>, result0: seq<Series>, result: seq<Series>,
      slots: seq<Slot<G.SampleStream>>, ignore: set<string>, done: set<Labels>, fillGaps: bool, gap: int)
    requires Mirrors(buckets, result0, slots, ignore, fillGaps) && done == buckets.Keys
    requires Finished(result, slots, ignore, done, fillGaps, gap)
    ensures forall k :: 0 <= k < |slots| ==> Key(slots[k], ignore) in done
    ensures |result| == |slots| && forall k :: 0 <= k < |slots| ==> Emitted(result[k], slots[k], fillGaps, gap)
  {
    hide Emitted, WinnerOf, Reduced, Find;
    forall k | 0 <= k < |slots| ensures Key(slots[k], ignore) in done {
      assert Stored(buckets, slots[k], k, ignore, fillGaps);
    }
  }

  lemma {:induction false} EntryFound(buckets: map<Labels, Entry>, result: seq<Series>,
      slots: seq<Slot<G.SampleStream>>, ignore: set<string>, fillGaps: bool, key: Labels)
    requires Mirrors(buckets, result, slots, ignore, fillGaps) && key in buckets
    ensures var k := Find(slots, ignore, key, |slots|);
            k < |slots| && Key(slots[k], ignore) == key && buckets[key] == EntryOf(slots[k], k, fillGaps)
                && slots[k] in slots
    ensures |result| == |slots|
  {
  }

  lemma {:induction false} NoneTaken(sets: seq<OrdinalSeriesSet>, ms: seq<Candidate>, ignore: set<string>,
      fillGaps: bool)
    ensures AllMembers(sets, 0) == [] && Mirrors(map[], [], Fold(ms, ignore, 0), ignore, fillGaps)
  {
  }

  lemma {:induction false} MembersNext(sets: seq<OrdinalSeriesSet>, i: nat)
    requires i < |sets|
    ensures |AllMembers(sets, i)| <= |AllMembers(sets, i + 1)|
  {
  }

  // --- the whole pass -----------------------------------------------------------

  ghost predicate SamplesSorted(sets: seq<OrdinalSeriesSet>) {
    forall i, j :: 0 <= i < |sets| && 0 <= j < |sets[i].series| ==> sets[i].series[j].samples.Sorted()
  }

  lemma {:induction false} MembersSorted(sets: seq<OrdinalSeriesSet>, n: nat)
    requires n <= |sets| && SamplesSorted(sets)
    ensures AllSorted(AllMembers(sets, n))
  {
    if n > 0 {
      MembersSorted(sets, n - 1);
    }
  }

  /** Puts every series of set i into its bucket. */
  method Drain(sets: seq<OrdinalSeriesSet>, i: nat, buckets0: map<Labels, Entry>, result0: seq<Series>,
      ignore: set<string>, fillGaps: bool, ghost ms: seq<Candidate>)
    returns (buckets: map<Labels, Entry>, result: seq<Series>)
    requires i < |sets| && ms == AllMembers(sets, |sets|)
    requires |AllMembers(sets, i)| <= |AllMembers(sets, i + 1)| <= |ms|
    requires Mirrors(buckets0, result0, Fold(ms, ignore, |AllMembers(sets, i)|), ignore, fillGaps)
    ensures Mirrors(buckets, result, Fold(ms, ignore, |AllMembers(sets, i + 1)|), ignore, fillGaps)
  {
    hide Mirrors, DistinctSlots, Absorb, Fold;
    var set_ := sets[i];
    ghost var start := |AllMembers(sets, i)|;
    buckets, result := buckets0, result0;
    for j := 0 to |set_.series|
      invariant Mirrors(buckets, result, Fold(ms, ignore, start + j), ignore, fillGaps)
    {
      MemberAt(sets, i, |sets|, j);
      FoldDistinct(ms, ignore, start + j);
      FoldNext(ms, ignore, start + j);
      buckets, result := TakeSeries(buckets, result, set_.ordinal, set_.series[j], ignore, fillGaps,
          Fold(ms, ignore, start + j));
    }
  }

  /**
   * A single set passes through whole.  Two or more give one series per bucket, unless some set fails; the
   * collisions are recorded against the final winners, and nothing is recorded on failure.
   */
  method DedupSeriesSetsFillGaps(sets: seq<OrdinalSeriesSet>, ignore: set<string>, fillGaps: bool, gap: int,
      stats: DedupStats)
    returns (r: MergedSet)
    requires stats.Valid() && (fillGaps ==> SamplesSorted(sets))
    modifies stats
    ensures stats.Valid()
    ensures |sets| == 1 ==> r == MergedSet(sets[0].series, sets[0].failed) && stats.log == old(stats.log)
    ensures |sets| != 1 ==> r.failed == exists s <- sets :: s.failed
    ensures |sets| != 1 && r.failed ==> r.series == [] && stats.log == old(stats.log)
    ensures |sets| != 1 && !r.failed ==>
      var ms := AllMembers(sets, |sets|);
      var slots := Fold(ms, ignore, |ms|);
      && |r.series| == |slots| && (forall k :: 0 <= k < |slots| ==> Emitted(r.series[k], slots[k], fillGaps, gap))
      && Charges(stats.log, old(stats.log), slots)
  {
    hide Emitted, Charges, DistinctSlots, Absorb, AllSorted, SamplesSorted, Mirrors, Fold, AllMembers;
    if |sets| == 1 {
      return MergedSet(sets[0].series, sets[0].failed);
    }
    ghost var ms := AllMembers(sets, |sets|);
    var buckets: map<Labels, Entry> := map[];
    var result: seq<Series> := [];
    NoneTaken(sets, ms, ignore, fillGaps);
    for i := 0 to |sets|
      invariant |AllMembers(sets, i)| <= |ms|
      invariant Mirrors(buckets, result, Fold(ms, ignore, |AllMembers(sets, i)|), ignore, fillGaps)
      invariant stats.Valid() && stats.log == old(stats.log)
      invariant forall j :: 0 <= j < i ==> !sets[j].failed
    {
      MembersNext(sets, i);
      MembersGrow(sets, i + 1, |sets|);
      buckets, result := Drain(sets, i, buckets, result, ignore, fillGaps, ms);
      if sets[i].failed {
        return MergedSet([], true);
      }
    }
    ghost var slots := Fold(ms, ignore, |ms|);
    FoldDistinct(ms, ignore, |ms|);
    if fillGaps {
      MembersSorted(sets, |sets|);
      SlotsSorted(ms, ignore);
    }
    result := FinishBuckets(buckets, result, fillGaps, gap, stats, slots, ignore);
    return MergedSet(result, false);
  }

  lemma {:induction false} SlotsSorted(ms: seq<Candidate>, ignore: set<string>)
    requires AllSorted(ms)
    ensures forall s <- Fold(ms, ignore, |ms|) :: AllSorted(s.members)
  {
    AllSound(ms, ignore, |ms|);
  }

  // --- the base of a filled series is the winner --------------------------------

  /** No two members of the bucket come from the same backend. */
  predicate DistinctOrdinals<Q>(members: seq<Member<Q>>) {
    forall i, j :: 0 <= i < j < |members| ==> members[i].ordinal != members[j].ordinal
  }

  lemma {:induction false} SameBag<T>(a: seq<T>, b: seq<T>, x: T)
    requires multiset(a) == multiset(b) && x in a
    ensures x in b
  {
    assert x in multiset(a);
    assert x in multiset(b);
  }

  /** The base has the winner's ordinal, whatever the sort makes of equal ordinals. */
  lemma {:induction false} BaseHasWinnersOrdinal(ms: seq<Candidate>, ignore: set<string>, k: nat, order: seq<Candidate>)
    requires k < |Fold(ms, ignore, |ms|)| && ByOrdinal(order, Fold(ms, ignore, |ms|)[k].members)
    ensures order != [] && order[0].ordinal == Fold(ms, ignore, |ms|)[k].winner.ordinal && order[0] in ms
  {
    var s := Fold(ms, ignore, |ms|)[k];
    AllSound(ms, ignore, |ms|);
    assert s in Fold(ms, ignore, |ms|);
    SameBag(s.members, order, s.winner);
    SameBag(order, s.members, order[0]);
    assert OrdinalOf(order[0]) <= OrdinalOf(s.winner);
  }

  lemma {:induction false} UniqueByOrdinal<Q>(members: seq<Member<Q>>, a: Member<Q>, b: Member<Q>)
    requires DistinctOrdinals(members) && a in members && b in members && a.ordinal == b.ordinal
    ensures a == b
  {
  }

  /** With one series per backend the filled series carries the winner's own labels. */
  lemma {:induction false} FilledKeepsWinnersLabels(ms: seq<Candidate>, ignore: set<string>, k: nat, out: Series,
      fillGaps: bool, gap: int)
    requires k < |Fold(ms, ignore, |ms|)| && DistinctOrdinals(Fold(ms, ignore, |ms|)[k].members)
    requires Emitted(out, Fold(ms, ignore, |ms|)[k], fillGaps, gap)
    ensures out.labels == Fold(ms, ignore, |ms|)[k].winner.labels
  {
    var s := Fold(ms, ignore, |ms|)[k];
    if fillGaps && |s.members| > 1 {
      var order :| ByOrdinal(order, s.members) && FilledFrom(out, order, gap);
      BaseHasWinnersOrdinal(ms, ignore, k, order);
      SameBag(order, s.members, order[0]);
      AllSound(ms, ignore, |ms|);
      assert s in Fold(ms, ignore, |ms|);
      UniqueByOrdinal(s.members, order[0], s.winner);
    }
  }

  // --- what a bucket becomes, from the inputs ---------------------------------------

  predicate SetsAscending(sets: seq<OrdinalSeriesSet>) {
    forall i, j :: 0 <= i < j < |sets| ==> sets[i].ordinal <= sets[j].ordinal
  }

  lemma {:induction false} MembersAscending(sets: seq<OrdinalSeriesSet>, n: nat)
    requires n <= |sets| && SetsAscending(sets)
    ensures Ascending(AllMembers(sets, n))
    ensures forall x <- AllMembers(sets, n) :: n > 0 && x.ordinal <= sets[n - 1].ordinal
  {
    if n > 0 {
      MembersAscending(sets, n - 1);
    }
  }

  /**
   * Sets in ascending ordinals, as the fan-out delivers them: a bucket's series is that of the first of its contenders
   * when there is one only, and otherwise the first's filled from the others, with the collisions charged to it.
   */
  lemma {:induction false} BucketSays(sets: seq<OrdinalSeriesSet>, ignore: set<string>, k: nat, out: Series, gap: int)
    requires SetsAscending(sets)
    requires var ms := AllMembers(sets, |sets|);
             k < |Fold(ms, ignore, |ms|)| && Emitted(out, Fold(ms, ignore, |ms|)[k], true, gap)
    ensures var ms := AllMembers(sets, |sets|);
            var s := Fold(ms, ignore, |ms|)[k];
            var all := Contenders(ms, ignore, s.winner.labels - ignore, |ms|);
            && all != [] && s.winner == all[0]
            && s.losers == seq(|all| - 1, j requires 0 <= j < |all| - 1 => all[j + 1].ordinal)
            && (|all| == 1 ==> out == Series(all[0].labels, all[0].payload))
            && (|all| > 1 ==> exists order :: ByOrdinal(order, all) && FilledFrom(out, order, gap))
  {
    hide AllMembers, Fold, Contenders, FilledFrom, ByOrdinal;
    var ms := AllMembers(sets, |sets|);
    MembersAscending(sets, |sets|);
    ContendersTaken(ms, ignore, |ms|);
    assert Fold(ms, ignore, |ms|)[k] in Fold(ms, ignore, |ms|);
  }

  lemma {:induction false} SampleIn(ps: seq<G.Placed>, x: G.Sample)
    ensures x in G.Samples(ps) <==> exists p <- ps :: p.sample == x
  {
    if x in G.Samples(ps) {
      var i :| 0 <= i < |ps| && G.Samples(ps)[i] == x;
      assert ps[i] in ps;
    }
    if p :| p in ps && p.sample == x {
      var i :| 0 <= i < |ps| && ps[i] == p;
      assert G.Samples(ps)[i] == x;
    }
  }

  /** Sample k of member l is x, and lies in gaps of every member before it. */
  predicate LetThrough(lines: seq<G.Timeline>, l: nat, k: nat, gap: int, x: G.Sample)
    requires gap > 0
  {
    l < |lines| && k < |lines[l]| && lines[l][k] == x && E.Reached(None, None, lines, 0, l, k, gap)
  }

  lemma {:induction false} FillLetsThrough(lines: seq<G.Timeline>, gap: int, x: G.Sample)
    requires lines != [] && gap > 0 && T.AllOrdered(lines)
    ensures x in G.Samples(G.Fill(None, None, lines, 0, gap))
        <==> exists l: nat, k: nat :: LetThrough(lines, l, k, gap, x)
  {
    hide G.Fill, G.Samples, E.Reached, T.AllOrdered;
    var fill := G.Fill(None, None, lines, 0, gap);
    SampleIn(fill, x);
    if p :| p in fill && p.sample == x {
      E.FillExact(lines, gap, p);
      assert LetThrough(lines, p.src, p.at, gap, x);
    }
    if l: nat, k: nat :| LetThrough(lines, l, k, gap, x) {
      E.FillExact(lines, gap, G.Placed(x, l, k));
    }
  }

  /** The samples of a filled series: exactly those of its members that the gaps above them let through. */
  lemma {:induction false} FilledSays(out: Series, order: seq<Candidate>, gap: int, lines: seq<G.Timeline>,
      line: G.Timeline, x: G.Sample)
    requires FilledFrom(out, order, gap) && TimelinesOf(lines, order) && P.IsTimeline(line, out.samples)
    ensures |lines| == |order| > 0
    ensures x in line <==> exists l: nat, k: nat :: LetThrough(lines, l, k, GapOf(lines, gap), x)
  {
    hide G.Fill, G.Samples, LetThrough, P.Threshold;
    var xs :| TimelinesOf(xs, order) && P.IsTimeline(G.Samples(G.Fill(None, None, xs, 0, GapOf(xs, gap))), out.samples);
    SameLines(xs, lines, order);
    P.TimelineUnique(line, G.Samples(G.Fill(None, None, lines, 0, GapOf(lines, gap))));
    assert T.AllOrdered(lines);
    FillLetsThrough(lines, GapOf(lines, gap), x);
  }
}
