/**
 * What gap filling means: order, separation, which samples are kept, the seam
 * theorem and idempotence.  All of it is about the function `GapFill.Fill`, which
 * the loops of the source are proved to compute.
 */
module GapFillTheory {
  import opened Wrappers
  import opened GapFill

  // --- order and separation ------------------------------------------------

  /** Same source: in that source's order.  Different sources: more than the margin apart. */
  predicate Apart(a: Placed, b: Placed, m: int) {
    if a.src == b.src then a.at < b.at else a.sample.t + m < b.sample.t
  }

  predicate Separated(ps: seq<Placed>, m: int) {
    forall i, j :: 0 <= i < j < |ps| ==> Apart(ps[i], ps[j], m)
  }

  predicate AllOrdered(streams: seq<Timeline>) {
    forall l :: 0 <= l < |streams| ==> Ordered(streams[l])
  }

  predicate FromStreams(ps: seq<Placed>, streams: seq<Timeline>, lvl: nat) {
    forall x <- ps :: lvl <= x.src < |streams| && x.at < |streams[x.src]| && x.sample == streams[x.src][x.at]
  }

  predicate Within(ps: seq<Placed>, lo: Option<int>, hi: Option<int>, m: int) {
    forall x <- ps :: Clears(lo, x.sample.t, m) && Under(hi, x.sample.t, m)
  }

  /** What a scan of level lvl from position i may emit. */
  predicate Ahead(ps: seq<Placed>, i: nat, subLo: Option<int>, hi: Option<int>, lvl: nat, m: int) {
    forall x <- ps ::
      && Under(hi, x.sample.t, m)
      && (x.src == lvl ==> x.at >= i)
      && (x.src != lvl ==> Clears(subLo, x.sample.t, m))
  }

  lemma {:induction false} SeparatedConcat(a: seq<Placed>, b: seq<Placed>, m: int)
    requires Separated(a, m) && Separated(b, m)
    requires forall x <- a, y <- b :: Apart(x, y, m)
    ensures Separated(a + b, m)
  {
  }

  lemma {:induction false} FillShape(lo: Option<int>, hi: Option<int>, streams: seq<Timeline>, lvl: nat, gap: int)
    requires lvl <= |streams| && gap > 0 && AllOrdered(streams)
    ensures FromStreams(Fill(lo, hi, streams, lvl, gap), streams, lvl)
    ensures Within(Fill(lo, hi, streams, lvl, gap), lo, hi, Margin(gap))
    ensures Separated(Fill(lo, hi, streams, lvl, gap), Margin(gap))
    decreases |streams| - lvl, 1, 0
  {
    if lvl < |streams| {
      var i := Beyond(streams[lvl], 0, lo, Margin(gap));
      BeyondStops(streams[lvl], 0, lo, Margin(gap));
      WalkShape(i, lo, hi, false, false, streams, lvl, gap);
    }
  }

  lemma {:induction false} BeyondStops(s: Timeline, i: nat, lo: Option<int>, m: int)
    requires i <= |s|
    ensures var r := Beyond(s, i, lo, m); r < |s| ==> Clears(lo, s[r].t, m)
    ensures forall k :: i <= k < Beyond(s, i, lo, m) ==> !Clears(lo, s[k].t, m)
    decreases |s| - i
  {
    if i < |s| && !Clears(lo, s[i].t, m) {
      BeyondStops(s, i + 1, lo, m);
    }
  }

  lemma {:induction false} SubFillShape(stale: bool, subLo: Option<int>, upper: Option<int>, streams: seq<Timeline>,
      lvl: nat, gap: int)
    requires lvl < |streams| && gap > 0 && AllOrdered(streams)
    ensures FromStreams(SubFill(stale, subLo, upper, streams, lvl, gap), streams, lvl + 1)
    ensures Within(SubFill(stale, subLo, upper, streams, lvl, gap), subLo, upper, Margin(gap))
    ensures Separated(SubFill(stale, subLo, upper, streams, lvl, gap), Margin(gap))
    decreases |streams| - lvl - 1, 2, 0
  {
    FillShape(subLo, upper, streams, lvl + 1, gap);
  }

  lemma {:induction false} WalkShape(i: nat, subLo: Option<int>, hi: Option<int>, stale: bool, live: bool,
                                     streams: seq<Timeline>, lvl: nat, gap: int)
    requires lvl < |streams| && i <= |streams[lvl]| && gap > 0 && AllOrdered(streams)
    requires subLo.Some? && i < |streams[lvl]| ==> subLo.value <= streams[lvl][i].t
    ensures FromStreams(Walk(i, subLo, hi, stale, live, streams, lvl, gap), streams, lvl)
    ensures Ahead(Walk(i, subLo, hi, stale, live, streams, lvl, gap), i, subLo, hi, lvl, Margin(gap))
    ensures Separated(Walk(i, subLo, hi, stale, live, streams, lvl, gap), Margin(gap))
    decreases |streams| - lvl, 0, |streams[lvl]| - i
  {
    var s, m := streams[lvl], Margin(gap);
    if i == |s| || !Under(hi, s[i].t, m) {
      SubFillShape(stale, subLo, hi, streams, lvl, gap);
    } else {
      hide SubFill, Separated, FromStreams, Within, Ahead;
      var p := s[i];
      var own := if Kept(p, lvl, live) then [Placed(p, lvl, i)] else [];
      SubFillShape(stale, subLo, Some(p.t), streams, lvl, gap);
      WalkShape(i + 1, Some(p.t), hi, p.Stale(), !p.Stale(), streams, lvl, gap);
      StepShape(SubFill(stale, subLo, Some(p.t), streams, lvl, gap), own,
                Walk(i + 1, Some(p.t), hi, p.Stale(), !p.Stale(), streams, lvl, gap), i, subLo, hi, streams, lvl, m);
    }
  }

  lemma {:induction false} StepShape(sub: seq<Placed>, own: seq<Placed>, rest: seq<Placed>, i: nat, subLo: Option<int>,
      hi: Option<int>, streams: seq<Timeline>, lvl: nat, m: int)
    requires AllOrdered(streams) && lvl < |streams| && i < |streams[lvl]| && m >= 0 && Under(hi, streams[lvl][i].t, m)
    requires subLo.Some? ==> subLo.value <= streams[lvl][i].t
    requires var t := streams[lvl][i].t;
             && FromStreams(sub, streams, lvl + 1) && Within(sub, subLo, Some(t), m) && Separated(sub, m)
             && FromStreams(rest, streams, lvl) && Ahead(rest, i + 1, Some(t), hi, lvl, m) && Separated(rest, m)
    requires own == [] || own == [Placed(streams[lvl][i], lvl, i)]
    ensures FromStreams(sub + own + rest, streams, lvl)
    ensures Ahead(sub + own + rest, i, subLo, hi, lvl, m)
    ensures Separated(sub + own + rest, m)
  {
    forall x <- sub, y <- own ensures Apart(x, y, m) {
    }
    SeparatedConcat(sub, own, m);
    forall x <- sub + own, y <- rest ensures Apart(x, y, m) {
      assert y.src == lvl ==> y.sample.t >= streams[lvl][i].t;
    }
    SeparatedConcat(sub + own, rest, m);
  }

  // --- what is kept ----------------------------------------------------------

  function OfLevel(ps: seq<Placed>, lvl: nat): Timeline {
    if ps == [] then []
    else OfLevel(ps[..|ps| - 1], lvl) + if ps[|ps| - 1].src == lvl then [ps[|ps| - 1].sample] else []
  }

  lemma {:induction false} OfLevelConcat(a: seq<Placed>, b: seq<Placed>, lvl: nat)
    ensures OfLevel(a + b, lvl) == OfLevel(a, lvl) + OfLevel(b, lvl)
  {
    if b == [] {
      assert a + b == a;
    } else {
      OfLevelConcat(a, b[..|b| - 1], lvl);
      assert (a + b)[..|a + b| - 1] == a + b[..|b| - 1];
    }
  }

  lemma {:induction false} OfLevelNone(ps: seq<Placed>, lvl: nat)
    requires forall x <- ps :: x.src != lvl
    ensures OfLevel(ps, lvl) == []
  {
    if ps != [] {
      OfLevelNone(ps[..|ps| - 1], lvl);
    }
  }

  /** Every base sample is in the result, unchanged, once and in order. */
  lemma {:induction false} BaseKept(streams: seq<Timeline>, gap: int)
    requires streams != [] && gap > 0 && AllOrdered(streams)
    ensures OfLevel(Fill(None, None, streams, 0, gap), 0) == streams[0]
  {
    BeyondStops(streams[0], 0, None, Margin(gap));
    assert Beyond(streams[0], 0, None, Margin(gap)) == 0;
    BaseKeptFrom(0, None, false, false, streams, gap);
  }

  lemma {:induction false} BaseKeptFrom(i: nat, subLo: Option<int>, stale: bool, live: bool, streams: seq<Timeline>,
      gap: int)
    requires streams != [] && i <= |streams[0]| && gap > 0 && AllOrdered(streams)
    ensures OfLevel(Walk(i, subLo, None, stale, live, streams, 0, gap), 0) == streams[0][i..]
    decreases |streams[0]| - i
  {
    var s := streams[0];
    if i == |s| {
      SubFillShape(stale, subLo, None, streams, 0, gap);
      OfLevelNone(SubFill(stale, subLo, None, streams, 0, gap), 0);
    } else {
      hide SubFill, Separated, Within, Ahead, AllOrdered, OfLevel;
      var p := s[i];
      var sub := SubFill(stale, subLo, Some(p.t), streams, 0, gap);
      SubFillShape(stale, subLo, Some(p.t), streams, 0, gap);
      OfLevelNone(sub, 0);
      BaseKeptFrom(i + 1, Some(p.t), p.Stale(), !p.Stale(), streams, gap);
      BaseStep(sub, Placed(p, 0, i), Walk(i + 1, Some(p.t), None, p.Stale(), !p.Stale(), streams, 0, gap));
      assert s[i..] == [p] + s[i + 1..];
    }
  }

  lemma {:induction false} BaseStep(sub: seq<Placed>, p: Placed, rest: seq<Placed>)
    requires OfLevel(sub, 0) == [] && p.src == 0
    ensures OfLevel(sub + [p] + rest, 0) == [p.sample] + OfLevel(rest, 0)
  {
    OfLevelConcat(sub, [p], 0);
    OfLevelConcat(sub + [p], rest, 0);
    assert [p][..0] == [];
  }

  /** t lies in the k-th span of base, clear of both ends, and that span counts as a gap. */
  predicate GapAt(base: Timeline, k: nat, t: int, gap: int)
    requires k <= |base| && gap > 0
  {
    var lo := if k > 0 then Some(base[k - 1].t) else None;
    var hi := if k < |base| then Some(base[k].t) else None;
    Clears(lo, t, Margin(gap)) && Under(hi, t, Margin(gap)) && NeedsFill(k > 0 && base[k - 1].Stale(), lo, hi, gap)
  }

  predicate InGap(base: Timeline, t: int, gap: int)
    requires gap > 0
  {
    exists k: nat :: k <= |base| && GapAt(base, k, t, gap)
  }

  /** The state of a scan of the base that has reached position i. */
  predicate AtBase(base: Timeline, i: nat, subLo: Option<int>, stale: bool) {
    && i <= |base|
    && subLo == (if i > 0 then Some(base[i - 1].t) else None)
    && stale == (i > 0 && base[i - 1].Stale())
  }

  /** Fillers only ever contribute inside gaps of the base. */
  lemma {:induction false} FillersOnlyInGaps(streams: seq<Timeline>, gap: int)
    requires streams != [] && gap > 0 && AllOrdered(streams)
    ensures forall x <- Fill(None, None, streams, 0, gap) :: x.src > 0 ==> InGap(streams[0], x.sample.t, gap)
  {
    BeyondStops(streams[0], 0, None, Margin(gap));
    FillersInGapsFrom(0, None, false, false, streams, gap);
  }

  lemma {:induction false} FillersInGapsFrom(i: nat, subLo: Option<int>, stale: bool, live: bool,
      streams: seq<Timeline>, gap: int)
    requires streams != [] && gap > 0 && AllOrdered(streams) && AtBase(streams[0], i, subLo, stale)
    ensures forall x <- Walk(i, subLo, None, stale, live, streams, 0, gap) ::
        x.src > 0 ==> InGap(streams[0], x.sample.t, gap)
    decreases |streams[0]| - i
  {
    var s := streams[0];
    var upper := if i < |s| then Some(s[i].t) else None;
    SubFillShape(stale, subLo, upper, streams, 0, gap);
    forall x <- SubFill(stale, subLo, upper, streams, 0, gap) ensures InGap(s, x.sample.t, gap) {
      assert GapAt(s, i, x.sample.t, gap);
    }
    if i < |s| {
      FillersInGapsFrom(i + 1, Some(s[i].t), s[i].Stale(), !s[i].Stale(), streams, gap);
    }
  }

  /** No filler sample lies between two base samples closer than gap, unless the earlier one is stale. */
  lemma {:induction false} NoIntrusion(streams: seq<Timeline>, gap: int, k: nat, x: Placed)
    requires streams != [] && gap > 0 && AllOrdered(streams)
    requires k + 1 < |streams[0]| && !streams[0][k].Stale() && streams[0][k + 1].t - streams[0][k].t < gap
    requires x in Fill(None, None, streams, 0, gap) && streams[0][k].t <= x.sample.t <= streams[0][k + 1].t
    ensures x.src == 0
  {
    var base := streams[0];
    FillersOnlyInGaps(streams, gap);
    assert forall j :: 0 <= j < k ==> Precedes(base[j], base[k]);
    assert forall j :: k + 1 < j < |base| ==> Precedes(base[k + 1], base[j]);
  }

  /**
   * A fill call keeps every real sample of its own level that is clear of the window's ends; the base keeps its markers
   * too.
   */
  lemma {:induction false} OwnSampleKept(i: nat, subLo: Option<int>, hi: Option<int>, stale: bool, live: bool,
                                         streams: seq<Timeline>, lvl: nat, gap: int, k: nat)
    requires lvl < |streams| && i <= k < |streams[lvl]| && gap > 0 && AllOrdered(streams)
    requires Under(hi, streams[lvl][k].t, Margin(gap)) && (!streams[lvl][k].Stale() || lvl == 0)
    ensures Placed(streams[lvl][k], lvl, k) in Walk(i, subLo, hi, stale, live, streams, lvl, gap)
    decreases k - i
  {
    var p := streams[lvl][i];
    assert i < k ==> Precedes(p, streams[lvl][k]);
    if i < k {
      OwnSampleKept(i + 1, Some(p.t), hi, p.Stale(), !p.Stale(), streams, lvl, gap, k);
    }
  }

  /** The first filler contributes exactly its real samples that lie in a gap of the base. */
  lemma {:induction false} FirstFillerExact(streams: seq<Timeline>, gap: int, k: nat)
    requires |streams| > 1 && gap > 0 && AllOrdered(streams)
    requires k < |streams[1]| && !streams[1][k].Stale()
    ensures Placed(streams[1][k], 1, k) in Fill(None, None, streams, 0, gap)
        <==> InGap(streams[0], streams[1][k].t, gap)
  {
    FillersOnlyInGaps(streams, gap);
    if j: nat :| j <= |streams[0]| && GapAt(streams[0], j, streams[1][k].t, gap) {
      BeyondStops(streams[0], 0, None, Margin(gap));
      GapIsFilled(0, None, false, false, streams, gap, j, k);
    }
  }

  lemma {:induction false} GapIsFilled(i: nat, subLo: Option<int>, stale: bool, live: bool, streams: seq<Timeline>,
      gap: int, j: nat, k: nat)
    requires |streams| > 1 && gap > 0 && AllOrdered(streams) && AtBase(streams[0], i, subLo, stale)
    requires i <= j <= |streams[0]| && k < |streams[1]| && !streams[1][k].Stale()
        && GapAt(streams[0], j, streams[1][k].t, gap)
    ensures Placed(streams[1][k], 1, k) in Walk(i, subLo, None, stale, live, streams, 0, gap)
    decreases j - i
  {
    var s, f := streams[0], streams[1];
    if i == j {
      var upper := if i < |s| then Some(s[i].t) else None;
      var start := Beyond(f, 0, subLo, Margin(gap));
      BeyondStops(f, 0, subLo, Margin(gap));
      OwnSampleKept(start, subLo, upper, false, false, streams, 1, gap, k);
      assert Placed(f[k], 1, k) in Fill(subLo, upper, streams, 1, gap);
    } else {
      GapIsFilled(i + 1, Some(s[i].t), s[i].Stale(), !s[i].Stale(), streams, gap, j, k);
    }
  }

  /** Sample k of filler src closes a run: the sample before it is real and was kept too. */
  predicate ClosesRun(ps: seq<Placed>, streams: seq<Timeline>, src: nat, k: nat) {
    && src < |streams| && 0 < k < |streams[src]|
    && !streams[src][k - 1].Stale() && Placed(streams[src][k - 1], src, k - 1) in ps
  }

  /** A filler's marker in the result always closes a run of that filler's samples. */
  predicate MarkersCloseRuns(ps: seq<Placed>, streams: seq<Timeline>) {
    forall x <- ps :: x.src > 0 && x.sample.Stale() ==> ClosesRun(ps, streams, x.src, x.at)
  }

  lemma {:induction false} MarkersConcat(a: seq<Placed>, b: seq<Placed>, streams: seq<Timeline>)
    requires MarkersCloseRuns(a, streams) && MarkersCloseRuns(b, streams)
    ensures MarkersCloseRuns(a + b, streams)
  {
  }

  lemma {:induction false} FillerMarkers(lo: Option<int>, hi: Option<int>, streams: seq<Timeline>, lvl: nat, gap: int)
    requires lvl <= |streams| && gap > 0
    ensures MarkersCloseRuns(Fill(lo, hi, streams, lvl, gap), streams)
    decreases |streams| - lvl, 1, 0
  {
    if lvl < |streams| {
      var i := Beyond(streams[lvl], 0, lo, Margin(gap));
      WalkMarkers(i, lo, hi, false, false, [], streams, lvl, gap);
      assert [] + Fill(lo, hi, streams, lvl, gap) == Fill(lo, hi, streams, lvl, gap);
    }
  }

  /** before: what the scan has emitted so far; live means it ends with the sample in front of position i. */
  lemma {:induction false} WalkMarkers(i: nat, subLo: Option<int>, hi: Option<int>, stale: bool, live: bool,
      before: seq<Placed>, streams: seq<Timeline>, lvl: nat, gap: int)
    requires lvl < |streams| && i <= |streams[lvl]| && gap > 0
    requires MarkersCloseRuns(before, streams)
    requires live ==> i > 0 && !streams[lvl][i - 1].Stale() && Placed(streams[lvl][i - 1], lvl, i - 1) in before
    ensures MarkersCloseRuns(before + Walk(i, subLo, hi, stale, live, streams, lvl, gap), streams)
    decreases |streams| - lvl, 0, |streams[lvl]| - i
  {
    if i == |streams[lvl]| || !Under(hi, streams[lvl][i].t, Margin(gap)) {
      FillerMarkers(subLo, hi, streams, lvl + 1, gap);
      MarkersConcat(before, SubFill(stale, subLo, hi, streams, lvl, gap), streams);
    } else {
      var p := streams[lvl][i];
      var sub := SubFill(stale, subLo, Some(p.t), streams, lvl, gap);
      var own := if Kept(p, lvl, live) then [Placed(p, lvl, i)] else [];
      FillerMarkers(subLo, Some(p.t), streams, lvl + 1, gap);
      MarkersConcat(before, sub, streams);
      var next := before + sub + own;
      WalkMarkers(i + 1, Some(p.t), hi, p.Stale(), !p.Stale(), next, streams, lvl, gap);
      Regroup(before, sub, own, Walk(i + 1, Some(p.t), hi, p.Stale(), !p.Stale(), streams, lvl, gap));
    }
  }

  // --- the seam theorem --------------------------------------------------------

  predicate OnGrid(t: int, phase: int, d: int)
    requires d > 0
  {
    (t - phase) % d == 0
  }

  /** Real samples only, one per grid point at most. */
  predicate GridStream(s: Timeline, phase: int, d: int)
    requires d > 0
  {
    && (forall k :: 0 <= k < |s| ==> OnGrid(s[k].t, phase, d) && !s[k].Stale())
    && (forall i, j :: 0 <= i < j < |s| ==> s[i].t < s[j].t)
  }

  predicate AllOnGrid(streams: seq<Timeline>, phase: int, d: int)
    requires d > 0
  {
    forall l :: 0 <= l < |streams| ==> GridStream(streams[l], phase, d)
  }

  predicate HasTime(s: Timeline, t: int) {
    exists k :: 0 <= k < |s| && s[k].t == t
  }

  predicate Inside(lo: Option<int>, t: int, hi: Option<int>) {
    Clears(lo, t, 0) && Under(hi, t, 0)
  }

  /** x is the sample at its time of the first stream, from level lvl on, that has one there. */
  predicate FirstAvailable(x: Placed, streams: seq<Timeline>, lvl: nat) {
    && lvl <= x.src < |streams| && x.at < |streams[x.src]| && x.sample == streams[x.src][x.at]
    && forall l :: lvl <= l < x.src ==> !HasTime(streams[l], x.sample.t)
  }

  lemma {:induction false} GridStep(a: int, b: int, phase: int, d: int)
    requires d > 0 && OnGrid(a, phase, d) && OnGrid(b, phase, d) && a < b
    ensures b - a >= d
  {
    var x, y := (a - phase) / d, (b - phase) / d;
    assert a - phase == d * x && b - phase == d * y;
    Distribute(d, y, x);
    if y - x <= 0 {
      NonPositiveProduct(d, y - x);
    } else {
      NonPositiveProduct(d, 1 - (y - x));
      Distribute(d, 1, y - x);
    }
  }

  lemma {:induction false} Distribute(d: int, y: int, x: int)
    ensures d * (y - x) == d * y - d * x
  {
  }

  lemma {:induction false} NonPositiveProduct(d: int, n: int)
    requires d > 0 && n <= 0
    ensures d * n <= 0
  {
  }

  /** The margin never separates grid points, and a span with a grid point inside always counts as a gap. */
  lemma {:induction false} GridGap(a: int, t: int, b: int, phase: int, d: int, gap: int)
    requires d > 0 && 0 < gap <= 2 * d
    requires OnGrid(a, phase, d) && OnGrid(t, phase, d) && OnGrid(b, phase, d) && a < t < b
    ensures a + Margin(gap) < t < b - Margin(gap) && b - a >= gap
  {
    GridStep(a, t, phase, d);
    GridStep(t, b, phase, d);
  }

  predicate GridBound(b: Option<int>, phase: int, d: int)
    requires d > 0
  {
    b.Some? ==> OnGrid(b.value, phase, d)
  }

  lemma {:induction false} GridMargin(lo: Option<int>, t: int, hi: Option<int>, phase: int, d: int, gap: int)
    requires d > 0 && 0 < gap <= 2 * d && GridBound(lo, phase, d) && GridBound(hi, phase, d) && OnGrid(t, phase, d)
    ensures Clears(lo, t, Margin(gap)) <==> Clears(lo, t, 0)
    ensures Under(hi, t, Margin(gap)) <==> Under(hi, t, 0)
  {
    if lo.Some? && t > lo.value { GridStep(lo.value, t, phase, d); }
    if hi.Some? && t < hi.value { GridStep(t, hi.value, phase, d); }
  }

  lemma {:induction false} SeamFill(lo: Option<int>, hi: Option<int>, streams: seq<Timeline>, lvl: nat, gap: int,
      phase: int, d: int, x: Placed)
    requires lvl <= |streams| && d > 0 && 0 < gap <= 2 * d && AllOnGrid(streams, phase, d)
    requires GridBound(lo, phase, d) && GridBound(hi, phase, d)
    ensures x in Fill(lo, hi, streams, lvl, gap) <==> Inside(lo, x.sample.t, hi) && FirstAvailable(x, streams, lvl)
    decreases |streams| - lvl, 1, 0
  {
    if lvl < |streams| {
      var s := streams[lvl];
      var i := Beyond(s, 0, lo, Margin(gap));
      BeyondStops(s, 0, lo, Margin(gap));
      forall k | 0 <= k < |s| ensures k >= i <==> Clears(lo, s[k].t, 0) {
        GridMargin(lo, s[k].t, hi, phase, d, gap);
      }
      SeamWalk(i, lo, hi, false, false, streams, lvl, gap, phase, d, x);
    }
  }

  /** The scan from i on sees the samples of its level behind subLo: exactly those from i on. */
  lemma {:induction false} SeamWalk(i: nat, subLo: Option<int>, hi: Option<int>, stale: bool, live: bool,
                                    streams: seq<Timeline>, lvl: nat, gap: int, phase: int, d: int, x: Placed)
    requires lvl < |streams| && i <= |streams[lvl]| && d > 0 && 0 < gap <= 2 * d && AllOnGrid(streams, phase, d)
    requires GridBound(subLo, phase, d) && GridBound(hi, phase, d) && !stale
    requires forall k :: 0 <= k < |streams[lvl]| ==> (k >= i <==> Clears(subLo, streams[lvl][k].t, 0))
    ensures x in Walk(i, subLo, hi, stale, live, streams, lvl, gap)
            <==> Inside(subLo, x.sample.t, hi) && FirstAvailable(x, streams, lvl)
    decreases |streams| - lvl, 0, |streams[lvl]| - i
  {
    var s := streams[lvl];
    if i < |s| {
      GridMargin(subLo, s[i].t, hi, phase, d, gap);
    }
    if i == |s| || !Under(hi, s[i].t, Margin(gap)) {
      SeamSubFill(subLo, hi, streams, lvl, gap, phase, d, x);
      if Inside(subLo, x.sample.t, hi) {
        assert forall k :: i < k < |s| ==> s[i].t < s[k].t;
        assert !HasTime(s, x.sample.t);
      }
    } else {
      var p := s[i];
      SeamSubFill(subLo, Some(p.t), streams, lvl, gap, phase, d, x);
      assert forall k :: i < k < |s| ==> p.t < s[k].t;
      assert forall k :: 0 <= k < i ==> s[k].t < p.t;
      SeamWalk(i + 1, Some(p.t), hi, p.Stale(), !p.Stale(), streams, lvl, gap, phase, d, x);
      if Inside(subLo, x.sample.t, Some(p.t)) {
        assert !HasTime(s, x.sample.t);
      } else if x.sample.t == p.t {
        assert HasTime(s, p.t);
      }
    }
  }

  lemma {:induction false} SeamSubFill(subLo: Option<int>, upper: Option<int>, streams: seq<Timeline>, lvl: nat,
      gap: int, phase: int, d: int, x: Placed)
    requires lvl < |streams| && d > 0 && 0 < gap <= 2 * d && AllOnGrid(streams, phase, d)
    requires GridBound(subLo, phase, d) && GridBound(upper, phase, d)
    ensures x in SubFill(false, subLo, upper, streams, lvl, gap)
            <==> Inside(subLo, x.sample.t, upper) && FirstAvailable(x, streams, lvl + 1)
    decreases |streams| - lvl - 1, 2, 0
  {
    SeamFill(subLo, upper, streams, lvl + 1, gap, phase, d, x);
    if !NeedsFill(false, subLo, upper, gap) && Inside(subLo, x.sample.t, upper) && FirstAvailable(x, streams, lvl + 1) {
      GridGap(subLo.value, x.sample.t, upper.value, phase, d, gap);
    }
  }

  /** On a common grid the result is the pointwise first available sample, in strictly increasing time order. */
  lemma {:induction false} SeamTheorem(streams: seq<Timeline>, gap: int, phase: int, d: int)
    requires streams != [] && d > 0 && 0 < gap <= 2 * d && AllOnGrid(streams, phase, d)
    ensures forall x :: x in Fill(None, None, streams, 0, gap) <==> FirstAvailable(x, streams, 0)
    ensures forall i, j :: 0 <= i < j < |Fill(None, None, streams, 0, gap)| ==>
      Fill(None, None, streams, 0, gap)[i].sample.t < Fill(None, None, streams, 0, gap)[j].sample.t
  {
    forall x: Placed ensures x in Fill(None, None, streams, 0, gap) <==> FirstAvailable(x, streams, 0) {
      SeamFill(None, None, streams, 0, gap, phase, d, x);
    }
    FillShape(None, None, streams, 0, gap);
    var out := Fill(None, None, streams, 0, gap);
    forall i, j | 0 <= i < j < |out| ensures out[i].sample.t < out[j].sample.t {
      assert Apart(out[i], out[j], Margin(gap));
    }
  }

  /** The bound on gap is needed: with any larger threshold a single missing step stays a hole. */
  lemma {:induction false} SeamNeedsSmallGap(d: int, gap: int)
    requires 0 < 2 * d < gap
    ensures var streams := [[Sample(0, Float(Num(1))), Sample(2 * d, Float(Num(2)))], [Sample(d, Float(Num(3)))]];
            var x := Placed(streams[1][0], 1, 0);
            AllOnGrid(streams, 0, d) && FirstAvailable(x, streams, 0) && x !in Fill(None, None, streams, 0, gap)
  {
    hide Fill;
    var base := [Sample(0, Float(Num(1))), Sample(2 * d, Float(Num(2)))];
    var streams := [base, [Sample(d, Float(Num(3)))]];
    var x := Placed(streams[1][0], 1, 0);
    assert d % d == 0 && (2 * d) % d == 0 by {
      Multiple(d, 1);
      Multiple(d, 2);
    }
    assert !HasTime(base, d);
    assert streams[0][1].t - streams[0][0].t == 2 * d;
    if x in Fill(None, None, streams, 0, gap) {
      FillersOnlyInGaps(streams, gap);
    }
  }

  lemma {:induction false} Multiple(d: int, n: int)
    requires d > 0
    ensures (d * n) % d == 0
  {
    var q, r := (d * n) / d, (d * n) % d;
    assert d * n == d * q + r;
    Distribute(d, n, q);
    if n - q < 0 {
      NonPositiveProduct(d, n - q + 1);
      Distribute(d, n - q, -1);
    } else if n - q > 0 {
      NonPositiveProduct(d, 1 - (n - q));
      Distribute(d, 1, n - q);
    }
  }

  // --- the merged timeline, and idempotence --------------------------------

  lemma {:induction false} MergedOrdered(streams: seq<Timeline>, gap: int)
    requires streams != [] && gap > 0 && AllOrdered(streams)
    ensures Ordered(Samples(Fill(None, None, streams, 0, gap)))
  {
    FillShape(None, None, streams, 0, gap);
    var out := Fill(None, None, streams, 0, gap);
    forall i, j | 0 <= i < j < |out| ensures Precedes(out[i].sample, out[j].sample) {
      assert Apart(out[i], out[j], Margin(gap));
    }
  }

  /** Fillers with no time of their own add nothing; in particular a base filled from copies of itself is unchanged. */
  lemma {:induction false} NothingNew(streams: seq<Timeline>, gap: int)
    requires streams != [] && gap > 0 && AllOrdered(streams)
    requires forall l, k :: 0 <= l < |streams| && 0 <= k < |streams[l]| ==> HasTime(streams[0], streams[l][k].t)
    ensures Samples(Fill(None, None, streams, 0, gap)) == streams[0]
  {
    var base, out := streams[0], Fill(None, None, streams, 0, gap);
    FillShape(None, None, streams, 0, gap);
    FillersOnlyInGaps(streams, gap);
    forall x <- out ensures x.src == 0 {
      assert HasTime(base, streams[x.src][x.at].t);
      if x.src > 0 {
        OwnTimeNotInGap(base, x.sample.t, gap);
      }
    }
    OnlyBase(streams, gap);
  }

  lemma {:induction false} OwnTimeNotInGap(base: Timeline, t: int, gap: int)
    requires gap > 0 && Ordered(base) && HasTime(base, t)
    ensures !InGap(base, t, gap)
  {
    var i :| 0 <= i < |base| && base[i].t == t;
    forall k: nat | k <= |base| ensures !GapAt(base, k, t, gap) {
      assert k < i ==> Precedes(base[k], base[i]);
      assert i < k - 1 ==> Precedes(base[i], base[k - 1]);
    }
  }

  /** A result that only has base samples is the base. */
  lemma {:induction false} OnlyBase(streams: seq<Timeline>, gap: int)
    requires streams != [] && gap > 0 && AllOrdered(streams)
    requires forall x <- Fill(None, None, streams, 0, gap) :: x.src == 0
    ensures Samples(Fill(None, None, streams, 0, gap)) == streams[0]
  {
    BaseKept(streams, gap);
    AllOfLevel(Fill(None, None, streams, 0, gap), 0);
  }

  lemma {:induction false} AllOfLevel(ps: seq<Placed>, lvl: nat)
    requires forall x <- ps :: x.src == lvl
    ensures OfLevel(ps, lvl) == Samples(ps)
  {
    if ps != [] {
      AllOfLevel(ps[..|ps| - 1], lvl);
    }
  }

  lemma {:induction false} BaseSampleInResult(streams: seq<Timeline>, gap: int, k: nat)
    requires streams != [] && gap > 0 && AllOrdered(streams) && k < |streams[0]|
    ensures Placed(streams[0][k], 0, k) in Fill(None, None, streams, 0, gap)
  {
    BeyondStops(streams[0], 0, None, Margin(gap));
    OwnSampleKept(0, None, None, false, false, streams, 0, gap, k);
  }

  /** A time in a gap of the filled result is in a gap of the base it was filled from. */
  lemma {:induction false} GapSurvives(streams: seq<Timeline>, gap: int, t: int)
    requires streams != [] && gap > 0 && AllOrdered(streams)
    requires InGap(Samples(Fill(None, None, streams, 0, gap)), t, gap)
    ensures InGap(streams[0], t, gap)
  {
    var base, merged := streams[0], Samples(Fill(None, None, streams, 0, gap));
    var j: nat :| j <= |merged| && GapAt(merged, j, t, gap);
    var k := FirstNotBefore(base, t);
    if k > 0 {
      BaseNeighbour(streams, gap, t, j, k - 1);
    }
    if k < |base| {
      BaseNeighbour(streams, gap, t, j, k);
    }
    if !GapAt(base, k, t, gap) {
      SmallSpanUntouched(streams, gap, t, j, k);
    }
  }

  /** No base sample lies between the two neighbours of a span of the result. */
  lemma {:induction false} BaseNeighbour(streams: seq<Timeline>, gap: int, t: int, j: nat, i: nat)
    requires streams != [] && gap > 0 && AllOrdered(streams) && i < |streams[0]|
    requires j <= |Samples(Fill(None, None, streams, 0, gap))|
        && GapAt(Samples(Fill(None, None, streams, 0, gap)), j, t, gap)
    ensures var merged := Samples(Fill(None, None, streams, 0, gap));
            if streams[0][i].t < t then j > 0 && streams[0][i].t <= merged[j - 1].t
            else j < |merged| && merged[j].t <= streams[0][i].t
  {
    var out := Fill(None, None, streams, 0, gap);
    var merged := Samples(out);
    MergedOrdered(streams, gap);
    BaseSampleInResult(streams, gap, i);
    var p :| 0 <= p < |out| && out[p] == Placed(streams[0][i], 0, i);
    assert merged[p] == streams[0][i];
    assert j < p ==> Precedes(merged[j], merged[p]);
    assert p < j - 1 ==> Precedes(merged[p], merged[j - 1]);
  }

  /** The first position of s whose sample is not before t. */
  function FirstNotBefore(s: Timeline, t: int): (k: nat)
    ensures k <= |s|
    ensures k < |s| ==> s[k].t >= t
    ensures k > 0 ==> s[k - 1].t < t
  {
    if s == [] || s[|s| - 1].t < t then |s| else FirstNotBefore(s[..|s| - 1], t)
  }

  /** Samples of one source stand in that source's order. */
  lemma {:induction false} SourceOrder(ps: seq<Placed>, m: int, p: nat, q: nat)
    requires p < |ps| && q < |ps| && Separated(ps, m) && ps[p].src == ps[q].src
    ensures p < q <==> ps[p].at < ps[q].at
    ensures p == q <==> ps[p].at == ps[q].at
  {
    assert p < q ==> Apart(ps[p], ps[q], m);
    assert q < p ==> Apart(ps[q], ps[p], m);
  }

  /** A span of the base that is no gap has the same two ends in the result, so it is no gap there either. */
  lemma {:induction false} SmallSpanUntouched(streams: seq<Timeline>, gap: int, t: int, j: nat, k: nat)
    requires streams != [] && gap > 0 && AllOrdered(streams) && 0 < k < |streams[0]|
    requires !streams[0][k - 1].Stale() && streams[0][k].t - streams[0][k - 1].t < gap
    requires streams[0][k - 1].t < t <= streams[0][k].t
    requires var merged := Samples(Fill(None, None, streams, 0, gap));
             0 < j < |merged| && streams[0][k - 1].t <= merged[j - 1].t < t < merged[j].t <= streams[0][k].t
    ensures !GapAt(Samples(Fill(None, None, streams, 0, gap)), j, t, gap)
  {
    var base, out := streams[0], Fill(None, None, streams, 0, gap);
    FillShape(None, None, streams, 0, gap);
    var x, y := out[j - 1], out[j];
    NoIntrusion(streams, gap, k - 1, x);
    NoIntrusion(streams, gap, k - 1, y);
    assert Apart(x, y, Margin(gap));
    BaseSampleInResult(streams, gap, k - 1);
    var p :| 0 <= p < |out| && out[p] == Placed(base[k - 1], 0, k - 1);
    SourceOrder(out, Margin(gap), p, j - 1);
    SourceOrder(out, Margin(gap), p, j);
    assert x.at == k - 1;
  }

  /** Filling the result of a one-filler merge again from the same filler changes nothing. */
  lemma {:induction false} RefillIdempotent(base: Timeline, filler: Timeline, gap: int)
    requires gap > 0 && Ordered(base) && Ordered(filler)
    ensures var once := Samples(Fill(None, None, [base, filler], 0, gap));
            Samples(Fill(None, None, [once, filler], 0, gap)) == once
  {
    var streams := [base, filler];
    MergedOrdered(streams, gap);
    var once := Samples(Fill(None, None, streams, 0, gap));
    var again := [once, filler];
    var out := Fill(None, None, again, 0, gap);
    FillShape(None, None, again, 0, gap);
    FillerMarkers(None, None, again, 0, gap);
    forall x <- out ensures x.src == 0 {
      if x.src == 1 {
        var k := if x.sample.Stale() then x.at - 1 else x.at;
        assert x.sample.Stale() ==> ClosesRun(out, again, 1, x.at);
        assert Placed(filler[k], 1, k) in out;
        FirstFillerExact(again, gap, k);
        GapSurvives(streams, gap, filler[k].t);
        FirstFillerExact(streams, gap, k);
        var placed := Fill(None, None, streams, 0, gap);
        var p :| 0 <= p < |placed| && placed[p] == Placed(filler[k], 1, k);
        assert once[p].t == filler[k].t;
        OwnTimeNotInGap(once, filler[k].t, gap);
      }
    }
    OnlyBase(again, gap);
  }
}
