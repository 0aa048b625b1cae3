/**
 * Priority gap filling (pkg/promhttputil/gap_fill.go): the sample model, the
 * recursive loop over shared cursors, and the rescanning function it refines.
 * The theory of that function is in GapFillTheory.
 */
module GapFill {
  import opened Wrappers
  import Sorting

  /** A float value; StaleNaN is the marker a source leaves when it stops scraping. */
  datatype Number = StaleNaN | Num(n: int)

  /** A native histogram: its sum carries the staleness marker, the rest is opaque. */
  datatype Histogram = Histogram(sum: Number, buckets: int)

  datatype SamplePair = SamplePair(t: int, value: Number)

  datatype HistogramPair = HistogramPair(t: int, histogram: Histogram)

  datatype SampleStream = SampleStream(values: seq<SamplePair>, histograms: seq<HistogramPair>) {
    predicate Sorted() {
      && Sorting.SortedBy((p: SamplePair) => p.t, values)
      && Sorting.SortedBy((p: HistogramPair) => p.t, histograms)
    }
  }

  datatype Reading = Float(value: Number) | Hist(histogram: Histogram)

  /** One point of the timeline that floats and histograms of a stream share. */
  datatype Sample = Sample(t: int, reading: Reading) {
    predicate Stale() {
      match reading
      case Float(value) => value.StaleNaN?
      case Hist(histogram) => histogram.sum.StaleNaN?
    }
  }

  function FromPair(p: SamplePair): Sample {
    Sample(p.t, Float(p.value))
  }

  function FromHistogram(p: HistogramPair): Sample {
    Sample(p.t, Hist(p.histogram))
  }

  type Timeline = seq<Sample>

  /** A sample of the merged result with the level it was taken from (0 is the base) and its position there. */
  datatype Placed = Placed(sample: Sample, src: nat, at: nat)

  predicate TimeSorted(s: Timeline) {
    forall i, j :: 0 <= i < j < |s| ==> s[i].t <= s[j].t
  }

  /** The order of a timeline: by time, floats before histograms at equal times. */
  predicate Precedes(a: Sample, b: Sample) {
    a.t < b.t || (a.t == b.t && (a.reading.Float? || b.reading.Hist?))
  }

  predicate Ordered(s: Timeline) {
    forall i, j :: 0 <= i < j < |s| ==> Precedes(s[i], s[j])
  }

  function Floats(s: Timeline): seq<SamplePair> {
    if s == [] then [] else
      var last := s[|s| - 1];
      Floats(s[..|s| - 1]) + if last.reading.Float? then [SamplePair(last.t, last.reading.value)] else []
  }

  function Histograms(s: Timeline): seq<HistogramPair> {
    if s == [] then [] else
      var last := s[|s| - 1];
      Histograms(s[..|s| - 1]) + if last.reading.Hist? then [HistogramPair(last.t, last.reading.histogram)] else []
  }

  // --- the rescanning reference -------------------------------------------

  function Margin(gap: int): int
    requires gap > 0
  {
    gap / 4
  }

  /** Strictly more than the margin after lo, when there is a lo. */
  predicate Clears(lo: Option<int>, t: int, m: int) {
    lo.Some? ==> t > lo.value + m
  }

  /** Strictly more than the margin before hi, when there is a hi. */
  predicate Under(hi: Option<int>, t: int, m: int) {
    hi.Some? ==> t < hi.value - m
  }

  predicate NeedsFill(stale: bool, subLo: Option<int>, upper: Option<int>, gap: int) {
    stale || subLo.None? || upper.None? || upper.value - subLo.value >= gap
  }

  /** The first position at or after i whose sample clears lo. */
  function Beyond(s: Timeline, i: nat, lo: Option<int>, m: int): (r: nat)
    requires i <= |s|
    ensures i <= r <= |s|
    decreases |s| - i
  {
    if i == |s| || Clears(lo, s[i].t, m) then i else Beyond(s, i + 1, lo, m)
  }

  /** Is this sample of level lvl kept?  A filler's marker only when it ends kept samples. */
  predicate Kept(p: Sample, lvl: nat, live: bool) {
    !p.Stale() || lvl == 0 || live
  }

  /** Everything levels lvl and up contribute strictly between lo and hi, each level scanned from its start. */
  function Fill(lo: Option<int>, hi: Option<int>, streams: seq<Timeline>, lvl: nat, gap: int): seq<Placed>
    requires lvl <= |streams| && gap > 0
    decreases |streams| - lvl, 1, 0
  {
    if lvl == |streams| then []
    else Walk(Beyond(streams[lvl], 0, lo, Margin(gap)), lo, hi, false, false, streams, lvl, gap)
  }

  /**
   * The scan of level lvl from position i on: subLo is the time of its last sample (or lo), stale and live describe it.
   */
  function Walk(i: nat, subLo: Option<int>, hi: Option<int>, stale: bool, live: bool,
                streams: seq<Timeline>, lvl: nat, gap: int): seq<Placed>
    requires lvl < |streams| && i <= |streams[lvl]| && gap > 0
    decreases |streams| - lvl, 0, |streams[lvl]| - i
  {
    if i == |streams[lvl]| || !Under(hi, streams[lvl][i].t, Margin(gap)) then
      SubFill(stale, subLo, hi, streams, lvl, gap)
    else
      var p := streams[lvl][i];
      SubFill(stale, subLo, Some(p.t), streams, lvl, gap)
      + (if Kept(p, lvl, live) then [Placed(p, lvl, i)] else [])
      + Walk(i + 1, Some(p.t), hi, p.Stale(), !p.Stale(), streams, lvl, gap)
  }

  function SubFill(stale: bool, subLo: Option<int>, upper: Option<int>,
                   streams: seq<Timeline>, lvl: nat, gap: int): seq<Placed>
    requires lvl < |streams| && gap > 0
    decreases |streams| - lvl - 1, 2, 0
  {
    if NeedsFill(stale, subLo, upper, gap) then Fill(subLo, upper, streams, lvl + 1, gap) else []
  }

  function Samples(ps: seq<Placed>): Timeline {
    seq(|ps|, i requires 0 <= i < |ps| => ps[i].sample)
  }

  /** The number of non-stale samples level src contributed. */
  function Taken(ps: seq<Placed>, src: nat): nat {
    if ps == [] then 0
    else Taken(ps[..|ps| - 1], src) + if ps[|ps| - 1].src == src && !ps[|ps| - 1].sample.Stale() then 1 else 0
  }

  lemma {:induction false} SamplesConcat(a: seq<Placed>, b: seq<Placed>)
    ensures Samples(a + b) == Samples(a) + Samples(b)
  {
  }

  lemma {:induction false} TakenConcat(a: seq<Placed>, b: seq<Placed>, src: nat)
    ensures Taken(a + b, src) == Taken(a, src) + Taken(b, src)
  {
    if b == [] {
      assert a + b == a;
    } else {
      TakenConcat(a, b[..|b| - 1], src);
      assert (a + b)[..|a + b| - 1] == a + b[..|b| - 1];
    }
  }

  // --- the source's loops --------------------------------------------------

  /** Interleaves the floats and histograms of a stream by time. */
  method TimelineOf(s: SampleStream) returns (out: Timeline)
    ensures Floats(out) == s.values && Histograms(out) == s.histograms
    ensures s.Sorted() ==> Ordered(out)
  {
    hide Floats, Histograms;
    out := [];
    NothingTaken();
    var i, j := 0, 0;
    while i < |s.values| || j < |s.histograms|
      invariant 0 <= i <= |s.values| && 0 <= j <= |s.histograms|
      invariant Floats(out) == s.values[..i] && Histograms(out) == s.histograms[..j]
      invariant s.Sorted() ==> Ordered(out)
      invariant s.Sorted() && i < |s.values| ==> forall p <- out :: Precedes(p, FromPair(s.values[i]))
      invariant s.Sorted() && j < |s.histograms| ==> forall p <- out :: Precedes(p, FromHistogram(s.histograms[j]))
      decreases |s.values| - i + |s.histograms| - j
    {
      if j == |s.histograms| || (i < |s.values| && s.values[i].t <= s.histograms[j].t) {
        TimelineTake(out, FromPair(s.values[i]));
        out := out + [FromPair(s.values[i])];
        i := i + 1;
      } else {
        TimelineTake(out, FromHistogram(s.histograms[j]));
        out := out + [FromHistogram(s.histograms[j])];
        j := j + 1;
      }
    }
  }

  lemma {:induction false} NothingTaken()
    ensures Floats([]) == [] && Histograms([]) == []
  {
  }

  lemma {:induction false} TimelineTake(out: Timeline, p: Sample)
    ensures Floats(out + [p]) == Floats(out) + if p.reading.Float? then [SamplePair(p.t, p.reading.value)] else []
    ensures Histograms(out + [p]) == Histograms(out) + if p.reading.Hist? then [HistogramPair(p.t, p.reading.histogram)]
        else []
  {
    assert (out + [p])[..|out|] == out;
  }

  /** Every sample a cursor has passed fails to clear lo, so a rescan from the start would skip it too. */
  predicate CursorsBehind(cursors: seq<nat>, streams: seq<Timeline>, lvl: nat, lo: Option<int>, m: int) {
    && |cursors| == |streams|
    && forall l :: lvl <= l < |streams| ==> cursors[l] <= |streams[l]| && PassedBy(streams[l], cursors[l], lo, m)
  }

  predicate PassedBy(s: Timeline, i: nat, lo: Option<int>, m: int)
    requires i <= |s|
  {
    forall k :: 0 <= k < i ==> !Clears(lo, s[k].t, m)
  }

  /** The distance the first n cursors have travelled. */
  function Travelled(cursors: seq<nat>, n: nat): nat
    requires n <= |cursors|
  {
    if n == 0 then 0 else Travelled(cursors, n - 1) + cursors[n - 1]
  }

  lemma {:induction false} PassedByNext(s: Timeline, i: nat, hi: Option<int>, m: int)
    requires i < |s| && m >= 0 && Under(hi, s[i].t, m)
    requires hi.Some? ==> PassedBy(s, i, hi, m)
    ensures hi.Some? ==> PassedBy(s, i + 1, hi, m)
  {
  }

  lemma {:induction false} BeyondFromCursor(s: Timeline, j: nat, i: nat, lo: Option<int>, m: int)
    requires j <= i <= |s| && PassedBy(s, i, lo, m)
    requires i < |s| ==> Clears(lo, s[i].t, m)
    ensures Beyond(s, j, lo, m) == i
    decreases i - j
  {
    if j < i {
      BeyondFromCursor(s, j + 1, i, lo, m);
    }
  }

  lemma {:induction false} TravelledUpdate(c: seq<nat>, n: nat, l: nat, v: nat)
    requires l < |c| && n <= |c|
    ensures Travelled(c[l := v], n) == Travelled(c, n) + if l < n then v - c[l] else 0
  {
    if n > 0 {
      TravelledUpdate(c, n - 1, l, v);
    }
  }

  lemma {:induction false} CursorsBehindLater(cursors: seq<nat>, streams: seq<Timeline>, lvl: nat, lo: Option<int>,
      later: int, m: int)
    requires CursorsBehind(cursors, streams, lvl, lo, m)
    requires lo.Some? ==> lo.value <= later
    ensures CursorsBehind(cursors, streams, lvl, Some(later), m)
  {
  }

  /** filled has grown by what ps took from each filler; filler j sits at level j + 1. */
  predicate Counted(filled: seq<nat>, before: seq<nat>, ps: seq<Placed>) {
    |filled| == |before| && forall j :: 0 <= j < |filled| ==> filled[j] == before[j] + Taken(ps, j + 1)
  }

  lemma {:induction false} CountedTrans(a: seq<nat>, b: seq<nat>, c: seq<nat>, ps: seq<Placed>, qs: seq<Placed>)
    requires Counted(b, a, ps) && Counted(c, b, qs)
    ensures Counted(c, a, ps + qs)
  {
    forall j | 0 <= j < |c| ensures c[j] == a[j] + Taken(ps + qs, j + 1) {
      TakenConcat(ps, qs, j + 1);
    }
  }

  lemma {:induction false} CountedOwn(filled: seq<nat>, p: Sample, lvl: nat, i: nat, live: bool)
    requires lvl <= |filled|
    ensures var own := if Kept(p, lvl, live) then [Placed(p, lvl, i)] else [];
            Counted(if lvl > 0 && !p.Stale() then filled[lvl - 1 := filled[lvl - 1] + 1] else filled, filled, own)
  {
    forall src: nat ensures Taken([Placed(p, lvl, i)], src) == if lvl == src && !p.Stale() then 1 else 0 {
      assert [Placed(p, lvl, i)][..0] == [];
    }
  }

  /** Cursors below lvl stand still, the others only move forward. */
  predicate MovedFrom(cursors: seq<nat>, before: seq<nat>, streams: seq<Timeline>, lvl: nat) {
    && |cursors| == |before| == |streams|
    && (forall l :: 0 <= l < lvl && l < |cursors| ==> cursors[l] == before[l])
    && (forall l :: lvl <= l < |cursors| ==> before[l] <= cursors[l] <= |streams[l]|)
  }

  lemma {:induction false} MovedFromTrans(a: seq<nat>, b: seq<nat>, c: seq<nat>, streams: seq<Timeline>, lvl: nat)
    requires MovedFrom(b, a, streams, lvl) && MovedFrom(c, b, streams, lvl)
    ensures MovedFrom(c, a, streams, lvl)
  {
  }

  /** The fixed arguments of one call of the scan, and what the arrays held when its loop began. */
  datatype Call = Call(hi: Option<int>, streams: seq<Timeline>, lvl: nat, gap: int, whole: seq<Placed>,
                       filled: seq<nat>, cursors: seq<nat>) {
    predicate Valid() {
      && gap > 0 && lvl < |streams| && |cursors| == |streams| && |filled| + 1 == |streams|
      && forall l :: 0 <= l < |streams| ==> TimeSorted(streams[l])
    }
  }

  /** The loop variables of the scan. */
  datatype Scan = Scan(i: nat, subLo: Option<int>, stale: bool, live: bool, placed: seq<Placed>, passed: nat)

  /** The scan's loop invariant. */
  predicate Scanning(c: Call, s: Scan, out: Timeline, filled: seq<nat>, cursors: seq<nat>)
    requires c.Valid()
  {
    var timeline := c.streams[c.lvl];
    && c.cursors[c.lvl] <= s.i <= |timeline| && |filled| == |c.filled|
    && c.whole == s.placed + Walk(s.i, s.subLo, c.hi, s.stale, s.live, c.streams, c.lvl, c.gap)
    && out == Samples(s.placed)
    && Counted(filled, c.filled, s.placed)
    && (s.subLo.Some? && s.i < |timeline| ==> s.subLo.value <= timeline[s.i].t)
    && (s.subLo.Some? && c.hi.Some? ==> s.subLo.value <= c.hi.value)
    && (c.hi.Some? ==> PassedBy(timeline, s.i, c.hi, Margin(c.gap)))
    && MovedFrom(cursors, c.cursors, c.streams, c.lvl + 1)
    && CursorsBehind(cursors, c.streams, c.lvl + 1, s.subLo, Margin(c.gap))
    && Travelled(cursors, |cursors|) + (s.i - c.cursors[c.lvl]) == Travelled(c.cursors, |c.cursors|) + s.passed
  }

  /** What one iteration adds: the gap before p (inner), p itself if it is kept, and the counts that go with them. */
  lemma {:induction false} ScanStep(c: Call, s: Scan, out: Timeline, filled1: seq<nat>, cursors1: seq<nat>,
                 inner: Timeline, innerPassed: nat, filled2: seq<nat>, cursors2: seq<nat>)
    returns (next: Scan, nextOut: Timeline, nextFilled: seq<nat>)
    requires c.Valid() && Scanning(c, s, out, filled1, cursors1) && s.i < |c.streams[c.lvl]|
    requires Under(c.hi, c.streams[c.lvl][s.i].t, Margin(c.gap))
    requires var sub := SubFill(s.stale, s.subLo, Some(c.streams[c.lvl][s.i].t), c.streams, c.lvl, c.gap);
             inner == Samples(sub) && Counted(filled2, filled1, sub)
    requires MovedFrom(cursors2, cursors1, c.streams, c.lvl + 1)
    requires CursorsBehind(cursors2, c.streams, c.lvl + 1, Some(c.streams[c.lvl][s.i].t), Margin(c.gap))
    requires Travelled(cursors2, |cursors2|) == Travelled(cursors1, |cursors1|) + innerPassed
    ensures var p := c.streams[c.lvl][s.i];
            && next == Scan(s.i + 1, Some(p.t), p.Stale(), !p.Stale(), next.placed, s.passed + innerPassed + 1)
            && nextOut == (if Kept(p, c.lvl, s.live) then (out + inner) + [p] else out + inner)
            && nextFilled == (if c.lvl > 0 && !p.Stale() then filled2[c.lvl - 1 := filled2[c.lvl - 1] + 1] else filled2)
            && Scanning(c, next, nextOut, nextFilled, cursors2)
  {
    hide Walk, SubFill, PassedBy, CursorsBehind, Travelled, Taken;
    var timeline, p := c.streams[c.lvl], c.streams[c.lvl][s.i];
    var placed := TakeStep(c.whole, s.placed, s.i, s.subLo, c.hi, s.stale, s.live, c.streams, c.lvl, c.gap,
                           c.filled, filled1, filled2);
    MovedFromTrans(c.cursors, cursors1, cursors2, c.streams, c.lvl + 1);
    PassedByNext(timeline, s.i, c.hi, Margin(c.gap));
    next := Scan(s.i + 1, Some(p.t), p.Stale(), !p.Stale(), placed, s.passed + innerPassed + 1);
    nextOut := if Kept(p, c.lvl, s.live) then (out + inner) + [p] else out + inner;
    nextFilled := if c.lvl > 0 && !p.Stale() then filled2[c.lvl - 1 := filled2[c.lvl - 1] + 1] else filled2;
  }

  /** Before the loop: nothing is emitted yet, and the scan is still to give the whole. */
  lemma {:induction false} ScanStart(c: Call, lo: Option<int>, i: nat)
    requires c.Valid() && c.whole == Fill(lo, c.hi, c.streams, c.lvl, c.gap)
    requires lo.Some? && c.hi.Some? ==> lo.value <= c.hi.value
    requires c.cursors[c.lvl] <= i <= |c.streams[c.lvl]| && PassedBy(c.streams[c.lvl], i, lo, Margin(c.gap))
    requires i < |c.streams[c.lvl]| ==> Clears(lo, c.streams[c.lvl][i].t, Margin(c.gap))
    requires CursorsBehind(c.cursors, c.streams, c.lvl, lo, Margin(c.gap))
    ensures Scanning(c, Scan(i, lo, false, false, [], i - c.cursors[c.lvl]), [], c.filled, c.cursors)
  {
    BeyondFromCursor(c.streams[c.lvl], 0, i, lo, Margin(c.gap));
    assert [] + c.whole == c.whole;
    forall j: nat ensures Taken([], j) == 0 {
    }
  }

  /** What the loop leaves for the gap behind the last sample. */
  lemma {:induction false} ScanTells(c: Call, s: Scan, out: Timeline, filled: seq<nat>, cursors: seq<nat>)
    requires c.Valid() && Scanning(c, s, out, filled, cursors)
    ensures s.i <= |c.streams[c.lvl]| && |cursors| == |c.streams| && |filled| == |c.filled|
    ensures CursorsBehind(cursors, c.streams, c.lvl + 1, s.subLo, Margin(c.gap))
    ensures s.subLo.Some? && c.hi.Some? ==> s.subLo.value <= c.hi.value
    ensures s.subLo.Some? && s.i < |c.streams[c.lvl]| ==> s.subLo.value <= c.streams[c.lvl][s.i].t
  {
    hide Walk, Counted, Travelled, MovedFrom, Samples;
  }

  /** After the loop: level lvl's cursor is parked at i and the gap behind the last sample is filled. */
  lemma {:induction false} ScanEnd(c: Call, s: Scan, out: Timeline, filled1: seq<nat>, cursors1: seq<nat>,
                inner: Timeline, innerPassed: nat, filled2: seq<nat>, cursors2: seq<nat>)
    requires c.Valid() && Scanning(c, s, out, filled1, cursors1)
    requires s.i < |c.streams[c.lvl]| ==> !Under(c.hi, c.streams[c.lvl][s.i].t, Margin(c.gap))
    requires var sub := SubFill(s.stale, s.subLo, c.hi, c.streams, c.lvl, c.gap);
             inner == Samples(sub) && Counted(filled2, filled1, sub)
    requires MovedFrom(cursors2, cursors1[c.lvl := s.i], c.streams, c.lvl + 1)
    requires c.hi.Some? ==> CursorsBehind(cursors2, c.streams, c.lvl + 1, c.hi, Margin(c.gap))
    requires Travelled(cursors2, |cursors2|) == Travelled(cursors1[c.lvl := s.i], |cursors1|) + innerPassed
    ensures out + inner == Samples(c.whole)
    ensures Counted(filled2, c.filled, c.whole)
    ensures MovedFrom(cursors2, c.cursors, c.streams, c.lvl)
    ensures c.hi.Some? ==> CursorsBehind(cursors2, c.streams, c.lvl, c.hi, Margin(c.gap))
    ensures Travelled(cursors2, |cursors2|) == Travelled(c.cursors, |c.cursors|) + s.passed + innerPassed
  {
    var sub := SubFill(s.stale, s.subLo, c.hi, c.streams, c.lvl, c.gap);
    assert c.whole == s.placed + sub;
    SamplesConcat(s.placed, sub);
    CountedTrans(c.filled, filled1, filled2, s.placed, sub);
    TravelledUpdate(cursors1, |cursors1|, c.lvl, s.i);
    assert cursors2[c.lvl] == s.i;
  }

  /** a[i] := v, stated on the whole array. */
  method Put(a: array<nat>, i: nat, v: nat)
    requires i < a.Length
    modifies a
    ensures a[..] == old(a[..])[i := v]
  {
    a[i] := v;
  }

  /**
   * The shared-cursor recursion computes what the rescanning `Fill` computes.  No cursor moves back, and the
   * loop iterations spent over the whole recursion (`passed`) are exactly the distance the cursors travelled.
   */
  method FillGaps(lo: Option<int>, hi: Option<int>, streams: seq<Timeline>, lvl: nat, gap: int,
                  filled: array<nat>, cursors: array<nat>)
    returns (out: Timeline, ghost passed: nat)
    requires gap > 0 && lvl < |streams|
    requires cursors.Length == |streams| && filled.Length + 1 == |streams| && filled != cursors
    requires forall l :: 0 <= l < |streams| ==> TimeSorted(streams[l])
    requires lo.Some? && hi.Some? ==> lo.value <= hi.value
    requires CursorsBehind(cursors[..], streams, lvl, lo, Margin(gap))
    modifies filled, cursors
    ensures out == Samples(Fill(lo, hi, streams, lvl, gap))
    ensures Counted(filled[..], old(filled[..]), Fill(lo, hi, streams, lvl, gap))
    ensures MovedFrom(cursors[..], old(cursors[..]), streams, lvl)
    ensures hi.Some? ==> CursorsBehind(cursors[..], streams, lvl, hi, Margin(gap))
    ensures Travelled(cursors[..], cursors.Length) == Travelled(old(cursors[..]), cursors.Length) + passed
    decreases |streams| - lvl, 2
  {
    hide Scanning, Counted, Walk, SubFill, Travelled, MovedFrom, Samples, Fill;
    ghost var c := Call(hi, streams, lvl, gap, Fill(lo, hi, streams, lvl, gap), filled[..], cursors[..]);
    var timeline := streams[lvl];
    var i: nat := cursors[lvl];
    while i < |timeline| && !Clears(lo, timeline[i].t, gap / 4)
      invariant cursors[lvl] <= i <= |timeline|
      invariant PassedBy(timeline, i, lo, Margin(gap))
    {
      i := i + 1;
    }
    ScanStart(c, lo, i);
    out := [];
    var subLo := lo;
    var stale, live := false, false;
    ghost var s := Scan(i, subLo, stale, live, [], i - cursors[lvl]);
    while i < |timeline|
      invariant s == Scan(i, subLo, stale, live, s.placed, s.passed)
      invariant Scanning(c, s, out, filled[..], cursors[..])
    {
      var p := timeline[i];
      if !Under(hi, p.t, gap / 4) {
        break;
      }
      out, s := TakeSample(c, s, p, subLo, stale, live, out, streams, lvl, gap, filled, cursors);
      stale := p.Stale();
      live := !stale;
      subLo := Some(p.t);
      i := i + 1;
    }
    ghost var filled1, cursors1 := filled[..], cursors[..];
    ScanTells(c, s, out, filled1, cursors1);
    Put(cursors, lvl, i);
    var inner, innerPassed := FillBetween(stale, subLo, hi, streams, lvl, gap, filled, cursors);
    ScanEnd(c, s, out, filled1, cursors1, inner, innerPassed, filled[..], cursors[..]);
    out := out + inner;
    passed := s.passed + innerPassed;
  }

  /** One iteration of the scan: the gap in front of p, then p itself unless it is a marker nothing kept leads up to. */
  method TakeSample(ghost c: Call, ghost s: Scan, p: Sample, subLo: Option<int>, stale: bool, live: bool,
      out0: Timeline, streams: seq<Timeline>, lvl: nat, gap: int, filled: array<nat>, cursors: array<nat>)
    returns (out: Timeline, ghost next: Scan)
    requires c.Valid() && cursors.Length == |streams| && filled.Length + 1 == |streams| && filled != cursors
    requires (c.streams, c.lvl, c.gap) == (streams, lvl, gap) && (s.subLo, s.stale, s.live) == (subLo, stale, live)
    requires Scanning(c, s, out0, filled[..], cursors[..])
    requires s.i < |streams[lvl]| && p == streams[lvl][s.i] && Under(c.hi, p.t, Margin(gap))
    modifies filled, cursors
    ensures next == Scan(s.i + 1, Some(p.t), p.Stale(), !p.Stale(), next.placed, next.passed)
    ensures Scanning(c, next, out, filled[..], cursors[..])
    decreases |streams| - lvl, 1
  {
    hide Walk, SubFill, Counted, PassedBy, Travelled, Taken, MovedFrom, Fill, CursorsBehind, Samples, Kept, Scanning;
    ghost var filled1, cursors1 := filled[..], cursors[..];
    ScanTells(c, s, out0, filled1, cursors1);
    var inner, innerPassed := FillBetween(stale, subLo, Some(p.t), streams, lvl, gap, filled, cursors);
    ghost var nextOut, nextFilled;
    next, nextOut, nextFilled := ScanStep(c, s, out0, filled1, cursors1, inner, innerPassed, filled[..], cursors[..]);
    out := Emit(p, lvl, live, out0 + inner, filled);
  }

  /** Appends p unless it is a filler's marker that ends nothing kept; a filler's real sample is counted. */
  method Emit(p: Sample, lvl: nat, live: bool, out0: Timeline, filled: array<nat>) returns (out: Timeline)
    requires lvl <= filled.Length
    modifies filled
    ensures out == if Kept(p, lvl, live) then out0 + [p] else out0
    ensures filled[..] == if lvl > 0 && !p.Stale() then old(filled[..])[lvl - 1 := old(filled[..])[lvl - 1] + 1]
        else old(filled[..])
  {
    out := out0;
    if p.Stale() {
      if lvl == 0 || live {
        out := out + [p];
      }
    } else {
      out := out + [p];
      if lvl > 0 {
        filled[lvl - 1] := filled[lvl - 1] + 1;
      }
    }
  }

  /** The recursion into the next level for one span, when the span is a gap and there is a next level. */
  method FillBetween(stale: bool, subLo: Option<int>, upper: Option<int>, streams: seq<Timeline>, lvl: nat, gap: int,
                     filled: array<nat>, cursors: array<nat>)
    returns (out: Timeline, ghost passed: nat)
    requires gap > 0 && lvl < |streams|
    requires cursors.Length == |streams| && filled.Length + 1 == |streams| && filled != cursors
    requires forall l :: 0 <= l < |streams| ==> TimeSorted(streams[l])
    requires subLo.Some? && upper.Some? ==> subLo.value <= upper.value
    requires CursorsBehind(cursors[..], streams, lvl + 1, subLo, Margin(gap))
    modifies filled, cursors
    ensures out == Samples(SubFill(stale, subLo, upper, streams, lvl, gap))
    ensures Counted(filled[..], old(filled[..]), SubFill(stale, subLo, upper, streams, lvl, gap))
    ensures MovedFrom(cursors[..], old(cursors[..]), streams, lvl + 1)
    ensures upper.Some? ==> CursorsBehind(cursors[..], streams, lvl + 1, upper, Margin(gap))
    ensures Travelled(cursors[..], cursors.Length) == Travelled(old(cursors[..]), cursors.Length) + passed
    decreases |streams| - lvl, 0
  {
    if NeedsFill(stale, subLo, upper, gap) && lvl + 1 < |streams| {
      out, passed := FillGaps(subLo, upper, streams, lvl + 1, gap, filled, cursors);
    } else {
      out, passed := [], 0;
      if upper.Some? {
        CursorsBehindLater(cursors[..], streams, lvl + 1, subLo, upper.value, Margin(gap));
      }
    }
  }

  /** One iteration of the scan: the samples before p, p itself if it is kept, and the counts that go with them. */
  lemma {:induction false} TakeStep(whole: seq<Placed>, placed: seq<Placed>, i: nat, subLo: Option<int>,
      hi: Option<int>, stale: bool, live: bool, streams: seq<Timeline>, lvl: nat, gap: int, filled0: seq<nat>,
          filled1: seq<nat>, filled2: seq<nat>)
    returns (next: seq<Placed>)
    requires lvl < |streams| && gap > 0 && i < |streams[lvl]| && Under(hi, streams[lvl][i].t, Margin(gap))
    requires whole == placed + Walk(i, subLo, hi, stale, live, streams, lvl, gap)
    requires Counted(filled1, filled0, placed) && |filled2| + 1 == |streams|
    requires Counted(filled2, filled1, SubFill(stale, subLo, Some(streams[lvl][i].t), streams, lvl, gap))
    ensures var p := streams[lvl][i];
            && whole == next + Walk(i + 1, Some(p.t), hi, p.Stale(), !p.Stale(), streams, lvl, gap)
            && Samples(next) == Samples(placed) + Samples(SubFill(stale, subLo, Some(p.t), streams, lvl, gap))
                                + (if Kept(p, lvl, live) then [p] else [])
            && Counted(if lvl > 0 && !p.Stale() then filled2[lvl - 1 := filled2[lvl - 1] + 1] else filled2, filled0,
                next)
  {
    var p := streams[lvl][i];
    var sub := SubFill(stale, subLo, Some(p.t), streams, lvl, gap);
    var own := if Kept(p, lvl, live) then [Placed(p, lvl, i)] else [];
    next := placed + sub + own;
    Regroup(placed, sub, own, Walk(i + 1, Some(p.t), hi, p.Stale(), !p.Stale(), streams, lvl, gap));
    SamplesConcat(placed, sub);
    SamplesConcat(placed + sub, own);
    CountedTrans(filled0, filled1, filled2, placed, sub);
    CountedOwn(filled2, p, lvl, i, live);
    CountedTrans(filled0, filled2, if lvl > 0 && !p.Stale() then filled2[lvl - 1 := filled2[lvl - 1] + 1] else filled2,
        placed + sub, own);
  }

  lemma {:induction false} Regroup<T>(a: seq<T>, b: seq<T>, c: seq<T>, d: seq<T>)
    ensures a + (b + c + d) == a + b + c + d
  {
  }
}
