/**
 * The entry points of pkg/promhttputil/gap_fill.go: merging whole streams, and the
 * gap threshold inferred from their sample intervals.
 */
module PriorityMerge {
  import opened Wrappers
  import opened GapFill
  import opened GapFillTheory
  import opened Intervals
  import Sorting

  /** line is the interleaving of stream's floats and histograms. */
  predicate IsTimeline(line: Timeline, stream: SampleStream) {
    Ordered(line) && Floats(line) == stream.values && Histograms(line) == stream.histograms
  }

  lemma {:induction false} FloatSource(s: Timeline, p: SamplePair) returns (i: nat)
    requires p in Floats(s)
    ensures i < |s| && s[i] == FromPair(p)
  {
    var last := s[|s| - 1];
    if last == FromPair(p) {
      i := |s| - 1;
    } else {
      i := FloatSource(s[..|s| - 1], p);
    }
  }

  lemma {:induction false} HistogramSource(s: Timeline, p: HistogramPair) returns (i: nat)
    requires p in Histograms(s)
    ensures i < |s| && s[i] == FromHistogram(p)
  {
    var last := s[|s| - 1];
    if last == FromHistogram(p) {
      i := |s| - 1;
    } else {
      i := HistogramSource(s[..|s| - 1], p);
    }
  }

  lemma {:induction false} SplitLength(s: Timeline)
    ensures |Floats(s)| + |Histograms(s)| == |s|
  {
    if s != [] {
      SplitLength(s[..|s| - 1]);
    }
  }

  /** The later of two last samples of different kinds is the last one in both timelines. */
  lemma {:induction false} LastKindsAgree(a: Timeline, b: Timeline)
    requires Ordered(a) && Ordered(b) && Floats(a) == Floats(b) && Histograms(a) == Histograms(b)
    requires a != [] && b != []
    ensures !(a[|a| - 1].reading.Float? && b[|b| - 1].reading.Hist?)
  {
    var p, q := a[|a| - 1], b[|b| - 1];
    if p.reading.Float? && q.reading.Hist? {
      var i := FloatSource(b, SamplePair(p.t, p.reading.value));
      var j := HistogramSource(a, HistogramPair(q.t, q.reading.histogram));
    }
  }

  lemma {:induction false} LastAgrees(a: Timeline, b: Timeline)
    requires Ordered(a) && Ordered(b) && Floats(a) == Floats(b) && Histograms(a) == Histograms(b)
    requires a != [] && b != []
    ensures a[|a| - 1] == b[|b| - 1]
    ensures Floats(a[..|a| - 1]) == Floats(b[..|b| - 1]) && Histograms(a[..|a| - 1]) == Histograms(b[..|b| - 1])
  {
    LastKindsAgree(a, b);
    LastKindsAgree(b, a);
    var f, h := Floats(a), Histograms(a);
    if a[|a| - 1].reading.Float? {
      assert Floats(a[..|a| - 1]) == f[..|f| - 1] == Floats(b[..|b| - 1]);
      assert Histograms(a[..|a| - 1]) == h == Histograms(b[..|b| - 1]);
      assert f[|f| - 1] == SamplePair(a[|a| - 1].t, a[|a| - 1].reading.value);
      assert f[|f| - 1] == SamplePair(b[|b| - 1].t, b[|b| - 1].reading.value);
    } else {
      assert Histograms(a[..|a| - 1]) == h[..|h| - 1] == Histograms(b[..|b| - 1]);
      assert Floats(a[..|a| - 1]) == f == Floats(b[..|b| - 1]);
      assert h[|h| - 1] == HistogramPair(a[|a| - 1].t, a[|a| - 1].reading.histogram);
      assert h[|h| - 1] == HistogramPair(b[|b| - 1].t, b[|b| - 1].reading.histogram);
    }
  }

  /** A timeline is determined by its floats and its histograms, so splitting it loses nothing. */
  lemma {:induction false} TimelineUnique(a: Timeline, b: Timeline)
    requires Ordered(a) && Ordered(b) && Floats(a) == Floats(b) && Histograms(a) == Histograms(b)
    ensures a == b
  {
    SplitLength(a);
    SplitLength(b);
    if a != [] {
      LastAgrees(a, b);
      TimelineUnique(a[..|a| - 1], b[..|b| - 1]);
      assert a == a[..|a| - 1] + [a[|a| - 1]] && b == b[..|b| - 1] + [b[|b| - 1]];
    }
  }

  /**
   * Merges the fillers into the gaps of base.  streams are the inputs' timelines, base first; the result's
   * timeline is what `Fill` makes of them, and filled counts the real samples each filler contributed.
   */
  method PriorityMergeSampleStream(base: SampleStream, fillers: seq<SampleStream>, gap: int)
    returns (out: SampleStream, filled: seq<nat>, ghost streams: seq<Timeline>, ghost passed: nat)
    requires base.Sorted() && forall f <- fillers :: f.Sorted()
    ensures |streams| == |fillers| + 1 && IsTimeline(streams[0], base)
    ensures forall l :: 0 <= l < |fillers| ==> IsTimeline(streams[l + 1], fillers[l])
    ensures IsTimeline(Samples(Fill(None, None, streams, 0, if gap <= 0 then 1 else gap)), out)
    ensures |filled| == |fillers|
    ensures forall j ::
        0 <= j < |fillers| ==> filled[j] == Taken(Fill(None, None, streams, 0, if gap <= 0 then 1 else gap), j + 1)
    ensures passed <= TotalLength(streams, |streams|)
  {
    hide Fill, Samples, Taken, Travelled, Floats, Histograms, TotalLength;
    var g := if gap <= 0 then 1 else gap;
    var first := TimelineOf(base);
    var seqs := [first];
    for i := 0 to |fillers|
      invariant |seqs| == i + 1 && IsTimeline(seqs[0], base)
      invariant forall l :: 0 <= l < i ==> IsTimeline(seqs[l + 1], fillers[l])
      invariant forall l :: 0 <= l <= i ==> Ordered(seqs[l])
    {
      var t := TimelineOf(fillers[i]);
      seqs := seqs + [t];
    }
    var counts := new nat[|fillers|](_ => 0);
    var cursors := new nat[|seqs|](_ => 0);
    ghost var zero := cursors[..];
    var merged: Timeline;
    merged, passed := FillGaps(None, None, seqs, 0, g, counts, cursors);
    streams := seqs;
    AllZero(zero, |zero|);
    TravelledBound(cursors[..], streams, |streams|);
    MergedOrdered(streams, g);
    out := Split(merged);
    filled := counts[..];
  }

  function TotalLength(streams: seq<Timeline>, n: nat): nat
    requires n <= |streams|
  {
    if n == 0 then 0 else TotalLength(streams, n - 1) + |streams[n - 1]|
  }

  lemma {:induction false} AllZero(c: seq<nat>, n: nat)
    requires n <= |c| && forall i :: 0 <= i < |c| ==> c[i] == 0
    ensures Travelled(c, n) == 0
  {
    if n > 0 {
      AllZero(c, n - 1);
    }
  }

  lemma {:induction false} TravelledBound(c: seq<nat>, streams: seq<Timeline>, n: nat)
    requires |c| == |streams| && n <= |c| && forall l :: 0 <= l < |c| ==> c[l] <= |streams[l]|
    ensures Travelled(c, n) <= TotalLength(streams, n)
  {
    if n > 0 {
      TravelledBound(c, streams, n - 1);
    }
  }

  method Split(merged: Timeline) returns (out: SampleStream)
    ensures out == SampleStream(Floats(merged), Histograms(merged))
  {
    var values, histograms := [], [];
    for i := 0 to |merged|
      invariant values == Floats(merged[..i]) && histograms == Histograms(merged[..i])
    {
      assert merged[..i + 1][..i] == merged[..i];
      match merged[i].reading
      case Float(value) => values := values + [SamplePair(merged[i].t, value)];
      case Hist(histogram) => histograms := histograms + [HistogramPair(merged[i].t, histogram)];
    }
    assert merged[..|merged|] == merged;
    out := SampleStream(values, histograms);
  }

  // --- the automatic threshold ----------------------------------------------

  function Times(s: Timeline): seq<int> {
    seq(|s|, i requires 0 <= i < |s| => s[i].t)
  }

  /** The median of a timeline's positive intervals. */
  function MedianOf(line: Timeline): Option<int> {
    var gaps := PositiveGaps(Times(line), |line|);
    if gaps == [] then None else Some(Median(gaps))
  }

  method MedianInterval(s: SampleStream) returns (m: Option<int>)
    requires s.Sorted()
    ensures forall line :: IsTimeline(line, s) ==> m == MedianOf(line)
  {
    var ts := TimelineOf(s);
    var intervals: seq<int> := [];
    var i := 1;
    while i < |ts|
      invariant 1 <= i && (i <= |ts| || (i == 1 && ts == []))
      invariant ts != [] ==> intervals == PositiveGaps(Times(ts), i)
      invariant ts == [] ==> intervals == []
    {
      var d := ts[i].t - ts[i - 1].t;
      if d > 0 {
        intervals := intervals + [d];
      }
      i := i + 1;
    }
    m := if intervals == [] then None else Some(Median(intervals));
    assert m == MedianOf(ts);
    forall line | IsTimeline(line, s) ensures m == MedianOf(line) {
      TimelineUnique(ts, line);
    }
  }

  /** What GapThreshold returns for the timelines of base and of the hint, when there is one. */
  function Threshold(override: int, base: Timeline, hint: Option<Timeline>): int {
    if override > 0 then override
    else if MedianOf(base).Some? then 2 * MedianOf(base).value
    else if hint.Some? && MedianOf(hint.value).Some? then 2 * MedianOf(hint.value).value
    else 0
  }

  predicate IsHint(line: Option<Timeline>, hint: Option<SampleStream>) {
    line.Some? == hint.Some? && (hint.Some? ==> IsTimeline(line.value, hint.value))
  }

  method GapThreshold(override: int, base: SampleStream, hint: Option<SampleStream>) returns (gap: int)
    requires base.Sorted() && (hint.Some? ==> hint.value.Sorted())
    ensures forall line, other ::
        IsTimeline(line, base) && IsHint(other, hint) ==> gap == Threshold(override, line, other)
  {
    if override > 0 {
      return override;
    }
    var m := MedianInterval(base);
    if m.Some? {
      return 2 * m.value;
    }
    if hint.Some? {
      m := MedianInterval(hint.value);
      if m.Some? {
        return 2 * m.value;
      }
    }
    return 0;
  }

  /** The intervals the automatic threshold rests on: the base's, and the hint's only when the base has none. */
  function DecidingGaps(base: Timeline, hint: Option<Timeline>): seq<int> {
    var own := PositiveGaps(Times(base), |base|);
    if own != [] || hint.None? then own else PositiveGaps(Times(hint.value), |hint.value|)
  }

  /** Without an override the threshold is twice the interval that splits the intervals in half, 0 without any. */
  lemma {:induction false} ThresholdIsTwiceMedian(override: int, base: Timeline, hint: Option<Timeline>, v: int)
    ensures override > 0 ==> Threshold(override, base, hint) == override
    ensures override <= 0 && DecidingGaps(base, hint) == [] ==> Threshold(override, base, hint) == 0
    ensures override <= 0 && SplitsInHalf(DecidingGaps(base, hint), v) ==> Threshold(override, base, hint) == v + v
  {
    var gaps := DecidingGaps(base, hint);
    if gaps != [] {
      MedianSplits(gaps, v);
    }
  }

  lemma {:induction false} GridGaps(s: Timeline, phase: int, d: int, n: nat)
    requires d > 0 && GridStream(s, phase, d) && n <= |s|
    ensures forall g <- PositiveGaps(Times(s), n) :: g >= d
  {
    if n > 1 {
      GridGaps(s, phase, d, n - 1);
      GridStep(s[n - 2].t, s[n - 1].t, phase, d);
    }
  }

  /**
   * The automatic threshold meets the seam theorem's bound whenever most intervals of the base are single
   * steps: then a base with any holes is completed exactly, whatever the filler's own spacing.
   */
  lemma {:induction false} AutomaticSeam(streams: seq<Timeline>, hint: Option<Timeline>, phase: int, d: int)
    requires streams != [] && d > 0 && AllOnGrid(streams, phase, d)
    requires var gaps := PositiveGaps(Times(streams[0]), |streams[0]|);
             2 * multiset(gaps)[d] > |gaps|
    ensures Threshold(0, streams[0], hint) == 2 * d
    ensures forall x :: x in Fill(None, None, streams, 0, 2 * d) <==> FirstAvailable(x, streams, 0)
  {
    GridGaps(streams[0], phase, d, |streams[0]|);
    MajorityIsMedian(PositiveGaps(Times(streams[0]), |streams[0]|), d);
    SeamTheorem(streams, 2 * d, phase, d);
  }
}
