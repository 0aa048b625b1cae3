/**
 * Merging whole replica streams (MergeSampleStream in pkg/promhttputil/merge.go) and
 * folding n of them (mergeAntiAffinity in pkg/promclient/merge_seriesset.go).
 */
module HaMerge {
  import opened Wrappers
  import opened AntiAffinity

  /** One replica's answer for a series; histograms are opaque points. */
  datatype Stream<H> = Stream(metric: string, values: seq<Point<int>>, histograms: seq<Point<H>>) {
    ghost predicate Valid() {
      Increasing(values) && Increasing(histograms)
    }
  }

  /** The buffer both merges of a pair of streams use. */
  function EffectiveBuffer<H>(buffer: int, dynamic: bool, a: Stream<H>, b: Stream<H>): int {
    var (fa, fb) := if |b.values| > |a.values| then (b.values, a.values) else (a.values, b.values);
    var (ha, hb) := if |b.histograms| > |a.histograms| then (b.histograms, a.histograms)
        else (a.histograms, b.histograms);
    var floats := DynamicBuffer(Times(fa), Times(fb));
    var hists := DynamicBuffer(Times(ha), Times(hb));
    if dynamic && floats.Some? then floats.value
    else if dynamic && hists.Some? then hists.value
    else buffer
  }

  ghost predicate StreamMergeOf<H>(out: Stream<H>, a: Stream<H>, b: Stream<H>, buffer: int, dynamic: bool,
      preferMax: bool)
  {
    var effective := EffectiveBuffer(buffer, dynamic, a, b);
    && out.metric == a.metric
    && FloatMergeOf(out.values, a.values, b.values, effective, preferMax)
    && MergeOf(out.histograms, a.histograms, b.histograms, effective)
  }

  /** Fails exactly when the streams belong to different series. */
  method MergeSampleStream<H>(buffer: int, dynamic: bool, a: Stream<H>, b: Stream<H>, preferMax: bool)
    returns (out: Option<Stream<H>>)
    requires a.Valid() && b.Valid() && buffer >= 0
    ensures out.None? <==> a.metric != b.metric
    ensures out.Some? ==> out.value.Valid() && StreamMergeOf(out.value, a, b, buffer, dynamic, preferMax)
  {
    if a.metric != b.metric {
      return None;
    }
    var effective := buffer;
    if dynamic {
      var dyn := DynamicBufferForStream(a, b);
      if dyn.Some? {
        effective := dyn.value;
      }
    }
    var histograms := MergeHistogramSamples(effective, a.histograms, b.histograms);
    var values := MergeFloatSamples(effective, a.values, b.values, preferMax);
    return Some(Stream(a.metric, values, histograms));
  }

  method DynamicBufferForStream<H>(a: Stream<H>, b: Stream<H>) returns (buffer: Option<int>)
    ensures buffer.Some? ==> buffer.value >= 0
    ensures forall fallback :: EffectiveBuffer(fallback, true, a, b) == if buffer.Some? then buffer.value else fallback
  {
    var fa, fb := a.values, b.values;
    if |fb| > |fa| {
      fa, fb := fb, fa;
    }
    DynamicBufferNonNegative(Times(fa), Times(fb));
    buffer := DynamicAntiAffinityFromTimes(Times(fa), Times(fb));
    if buffer.Some? {
      return;
    }
    var ha, hb := a.histograms, b.histograms;
    if |hb| > |ha| {
      ha, hb := hb, ha;
    }
    DynamicBufferNonNegative(Times(ha), Times(hb));
    buffer := DynamicAntiAffinityFromTimes(Times(ha), Times(hb));
  }

  /** Two strictly increasing sequences without common times, in time order. */
  function Weave<V>(a: seq<Point<V>>, b: seq<Point<V>>): seq<Point<V>>
    decreases |a| + |b|
  {
    if a == [] then b
    else if b == [] then a
    else if a[|a| - 1].t > b[|b| - 1].t then Weave(a[..|a| - 1], b) + [a[|a| - 1]]
    else Weave(a, b[..|b| - 1]) + [b[|b| - 1]]
  }

  ghost function FarPoints<V>(b: seq<Point<V>>, a: seq<Point<V>>, buffer: int): seq<Point<V>> {
    if b == [] then []
    else FarPoints(b[..|b| - 1], a, buffer) + if Far(b[|b| - 1].t, a, buffer) then [b[|b| - 1]] else []
  }

  /** The merge of two streams as one expression. */
  ghost function Merge<V>(x: seq<Point<V>>, y: seq<Point<V>>, buffer: int): seq<Point<V>> {
    if |y| > |x| then Weave(y, FarPoints(x, y, buffer)) else Weave(x, FarPoints(y, x, buffer))
  }

  lemma {:induction false} FarPointsFacts<V>(b: seq<Point<V>>, a: seq<Point<V>>, buffer: int)
    requires Increasing(b)
    ensures Increasing(FarPoints(b, a, buffer))
    ensures forall p <- FarPoints(b, a, buffer) :: p in b && Far(p.t, a, buffer)
    ensures forall p <- b :: Far(p.t, a, buffer) ==> p in FarPoints(b, a, buffer)
  {
    if b != [] {
      var front, last := b[..|b| - 1], b[|b| - 1];
      FarPointsFacts(front, a, buffer);
      assert b == front + [last];
      assert forall p <- front :: p.t < last.t;
      if Far(last.t, a, buffer) {
        AppendLater(FarPoints(front, a, buffer), last);
      }
    }
  }

  /** No time occurs in both. */
  ghost predicate Disjoint<V>(a: seq<Point<V>>, b: seq<Point<V>>) {
    forall p, q :: p in a && q in b ==> p.t != q.t
  }

  lemma {:induction false} WeaveMembers<V>(a: seq<Point<V>>, b: seq<Point<V>>)
    ensures forall p <- Weave(a, b) :: p in a || p in b
    ensures forall p <- a :: p in Weave(a, b)
    ensures forall p <- b :: p in Weave(a, b)
    decreases |a| + |b|
  {
    if a != [] && b != [] {
      var p, q := a[|a| - 1], b[|b| - 1];
      if p.t > q.t {
        WeaveMembers(a[..|a| - 1], b);
        assert a == a[..|a| - 1] + [p];
      } else {
        WeaveMembers(a, b[..|b| - 1]);
        assert b == b[..|b| - 1] + [q];
      }
    }
  }

  lemma {:induction false} LastLeaves<V>(a: seq<Point<V>>, b: seq<Point<V>>)
    requires Increasing(a) && Increasing(b) && Disjoint(a, b) && a != [] && b != []
    ensures Increasing(a[..|a| - 1]) && Disjoint(a[..|a| - 1], b) && Disjoint(b, a[..|a| - 1])
    ensures forall p <- a[..|a| - 1] :: p.t < a[|a| - 1].t
    ensures a[|a| - 1].t != b[|b| - 1].t
    ensures a[|a| - 1].t > b[|b| - 1].t ==> forall p <- b :: p.t < a[|a| - 1].t
  {
    assert a[|a| - 1] in a && b[|b| - 1] in b;
  }

  lemma {:induction false} WeaveIncreasing<V>(a: seq<Point<V>>, b: seq<Point<V>>)
    requires Increasing(a) && Increasing(b) && Disjoint(a, b)
    ensures Increasing(Weave(a, b))
    decreases |a| + |b|
  {
    if a != [] && b != [] {
      hide Increasing;
      var p, q := a[|a| - 1], b[|b| - 1];
      LastLeaves(a, b);
      LastLeaves(b, a);
      if p.t > q.t {
        LastLeaves(a, b);
        WeaveIncreasing(a[..|a| - 1], b);
        WeaveMembers(a[..|a| - 1], b);
        AppendLater(Weave(a[..|a| - 1], b), p);
      } else {
        LastLeaves(b, a);
        WeaveIncreasing(a, b[..|b| - 1]);
        WeaveMembers(a, b[..|b| - 1]);
        AppendLater(Weave(a, b[..|b| - 1]), q);
      }
    }
  }

  lemma {:induction false} AppendLater<V>(s: seq<Point<V>>, p: Point<V>)
    requires Increasing(s) && forall q <- s :: q.t < p.t
    ensures Increasing(s + [p])
  {
  }

  /** The loops' result is the one expression. */
  lemma {:induction false} MergeIs<V>(out: seq<Point<V>>, x: seq<Point<V>>, y: seq<Point<V>>, buffer: int)
    requires Increasing(x) && Increasing(y) && buffer >= 0
    ensures MergeOf(out, x, y, buffer) <==> out == Merge(x, y, buffer)
  {
    var a: seq<Point<V>>, b: seq<Point<V>> := x, y;
    if |y| > |x| {
      a, b := y, x;
    }
    hide Increasing, Weave;
    var far := FarPoints(b, a, buffer);
    FarPointsFacts(b, a, buffer);
    forall p, q | p in a && q in far ensures p.t != q.t {
      assert Far(q.t, a, buffer);
    }
    WeaveIncreasing(a, far);
    WeaveMembers(a, far);
    if MergeOf(out, x, y, buffer) {
      SameElements(out, Merge(x, y, buffer));
    }
  }

  /** The first n streams folded from the left with one fixed buffer. */
  ghost function Fold<V>(streams: seq<seq<Point<V>>>, n: nat, buffer: int): seq<Point<V>>
    requires 0 < n <= |streams|
  {
    if n == 1 then streams[0] else Merge(Fold(streams, n - 1, buffer), streams[n - 1], buffer)
  }

  /** Every point of s has a point of out at most distance away. */
  ghost predicate Covered<V>(s: seq<Point<V>>, out: seq<Point<V>>, distance: int) {
    forall p <- s :: exists q <- out :: -distance <= q.t - p.t <= distance
  }

  lemma {:induction false} MergeCovers<V>(out: seq<Point<V>>, x: seq<Point<V>>, y: seq<Point<V>>, buffer: int)
    requires MergeOf(out, x, y, buffer) && Increasing(x) && Increasing(y) && buffer >= 0
    ensures Covered(x, out, buffer) && Covered(y, out, buffer)
    ensures |out| >= |x| && |out| >= |y|
    ensures forall p <- out :: p in x || p in y
  {
    var a: seq<Point<V>>, b: seq<Point<V>> := x, y;
    if |y| > |x| {
      a, b := y, x;
    }
    forall p <- a ensures exists q <- out :: -buffer <= q.t - p.t <= buffer {
      assert p in out;
    }
    forall p <- b ensures exists q <- out :: -buffer <= q.t - p.t <= buffer {
      if Far(p.t, a, buffer) {
        assert p in out;
      } else {
        var q :| q in a && p.t >= q.t - buffer && q.t + buffer >= p.t;
        assert q in out;
      }
    }
    LengthAtLeast(a, out);
  }

  lemma {:induction false} LengthAtLeast<V>(a: seq<Point<V>>, out: seq<Point<V>>)
    requires Increasing(a) && forall p <- a :: p in out
    ensures |out| >= |a|
  {
    if a != [] {
      var p := a[|a| - 1];
      assert p in a;
      var i :| 0 <= i < |out| && out[i] == p;
      var rest := out[..i] + out[i + 1..];
      forall q <- a[..|a| - 1] ensures q in rest {
        assert q in a;
        var j :| 0 <= j < |out| && out[j] == q;
        assert q.t < p.t && j != i;
        assert q == rest[if j < i then j else j - 1];
      }
      LengthAtLeast(a[..|a| - 1], rest);
    }
  }

  lemma {:induction false} FoldIncreasing<V>(streams: seq<seq<Point<V>>>, n: nat, buffer: int)
    requires 0 < n <= |streams| && buffer >= 0 && forall s <- streams :: Increasing(s)
    ensures Increasing(Fold(streams, n, buffer))
  {
    if n > 1 {
      FoldIncreasing(streams, n - 1, buffer);
      MergeIs(Fold(streams, n, buffer), Fold(streams, n - 1, buffer), streams[n - 1], buffer);
    }
  }

  /** Folding never leaves fewer samples than any one replica has. */
  lemma {:induction false} FoldLength<V>(streams: seq<seq<Point<V>>>, n: nat, buffer: int, k: nat)
    requires 0 < n <= |streams| && k < n && buffer >= 0 && forall s <- streams :: Increasing(s)
    ensures |Fold(streams, n, buffer)| >= |streams[k]|
  {
    if n > 1 {
      var prev, out := Fold(streams, n - 1, buffer), Fold(streams, n, buffer);
      FoldIncreasing(streams, n - 1, buffer);
      MergeIs(out, prev, streams[n - 1], buffer);
      MergeCovers(out, prev, streams[n - 1], buffer);
      if k < n - 1 {
        FoldLength(streams, n - 1, buffer, k);
      }
    }
  }

  /** Folding invents no sample. */
  lemma {:induction false} FoldOrigin<V>(streams: seq<seq<Point<V>>>, n: nat, buffer: int, p: Point<V>)
    requires 0 < n <= |streams| && buffer >= 0 && forall s <- streams :: Increasing(s)
    requires p in Fold(streams, n, buffer)
    ensures exists k :: 0 <= k < n && p in streams[k]
  {
    if n == 1 {
      assert p in streams[0];
    } else {
      var prev, out := Fold(streams, n - 1, buffer), Fold(streams, n, buffer);
      FoldIncreasing(streams, n - 1, buffer);
      MergeIs(out, prev, streams[n - 1], buffer);
      MergeCovers(out, prev, streams[n - 1], buffer);
      if p in prev {
        FoldOrigin(streams, n - 1, buffer, p);
        var k :| 0 <= k < n - 1 && p in streams[k];
      } else {
        assert p in streams[n - 1];
      }
    }
  }

  /** Every sample of every replica lies within (n - 1) * buffer of a sample of the fold. */
  lemma {:induction false} FoldCovers<V>(streams: seq<seq<Point<V>>>, n: nat, buffer: int, k: nat)
    requires 0 < n <= |streams| && k < n && buffer >= 0 && forall s <- streams :: Increasing(s)
    ensures Covered(streams[k], Fold(streams, n, buffer), (n - 1) * buffer)
  {
    hide Increasing, MergeOf, Merge, Covered;
    if n == 1 {
      CoveredSelf(streams[0]);
    } else {
      var prev, out, near, far := Fold(streams, n - 1, buffer), Fold(streams, n, buffer), (n - 2) * buffer,
          (n - 1) * buffer;
      assert far == near + buffer && near >= 0;
      FoldIncreasing(streams, n - 1, buffer);
      MergeIs(out, prev, streams[n - 1], buffer);
      MergeCovers(out, prev, streams[n - 1], buffer);
      if k < n - 1 {
        FoldCovers(streams, n - 1, buffer, k);
        CoveredTrans(streams[k], prev, out, near, buffer);
      } else {
        CoveredWider(streams[k], out, buffer, far);
      }
    }
  }

  /**
   * Replicas no longer than the first, each sample of theirs within the buffer of one of its, as when all scrape the
   * same targets in step: the fold is the first replica, whatever the others observed.
   */
  lemma {:induction false} FirstReplicaSuffices<V>(streams: seq<seq<Point<V>>>, n: nat, buffer: int)
    requires 0 < n <= |streams| && buffer >= 0 && forall s <- streams :: Increasing(s)
    requires forall k :: 0 <= k < n ==>
      |streams[k]| <= |streams[0]| && forall p <- streams[k] :: !Clear(streams[0], p.t, buffer)
    ensures Fold(streams, n, buffer) == streams[0]
  {
    hide Increasing, MergeOf, Merge, Clear;
    if n > 1 {
      var out, first, next := Fold(streams, n, buffer), streams[0], streams[n - 1];
      FirstReplicaSuffices(streams, n - 1, buffer);
      FoldIncreasing(streams, n, buffer);
      MergeIs(out, first, next, buffer);
      forall p <- out ensures p in first {
        MergedExactly(first, next, buffer, out, p);
      }
      forall p <- first ensures p in out {
        MergedExactly(first, next, buffer, out, p);
      }
      SameElements(out, first);
    }
  }

  lemma {:induction false} CoveredSelf<V>(s: seq<Point<V>>)
    ensures Covered(s, s, 0)
  {
    forall p <- s ensures exists q <- s :: 0 <= q.t - p.t <= 0 {
      assert 0 <= p.t - p.t <= 0;
    }
  }

  lemma {:induction false} CoveredTrans<V>(a: seq<Point<V>>, b: seq<Point<V>>, c: seq<Point<V>>, x: int, y: int)
    requires Covered(a, b, x) && Covered(b, c, y)
    ensures Covered(a, c, x + y)
  {
    forall p <- a ensures exists r <- c :: -(x + y) <= r.t - p.t <= x + y {
      var q :| q in b && -x <= q.t - p.t <= x;
      var r :| r in c && -y <= r.t - q.t <= y;
    }
  }

  lemma {:induction false} CoveredWider<V>(a: seq<Point<V>>, b: seq<Point<V>>, x: int, y: int)
    requires Covered(a, b, x) && x <= y
    ensures Covered(a, b, y)
  {
    forall p <- a ensures exists q <- b :: -y <= q.t - p.t <= y {
      var q :| q in b && -x <= q.t - p.t <= x;
    }
  }

  function Values<H>(streams: seq<Stream<H>>): seq<seq<Point<int>>> {
    seq(|streams|, i requires 0 <= i < |streams| => streams[i].values)
  }

  function HistogramsOf<H>(streams: seq<Stream<H>>): seq<seq<Point<H>>> {
    seq(|streams|, i requires 0 <= i < |streams| => streams[i].histograms)
  }

  /** steps[i] is what merging the first i + 1 series one after the other gives. */
  ghost predicate FoldSteps<H>(steps: seq<Stream<H>>, series: seq<Stream<H>>, buffer: int, dynamic: bool,
      preferMax: bool)
  {
    && |steps| == |series|
    && (steps != [] ==> steps[0] == series[0])
    && (forall i :: 0 < i < |steps| ==> StreamMergeOf(steps[i], steps[i - 1], series[i], buffer, dynamic, preferMax))
  }

  lemma {:induction false} StreamMergeUnique<H>(x: Stream<H>, y: Stream<H>, a: Stream<H>, b: Stream<H>, buffer: int,
      dynamic: bool, preferMax: bool)
    requires StreamMergeOf(x, a, b, buffer, dynamic, preferMax) && StreamMergeOf(y, a, b, buffer, dynamic, preferMax)
    ensures x == y
  {
    hide Merged, EffectiveBuffer, Kept;
    var effective := EffectiveBuffer(buffer, dynamic, a, b);
    var (fa, fb) := if |b.values| > |a.values| then (b.values, a.values) else (a.values, b.values);
    var (ha, hb) := if |b.histograms| > |a.histograms| then (b.histograms, a.histograms)
        else (a.histograms, b.histograms);
    MergedUnique(x.values, y.values, if fb == [] then fa else Kept(fa, fb, effective, preferMax), fa, fb, effective);
    MergedUnique(x.histograms, y.histograms, ha, ha, hb, effective);
  }

  /** The series determine the steps, with the dynamic buffer and a preference too. */
  lemma {:induction false} FoldDetermined<H>(xs: seq<Stream<H>>, ys: seq<Stream<H>>, series: seq<Stream<H>>,
      buffer: int, dynamic: bool, preferMax: bool, n: nat)
    requires FoldSteps(xs, series, buffer, dynamic, preferMax) && FoldSteps(ys, series, buffer, dynamic, preferMax)
        && n < |series|
    ensures xs[n] == ys[n]
  {
    hide StreamMergeOf;
    if n > 0 {
      FoldDetermined(xs, ys, series, buffer, dynamic, preferMax, n - 1);
      StreamMergeUnique(xs[n], ys[n], xs[n - 1], series[n], buffer, dynamic, preferMax);
    }
  }

  /** The merge function for same-labelled series of an HA group. */
  method MergeAntiAffinity<H>(buffer: int, dynamic: bool, preferMax: bool, series: seq<Stream<H>>)
    returns (merged: Option<Stream<H>>, ghost steps: seq<Stream<H>>)
    requires buffer >= 0 && forall s <- series :: s.Valid() && s.metric == series[0].metric
    ensures merged.None? <==> series == []
    ensures FoldSteps(steps, series, buffer, dynamic, preferMax)
    ensures merged.Some? ==>
        merged.value.Valid() && merged.value == steps[|series| - 1] && merged.value.metric == series[0].metric
    ensures merged.Some? && !dynamic && !preferMax ==>
      && merged.value.values == Fold(Values(series), |series|, buffer)
      && merged.value.histograms == Fold(HistogramsOf(series), |series|, buffer)
  {
    hide Increasing, MergeOf, FloatMergeOf, Merge, StreamMergeOf;
    if |series| == 0 {
      return None, [];
    }
    var folded := series[0];
    steps := [folded];
    for i := 1 to |series|
      invariant folded.Valid() && folded.metric == series[0].metric
      invariant |steps| == i && steps[0] == series[0] && folded == steps[i - 1]
      invariant forall j :: 0 < j < i ==> StreamMergeOf(steps[j], steps[j - 1], series[j], buffer, dynamic, preferMax)
      invariant !dynamic && !preferMax ==>
        folded.values == Fold(Values(series), i, buffer) && folded.histograms == Fold(HistogramsOf(series), i, buffer)
    {
      var next := MergeSampleStream(buffer, dynamic, folded, series[i], preferMax);
      if !dynamic && !preferMax {
        StreamMergeIs(next.value, folded, series[i], buffer);
      }
      steps := steps + [next.value];
      folded := next.value;
    }
    merged := Some(folded);
  }

  lemma {:induction false} StreamMergeIs<H>(out: Stream<H>, a: Stream<H>, b: Stream<H>, buffer: int)
    requires a.Valid() && b.Valid() && buffer >= 0 && StreamMergeOf(out, a, b, buffer, false, false)
    ensures out.values == Merge(a.values, b.values, buffer)
        && out.histograms == Merge(a.histograms, b.histograms, buffer)
  {
    hide MergeOf, FloatMergeOf, Merge, DynamicBuffer, Times;
    NoPreference(a.values, b.values, out.values, buffer);
    MergeIs(out.values, a.values, b.values, buffer);
    MergeIs(out.histograms, a.histograms, b.histograms, buffer);
  }

  lemma {:induction false} NoPreference(x: seq<Point<int>>, y: seq<Point<int>>, out: seq<Point<int>>, buffer: int)
    requires FloatMergeOf(out, x, y, buffer, false)
    ensures MergeOf(out, x, y, buffer)
  {
    var (a, b) := if |y| > |x| then (y, x) else (x, y);
    if b != [] {
      assert Kept(a, b, buffer, false) == a;
    }
  }

  /** The longer of two replicas' floats. */
  function Longer<H>(a: Stream<H>, b: Stream<H>): seq<Point<int>> {
    if |b.values| > |a.values| then b.values else a.values
  }

  predicate Uniform(s: seq<Point<int>>, d: int) {
    d > 0 && forall i :: 0 < i < |s| ==> s[i].t - s[i - 1].t == d
  }

  lemma {:induction false} UniformMerge(out: seq<Point<int>>, s: seq<Point<int>>, other: seq<Point<int>>,
      preferMax: bool, d: int, p: Point<int>)
    requires |s| >= 4 && Uniform(s, d) && p in out && s[0].t <= p.t <= s[|s| - 1].t
    requires Merged(out, if other == [] then s else Kept(s, other, d / 2, preferMax), s, other, d / 2)
    ensures p.t in Times(s)
  {
    hide Far, DynamicBuffer, Kept, Increasing;
    UniformAdmitsNothing(s, Times(other), d, p.t);
    var kept := if other == [] then s else Kept(s, other, d / 2, preferMax);
    assert p in kept;
    var k :| 0 <= k < |kept| && kept[k] == p;
    KeptTime(s, other, d / 2, preferMax, k);
    assert Times(s)[k] == p.t;
  }

  /**
   * With the dynamic buffer a replica whose samples, at least four, are uniformly spaced gets no sample of the other
   * one between its own.
   */
  lemma {:induction false} UniformStaysUniform<H>(out: Stream<H>, a: Stream<H>, b: Stream<H>, buffer: int,
      preferMax: bool, d: int)
    requires StreamMergeOf(out, a, b, buffer, true, preferMax) && |Longer(a, b)| >= 4 && Uniform(Longer(a, b), d)
    ensures var s := Longer(a, b);
            forall p <- out.values :: s[0].t <= p.t <= s[|s| - 1].t ==> p.t in Times(s)
  {
    hide Merged, DynamicBuffer, Kept, Times;
    var (s, other) := if |b.values| > |a.values| then (b.values, a.values) else (a.values, b.values);
    forall p <- out.values | s[0].t <= p.t <= s[|s| - 1].t ensures p.t in Times(s) {
      UniformAdmitsNothing(s, Times(other), d, p.t);
      UniformMerge(out.values, s, other, preferMax, d, p);
    }
  }

  lemma {:induction false} KeptTime(a: seq<Point<int>>, b: seq<Point<int>>, buffer: int, preferMax: bool, k: nat)
    requires a != [] && k < |a|
    ensures var kept := if b == [] then a else Kept(a, b, buffer, preferMax);
            |kept| == |a| && kept[k].t == a[k].t
  {
    if b != [] {
      KeptRaises(a, b, buffer, preferMax, k);
    }
  }
}
