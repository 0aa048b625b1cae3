/**
 * Converting between a series' one sample sequence and a stream's separate floats and
 * histograms (pkg/promclient/merge_seriesset.go), and back without loss.
 */
module SeriesConversion {
  import opened GapFill
  import opened PriorityMerge
  import Sorting

  function TimeOf(s: Sample): int {
    s.t
  }

  /** seriesToSampleStream: each sample goes to the list of its kind. */
  method SeriesToSampleStream(samples: seq<Sample>) returns (stream: SampleStream)
    ensures stream == SampleStream(Floats(samples), Histograms(samples))
  {
    var values, histograms := [], [];
    for i := 0 to |samples|
      invariant values == Floats(samples[..i]) && histograms == Histograms(samples[..i])
    {
      assert samples[..i + 1][..i] == samples[..i];
      match samples[i].reading
      case Float(value) => values := values + [SamplePair(samples[i].t, value)];
      case Hist(histogram) => histograms := histograms + [HistogramPair(samples[i].t, histogram)];
    }
    assert samples[..|samples|] == samples;
    return SampleStream(values, histograms);
  }

  function FloatSamples(values: seq<SamplePair>): seq<Sample> {
    seq(|values|, i requires 0 <= i < |values| => FromPair(values[i]))
  }

  function HistogramSamples(histograms: seq<HistogramPair>): seq<Sample> {
    seq(|histograms|, i requires 0 <= i < |histograms| => FromHistogram(histograms[i]))
  }

  /** sampleStreamToSeries: the floats, then the histograms, sorted stably by time. */
  method SampleStreamToSeries(stream: SampleStream) returns (samples: seq<Sample>)
    requires stream.Sorted()
    ensures IsTimeline(samples, stream)
  {
    samples := [];
    for i := 0 to |stream.values|
      invariant samples == FloatSamples(stream.values[..i])
    {
      samples := samples + [FromPair(stream.values[i])];
    }
    for i := 0 to |stream.histograms|
      invariant samples == FloatSamples(stream.values) + HistogramSamples(stream.histograms[..i])
    {
      samples := samples + [FromHistogram(stream.histograms[i])];
    }
    StreamTimesSorted(stream);
    SortedIsTimeline(stream.values, stream.histograms, |stream.histograms|);
    assert stream.histograms[..|stream.histograms|] == stream.histograms;
    samples := Sorting.StableSort(TimeOf, samples);
  }

  predicate TimesSorted(values: seq<SamplePair>, histograms: seq<HistogramPair>) {
    && (forall i, j :: 0 <= i < j < |values| ==> values[i].t <= values[j].t)
    && (forall i, j :: 0 <= i < j < |histograms| ==> histograms[i].t <= histograms[j].t)
  }

  lemma {:induction false} StreamTimesSorted(stream: SampleStream)
    requires stream.Sorted()
    ensures TimesSorted(stream.values, stream.histograms)
  {
    var v, h := (p: SamplePair) => p.t, (p: HistogramPair) => p.t;
    assert forall i, j :: 0 <= i < j < |stream.values| ==> v(stream.values[i]) <= v(stream.values[j]);
    assert forall i, j :: 0 <= i < j < |stream.histograms| ==> h(stream.histograms[i]) <= h(stream.histograms[j]);
  }

  lemma {:induction false} SortAppended(s: seq<Sample>, x: Sample)
    ensures Sorting.StableSort(TimeOf, s + [x]) == Sorting.Insert(TimeOf, Sorting.StableSort(TimeOf, s), x)
  {
    assert (s + [x])[..|s|] == s;
  }

  lemma {:induction false} OrderedAppended(s: seq<Sample>, x: Sample)
    requires Ordered(s) && forall y <- s :: Precedes(y, x)
    ensures Ordered(s + [x])
  {
  }

  lemma {:induction false} FloatsAlone(values: seq<SamplePair>, n: nat)
    requires n <= |values| && TimesSorted(values, [])
    ensures var s := FloatSamples(values[..n]);
            && Sorting.StableSort(TimeOf, s) == s && Floats(s) == values[..n] && Histograms(s) == [] && Ordered(s)
  {
    hide Sorting.StableSort, Floats, Histograms, Ordered;
    if n == 0 {
      NothingAlone();
    } else {
      FloatsAlone(values, n - 1);
      var front, x := FloatSamples(values[..n - 1]), FromPair(values[n - 1]);
      assert FloatSamples(values[..n]) == front + [x];
      assert values[..n] == values[..n - 1] + [values[n - 1]];
      SortAppended(front, x);
      TimelineTake(front, x);
      OrderedAppended(front, x);
    }
  }

  lemma {:induction false} NothingAlone()
    ensures Sorting.StableSort(TimeOf, []) == [] && Floats([]) == [] && Histograms([]) == [] && Ordered([])
  {
  }

  lemma {:induction false} HistogramListed(s: seq<Sample>, x: Sample)
    requires x in s && x.reading.Hist?
    ensures HistogramPair(x.t, x.reading.histogram) in Histograms(s)
  {
    var last := s[|s| - 1];
    if x != last {
      assert s == s[..|s| - 1] + [last];
      HistogramListed(s[..|s| - 1], x);
    }
  }

  /** A histogram not before those already there goes behind everything of its time. */
  lemma {:induction false} InsertHistogram(s: seq<Sample>, h: HistogramPair)
    requires Ordered(s) && forall x <- s :: x.reading.Hist? ==> x.t <= h.t
    ensures var r := Sorting.Insert(TimeOf, s, FromHistogram(h));
            && Ordered(r) && Floats(r) == Floats(s) && Histograms(r) == Histograms(s) + [h]
            && forall x <- r :: x in s || x == FromHistogram(h)
  {
    hide Floats, Histograms;
    var x := FromHistogram(h);
    if s == [] || s[|s| - 1].t <= h.t {
      TimelineTake(s, x);
      if s != [] {
        LastIsLatest(s);
      }
      OrderedAppended(s, x);
    } else {
      var front, last := s[..|s| - 1], s[|s| - 1];
      assert last in s && s == front + [last];
      InsertHistogram(front, h);
      var r := Sorting.Insert(TimeOf, front, x);
      TimelineTake(r, last);
      TimelineTake(front, last);
      LastIsLatest(s);
      OrderedAppended(r, last);
    }
  }

  lemma {:induction false} LastIsLatest(s: seq<Sample>)
    requires Ordered(s) && s != []
    ensures var front := s[..|s| - 1]; forall y <- front :: Precedes(y, s[|s| - 1])
    ensures forall y <- s :: y.t <= s[|s| - 1].t
  {
    var front, last := s[..|s| - 1], s[|s| - 1];
    forall y <- front ensures Precedes(y, last) {
      var i :| 0 <= i < |front| && front[i] == y;
      assert Precedes(s[i], s[|s| - 1]);
    }
    forall y <- s ensures y.t <= last.t {
      assert y in front || y == last;
    }
  }

  lemma {:induction false} SortedIsTimeline(values: seq<SamplePair>, histograms: seq<HistogramPair>, n: nat)
    requires n <= |histograms| && TimesSorted(values, histograms)
    ensures IsTimeline(Sorting.StableSort(TimeOf, FloatSamples(values) + HistogramSamples(histograms[..n])),
        SampleStream(values, histograms[..n]))
  {
    hide Sorting.StableSort, Sorting.Insert, Floats, Histograms, Ordered;
    if n == 0 {
      FloatsAlone(values, |values|);
      assert values[..|values|] == values;
      assert FloatSamples(values) + HistogramSamples(histograms[..0]) == FloatSamples(values);
    } else {
      SortedIsTimeline(values, histograms, n - 1);
      var h := histograms[n - 1];
      var front := FloatSamples(values) + HistogramSamples(histograms[..n - 1]);
      assert FloatSamples(values) + HistogramSamples(histograms[..n]) == front + [FromHistogram(h)];
      assert histograms[..n] == histograms[..n - 1] + [h];
      var sorted := Sorting.StableSort(TimeOf, front);
      forall x <- sorted ensures x.reading.Hist? ==> x.t <= h.t {
        if x.reading.Hist? {
          HistogramListed(sorted, x);
          var i :| 0 <= i < n - 1 && histograms[i] == HistogramPair(x.t, x.reading.histogram);
        }
      }
      InsertHistogram(sorted, h);
      SortAppended(front, FromHistogram(h));
    }
  }

  /** A series in timeline order survives the way to a stream and back. */
  lemma {:induction false} RoundTrip(samples: seq<Sample>, back: seq<Sample>)
    requires Ordered(samples) && IsTimeline(back, SampleStream(Floats(samples), Histograms(samples)))
    ensures back == samples
  {
    TimelineUnique(back, samples);
  }
}
