/**
 * Decoding VictoriaMetrics exports (pkg/promclient/vm_export.go): lines are grouped by labels,
 * each group's samples are sorted and compacted within the same array.  Label sets stand as
 * their rank in the order the series are returned in.
 */
module VmExport {
  import opened Wrappers
  import Sorting

  datatype Sample = Sample(t: int, v: real)

  /** One exported line. */
  datatype Line = Line(labels: int, values: seq<real>, timestamps: seq<int>) {
    predicate Valid() {
      |values| == |timestamps|
    }

    function Samples(): seq<Sample> {
      if Valid() then seq(|values|, i requires 0 <= i < |values| => Sample(timestamps[i], values[i])) else []
    }
  }

  datatype ExportSeries = ExportSeries(labels: int, samples: seq<Sample>)

  function TimeOf(s: Sample): int {
    s.t
  }

  function LabelsOf(s: ExportSeries): int {
    s.labels
  }

  // --- compaction ------------------------------------------------------------

  /** Those of the first n samples that no sample of the same time follows directly. */
  function Compacted(s: seq<Sample>, n: nat): seq<Sample>
    requires n <= |s|
  {
    if n == 0 then []
    else Compacted(s, n - 1) + if n == |s| || s[n].t != s[n - 1].t then [s[n - 1]] else []
  }

  /** Sorts and compacts within one array: writing stays behind reading, so nothing unread is overwritten. */
  method SortExportSamples(a: array<Sample>) returns (n: nat)
    modifies a
    ensures n <= a.Length
    ensures a[..n] == (var sorted := Sorting.StableSort(TimeOf, old(a[..])); Compacted(sorted, |sorted|))
  {
    hide Sorting.StableSort;
    ghost var sorted := Sorting.StableSort(TimeOf, a[..]);
    SortStable(a);
    n := 0;
    for i := 0 to a.Length
      invariant n <= i && a[..n] == Compacted(sorted, i)
      invariant a[i..] == sorted[i..]
    {
      assert a[i] == a[i..][0] == sorted[i];
      var s := a[i];
      assert i + 1 < a.Length ==> a[i + 1] == a[i..][1] == sorted[i + 1];
      if i + 1 < a.Length && a[i + 1].t == s.t {
        assert a[i + 1..] == a[i..][1..];
        continue;
      }
      PutKeepsTail(a[..], n, i, s);
      a[n] := s;
      n := n + 1;
    }
  }

  lemma {:induction false} PutKeepsTail(s: seq<Sample>, n: nat, i: nat, x: Sample)
    requires n <= i < |s|
    ensures s[n := x][i + 1..] == s[i..][1..]
    ensures s[n := x][..n + 1] == s[..n] + [x]
  {
  }

  /** The library's stable sort. */
  method SortStable(a: array<Sample>)
    modifies a
    ensures a[..] == Sorting.StableSort(TimeOf, old(a[..]))
  {
    var sorted := Sorting.StableSort(TimeOf, a[..]);
    Sorting.StableSortFacts(TimeOf, a[..]);
    forall i | 0 <= i < a.Length {
      a[i] := sorted[i];
    }
  }

  // --- grouping ------------------------------------------------------------------

  /** The samples the first n lines hold for the given labels, in the order exported. */
  function SamplesFor(lines: seq<Line>, labels: int, n: nat): seq<Sample>
    requires n <= |lines|
  {
    if n == 0 then []
    else SamplesFor(lines, labels, n - 1) + if lines[n - 1].labels == labels then lines[n - 1].Samples() else []
  }

  function Series(lines: seq<Line>, labels: int): ExportSeries
  {
    var sorted := Sorting.StableSort(TimeOf, SamplesFor(lines, labels, |lines|));
    ExportSeries(labels, Compacted(sorted, |sorted|))
  }

  /** out has exactly one series per label set of the lines, by ascending labels, with the samples of all its lines. */
  ghost predicate Decodes(out: seq<ExportSeries>, lines: seq<Line>)
  {
    && Sorting.StrictlySortedBy(LabelsOf, out)
    && (forall l <- lines :: exists s <- out :: s.labels == l.labels)
    && (forall s <- out :: Occurs(s.labels, lines) && s == Series(lines, s.labels))
  }

  ghost predicate Occurs(labels: int, lines: seq<Line>) {
    exists l <- lines :: l.labels == labels
  }

  /** byLabel locates the groups. */
  ghost predicate Located(series: seq<ExportSeries>, byLabel: map<int, nat>) {
    && (forall labels <- byLabel :: byLabel[labels] < |series| && series[byLabel[labels]].labels == labels)
    && (forall k :: 0 <= k < |series| ==> GroupOf(series[k], byLabel, k))
  }

  predicate GroupOf(s: ExportSeries, byLabel: map<int, nat>, k: nat) {
    s.labels in byLabel && byLabel[s.labels] == k
  }

  /** Every group has what the first n lines hold for it. */
  ghost predicate Holds(series: seq<ExportSeries>, lines: seq<Line>, n: nat)
    requires n <= |lines|
  {
    forall k :: 0 <= k < |series| ==> series[k].samples == SamplesFor(lines, series[k].labels, n)
  }

  /** The groups are exactly the labels of the first n lines. */
  ghost predicate Complete(byLabel: map<int, nat>, lines: seq<Line>, n: nat)
    requires n <= |lines|
  {
    && (forall i :: 0 <= i < n ==> lines[i].labels in byLabel)
    && (forall labels <- byLabel :: Occurs(labels, lines))
    && (forall labels :: labels !in byLabel ==> SamplesFor(lines, labels, n) == [])
  }

  /** Where the grouping loop stands after n lines. */
  ghost predicate Grouped(series: seq<ExportSeries>, byLabel: map<int, nat>, lines: seq<Line>, n: nat)
    requires n <= |lines|
  {
    Located(series, byLabel) && Holds(series, lines, n) && Complete(byLabel, lines, n)
  }

  lemma {:induction false} SamplesNext(lines: seq<Line>, labels: int, n: nat)
    requires n < |lines|
    ensures SamplesFor(lines, labels, n + 1) == SamplesFor(lines, labels, n)
        + if lines[n].labels == labels then lines[n].Samples() else []
    ensures lines[n].labels != labels ==> SamplesFor(lines, labels, n + 1) == SamplesFor(lines, labels, n)
  {
  }

  lemma {:induction false} CompleteNext(byLabel: map<int, nat>, lines: seq<Line>, n: nat, k: nat)
    requires n < |lines| && Complete(byLabel, lines, n)
        && (lines[n].labels in byLabel ==> byLabel[lines[n].labels] == k)
    ensures Complete(byLabel[lines[n].labels := k], lines, n + 1)
  {
    hide SamplesFor, Line.Samples;
    var after := byLabel[lines[n].labels := k];
    assert lines[n] in lines;
    assert Occurs(lines[n].labels, lines);
    forall labels | labels !in after ensures SamplesFor(lines, labels, n + 1) == [] {
      SamplesNext(lines, labels, n);
    }
  }

  lemma {:induction false} GroupNext(series: seq<ExportSeries>, byLabel: map<int, nat>, lines: seq<Line>, n: nat)
    requires n < |lines| && Grouped(series, byLabel, lines, n)
    ensures var labels, samples := lines[n].labels, lines[n].Samples();
            if labels in byLabel then
              var k := byLabel[labels];
              Grouped(series[k := ExportSeries(labels, series[k].samples + samples)], byLabel, lines, n + 1)
            else
              Grouped(series + [ExportSeries(labels, samples)], byLabel[labels := |series|], lines, n + 1)
  {
    hide SamplesFor, Line.Samples, Complete;
    var labels, samples := lines[n].labels, lines[n].Samples();
    SamplesNext(lines, labels, n);
    forall k | 0 <= k < |series| ensures GroupOf(series[k], byLabel, k) {
    }
    forall k | 0 <= k < |series| && series[k].labels != labels
      ensures series[k].samples == SamplesFor(lines, series[k].labels, n + 1)
    {
      SamplesNext(lines, series[k].labels, n);
    }
    if labels in byLabel {
      CompleteNext(byLabel, lines, n, byLabel[labels]);
      assert byLabel[labels := byLabel[labels]] == byLabel;
    } else {
      NotYet(byLabel, lines, n, labels);
      assert [] + samples == samples;
      CompleteNext(byLabel, lines, n, |series|);
    }
  }

  lemma {:induction false} NotYet(byLabel: map<int, nat>, lines: seq<Line>, n: nat, labels: int)
    requires n <= |lines| && Complete(byLabel, lines, n) && labels !in byLabel
    ensures SamplesFor(lines, labels, n) == []
  {
  }

  lemma {:induction false} GroupFound(series: seq<ExportSeries>, byLabel: map<int, nat>, lines: seq<Line>, n: nat,
      labels: int)
    requires n <= |lines| && Grouped(series, byLabel, lines, n)
    ensures labels in byLabel ==> byLabel[labels] < |series|
  {
  }

  lemma {:induction false} GroupsDistinct(series: seq<ExportSeries>, byLabel: map<int, nat>, lines: seq<Line>)
    requires Grouped(series, byLabel, lines, |lines|)
    ensures Sorting.DistinctKeys(LabelsOf, series)
    ensures forall l <- lines :: exists s <- series :: s.labels == l.labels
    ensures forall s <- series :: Occurs(s.labels, lines) && s.samples == SamplesFor(lines, s.labels, |lines|)
  {
    hide SamplesFor;
    forall i, j | 0 <= i < j < |series| ensures LabelsOf(series[i]) != LabelsOf(series[j]) {
      assert GroupOf(series[i], byLabel, i) && GroupOf(series[j], byLabel, j);
    }
    forall l <- lines ensures exists s <- series :: s.labels == l.labels {
      var i :| 0 <= i < |lines| && lines[i] == l;
      assert lines[i].labels in byLabel;
      assert series[byLabel[l.labels]] in series;
    }
    forall s <- series ensures Occurs(s.labels, lines) && s.samples == SamplesFor(lines, s.labels, |lines|) {
      var k :| 0 <= k < |series| && series[k] == s;
      assert GroupOf(series[k], byLabel, k);
    }
  }

  /** Sorts and compacts every group. */
  method CompactAll(series: seq<ExportSeries>) returns (out: seq<ExportSeries>)
    ensures |out| == |series|
    ensures forall k :: 0 <= k < |out| ==> out[k] == Finished(series[k])
  {
    out := [];
    for k := 0 to |series|
      invariant |out| == k && forall j :: 0 <= j < k ==> out[j] == Finished(series[j])
    {
      var samples := series[k].samples;
      var a := new Sample[|samples|](i requires 0 <= i < |samples| => samples[i]);
      assert a[..] == samples;
      var n := SortExportSamples(a);
      out := out + [ExportSeries(series[k].labels, a[..n])];
    }
  }

  function Finished(s: ExportSeries): ExportSeries {
    var sorted := Sorting.StableSort(TimeOf, s.samples);
    ExportSeries(s.labels, Compacted(sorted, |sorted|))
  }

  lemma {:induction false} DecodedIs(series: seq<ExportSeries>, ordered: seq<ExportSeries>, out: seq<ExportSeries>,
      lines: seq<Line>)
    requires forall l <- lines :: exists s <- series :: s.labels == l.labels
    requires forall s <- series :: Occurs(s.labels, lines) && s.samples == SamplesFor(lines, s.labels, |lines|)
    requires Sorting.StrictlySortedBy(LabelsOf, ordered) && (forall s <- series :: s in ordered)
        && (forall s <- ordered :: s in series)
    requires |out| == |ordered| && forall k :: 0 <= k < |out| ==> out[k] == Finished(ordered[k])
    ensures Decodes(out, lines)
  {
    hide SamplesFor, Compacted, Sorting.StableSort;
    forall i, j | 0 <= i < j < |out| ensures LabelsOf(out[i]) < LabelsOf(out[j]) {
      assert LabelsOf(ordered[i]) < LabelsOf(ordered[j]);
    }
    forall l <- lines ensures exists s <- out :: s.labels == l.labels {
      var s :| s in series && s.labels == l.labels;
      var k :| 0 <= k < |ordered| && ordered[k] == s;
      assert out[k] in out;
    }
    forall s <- out ensures Occurs(s.labels, lines) && s == Series(lines, s.labels) {
      var k :| 0 <= k < |out| && out[k] == s;
      assert ordered[k] in series;
    }
  }

  /** Fails when some line has not as many values as timestamps. */
  method DecodeExportSeriesSet(lines: seq<Line>) returns (out: Option<seq<ExportSeries>>)
    ensures out.Some? <==> forall l <- lines :: l.Valid()
    ensures out.Some? ==> Decodes(out.value, lines)
  {
    hide Decodes, SamplesFor, Grouped;
    var series: seq<ExportSeries> := [];
    var byLabel: map<int, nat> := map[];
    GroupStart(lines);
    for n := 0 to |lines|
      invariant Grouped(series, byLabel, lines, n)
      invariant forall i :: 0 <= i < n ==> lines[i].Valid()
    {
      var line := lines[n];
      if !line.Valid() {
        return None;
      }
      GroupNext(series, byLabel, lines, n);
      GroupFound(series, byLabel, lines, n, line.labels);
      if line.labels !in byLabel {
        byLabel := byLabel[line.labels := |series|];
        series := series + [ExportSeries(line.labels, line.Samples())];
      } else {
        var k := byLabel[line.labels];
        series := series[k := ExportSeries(line.labels, series[k].samples + line.Samples())];
      }
    }
    GroupsDistinct(series, byLabel, lines);
    var ordered := Sorting.StableSort(LabelsOf, series);
    Sorting.StableSortMembers(LabelsOf, series);
    Sorting.StableSortStrict(LabelsOf, series);
    var decoded := CompactAll(ordered);
    DecodedIs(series, ordered, decoded, lines);
    return Some(decoded);
  }

  lemma {:induction false} GroupStart(lines: seq<Line>)
    ensures Grouped([], map[], lines, 0)
  {
  }

  // --- what comes out ---------------------------------------------------------------

  /** The samples of time t, in the order exported. */
  function AtTime(s: seq<Sample>, t: int): seq<Sample> {
    Sorting.WithKey(TimeOf, t, s)
  }

  lemma {:induction false} AtTimeNone(s: seq<Sample>, t: int)
    requires forall x <- s :: x.t != t
    ensures AtTime(s, t) == []
  {
    if s != [] {
      assert s[|s| - 1] in s;
      AtTimeNone(s[..|s| - 1], t);
    }
  }

  lemma {:induction false} AtTimeMember(s: seq<Sample>, t: int)
    ensures forall x <- AtTime(s, t) :: x in s && x.t == t
  {
    if s != [] {
      AtTimeMember(s[..|s| - 1], t);
    }
  }

  /** In time order the last sample of a time is the last one exported for it. */
  lemma {:induction false} LastOfTime(s: seq<Sample>, i: nat)
    requires Sorting.SortedBy(TimeOf, s) && i < |s| && (i + 1 == |s| || s[i + 1].t != s[i].t)
    ensures var same := AtTime(s, s[i].t); same != [] && same[|same| - 1] == s[i]
  {
    var front := s[..|s| - 1];
    if i < |s| - 1 {
      assert TimeOf(s[i]) <= TimeOf(s[i + 1]) && TimeOf(s[i + 1]) <= TimeOf(s[|s| - 1]);
      LastOfTime(front, i);
      assert AtTime(s, s[i].t) == AtTime(front, s[i].t) + [];
    }
  }

  lemma {:induction false} CompactedFrom(s: seq<Sample>, n: nat, x: Sample)
    requires n <= |s|
    ensures x in Compacted(s, n) <==> exists i :: 0 <= i < n && s[i] == x && (i + 1 == |s| || s[i + 1].t != s[i].t)
  {
    if n > 0 {
      CompactedFrom(s, n - 1, x);
      if i :| 0 <= i < n - 1 && s[i] == x && (i + 1 == |s| || s[i + 1].t != s[i].t) {
        assert x in Compacted(s, n - 1);
      }
      if x in Compacted(s, n) && x !in Compacted(s, n - 1) {
        assert x == s[n - 1];
      }
    }
  }

  lemma {:induction false} CompactedEarlier(s: seq<Sample>, n: nat, x: Sample)
    requires 0 < n <= |s| && Sorting.SortedBy(TimeOf, s) && x in Compacted(s, n - 1)
    ensures TimeOf(x) < TimeOf(s[n - 1])
  {
    CompactedFrom(s, n - 1, x);
    var i :| 0 <= i < n - 1 && s[i] == x && (i + 1 == |s| || s[i + 1].t != s[i].t);
    assert TimeOf(s[i]) <= TimeOf(s[i + 1]) && TimeOf(s[i + 1]) <= TimeOf(s[n - 1]);
  }

  lemma {:induction false} CompactedIncreases(s: seq<Sample>, n: nat)
    requires n <= |s| && Sorting.SortedBy(TimeOf, s)
    ensures Sorting.StrictlySortedBy(TimeOf, Compacted(s, n))
  {
    hide Sorting.SortedBy;
    if n > 0 {
      CompactedIncreases(s, n - 1);
      var front := Compacted(s, n - 1);
      if n == |s| || s[n].t != s[n - 1].t {
        forall x <- front ensures TimeOf(x) < TimeOf(s[n - 1]) {
          CompactedEarlier(s, n, x);
        }
        Sorting.SortedFront(TimeOf, front, s[n - 1]);
      }
    }
  }

  lemma {:induction false} LastPosition(s: seq<Sample>, t: int) returns (i: nat)
    requires Sorting.SortedBy(TimeOf, s) && exists x <- s :: x.t == t
    ensures i < |s| && s[i].t == t && (i + 1 == |s| || s[i + 1].t != t)
  {
    var last := |s| - 1;
    if s[last].t == t {
      i := last;
    } else {
      var k :| 0 <= k < |s| && s[k].t == t;
      assert s[..last][k] in s[..last];
      i := LastPosition(s[..last], t);
    }
  }

  /**
   * A decoded series is in strict time order, and holds for every time exported, and only for those, the value
   * exported last.
   */
  lemma {:induction false} LastExportedKept(samples: seq<Sample>, x: Sample)
    ensures var sorted := Sorting.StableSort(TimeOf, samples);
            var out, same := Compacted(sorted, |sorted|), AtTime(samples, x.t);
            Sorting.StrictlySortedBy(TimeOf, out) && (x in out <==> same != [] && same[|same| - 1] == x)
  {
    var sorted := Sorting.StableSort(TimeOf, samples);
    Sorting.StableSortFacts(TimeOf, samples);
    Sorting.StableSortKeepsTies(TimeOf, samples, x.t);
    hide Sorting.StableSort, Sorting.WithKey;
    CompactedIncreases(sorted, |sorted|);
    CompactedFrom(sorted, |sorted|, x);
    var same := AtTime(samples, x.t);
    if x in Compacted(sorted, |sorted|) {
      var i :| 0 <= i < |sorted| && sorted[i] == x && (i + 1 == |sorted| || sorted[i + 1].t != sorted[i].t);
      LastOfTime(sorted, i);
    } else if same != [] {
      AtTimeMember(sorted, x.t);
      assert same[0] in sorted;
      var i := LastPosition(sorted, x.t);
      LastOfTime(sorted, i);
    }
  }

  /** What is decoded of one series' exported samples. */
  function Decoded(samples: seq<Sample>): seq<Sample> {
    var sorted := Sorting.StableSort(TimeOf, samples);
    Compacted(sorted, |sorted|)
  }

  /** The sample exported last for time t, if any. */
  function LastAt(samples: seq<Sample>, t: int): Option<Sample> {
    var same := AtTime(samples, t);
    if same == [] then None else Some(same[|same| - 1])
  }

  lemma {:induction false} LastDecoded(samples: seq<Sample>, x: Sample)
    ensures Sorting.StrictlySortedBy(TimeOf, Decoded(samples))
    ensures x in Decoded(samples) <==> LastAt(samples, x.t) == Some(x)
    ensures forall t :: LastAt(samples, t).Some? ==> LastAt(samples, t).value.t == t
  {
    LastExportedKept(samples, x);
    hide Compacted, Sorting.StableSort, AtTime;
    forall t | LastAt(samples, t).Some? ensures LastAt(samples, t).value.t == t {
      AtTimeMember(samples, t);
    }
  }

  /** Two lists of samples decode alike if and only if they export the same last value for every time. */
  lemma {:induction false} SamplesAlike(p: seq<Sample>, q: seq<Sample>)
    ensures Decoded(p) == Decoded(q) <==> forall t :: LastAt(p, t) == LastAt(q, t)
  {
    hide Decoded, LastAt;
    forall x ensures x in Decoded(p) <==> LastAt(p, x.t) == Some(x) {
      LastDecoded(p, x);
    }
    forall x ensures x in Decoded(q) <==> LastAt(q, x.t) == Some(x) {
      LastDecoded(q, x);
    }
    LastDecoded(p, Sample(0, 0.0));
    LastDecoded(q, Sample(0, 0.0));
    if forall t :: LastAt(p, t) == LastAt(q, t) {
      Sorting.SameElements(TimeOf, Decoded(p), Decoded(q));
    }
    if Decoded(p) == Decoded(q) {
      forall t ensures LastAt(p, t) == LastAt(q, t) {
        LastFound(p, q, t);
        LastFound(q, p, t);
      }
    }
  }

  lemma {:induction false} LastFound(p: seq<Sample>, q: seq<Sample>, t: int)
    requires Decoded(p) == Decoded(q)
    ensures LastAt(p, t).Some? ==> LastAt(q, t) == LastAt(p, t)
  {
    hide Decoded, LastAt;
    if LastAt(p, t).Some? {
      var x := LastAt(p, t).value;
      LastDecoded(p, x);
      LastDecoded(q, x);
    }
  }

  // --- the same by positions in the lines ------------------------------------------------

  predicate AllValid(lines: seq<Line>) {
    forall l <- lines :: |l.values| == |l.timestamps|
  }

  /** Entry i of line m is the last of the first n lines' entries for its label set and time. */
  predicate LastEntry(lines: seq<Line>, n: nat, m: nat, i: nat) {
    && m < n <= |lines| && i < |lines[m].timestamps|
    && (forall j :: i < j < |lines[m].timestamps| ==> lines[m].timestamps[j] != lines[m].timestamps[i])
    && (forall k :: m < k < n && lines[k].labels == lines[m].labels ==>
          lines[m].timestamps[i] !in lines[k].timestamps)
  }

  /** That entry exports p for the given labels. */
  predicate LastEntryIs(lines: seq<Line>, m: nat, i: nat, labels: int, p: Sample) {
    && LastEntry(lines, |lines|, m, i) && lines[m].labels == labels
    && i < |lines[m].values| && p.t == lines[m].timestamps[i] && p.v == lines[m].values[i]
  }

  lemma {:induction false} LastAtNext(s: seq<Sample>, x: Sample, t: int)
    ensures LastAt(s + [x], t) == if x.t == t then Some(x) else LastAt(s, t)
  {
    assert (s + [x])[..|s|] == s;
  }

  lemma {:induction false} LastAtConcat(a: seq<Sample>, b: seq<Sample>, t: int)
    ensures LastAt(a + b, t) == if LastAt(b, t).Some? then LastAt(b, t) else LastAt(a, t)
  {
    Sorting.WithKeyConcat(TimeOf, t, a, b);
  }

  /** Of the first k entries of a line the last one at time t. */
  lemma {:induction false} LastInLine(l: Line, k: nat, t: int) returns (i: nat)
    requires |l.values| == |l.timestamps| && k <= |l.timestamps|
    ensures var last := LastAt(l.Samples()[..k], t);
            if last.None? then forall j :: 0 <= j < k ==> l.timestamps[j] != t
            else
              && i < k && l.timestamps[i] == t && last == Some(Sample(t, l.values[i]))
              && forall j :: i < j < k ==> l.timestamps[j] != t
  {
    hide LastAt;
    i := 0;
    if k == 0 {
      LastOfNone(t);
      assert l.Samples()[..k] == [];
    } else {
      i := LastInLine(l, k - 1, t);
      assert l.Samples()[..k] == l.Samples()[..k - 1] + [l.Samples()[k - 1]];
      LastAtNext(l.Samples()[..k - 1], l.Samples()[k - 1], t);
      if l.timestamps[k - 1] == t {
        i := k - 1;
      }
    }
  }

  lemma {:induction false} LastOfNone(t: int)
    ensures LastAt([], t) == None
  {
  }

  /** Of the first n lines the last entry for a label set and time. */
  lemma {:induction false} LastInLines(lines: seq<Line>, labels: int, n: nat, t: int) returns (m: nat, i: nat)
    requires n <= |lines| && AllValid(lines)
    ensures var last := LastAt(SamplesFor(lines, labels, n), t);
            if last.None? then forall k :: 0 <= k < n && lines[k].labels == labels ==> t !in lines[k].timestamps
            else
              && LastEntry(lines, n, m, i) && lines[m].labels == labels && lines[m].timestamps[i] == t
              && last == Some(Sample(t, lines[m].values[i]))
  {
    hide LastAt, SamplesFor, Line.Samples;
    m, i := 0, 0;
    if n == 0 {
      LastOfNone(t);
      NoLines(lines, labels);
    } else {
      var l := lines[n - 1];
      m, i := LastInLines(lines, labels, n - 1, t);
      SamplesNext(lines, labels, n - 1);
      if l.labels == labels {
        LastAtConcat(SamplesFor(lines, labels, n - 1), l.Samples(), t);
        var j := LastInLine(l, |l.timestamps|, t);
        WholeLine(l);
        if LastAt(l.Samples(), t).Some? {
          m, i := n - 1, j;
        }
      }
    }
  }

  lemma {:induction false} WholeLine(l: Line)
    requires |l.values| == |l.timestamps|
    ensures l.Samples()[..|l.timestamps|] == l.Samples()
  {
  }

  /**
   * The samples of a decoded series, by the lines: entry i of a line comes out, the value at i at the timestamp at i,
   * unless a later entry has the same label set and time; and nothing else comes out.
   */
  lemma {:induction false} DecodedExactly(x: seq<ExportSeries>, lines: seq<Line>, s: ExportSeries, p: Sample)
    requires Decodes(x, lines) && AllValid(lines) && s in x
    ensures p in s.samples <==> exists m: nat, i: nat :: LastEntryIs(lines, m, i, s.labels, p)
    ensures forall j, k :: 0 <= j < k < |s.samples| ==> s.samples[j].t < s.samples[k].t
  {
    hide SamplesFor, LastAt, Decoded, Series, Line.Samples;
    var n := |lines|;
    SeriesIs(lines, s.labels);
    var samples := SamplesFor(lines, s.labels, n);
    LastDecoded(samples, p);
    assert forall k :: 0 <= k < |s.samples| ==> TimeOf(s.samples[k]) == s.samples[k].t;
    var m, i := LastInLines(lines, s.labels, n, p.t);
    if a: nat, b: nat :| LastEntryIs(lines, a, b, s.labels, p) {
      OneLastEntry(lines, a, b, m, i);
    }
    assert LastAt(samples, p.t) == Some(p) ==> LastEntryIs(lines, m, i, s.labels, p);
  }

  lemma {:induction false} OneLastEntry(lines: seq<Line>, a: nat, b: nat, m: nat, i: nat)
    requires LastEntry(lines, |lines|, a, b)
    ensures LastEntry(lines, |lines|, m, i) ==>
      lines[m].labels == lines[a].labels && lines[m].timestamps[i] == lines[a].timestamps[b] ==> a == m && b == i
  {
  }

  ghost predicate SameLabelSets(a: seq<Line>, b: seq<Line>) {
    forall labels :: Occurs(labels, a) <==> Occurs(labels, b)
  }

  /** The same last exported value for every label set and time. */
  ghost predicate SameLastValues(a: seq<Line>, b: seq<Line>) {
    forall labels, t :: LastAt(SamplesFor(a, labels, |a|), t) == LastAt(SamplesFor(b, labels, |b|), t)
  }

  lemma {:induction false} SeriesAlike(a: seq<Line>, b: seq<Line>, labels: int)
    ensures Series(a, labels) == Series(b, labels)
        <==> forall t :: LastAt(SamplesFor(a, labels, |a|), t) == LastAt(SamplesFor(b, labels, |b|), t)
  {
    hide LastAt, SamplesFor, Series, Decoded;
    SamplesAlike(SamplesFor(a, labels, |a|), SamplesFor(b, labels, |b|));
    SeriesIs(a, labels);
    SeriesIs(b, labels);
  }

  lemma {:induction false} SeriesIs(lines: seq<Line>, labels: int)
    ensures Series(lines, labels) == ExportSeries(labels, Decoded(SamplesFor(lines, labels, |lines|)))
  {
  }

  lemma {:induction false} NotExported(lines: seq<Line>, labels: int, n: nat)
    requires n <= |lines| && !Occurs(labels, lines)
    ensures SamplesFor(lines, labels, n) == []
  {
    hide Line.Samples;
    if n > 0 {
      assert lines[n - 1] in lines;
      NotExported(lines, labels, n - 1);
    }
  }

  /** Every label set of the lines has its series in what is decoded. */
  lemma {:induction false} DecodedSeries(x: seq<ExportSeries>, lines: seq<Line>, labels: int)
    requires Decodes(x, lines)
    ensures Occurs(labels, lines) <==> exists s <- x :: s.labels == labels
    ensures Occurs(labels, lines) ==> Series(lines, labels) in x
  {
    hide Series;
    if Occurs(labels, lines) {
      var l :| l in lines && l.labels == labels;
      var s :| s in x && s.labels == l.labels;
    }
  }

  /**
   * Two exports decode alike if and only if they have the same label sets and, for every label set and time, the same
   * last exported value.
   */
  lemma {:induction false} DecodedAlike(a: seq<Line>, b: seq<Line>, x: seq<ExportSeries>, y: seq<ExportSeries>)
    requires Decodes(x, a) && Decodes(y, b)
    ensures x == y <==> SameLabelSets(a, b) && SameLastValues(a, b)
  {
    hide Series, SamplesFor, LastAt, Occurs;
    if x == y {
      forall labels ensures Occurs(labels, a) <==> Occurs(labels, b) {
        DecodedSeries(x, a, labels);
        DecodedSeries(y, b, labels);
      }
      forall labels, t ensures LastAt(SamplesFor(a, labels, |a|), t) == LastAt(SamplesFor(b, labels, |b|), t) {
        OneSeriesAlike(a, b, x, labels);
        SeriesAlike(a, b, labels);
      }
    }
    if SameLabelSets(a, b) && SameLastValues(a, b) {
      AlikeFound(a, b, x, y);
      AlikeFound(b, a, y, x);
      Sorting.SameElements(LabelsOf, x, y);
    }
  }

  lemma {:induction false} OneSeriesAlike(a: seq<Line>, b: seq<Line>, x: seq<ExportSeries>, labels: int)
    requires Decodes(x, a) && Decodes(x, b)
    ensures Series(a, labels) == Series(b, labels)
  {
    hide Compacted, Sorting.StableSort, SamplesFor, Decodes;
    DecodedSeries(x, a, labels);
    DecodedSeries(x, b, labels);
    if Occurs(labels, a) {
      OnePerLabels(x, a, Series(a, labels), Series(b, labels));
    } else {
      NotExported(a, labels, |a|);
      NotExported(b, labels, |b|);
    }
  }

  lemma {:induction false} OnePerLabels(x: seq<ExportSeries>, lines: seq<Line>, r: ExportSeries, s: ExportSeries)
    requires Decodes(x, lines) && r in x && s in x && r.labels == s.labels
    ensures r == s
  {
    var i :| 0 <= i < |x| && x[i] == r;
    var j :| 0 <= j < |x| && x[j] == s;
    assert forall p, q :: 0 <= p < q < |x| ==> LabelsOf(x[p]) < LabelsOf(x[q]);
  }

  lemma {:induction false} AlikeFound(a: seq<Line>, b: seq<Line>, x: seq<ExportSeries>, y: seq<ExportSeries>)
    requires Decodes(x, a) && Decodes(y, b) && SameLabelSets(a, b) && SameLastValues(a, b)
    ensures forall s <- x :: s in y
  {
    hide SamplesFor, LastAt, Series, Occurs;
    forall s <- x ensures s in y {
      DecodedSeries(y, b, s.labels);
      SeriesAlike(a, b, s.labels);
    }
  }

  ghost predicate SameMembers(a: seq<Sample>, b: seq<Sample>) {
    (forall x <- a :: x in b) && (forall x <- b :: x in a)
  }

  lemma {:induction false} SameWhenSorted(a: seq<Sample>, b: seq<Sample>)
    requires Sorting.DistinctKeys(TimeOf, a) && Sorting.DistinctKeys(TimeOf, b) && SameMembers(a, b)
    ensures Sorting.StableSort(TimeOf, a) == Sorting.StableSort(TimeOf, b)
  {
    Sorting.StableSortStrict(TimeOf, a);
    Sorting.StableSortStrict(TimeOf, b);
    Sorting.StableSortMembers(TimeOf, a);
    Sorting.StableSortMembers(TimeOf, b);
    Sorting.SameElements(TimeOf, Sorting.StableSort(TimeOf, a), Sorting.StableSort(TimeOf, b));
  }

  /**
   * The same series, cut into lines and ordered in two ways: the same labels, and for each the same samples at distinct
   * times.
   */
  ghost predicate SameExport(a: seq<Line>, b: seq<Line>) {
    && (forall l <- a :: exists k <- b :: k.labels == l.labels)
    && (forall l <- b :: exists k <- a :: k.labels == l.labels)
    && (forall labels :: SameSamples(a, b, labels))
  }

  ghost predicate SameSamples(a: seq<Line>, b: seq<Line>, labels: int) {
    var x, y := SamplesFor(a, labels, |a|), SamplesFor(b, labels, |b|);
    Sorting.DistinctKeys(TimeOf, x) && Sorting.DistinctKeys(TimeOf, y) && SameMembers(x, y)
  }

  /** How an export is cut into lines and in what order the lines come does not show in what is decoded. */
  lemma {:induction false} LineSplittingInvisible(a: seq<Line>, b: seq<Line>, x: seq<ExportSeries>,
      y: seq<ExportSeries>)
    requires SameExport(a, b) && Decodes(x, a) && Decodes(y, b)
    ensures x == y
  {
    hide SamplesFor, Series;
    SeriesFound(a, b, x, y);
    SeriesFound(b, a, y, x);
    Sorting.SameElements(LabelsOf, x, y);
  }

  lemma {:induction false} SeriesFound(a: seq<Line>, b: seq<Line>, x: seq<ExportSeries>, y: seq<ExportSeries>)
    requires (forall l <- a :: exists k <- b :: k.labels == l.labels)
        && (forall labels :: SameSamples(a, b, labels) || SameSamples(b, a, labels))
    requires Decodes(x, a) && Decodes(y, b)
    ensures forall s <- x :: s in y
  {
    hide SamplesFor, Compacted, Sorting.StableSort;
    forall s <- x ensures s in y {
      var l :| l in a && l.labels == s.labels;
      var k :| k in b && k.labels == l.labels;
      var r :| r in y && r.labels == k.labels;
      var p, q := SamplesFor(a, s.labels, |a|), SamplesFor(b, s.labels, |b|);
      assert SameSamples(a, b, s.labels) || SameSamples(b, a, s.labels);
      if SameSamples(a, b, s.labels) {
        SameWhenSorted(p, q);
      } else {
        SameWhenSorted(q, p);
      }
    }
  }

  /** With two values for one time the later line decides. */
  lemma {:induction false} RepeatedTimesDependOnOrder()
    ensures var a, b := Line(0, [1.0], [5]), Line(0, [2.0], [5]);
            Series([a, b], 0).samples == [Sample(5, 2.0)] && Series([b, a], 0).samples == [Sample(5, 1.0)]
  {
    TwoLines(1.0, 2.0);
    TwoLines(2.0, 1.0);
  }

  lemma {:induction false} SortTwo(p: Sample, q: Sample)
    requires p.t == q.t
    ensures Sorting.StableSort(TimeOf, [p, q]) == [p, q]
  {
    assert [p, q][..1] == [p] && [p][..0] == [];
    assert Sorting.StableSort(TimeOf, [p]) == [p];
  }

  lemma {:induction false} CompactTwo(p: Sample, q: Sample)
    requires p.t == q.t
    ensures Compacted([p, q], 2) == [q]
  {
    assert Compacted([p, q], 1) == [];
  }

  lemma {:induction false} TwoLines(v: real, w: real)
    ensures Series([Line(0, [v], [5]), Line(0, [w], [5])], 0).samples == [Sample(5, w)]
  {
    hide Sorting.StableSort, Compacted, SamplesFor;
    var lines := [Line(0, [v], [5]), Line(0, [w], [5])];
    var p, q := Sample(5, v), Sample(5, w);
    assert lines[0].Samples() == [p] && lines[1].Samples() == [q];
    NoLines(lines, 0);
    SamplesNext(lines, 0, 0);
    SamplesNext(lines, 0, 1);
    assert SamplesFor(lines, 0, 2) == [p, q];
    SortTwo(p, q);
    CompactTwo(p, q);
  }

  lemma {:induction false} NoLines(lines: seq<Line>, labels: int)
    ensures SamplesFor(lines, labels, 0) == []
  {
  }
}
