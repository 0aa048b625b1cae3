/**
 * Reading a pushed-down range call back (pkg/proxystorage/proxy.go): the engine looks up the
 * latest sample within its lookback, so steps the backends left empty are filled with stale
 * markers; and an @-pinned answer is repeated at every step.
 */
module StaleFill {
  import opened Wrappers
  import opened GapFill
  import Sorting

  const FILL_SLACK := 10_000

  function TimeOf(s: Sample): int {
    s.t
  }

  /** Go's integer division truncates toward zero. */
  function GoDiv(a: int, b: int): int
    requires b > 0
  {
    if a >= 0 then a / b else -((-a) / b)
  }

  function TimesOf(samples: seq<Sample>): set<int> {
    set s | s in samples :: s.t
  }

  /** Markers for those of the first n steps at which no sample is present. */
  function Markers(present: set<int>, start: int, interval: int, n: nat): seq<Sample> {
    if n == 0 then []
    else
      var t := start + (n - 1) * interval;
      Markers(present, start, interval, n - 1) + if t in present then [] else [Sample(t, Float(StaleNaN))]
  }

  /** The number of steps start, start + interval, ... up to end. */
  function Steps(start: int, end: int, interval: int): nat
    requires interval > 0
  {
    if end < start then 0 else (end - start) / interval + 1
  }

  /** The window is not absurdly larger than the data. */
  predicate WithinBound(samples: seq<Sample>, start: int, end: int, interval: int)
    requires interval > 0
  {
    0 < GoDiv(end - start, interval) + 1 <= |TimesOf(samples)| + FILL_SLACK
  }

  function Filled(samples: seq<Sample>, start: int, end: int, interval: int): seq<Sample>
    requires interval > 0
  {
    if WithinBound(samples, start, end, interval)
    then Sorting.StableSort(TimeOf, samples + Markers(TimesOf(samples), start, interval, Steps(start, end, interval)))
    else samples
  }

  // --- the source's loops --------------------------------------------------------

  lemma {:induction false} InsertSplit(s: seq<Sample>, j: nat, x: Sample)
    requires 0 < j <= |s| && s[j - 1].t > x.t
    ensures Sorting.Insert(TimeOf, s[..j], x) + s[j..] == Sorting.Insert(TimeOf, s[..j - 1], x) + s[j - 1..]
  {
    assert s[..j][..j - 1] == s[..j - 1];
    assert [s[j - 1]] + s[j..] == s[j - 1..];
  }

  /** Moves the i-th element down to its place; a[..i] is already the sorted front. */
  method SiftDown(a: array<Sample>, i: nat)
    requires i < a.Length
    modifies a
    ensures a[..] == Sorting.Insert(TimeOf, old(a[..i]), old(a[i])) + old(a[i + 1..])
  {
    hide Sorting.Insert;
    ghost var front, x, tail := a[..i], a[i], a[i + 1..];
    var j := i;
    assert front[..i] == front && front[i..] == [] && a[..] == front + [x] + tail;
    while j > 0 && a[j - 1].t > a[j].t
      invariant 0 <= j <= i
      invariant a[..] == Inserted(front, j, x) + tail
      invariant Sorting.Insert(TimeOf, front, x) == Sorting.Insert(TimeOf, front[..j], x) + front[j..]
    {
      assert a[..][j - 1] == front[j - 1] && a[..][j] == x;
      InsertSplit(front, j, x);
      InsertedSwap(front, j, x, tail);
      Swap(a, j);
      j := j - 1;
    }
    assert a[..][j] == x;
    assert j > 0 ==> a[..][j - 1] == front[j - 1];
    InsertHere(front, j, x);
  }

  /** front with x at position j. */
  ghost function Inserted(front: seq<Sample>, j: nat, x: Sample): seq<Sample>
    requires j <= |front|
  {
    front[..j] + [x] + front[j..]
  }

  lemma {:induction false} InsertedSwap(front: seq<Sample>, j: nat, x: Sample, tail: seq<Sample>)
    requires 0 < j <= |front|
    ensures (Inserted(front, j, x) + tail)[j - 1 := x][j := front[j - 1]] == Inserted(front, j - 1, x) + tail
  {
  }

  lemma {:induction false} InsertHere(front: seq<Sample>, j: nat, x: Sample)
    requires j <= |front| && (j > 0 ==> front[j - 1].t <= x.t)
    ensures Sorting.Insert(TimeOf, front[..j], x) + front[j..] == Inserted(front, j, x)
  {
  }

  method Swap(a: array<Sample>, j: nat)
    requires 0 < j < a.Length
    modifies a
    ensures a[..] == old(a[..])[j - 1 := old(a[j])][j := old(a[j - 1])]
  {
    a[j - 1], a[j] := a[j], a[j - 1];
  }

  lemma {:induction false} SortNext(s: seq<Sample>, i: nat)
    requires i < |s|
    ensures Sorting.StableSort(TimeOf, s[..i + 1]) == Sorting.Insert(TimeOf, Sorting.StableSort(TimeOf, s[..i]), s[i])
  {
    assert s[..i + 1][..i] == s[..i];
  }

  /** The insertion sort is the stable sort by time. */
  method SortSamplesByTime(a: array<Sample>)
    modifies a
    ensures a[..] == Sorting.StableSort(TimeOf, old(a[..]))
  {
    hide Sorting.Insert, Sorting.StableSort, Sorting.SortedBy;
    ghost var whole := a[..];
    Sorting.StableSortFacts(TimeOf, whole[..0]);
    for i := 0 to a.Length
      invariant a[..] == Sorting.StableSort(TimeOf, whole[..i]) + whole[i..]
    {
      Sorting.StableSortFacts(TimeOf, whole[..i]);
      SortNext(whole, i);
      assert a[..i] == Sorting.StableSort(TimeOf, whole[..i]) && a[i] == whole[i] && a[i + 1..] == whole[i + 1..];
      SiftDown(a, i);
    }
    assert whole[..a.Length] == whole;
  }

  lemma {:induction false} StepCount(start: int, end: int, interval: int, n: nat)
    requires interval > 0
    ensures start + n * interval <= end <==> n < Steps(start, end, interval)
  {
    if end >= start {
      var q, r := (end - start) / interval, (end - start) % interval;
      assert end - start == q * interval + r;
      if n <= q {
        ScaleKeepsOrder(n, q, interval);
      } else {
        ScaleKeepsOrder(q + 1, n, interval);
      }
    } else {
      ScaleKeepsOrder(0, n, interval);
    }
  }

  lemma {:induction false} ScaleKeepsOrder(a: nat, b: nat, c: int)
    requires a <= b && c > 0
    ensures a * c <= b * c
  {
  }

  /** One series: its samples and, within the bound, a marker at every empty step. */
  method FillSeries(samples: seq<Sample>, start: int, end: int, interval: int) returns (out: seq<Sample>)
    requires interval > 0
    ensures out == Filled(samples, start, end, interval)
  {
    hide TimesOf, Sorting.StableSort, Markers, Steps;
    var present := TimesOf(samples);
    out := samples;
    var expected := GoDiv(end - start, interval) + 1;
    if expected > 0 && expected <= |present| + FILL_SLACK {
      out := AppendMarkers(samples, present, start, end, interval);
      var a := new Sample[|out|](i requires 0 <= i < |out| => out[i]);
      assert a[..] == out;
      SortSamplesByTime(a);
      out := a[..];
    }
  }

  /** Adds a marker for every step that is not present. */
  method AppendMarkers(samples: seq<Sample>, present: set<int>, start: int, end: int, interval: int)
    returns (out: seq<Sample>)
    requires interval > 0
    ensures out == samples + Markers(present, start, interval, Steps(start, end, interval))
  {
    hide Steps;
    out := samples;
    var t := start;
    ghost var n: nat := 0;
    StepCount(start, end, interval, 0);
    while t <= end
      invariant t == start + n * interval && n <= Steps(start, end, interval)
      invariant t <= end <==> n < Steps(start, end, interval)
      invariant out == samples + Markers(present, start, interval, n)
      decreases Steps(start, end, interval) - n
    {
      if t !in present {
        out := out + [Sample(t, Float(StaleNaN))];
      }
      t := t + interval;
      n := n + 1;
      StepCount(start, end, interval, n);
    }
  }

  /** Every series of the answer; an instant query is left as it is. */
  method FillStaleNaNGaps(series: seq<seq<Sample>>, start: int, end: int, interval: int) returns (out: seq<seq<Sample>>)
    ensures |out| == |series|
    ensures forall i ::
        0 <= i < |series| ==> out[i] == if interval <= 0 then series[i] else Filled(series[i], start, end, interval)
  {
    if interval <= 0 {
      return series;
    }
    out := [];
    for i := 0 to |series|
      invariant |out| == i && forall j :: 0 <= j < i ==> out[j] == Filled(series[j], start, end, interval)
    {
      var filled := FillSeries(series[i], start, end, interval);
      out := out + [filled];
    }
  }

  // --- what the engine reads -------------------------------------------------------

  /** The latest of the first n samples that lies in (t - lookback, t]. */
  function Latest(samples: seq<Sample>, t: int, lookback: int, n: nat): Option<Sample>
    requires n <= |samples|
  {
    if n == 0 then None
    else if t - lookback < samples[n - 1].t <= t then Some(samples[n - 1])
    else Latest(samples, t, lookback, n - 1)
  }

  /** The engine's value of a selector at time t; a stale marker is no value. */
  function Lookup(samples: seq<Sample>, t: int, lookback: int): Option<Reading> {
    var s := Latest(samples, t, lookback, |samples|);
    if s.None? || s.value.Stale() then None else Some(s.value.reading)
  }

  /** What the backends answered for time t. */
  function ValueAt(samples: seq<Sample>, t: int): Option<Reading> {
    if samples == [] then None
    else
      var last := samples[|samples| - 1];
      if last.t == t && !last.Stale() then Some(last.reading) else ValueAt(samples[..|samples| - 1], t)
  }

  lemma {:induction false} MarkersAt(present: set<int>, start: int, interval: int, n: nat, k: nat)
    requires interval > 0 && k < n
    ensures start + k * interval !in present ==>
        Sample(start + k * interval, Float(StaleNaN)) in Markers(present, start, interval, n)
  {
    if k < n - 1 {
      MarkersAt(present, start, interval, n - 1, k);
    }
  }

  lemma {:induction false} MarkersOnly(present: set<int>, start: int, interval: int, n: nat)
    requires interval > 0
    ensures forall s <- Markers(present, start, interval, n) ::
        s.t !in present && s.reading == Float(StaleNaN) && s.t <= start + n * interval
    ensures Sorting.StrictlySortedBy(TimeOf, Markers(present, start, interval, n))
    ensures n > 0 ==> forall s <- Markers(present, start, interval, n) :: s.t <= start + (n - 1) * interval
  {
    if n > 0 {
      MarkersOnly(present, start, interval, n - 1);
      assert start + (n - 1) * interval < start + n * interval by {
        assert n * interval == (n - 1) * interval + interval;
      }
      assert n > 1 ==> (n - 1) * interval == (n - 2) * interval + interval;
    }
  }

  /** In time order without repetitions the latest sample at a time that is present is the one of that time. */
  lemma {:induction false} LatestExact(samples: seq<Sample>, t: int, lookback: int, n: nat, i: nat)
    requires Sorting.StrictlySortedBy(TimeOf, samples) && lookback > 0 && i < n <= |samples| && samples[i].t == t
    ensures Latest(samples, t, lookback, n) == Some(samples[i])
  {
    if i < n - 1 {
      assert TimeOf(samples[i]) < TimeOf(samples[n - 1]);
      LatestExact(samples, t, lookback, n - 1, i);
    }
  }

  lemma {:induction false} ValueAtIs(samples: seq<Sample>, t: int, i: nat)
    requires Sorting.StrictlySortedBy(TimeOf, samples) && i < |samples| && samples[i].t == t
    ensures ValueAt(samples, t) == if samples[i].Stale() then None else Some(samples[i].reading)
  {
    var front := samples[..|samples| - 1];
    if i < |samples| - 1 {
      assert TimeOf(samples[i]) < TimeOf(samples[|samples| - 1]);
      ValueAtIs(front, t, i);
    } else {
      forall s <- front ensures s.t != t {
        var k :| 0 <= k < |front| && front[k] == s;
        assert TimeOf(samples[k]) < TimeOf(samples[i]);
      }
      ValueAtNone(front, t);
    }
  }

  lemma {:induction false} ValueAtNone(samples: seq<Sample>, t: int)
    requires forall s <- samples :: s.t != t
    ensures ValueAt(samples, t) == None
  {
    if samples != [] {
      assert samples[|samples| - 1] in samples;
      ValueAtNone(samples[..|samples| - 1], t);
    }
  }

  /**
   * Within the bound the result is in strict time order, has every answered sample, and covers every step; what it adds
   * are markers.
   */
  lemma {:induction false} FilledShape(samples: seq<Sample>, start: int, end: int, interval: int)
    requires interval > 0 && Sorting.StrictlySortedBy(TimeOf, samples) && WithinBound(samples, start, end, interval)
    ensures var out := Filled(samples, start, end, interval);
            && Sorting.StrictlySortedBy(TimeOf, out)
            && (forall s <- samples :: s in out)
            && (forall s <- out :: s in samples || (s.reading == Float(StaleNaN) && s.t !in TimesOf(samples)))
            && (forall k :: 0 <= k < Steps(start, end, interval) ==> start + k * interval in TimesOf(out))
  {
    var present, n := TimesOf(samples), Steps(start, end, interval);
    var markers := Markers(present, start, interval, n);
    MarkersOnly(present, start, interval, n);
    var all := samples + markers;
    forall i, j | 0 <= i < j < |all| ensures TimeOf(all[i]) != TimeOf(all[j]) {
      DistinctTimes(samples, markers, i, j);
    }
    Sorting.StableSortStrict(TimeOf, all);
    Sorting.StableSortMembers(TimeOf, all);
    var out := Sorting.StableSort(TimeOf, all);
    forall k | 0 <= k < n ensures start + k * interval in TimesOf(out) {
      Covered(samples, out, start, interval, n, k);
    }
  }

  lemma {:induction false} DistinctTimes(samples: seq<Sample>, markers: seq<Sample>, i: nat, j: nat)
    requires Sorting.StrictlySortedBy(TimeOf, samples) && Sorting.StrictlySortedBy(TimeOf, markers)
    requires (forall s <- markers :: s.t !in TimesOf(samples)) && i < j < |samples + markers|
    ensures (samples + markers)[i].t != (samples + markers)[j].t
  {
    var all := samples + markers;
    if j < |samples| {
      assert TimeOf(samples[i]) < TimeOf(samples[j]);
    } else if i >= |samples| {
      assert TimeOf(markers[i - |samples|]) < TimeOf(markers[j - |samples|]);
    } else {
      assert samples[i] in samples && markers[j - |samples|] in markers;
    }
  }

  lemma {:induction false} Covered(samples: seq<Sample>, out: seq<Sample>, start: int, interval: int, n: nat, k: nat)
    requires interval > 0 && k < n
    requires forall s <- samples + Markers(TimesOf(samples), start, interval, n) :: s in out
    ensures start + k * interval in TimesOf(out)
  {
    var t := start + k * interval;
    MarkersAt(TimesOf(samples), start, interval, n, k);
    if t in TimesOf(samples) {
      var s :| s in samples && s.t == t;
      assert s in samples + Markers(TimesOf(samples), start, interval, n);
    } else {
      assert Sample(t, Float(StaleNaN)) in samples + Markers(TimesOf(samples), start, interval, n);
    }
  }

  lemma {:induction false} TimesNext(samples: seq<Sample>, x: Sample)
    ensures TimesOf(samples + [x]) == TimesOf(samples) + {x.t}
  {
    var more := samples + [x];
    forall t | t in TimesOf(samples) + {x.t} ensures t in TimesOf(more) {
      if s :| s in samples && s.t == t {
        assert s in more;
      } else {
        assert x in more;
      }
    }
  }

  lemma {:induction false} LaterTime(samples: seq<Sample>, x: Sample)
    requires forall s <- samples :: s.t < x.t
    ensures x.t !in TimesOf(samples)
  {
  }

  lemma {:induction false} AsManyTimes(samples: seq<Sample>)
    requires Sorting.StrictlySortedBy(TimeOf, samples)
    ensures |TimesOf(samples)| == |samples|
  {
    hide TimesOf;
    if samples == [] {
      NoTimes();
    } else {
      var front, last := samples[..|samples| - 1], samples[|samples| - 1];
      forall s <- front ensures s.t < last.t {
        var i :| 0 <= i < |front| && front[i] == s;
        assert TimeOf(samples[i]) < TimeOf(samples[|samples| - 1]);
      }
      AsManyTimes(front);
      TimesNext(front, last);
      LaterTime(front, last);
      assert samples == front + [last];
    }
  }

  lemma {:induction false} NoTimes()
    ensures TimesOf([]) == {}
  {
  }

  /** The bound in numbers: up to ten thousand steps more than there are samples. */
  lemma {:induction false} BoundIs(samples: seq<Sample>, start: int, end: int, interval: int)
    requires interval > 0 && start <= end && Sorting.StrictlySortedBy(TimeOf, samples)
    ensures WithinBound(samples, start, end, interval) <==> Steps(start, end, interval) <= |samples| + 10_000
  {
    AsManyTimes(samples);
  }

  /**
   * The read-back is exact: for every positive lookback and every step, the lookup at the step's time minus the
   * offset gives what the backends answered for that step, and nothing when they did not.  offset is the one the
   * request was shifted by; keeping the offsets in the query means offset == 0.
   */
  lemma {:induction false} ReadBackExact(samples: seq<Sample>, evalStart: int, evalEnd: int, interval: int,
      offset: int, lookback: int, k: nat)
    requires interval > 0 && lookback > 0 && Sorting.StrictlySortedBy(TimeOf, samples)
    requires k < Steps(evalStart, evalEnd, interval) <= |samples| + 10_000
    ensures var step := evalStart + k * interval;
            Lookup(Filled(samples, evalStart - offset, evalEnd - offset, interval), step - offset, lookback)
                == ValueAt(samples, step - offset)
  {
    hide Filled, Markers, Lookup, ValueAt;
    var start, end := evalStart - offset, evalEnd - offset;
    var t, out := start + k * interval, Filled(samples, start, end, interval);
    BoundIs(samples, start, end, interval);
    FilledShape(samples, start, end, interval);
    assert t in TimesOf(out);
    var s :| s in out && s.t == t;
    var i :| 0 <= i < |out| && out[i] == s;
    LookupIs(out, t, lookback, i);
    if s in samples {
      var j :| 0 <= j < |samples| && samples[j] == s;
      ValueAtIs(samples, t, j);
    } else {
      forall x <- samples ensures x.t != t {
        assert x.t in TimesOf(samples);
      }
      ValueAtNone(samples, t);
    }
  }

  lemma {:induction false} LookupIs(samples: seq<Sample>, t: int, lookback: int, i: nat)
    requires Sorting.StrictlySortedBy(TimeOf, samples) && lookback > 0 && i < |samples| && samples[i].t == t
    ensures Lookup(samples, t, lookback) == if samples[i].Stale() then None else Some(samples[i].reading)
  {
    LatestExact(samples, t, lookback, |samples|, i);
  }

  /** The latest of the first n samples within the lookback is the last one there is. */
  lemma {:induction false} LatestIs(samples: seq<Sample>, t: int, lookback: int, n: nat)
    requires Sorting.StrictlySortedBy(TimeOf, samples) && n <= |samples|
    ensures var s := Latest(samples, t, lookback, n);
            && (s.None? <==> forall i :: 0 <= i < n ==> !(t - lookback < samples[i].t <= t))
            && (s.Some? ==>
                  && t - lookback < s.value.t <= t && s.value in samples
                  && forall i :: 0 <= i < n && samples[i].t <= t ==> samples[i].t <= s.value.t)
  {
    if n > 0 && !(t - lookback < samples[n - 1].t <= t) {
      LatestIs(samples, t, lookback, n - 1);
    } else if n > 0 {
      forall i | 0 <= i < n ensures samples[i].t <= samples[n - 1].t {
        assert i < n - 1 ==> TimeOf(samples[i]) < TimeOf(samples[n - 1]);
      }
    }
  }

  /** Every real sample within the lookback before t is followed by another sample no later than t. */
  ghost predicate NothingLingers(samples: seq<Sample>, t: int, lookback: int) {
    forall s <- samples :: t - lookback < s.t < t && !s.Stale() ==> exists x <- samples :: s.t < x.t <= t
  }

  /**
   * A lookup gives the value of that very time, or nothing when there is none, if and only if no earlier value lingers.
   */
  lemma {:induction false} LookupExact(samples: seq<Sample>, t: int, lookback: int)
    requires Sorting.StrictlySortedBy(TimeOf, samples) && lookback > 0
    ensures Lookup(samples, t, lookback) == ValueAt(samples, t) <==> NothingLingers(samples, t, lookback)
  {
    hide Latest, ValueAt;
    if k :| 0 <= k < |samples| && samples[k].t == t {
      LookupIs(samples, t, lookback, k);
      ValueAtIs(samples, t, k);
      assert samples[k] in samples;
    } else {
      forall s <- samples ensures s.t != t {
        var i :| 0 <= i < |samples| && samples[i] == s;
      }
      ValueAtNone(samples, t);
      LatestIs(samples, t, lookback, |samples|);
      LingersExactly(samples, t, lookback);
    }
  }

  lemma {:induction false} OneOfEachTime(samples: seq<Sample>, p: Sample, q: Sample)
    requires Sorting.StrictlySortedBy(TimeOf, samples) && p in samples && q in samples
    ensures p.t == q.t ==> p == q
  {
    var i :| 0 <= i < |samples| && samples[i] == p;
    var j :| 0 <= j < |samples| && samples[j] == q;
    assert forall a, b :: 0 <= a < b < |samples| ==> TimeOf(samples[a]) < TimeOf(samples[b]);
  }

  lemma {:induction false} LingersExactly(samples: seq<Sample>, t: int, lookback: int)
    requires Sorting.StrictlySortedBy(TimeOf, samples) && forall s <- samples :: s.t != t
    ensures var s := Latest(samples, t, lookback, |samples|);
            NothingLingers(samples, t, lookback) <==> s.None? || s.value.Stale()
  {
    LatestIs(samples, t, lookback, |samples|);
    hide Latest;
    var latest := Latest(samples, t, lookback, |samples|);
    if latest.Some? {
      forall x <- samples ensures !(latest.value.t < x.t <= t) {
        var i :| 0 <= i < |samples| && samples[i] == x;
      }
      if latest.value.Stale() {
        forall s <- samples | t - lookback < s.t < t && !s.Stale() ensures exists x <- samples :: s.t < x.t <= t {
          var i :| 0 <= i < |samples| && samples[i] == s;
          OneOfEachTime(samples, s, latest.value);
          assert latest.value.t > s.t;
        }
      }
    } else {
      forall s <- samples ensures !(t - lookback < s.t < t) {
        var i :| 0 <= i < |samples| && samples[i] == s;
      }
    }
  }

  /**
   * When a pushed-down range call is read back exactly: the lookup at a step gives what the backends answered for it if
   * and only if the window is within the fill bound, or no earlier answer lingers.
   */
  lemma {:induction false} ReadBackExactly(samples: seq<Sample>, evalStart: int, evalEnd: int, interval: int,
      offset: int, lookback: int, k: nat)
    requires interval > 0 && lookback > 0 && Sorting.StrictlySortedBy(TimeOf, samples)
    requires k < Steps(evalStart, evalEnd, interval)
    ensures var start, end, t := evalStart - offset, evalEnd - offset, evalStart + k * interval - offset;
            Lookup(Filled(samples, start, end, interval), t, lookback) == ValueAt(samples, t)
            <==> Steps(evalStart, evalEnd, interval) <= |samples| + 10_000 || NothingLingers(samples, t, lookback)
  {
    hide Lookup, ValueAt, NothingLingers;
    var start, end, t := evalStart - offset, evalEnd - offset, evalStart + k * interval - offset;
    BoundIs(samples, start, end, interval);
    if Steps(evalStart, evalEnd, interval) <= |samples| + 10_000 {
      ReadBackExact(samples, evalStart, evalEnd, interval, offset, lookback, k);
    } else {
      LookupExact(samples, t, lookback);
    }
  }

  /** One step beyond the bound nothing is filled, and a value bleeds into the steps after it. */
  lemma {:induction false} UnfilledBleeds(v: int)
    ensures var samples := [Sample(0, Float(Num(v)))];
            && Steps(0, 10_001, 1) == |samples| + 10_000 + 1
            && ValueAt(samples, 1) == None
            && Lookup(Filled(samples, 0, 10_001, 1), 1, 300_000) == Some(Float(Num(v)))
  {
    var samples := [Sample(0, Float(Num(v)))];
    assert TimesOf(samples) == {0};
    assert samples[..0] == [];
    assert ValueAt([], 1) == None;
    assert Latest(samples, 1, 300_000, 1) == Some(samples[0]);
  }

  // --- @-pinned answers ----------------------------------------------------------------

  /** Repeats the last of an instant query's samples at every step of the window. */
  method VectorToStepMatrix(instant: seq<Reading>, start: int, end: int, step: int) returns (samples: seq<Sample>)
    ensures step <= 0 || end < start || instant == [] ==> samples == []
    ensures step > 0 && start <= end && instant != [] ==>
      && |samples| == Steps(start, end, step)
      && forall i :: 0 <= i < |samples| ==> samples[i] == Sample(start + i * step, instant[|instant| - 1])
  {
    samples := [];
    if step <= 0 || end < start {
      return;
    }
    var n := (end - start) / step + 1;
    var last: Option<Reading> := None;
    for i := 0 to |instant|
      invariant last == if i == 0 then None else Some(instant[i - 1])
    {
      last := Some(instant[i]);
    }
    for i := 0 to n
      invariant last.None? ==> samples == []
      invariant last.Some? ==> |samples| == i && forall j ::
          0 <= j < i ==> samples[j] == Sample(start + j * step, last.value)
    {
      if last.Some? {
        samples := samples + [Sample(start + i * step, last.value)];
      }
    }
  }

  /** Every step of the window reads the pinned value. */
  lemma {:induction false} PinnedReadBack(samples: seq<Sample>, r: Reading, start: int, end: int, step: int,
      lookback: int, k: nat)
    requires step > 0 && lookback > 0 && |samples| == Steps(start, end, step) && k < |samples|
    requires forall i :: 0 <= i < |samples| ==> samples[i] == Sample(start + i * step, r)
    ensures Lookup(samples, start + k * step, lookback) == if Sample(0, r).Stale() then None else Some(r)
  {
    forall i, j | 0 <= i < j < |samples| ensures TimeOf(samples[i]) < TimeOf(samples[j]) {
      ScaleKeepsOrder(i + 1, j, step);
      assert (i + 1) * step == i * step + step;
    }
    LookupIs(samples, start + k * step, lookback, k);
  }
}
