/**
 * Range requests cut to a group's time window (pkg/promclient/timefilter.go) and answers moved
 * onto the requested step grid (pkg/promclient/step_align.go).  Times are milliseconds.
 */
module RangeTruncation {
  import opened Wrappers

  datatype Range = Range(start: int, end: int, step: int)

  /** t is one of the range's evaluation steps. */
  predicate IsStep(r: Range, t: int)
    requires r.step > 0
  {
    r.start <= t <= r.end && (t - r.start) % r.step == 0
  }

  predicate Within(lo: Option<int>, t: int, hi: Option<int>) {
    (lo.Some? ==> lo.value <= t) && (hi.Some? ==> t <= hi.value)
  }

  /** What is sent on for r by a filter with the given bounds; nothing when the window is missed. */
  function Truncated(r: Range, lo: Option<int>, hi: Option<int>): Option<Range>
    requires r.step > 0
  {
    if (lo.Some? && r.end < lo.value) || (hi.Some? && r.start > hi.value) then None
    else
      var start :=
        if lo.Some? && r.start < lo.value then
          var remainder := (lo.value - r.start) % r.step;
          if remainder > 0 then lo.value + (r.step - remainder) else lo.value
        else r.start;
      var end := if hi.Some? && r.end > hi.value then hi.value else r.end;
      if start > end then None else Some(Range(start, end, r.step))
  }

  /** QueryRange of both filters; the relative one computes its bounds from the clock first. */
  method QueryRange(r0: Range, lo: Option<int>, hi: Option<int>, truncate: bool) returns (sent: Option<Range>)
    requires r0.step > 0
    ensures truncate ==> sent == Truncated(r0, lo, hi)
    ensures !truncate ==> sent == if (lo.Some? && r0.end < lo.value) || (hi.Some? && r0.start > hi.value) then None
        else Some(r0)
  {
    var r := r0;
    if (lo.Some? && r.end < lo.value) || (hi.Some? && r.start > hi.value) {
      return None;
    }
    if truncate {
      if lo.Some? && r.start < lo.value {
        var remainder := (lo.value - r.start) % r.step;
        if remainder > 0 {
          r := r.(start := lo.value + (r.step - remainder));
        } else {
          r := r.(start := lo.value);
        }
      }
      if hi.Some? && r.end > hi.value {
        r := r.(end := hi.value);
      }
      if r.start > r.end {
        return None;
      }
    }
    return Some(r);
  }

  // --- arithmetic modulo the step ------------------------------------------------

  lemma {:induction false} AddMultiple(a: int, k: int, d: int)
    requires d > 0
    ensures (a + k * d) % d == a % d
  {
    var q, x := (a + k * d) / d, a / d;
    var r, y := (a + k * d) % d, a % d;
    assert (q - x - k) * d == y - r by {
      assert (q - x - k) * d == q * d - x * d - k * d;
    }
    SmallMultiple(q - x - k, d, y - r);
  }

  lemma {:induction false} SmallMultiple(n: int, d: int, m: int)
    requires d > 0 && n * d == m && -d < m < d
    ensures m == 0
  {
    if n >= 1 {
      Scale(1, n, d);
    } else if n <= -1 {
      Scale(n, -1, d);
    }
  }

  lemma {:induction false} Scale(a: int, b: int, d: int)
    requires a <= b && d > 0
    ensures a * d <= b * d
  {
    assert b * d - a * d == (b - a) * d;
  }

  lemma {:induction false} SamePhase(a: int, b: int, d: int)
    requires d > 0
    ensures (a - b) % d == 0 <==> a % d == b % d
  {
    if (a - b) % d == 0 {
      AddMultiple(b, (a - b) / d, d);
      assert a == b + (a - b) / d * d;
    }
    if a % d == b % d {
      var k := a / d - b / d;
      assert a - b == 0 + k * d by {
        assert k * d == a / d * d - b / d * d;
      }
      AddMultiple(0, k, d);
    }
  }

  /** The first time at or after lo in start's phase. */
  lemma {:induction false} FirstInPhase(start: int, lo: int, d: int)
    requires d > 0 && start < lo
    ensures var remainder := (lo - start) % d;
            var first := if remainder > 0 then lo + (d - remainder) else lo;
            && lo <= first < lo + d && first % d == start % d
            && forall t :: lo <= t && t % d == start % d ==> t >= first
  {
    var remainder := (lo - start) % d;
    var first := if remainder > 0 then lo + (d - remainder) else lo;
    assert lo - start == (lo - start) / d * d + remainder;
    if remainder > 0 {
      assert first - start == ((lo - start) / d + 1) * d;
      AddMultiple(start, (lo - start) / d + 1, d);
    } else {
      AddMultiple(start, (lo - start) / d, d);
    }
    forall t | lo <= t && t % d == start % d ensures t >= first {
      SamePhase(t, first, d);
      if t < first {
        var n := (first - t) / d;
        SamePhase(first, t, d);
        assert first - t == n * d;
        SmallMultiple(n, d, first - t);
      }
    }
  }

  // --- truncation -----------------------------------------------------------------

  /** Exactly the original steps inside the window are sent, and the start keeps its phase. */
  lemma {:induction false} TruncationExact(r: Range, lo: Option<int>, hi: Option<int>)
    requires r.step > 0
    ensures var sent := Truncated(r, lo, hi);
            && (sent.Some? ==>
                  && sent.value.step == r.step && sent.value.start % r.step == r.start % r.step
                  && IsStep(sent.value, sent.value.start))
            && (forall t :: (sent.Some? && IsStep(sent.value, t)) <==> IsStep(r, t) && Within(lo, t, hi))
  {
    var sent := Truncated(r, lo, hi);
    if lo.Some? && r.start < lo.value {
      FirstInPhase(r.start, lo.value, r.step);
    }
    forall t ensures (sent.Some? && IsStep(sent.value, t)) <==> IsStep(r, t) && Within(lo, t, hi) {
      SamePhase(t, r.start, r.step);
      if sent.Some? {
        SamePhase(t, sent.value.start, r.step);
      }
    }
  }

  function Later(a: Option<int>, b: Option<int>): Option<int> {
    if a.None? then b else if b.None? || a.value >= b.value then a else b
  }

  function Earlier(a: Option<int>, b: Option<int>): Option<int> {
    if a.None? then b else if b.None? || a.value <= b.value then a else b
  }

  /** Stacking two filters sends exactly the steps in both windows, as one filter with the intersection would. */
  lemma {:induction false} StackingIntersects(r: Range, lo1: Option<int>, hi1: Option<int>, lo2: Option<int>,
      hi2: Option<int>, t: int)
    requires r.step > 0
    ensures var once := Truncated(r, lo1, hi1);
            var twice := if once.Some? then Truncated(once.value, lo2, hi2) else None;
            var both := Truncated(r, Later(lo1, lo2), Earlier(hi1, hi2));
            && ((twice.Some? && IsStep(twice.value, t)) <==> IsStep(r, t) && Within(lo1, t, hi1) && Within(lo2, t, hi2))
            && ((twice.Some? && IsStep(twice.value, t)) <==> (both.Some? && IsStep(both.value, t)))
  {
    TruncationExact(r, lo1, hi1);
    TruncationExact(r, Later(lo1, lo2), Earlier(hi1, hi2));
    var once := Truncated(r, lo1, hi1);
    if once.Some? {
      TruncationExact(once.value, lo2, hi2);
    }
  }

  // --- step alignment ----------------------------------------------------------------

  /** Go's remainder has the sign of the dividend. */
  function GoMod(a: int, b: int): int
    requires b > 0
  {
    if a >= 0 then a % b else -((-a) % b)
  }

  /** The shift QueryRange computes; none when the request already lies on the epoch grid. */
  function Shift(start: int, step: int): int
    requires step > 0
  {
    GoMod(GoMod(start, step) + step, step)
  }

  /** The doubled remainder is the phase of the start, for negative times too. */
  lemma {:induction false} ShiftIsPhase(start: int, step: int)
    requires step > 0
    ensures Shift(start, step) == start % step
    ensures 0 <= Shift(start, step) < step
  {
    if start >= 0 {
      AddMultiple(start % step, 1, step);
      ModSmall(start % step, step);
    } else {
      NegativeMod(-start, step);
      if (-start) % step == 0 {
        AddMultiple(0, 1, step);
      } else {
        ModSmall(step - (-start) % step, step);
      }
    }
  }

  lemma {:induction false} ModSmall(x: int, d: int)
    requires 0 <= x < d
    ensures x % d == x
  {
  }

  lemma {:induction false} NegativeMod(a: int, d: int)
    requires d > 0
    ensures (-a) % d == if a % d == 0 then 0 else d - a % d
  {
    var q, r := a / d, a % d;
    assert -a == -r + (-q) * d by {
      assert (-q) * d == -(q * d);
    }
    AddMultiple(-r, -q, d);
    if r > 0 {
      AddMultiple(-r, 1, d);
      ModSmall(d - r, d);
    }
  }

  predicate OnEpochGrid(t: int, step: int)
    requires step > 0
  {
    t % step == 0
  }

  predicate OnRequestGrid(t: int, r: Range)
    requires r.step > 0
  {
    (t - r.start) % r.step == 0
  }

  /**
   * Shifting maps the epoch grid onto the requested one, forward by less than a step: every requested time has
   * exactly one epoch time behind it, and that is the latest epoch time not after it.
   */
  lemma {:induction false} ShiftMapsGrids(r: Range, t: int)
    requires r.step > 0
    ensures OnEpochGrid(t - Shift(r.start, r.step), r.step) <==> OnRequestGrid(t, r)
    ensures forall g ::
        OnEpochGrid(g, r.step) && g <= t < g + r.step && OnRequestGrid(t, r) ==> g == t - Shift(r.start, r.step)
  {
    hide Shift;
    var shift := Shift(r.start, r.step);
    ShiftIsPhase(r.start, r.step);
    SamePhase(t, r.start, r.step);
    SamePhase(t, shift, r.step);
    ModSmall(shift, r.step);
    forall g | OnEpochGrid(g, r.step) && g <= t < g + r.step && OnRequestGrid(t, r) ensures g == t - shift {
      LatestEpochTime(g, t - shift, r.step);
    }
  }

  lemma {:induction false} LatestEpochTime(a: int, b: int, d: int)
    requires d > 0 && OnEpochGrid(a, d) && OnEpochGrid(b, d) && -d < a - b < d
    ensures a == b
  {
    SamePhase(a, b, d);
    assert a - b == (a - b) / d * d;
    SmallMultiple((a - b) / d, d, a - b);
  }

  /** A truncated request keeps the shift of the original one, so aligning outside the filters is right. */
  lemma {:induction false} TruncationKeepsShift(r: Range, lo: Option<int>, hi: Option<int>)
    requires r.step > 0 && Truncated(r, lo, hi).Some?
    ensures Shift(Truncated(r, lo, hi).value.start, r.step) == Shift(r.start, r.step)
  {
    TruncationExact(r, lo, hi);
    ShiftIsPhase(r.start, r.step);
    ShiftIsPhase(Truncated(r, lo, hi).value.start, r.step);
  }

  // --- the shifting iterator ------------------------------------------------------------

  type TimedValue = (int, real)

  function Shifted(samples: seq<TimedValue>, shift: int): seq<TimedValue> {
    seq(|samples|, i requires 0 <= i < |samples| => (samples[i].0 + shift, samples[i].1))
  }

  /** The first position from i on whose time is at least t. */
  function SeekFrom(samples: seq<TimedValue>, i: nat, t: int): (r: nat)
    requires i <= |samples|
    ensures i <= r <= |samples|
    decreases |samples| - i
  {
    if i == |samples| || samples[i].0 >= t then i else SeekFrom(samples, i + 1, t)
  }

  lemma {:induction false} SeekShifted(samples: seq<TimedValue>, shift: int, i: nat, t: int)
    requires i <= |samples|
    ensures SeekFrom(Shifted(samples, shift), i, t) == SeekFrom(samples, i, t - shift)
    decreases |samples| - i
  {
    if i < |samples| && samples[i].0 + shift < t {
      SeekShifted(samples, shift, i + 1, t);
    }
  }

  /** An iterator over one series; it stands at pos, or at the end. */
  class SeriesIterator {
    const samples: seq<TimedValue>
    var pos: nat

    constructor (samples: seq<TimedValue>)
      ensures this.samples == samples && pos == 0
    {
      this.samples := samples;
      pos := 0;
    }

    method Seek(t: int) returns (ok: bool)
      requires pos <= |samples|
      modifies this
      ensures pos == SeekFrom(samples, old(pos), t) && ok == (pos < |samples|)
    {
      while pos < |samples| && samples[pos].0 < t
        invariant old(pos) <= pos <= |samples|
        invariant SeekFrom(samples, old(pos), t) == SeekFrom(samples, pos, t)
      {
        pos := pos + 1;
      }
      ok := pos < |samples|;
    }
  }

  /** The wrapper that adds the shift on the way out and takes it off a seek. */
  class TimeShiftIterator {
    var inner: SeriesIterator
    var shift: int

    constructor (inner: SeriesIterator, shift: int)
      ensures this.inner == inner && this.shift == shift
    {
      this.inner := inner;
      this.shift := shift;
    }

    /** The samples a reader sees. */
    function Seen(): seq<TimedValue>
      reads this, inner
    {
      Shifted(inner.samples, shift)
    }

    method At() returns (sample: TimedValue)
      requires inner.pos < |inner.samples|
      ensures sample == Seen()[inner.pos]
    {
      var inside := inner.samples[inner.pos];
      sample := (inside.0 + shift, inside.1);
    }

    /** Stands at the first sample seen at or after t. */
    method Seek(t: int) returns (ok: bool)
      requires inner.pos <= |inner.samples|
      modifies inner
      ensures inner == old(inner) && shift == old(shift)
      ensures inner.pos == SeekFrom(Seen(), old(inner.pos), t) && ok == (inner.pos < |Seen()|)
    {
      SeekShifted(inner.samples, shift, inner.pos, t);
      ok := inner.Seek(t - shift);
    }
  }

  /**
   * The iterator over a series, shifted: a reused one is taken over, and shows then the new series from its start and
   * nothing of what it showed before.
   */
  method Iterator(samples: seq<TimedValue>, shift: int, reused: TimeShiftIterator?) returns (it: TimeShiftIterator)
    modifies reused
    ensures if reused == null then fresh(it) else it == reused
    ensures fresh(it.inner) && it.inner.pos == 0 && it.Seen() == Shifted(samples, shift)
  {
    var inner := new SeriesIterator(samples);
    if reused != null {
      reused.inner := inner;
      reused.shift := shift;
      return reused;
    }
    it := new TimeShiftIterator(inner, shift);
  }
}
