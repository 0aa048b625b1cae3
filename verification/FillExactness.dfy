/**
 * Which samples gap filling keeps, said without a scan: every sample of every level, marker or not, is in the result
 * exactly when gaps of the levels above it lie one inside the other around it.  Nothing here uses the bounds, the
 * margin or the keeping rule of GapFill; they are written out.
 */
module FillExactness {
  import opened Wrappers
  import opened GapFill
  import opened GapFillTheory

  predicate After(lo: Option<int>, t: int, gap: int) {
    lo.Some? ==> t - lo.value > gap / 4
  }

  predicate Before(hi: Option<int>, t: int, gap: int) {
    hi.Some? ==> hi.value - t > gap / 4
  }

  predicate InWindow(lo: Option<int>, hi: Option<int>, t: int, gap: int) {
    After(lo, t, gap) && Before(hi, t, gap)
  }

  /** Sample k belongs to the window; a filler's marker needs the sample before it to be real and in the window too. */
  predicate OwnReached(s: Timeline, lo: Option<int>, hi: Option<int>, k: nat, filler: bool, gap: int)
    requires k < |s|
  {
    && InWindow(lo, hi, s[k].t, gap)
    && (filler && s[k].Stale() ==> k > 0 && !s[k - 1].Stale() && InWindow(lo, hi, s[k - 1].t, gap))
  }

  /** The j-th span a stream cuts out of a window ends at the samples beside it, or at the window's own ends. */
  function SpanLo(s: Timeline, lo: Option<int>, j: nat, gap: int): Option<int>
    requires j <= |s|
  {
    if j > 0 && After(lo, s[j - 1].t, gap) then Some(s[j - 1].t) else lo
  }

  function SpanHi(s: Timeline, hi: Option<int>, j: nat, gap: int): Option<int>
    requires j <= |s|
  {
    if j < |s| && Before(hi, s[j].t, gap) then Some(s[j].t) else hi
  }

  predicate SpanStale(s: Timeline, lo: Option<int>, j: nat, gap: int)
    requires j <= |s|
  {
    j > 0 && After(lo, s[j - 1].t, gap) && s[j - 1].Stale()
  }

  predicate WideSpan(lo: Option<int>, hi: Option<int>, gap: int) {
    lo.Some? && hi.Some? ==> hi.value - lo.value >= gap
  }

  /** The j-th span meets the window and counts as a gap. */
  predicate GapSpan(s: Timeline, lo: Option<int>, hi: Option<int>, j: nat, gap: int)
    requires gap > 0
  {
    && j <= |s|
    && (j > 0 ==> Before(hi, s[j - 1].t, gap))
    && (j < |s| ==> After(lo, s[j].t, gap))
    && (SpanStale(s, lo, j, gap) || WideSpan(SpanLo(s, lo, j, gap), SpanHi(s, hi, j, gap), gap))
  }

  /**
   * What reaches the result from below a window, without any scan: sample k of stream src has, in every stream above
   * its own, a span that counts as a gap, each inside the one above, and is kept by the innermost.
   */
  predicate Reached(lo: Option<int>, hi: Option<int>, streams: seq<Timeline>, lvl: nat, src: nat, k: nat, gap: int)
    requires lvl <= src < |streams| && k < |streams[src]| && gap > 0
    decreases src - lvl, 1
  {
    if lvl == src then OwnReached(streams[src], lo, hi, k, src > 0, gap)
    else exists j: nat :: j <= |streams[lvl]| && ReachedThrough(lo, hi, streams, lvl, j, src, k, gap)
  }

  predicate ReachedThrough(lo: Option<int>, hi: Option<int>, streams: seq<Timeline>, lvl: nat, j: nat, src: nat, k: nat,
      gap: int)
    requires lvl < src < |streams| && k < |streams[src]| && gap > 0 && j <= |streams[lvl]|
    decreases src - lvl, 0
  {
    var s := streams[lvl];
    && GapSpan(s, lo, hi, j, gap)
    && Reached(SpanLo(s, lo, j, gap), SpanHi(s, hi, j, gap), streams, lvl + 1, src, k, gap)
  }

  /** A scan of level lvl that stands at i has its last sample, if it has seen one, in front of i. */
  predicate ScanAt(s: Timeline, lo: Option<int>, i: nat, subLo: Option<int>, stale: bool, live: bool, gap: int) {
    && i <= |s|
    && subLo == SpanLo(s, lo, i, gap)
    && stale == SpanStale(s, lo, i, gap)
    && live == (i > 0 && After(lo, s[i - 1].t, gap) && !s[i - 1].Stale())
    && (forall k :: i <= k < |s| ==> After(lo, s[k].t, gap))
  }

  /** The part of Reached that lies at or behind position i of level lvl. */
  predicate ReachedFrom(i: nat, lo: Option<int>, hi: Option<int>, streams: seq<Timeline>, lvl: nat, src: nat, k: nat,
      gap: int)
    requires lvl <= src < |streams| && k < |streams[src]| && gap > 0
  {
    if lvl == src then k >= i && OwnReached(streams[src], lo, hi, k, src > 0, gap)
    else exists j: nat :: i <= j <= |streams[lvl]| && ReachedThrough(lo, hi, streams, lvl, j, src, k, gap)
  }

  lemma {:induction false} FillReaches(lo: Option<int>, hi: Option<int>, streams: seq<Timeline>, lvl: nat, src: nat,
      k: nat, gap: int)
    requires lvl <= src < |streams| && k < |streams[src]| && gap > 0 && AllOrdered(streams)
    ensures Placed(streams[src][k], src, k) in Fill(lo, hi, streams, lvl, gap)
        <==> Reached(lo, hi, streams, lvl, src, k, gap)
    decreases |streams| - lvl, 1, 0
  {
    var s := streams[lvl];
    var i := Beyond(s, 0, lo, Margin(gap));
    BeyondStops(s, 0, lo, Margin(gap));
    ClearsFrom(s, i, lo, gap);
    if i > 0 && !Before(hi, s[i - 1].t, gap) {
      NothingBehind(lo, hi, streams, lvl, src, k, gap, i);
    } else {
      WalkReaches(i, lo, lo, hi, false, false, streams, lvl, src, k, gap);
      ReachedFromStart(i, lo, hi, streams, lvl, src, k, gap);
    }
  }

  lemma {:induction false} ClearsFrom(s: Timeline, i: nat, lo: Option<int>, gap: int)
    requires Ordered(s) && i <= |s| && (i < |s| ==> After(lo, s[i].t, gap))
    ensures forall k :: i <= k < |s| ==> After(lo, s[k].t, gap)
  {
    forall k | i < k < |s| ensures After(lo, s[k].t, gap) {
      assert Precedes(s[i], s[k]);
    }
  }

  /** A sample that neither clears lo nor is under hi leaves the window empty. */
  lemma {:induction false} NothingBehind(lo: Option<int>, hi: Option<int>, streams: seq<Timeline>, lvl: nat, src: nat,
      k: nat, gap: int, i: nat)
    requires lvl <= src < |streams| && k < |streams[src]| && gap > 0 && AllOrdered(streams)
    requires 0 < i <= |streams[lvl]|
    requires !After(lo, streams[lvl][i - 1].t, gap) && !Before(hi, streams[lvl][i - 1].t, gap)
    ensures Placed(streams[src][k], src, k) !in Fill(lo, hi, streams, lvl, gap)
    ensures !Reached(lo, hi, streams, lvl, src, k, gap)
  {
    hide Fill, Walk;
    FillShape(lo, hi, streams, lvl, gap);
    ReachedInWindow(lo, hi, streams, lvl, src, k, gap);
  }

  lemma {:induction false} ReachedInWindow(lo: Option<int>, hi: Option<int>, streams: seq<Timeline>, lvl: nat,
      src: nat, k: nat, gap: int)
    requires lvl <= src < |streams| && k < |streams[src]| && gap > 0
    ensures Reached(lo, hi, streams, lvl, src, k, gap) ==> InWindow(lo, hi, streams[src][k].t, gap)
    decreases src - lvl
  {
    assert lvl < src ==>
        (Reached(lo, hi, streams, lvl, src, k, gap)
         == exists j: nat :: j <= |streams[lvl]| && ReachedThrough(lo, hi, streams, lvl, j, src, k, gap));
    if lvl < src && Reached(lo, hi, streams, lvl, src, k, gap) {
      var j: nat :| j <= |streams[lvl]| && ReachedThrough(lo, hi, streams, lvl, j, src, k, gap);
      var s := streams[lvl];
      ReachedInWindow(SpanLo(s, lo, j, gap), SpanHi(s, hi, j, gap), streams, lvl + 1, src, k, gap);
    }
  }

  lemma {:induction false} ReachedFromStart(i: nat, lo: Option<int>, hi: Option<int>, streams: seq<Timeline>, lvl: nat,
      src: nat, k: nat, gap: int)
    requires lvl <= src < |streams| && k < |streams[src]| && gap > 0 && i <= |streams[lvl]|
    requires forall k :: 0 <= k < i ==> !After(lo, streams[lvl][k].t, gap)
    ensures ReachedFrom(i, lo, hi, streams, lvl, src, k, gap) <==> Reached(lo, hi, streams, lvl, src, k, gap)
  {
  }

  lemma {:induction false} SubFillReaches(i: nat, lo: Option<int>, hi: Option<int>, streams: seq<Timeline>, lvl: nat,
      src: nat, k: nat, gap: int)
    requires lvl <= src < |streams| && k < |streams[src]| && gap > 0 && AllOrdered(streams)
    requires i <= |streams[lvl]|
    requires i > 0 ==> Before(hi, streams[lvl][i - 1].t, gap)
    requires i < |streams[lvl]| ==> After(lo, streams[lvl][i].t, gap)
    ensures var s := streams[lvl];
            Placed(streams[src][k], src, k)
              in SubFill(SpanStale(s, lo, i, gap), SpanLo(s, lo, i, gap), SpanHi(s, hi, i, gap), streams, lvl, gap)
            <==> lvl < src && ReachedThrough(lo, hi, streams, lvl, i, src, k, gap)
    decreases |streams| - lvl - 1, 2, 0
  {
    var s := streams[lvl];
    if lvl < src {
      FillReaches(SpanLo(s, lo, i, gap), SpanHi(s, hi, i, gap), streams, lvl + 1, src, k, gap);
    } else {
      SubFillShape(SpanStale(s, lo, i, gap), SpanLo(s, lo, i, gap), SpanHi(s, hi, i, gap), streams, lvl, gap);
    }
  }

  lemma {:induction false} WalkReaches(i: nat, lo: Option<int>, subLo: Option<int>, hi: Option<int>, stale: bool,
      live: bool, streams: seq<Timeline>, lvl: nat, src: nat, k: nat, gap: int)
    requires lvl <= src < |streams| && k < |streams[src]| && gap > 0 && AllOrdered(streams)
    requires ScanAt(streams[lvl], lo, i, subLo, stale, live, gap)
    requires i > 0 ==> Before(hi, streams[lvl][i - 1].t, gap)
    ensures Placed(streams[src][k], src, k) in Walk(i, subLo, hi, stale, live, streams, lvl, gap)
        <==> ReachedFrom(i, lo, hi, streams, lvl, src, k, gap)
    decreases |streams| - lvl, 0, |streams[lvl]| - i
  {
    hide SubFill, ReachedThrough;
    var s := streams[lvl];
    SubFillReaches(i, lo, hi, streams, lvl, src, k, gap);
    if i == |s| || !Before(hi, s[i].t, gap) {
      StopsHere(i, lo, hi, streams, lvl, src, k, gap);
    } else {
      var p := s[i];
      WalkReaches(i + 1, lo, Some(p.t), hi, p.Stale(), !p.Stale(), streams, lvl, src, k, gap);
      OwnStep(i, lo, hi, live, streams, lvl, src, k, gap);
    }
  }

  /** A span behind the first sample not under hi does not meet the window. */
  lemma {:induction false} StopsHere(i: nat, lo: Option<int>, hi: Option<int>, streams: seq<Timeline>, lvl: nat,
      src: nat, k: nat, gap: int)
    requires lvl <= src < |streams| && k < |streams[src]| && gap > 0 && AllOrdered(streams)
    requires i <= |streams[lvl]| && (i < |streams[lvl]| ==> !Before(hi, streams[lvl][i].t, gap))
    ensures ReachedFrom(i, lo, hi, streams, lvl, src, k, gap)
        <==> lvl < src && ReachedThrough(lo, hi, streams, lvl, i, src, k, gap)
  {
    var s := streams[lvl];
    assert forall j :: i < j < |s| ==> Precedes(s[i], s[j]);
  }

  lemma {:induction false} OwnStep(i: nat, lo: Option<int>, hi: Option<int>, live: bool, streams: seq<Timeline>,
      lvl: nat, src: nat, k: nat, gap: int)
    requires lvl <= src < |streams| && k < |streams[src]| && gap > 0
    requires i < |streams[lvl]| && InWindow(lo, hi, streams[lvl][i].t, gap)
    requires i > 0 ==> Before(hi, streams[lvl][i - 1].t, gap)
    requires live == (i > 0 && After(lo, streams[lvl][i - 1].t, gap) && !streams[lvl][i - 1].Stale())
    ensures ReachedFrom(i, lo, hi, streams, lvl, src, k, gap)
        <==> ((lvl < src && ReachedThrough(lo, hi, streams, lvl, i, src, k, gap))
              || (lvl == src && k == i && Kept(streams[lvl][i], lvl, live))
              || ReachedFrom(i + 1, lo, hi, streams, lvl, src, k, gap))
  {
    hide ReachedThrough;
  }

  /** The whole result: exactly the samples that gaps let through, the base's own without condition. */
  lemma {:induction false} FillExact(streams: seq<Timeline>, gap: int, x: Placed)
    requires streams != [] && gap > 0 && AllOrdered(streams)
    ensures x in Fill(None, None, streams, 0, gap)
        <==> (x.src < |streams| && x.at < |streams[x.src]| && x.sample == streams[x.src][x.at]
              && Reached(None, None, streams, 0, x.src, x.at, gap))
    ensures x.src == 0 < |streams| && x.at < |streams[0]| ==> Reached(None, None, streams, 0, 0, x.at, gap)
  {
    hide Fill;
    if x.src < |streams| && x.at < |streams[x.src]| {
      FillReaches(None, None, streams, 0, x.src, x.at, gap);
    }
    FillShape(None, None, streams, 0, gap);
  }

  /** The positions at which ps takes real samples of level src. */
  function RealAt(ps: seq<Placed>, src: nat): set<nat> {
    set x | x in ps && x.src == src && !x.sample.Stale() :: x.at
  }

  lemma {:induction false} RealAtNext(front: seq<Placed>, last: Placed, src: nat)
    ensures RealAt(front + [last], src)
         == RealAt(front, src) + if last.src == src && !last.sample.Stale() then {last.at} else {}
  {
    var out := front + [last];
    forall at | at in RealAt(front, src) || (last.src == src && !last.sample.Stale() && at == last.at)
      ensures at in RealAt(out, src)
    {
      if x :| x in front && x.src == src && !x.sample.Stale() && x.at == at {
        assert x in out;
      } else {
        assert last in out;
      }
    }
  }

  lemma {:induction false} NewPosition(front: seq<Placed>, last: Placed, src: nat, m: int)
    requires Separated(front + [last], m) && last.src == src
    ensures last.at !in RealAt(front, src)
  {
    var out := front + [last];
    forall x <- front ensures x.src == src ==> x.at != last.at {
      var i :| 0 <= i < |front| && front[i] == x;
      assert Apart(out[i], out[|front|], m);
    }
  }

  lemma {:induction false} TakenIs(ps: seq<Placed>, src: nat, m: int)
    requires Separated(ps, m)
    ensures Taken(ps, src) == |RealAt(ps, src)|
  {
    if ps == [] {
      assert RealAt(ps, src) == {};
    } else {
      hide RealAt;
      var front, last := ps[..|ps| - 1], ps[|ps| - 1];
      assert ps == front + [last];
      TakenIs(front, src, m);
      RealAtNext(front, last, src);
      if last.src == src {
        NewPosition(front, last, src, m);
      }
    }
  }

  /** The fill statistics count a filler's real samples that gaps let through. */
  lemma {:induction false} CountExact(streams: seq<Timeline>, gap: int, src: nat)
    requires src < |streams| && gap > 0 && AllOrdered(streams)
    ensures Taken(Fill(None, None, streams, 0, gap), src)
         == |set k: nat | k < |streams[src]| && !streams[src][k].Stale()
                          && Reached(None, None, streams, 0, src, k, gap)|
  {
    hide Fill, Reached, Taken;
    var out := Fill(None, None, streams, 0, gap);
    FillShape(None, None, streams, 0, gap);
    TakenIs(out, src, Margin(gap));
    forall k: nat | k < |streams[src]|
      ensures k in RealAt(out, src)
          <==> (!streams[src][k].Stale() && Reached(None, None, streams, 0, src, k, gap))
    {
      FillExact(streams, gap, Placed(streams[src][k], src, k));
    }
    assert RealAt(out, src)
        == set k: nat | k < |streams[src]| && !streams[src][k].Stale()
                        && Reached(None, None, streams, 0, src, k, gap);
  }

  /** t lies in the j-th span of the base, clear of both its ends, and that span counts as a gap. */
  predicate BaseGap(base: Timeline, j: nat, t: int, gap: int) {
    && j <= |base|
    && (j > 0 ==> t - base[j - 1].t > gap / 4)
    && (j < |base| ==> base[j].t - t > gap / 4)
    && (0 < j < |base| ==> base[j - 1].Stale() || base[j].t - base[j - 1].t >= gap)
  }

  /** The first filler gives its real samples in gaps of the base, and a marker behind one of them in the same gap. */
  lemma {:induction false} FirstFillerWithMarkers(streams: seq<Timeline>, gap: int, k: nat)
    requires |streams| > 1 && gap > 0 && AllOrdered(streams) && k < |streams[1]|
    ensures var f := streams[1];
            Placed(f[k], 1, k) in Fill(None, None, streams, 0, gap)
            <==> (exists j: nat :: BaseGap(streams[0], j, f[k].t, gap)
                    && (f[k].Stale() ==> k > 0 && !f[k - 1].Stale() && BaseGap(streams[0], j, f[k - 1].t, gap)))
  {
    hide Fill;
    FillReaches(None, None, streams, 0, 1, k, gap);
    var base, f := streams[0], streams[1];
    forall j: nat | j <= |base|
      ensures ReachedThrough(None, None, streams, 0, j, 1, k, gap)
          <==> (BaseGap(base, j, f[k].t, gap)
                && (f[k].Stale() ==> k > 0 && !f[k - 1].Stale() && BaseGap(base, j, f[k - 1].t, gap)))
    {
    }
  }
}
