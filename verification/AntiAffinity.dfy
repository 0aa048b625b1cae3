/**
 * The anti-affinity merge of two replicas' samples (pkg/promhttputil/merge.go).
 */
module AntiAffinity {
  import opened Wrappers
  import opened Intervals
  import Sorting

  /** A timestamped value: a float sample or a histogram sample. */
  datatype Point<V> = Point(t: int, v: V)

  predicate Increasing<V>(s: seq<Point<V>>) {
    forall i, j :: 0 <= i < j < |s| ==> s[i].t < s[j].t
  }

  /** More than buffer away from every point of s. */
  ghost predicate Far<V>(t: int, s: seq<Point<V>>, buffer: int) {
    forall p <- s :: t < p.t - buffer || p.t + buffer < t
  }

  /**
   * What merging the shorter stream b into the longer one a must give: in strictly increasing time order all of a
   * (as kept, which has a's times) and exactly those points of b that are more than buffer away from all of a.
   */
  ghost predicate Merged<V>(out: seq<Point<V>>, kept: seq<Point<V>>, a: seq<Point<V>>, b: seq<Point<V>>, buffer: int) {
    && Increasing(out)
    && (forall p <- kept :: p in out)
    && (forall p <- b :: Far(p.t, a, buffer) ==> p in out)
    && (forall p <- out :: p in kept || (p in b && Far(p.t, a, buffer)))
  }

  /** out merges x and y, the longer one (x on a tie) being the base. */
  ghost predicate MergeOf<V>(out: seq<Point<V>>, x: seq<Point<V>>, y: seq<Point<V>>, buffer: int) {
    var (a, b) := if |y| > |x| then (y, x) else (x, y);
    Merged(out, a, a, b, buffer)
  }

  ghost predicate FloatMergeOf(out: seq<Point<int>>, x: seq<Point<int>>, y: seq<Point<int>>, buffer: int,
      preferMax: bool)
  {
    var (a, b) := if |y| > |x| then (y, x) else (x, y);
    Merged(out, if b == [] then a else Kept(a, b, buffer, preferMax), a, b, buffer)
  }

  /** The description leaves no choice: two results that satisfy it are equal. */
  lemma {:induction false} MergedUnique<V>(x: seq<Point<V>>, y: seq<Point<V>>, kept: seq<Point<V>>, a: seq<Point<V>>,
      b: seq<Point<V>>, buffer: int)
    requires Merged(x, kept, a, b, buffer) && Merged(y, kept, a, b, buffer)
    ensures x == y
  {
    SameElements(x, y);
  }

  lemma {:induction false} SameElements<V>(x: seq<Point<V>>, y: seq<Point<V>>)
    requires Increasing(x) && Increasing(y)
    requires (forall p <- x :: p in y) && (forall p <- y :: p in x)
    ensures x == y
  {
    Sorting.SameElements((p: Point<V>) => p.t, x, y);
  }

  // --- preferMax --------------------------------------------------------------

  /** Close enough to be another observation of the sample at time t. */
  predicate SameObservation(t: int, u: int, buffer: int) {
    u == t || t - buffer < u < t + buffer
  }

  /** The first point of b from position i on that observes time t, if any. */
  function Observation(b: seq<Point<int>>, i: nat, t: int, buffer: int): (r: nat)
    requires i <= |b|
    ensures i <= r <= |b|
    ensures r < |b| ==> SameObservation(t, b[r].t, buffer)
    ensures forall k :: i <= k < r ==> !SameObservation(t, b[k].t, buffer)
    decreases |b| - i
  {
    if i == |b| || SameObservation(t, b[i].t, buffer) then i else Observation(b, i + 1, t, buffer)
  }

  /** The larger of p and b's first observation of the same time, at p's time. */
  function Raised(p: Point<int>, b: seq<Point<int>>, buffer: int): Point<int> {
    var r := Observation(b, 0, p.t, buffer);
    if r < |b| && b[r].v > p.v then Point(p.t, b[r].v) else p
  }

  /** The longer stream as preferMax leaves it.  Its first point is only compared when something of b came before it. */
  function Kept(a: seq<Point<int>>, b: seq<Point<int>>, buffer: int, preferMax: bool): (r: seq<Point<int>>)
    requires a != [] && b != []
    ensures |r| == |a|
  {
    seq(|a|, i requires 0 <= i < |a| =>
      if preferMax && (i > 0 || b[0].t < a[0].t - buffer) then Raised(a[i], b, buffer) else a[i])
  }

  lemma {:induction false} KeptRaises(a: seq<Point<int>>, b: seq<Point<int>>, buffer: int, preferMax: bool, k: nat)
    requires a != [] && b != [] && k < |a|
    ensures var kept := Kept(a, b, buffer, preferMax)[k];
            && kept.t == a[k].t && kept.v >= a[k].v
            && (kept.v > a[k].v ==> exists q <- b :: SameObservation(a[k].t, q.t, buffer) && q.v == kept.v)
  {
  }

  /** Same times, whatever the values. */
  ghost predicate TimesIn<V>(x: seq<Point<V>>, y: seq<Point<V>>) {
    forall p <- x :: exists q <- y :: q.t == p.t
  }

  lemma {:induction false} SameTimesInOrder<V>(x: seq<Point<V>>, y: seq<Point<V>>)
    requires Increasing(x) && Increasing(y) && TimesIn(x, y) && TimesIn(y, x)
    ensures Times(x) == Times(y)
  {
    TimesWithin(x, y);
    TimesWithin(y, x);
    Sorting.SameElements((t: int) => t, Times(x), Times(y));
  }

  lemma {:induction false} TimesWithin<V>(x: seq<Point<V>>, y: seq<Point<V>>)
    requires TimesIn(x, y)
    ensures forall t <- Times(x) :: t in Times(y)
  {
    forall t <- Times(x) ensures t in Times(y) {
      var i :| 0 <= i < |x| && Times(x)[i] == t;
      assert x[i] in x;
      var q :| q in y && q.t == t;
      var j :| 0 <= j < |y| && y[j] == q;
      assert Times(y)[j] == t;
    }
  }

  /** A merged sample's counterpart in the merge of the same streams with the other preference. */
  lemma {:induction false} Counterpart(a: seq<Point<int>>, b: seq<Point<int>>, buffer: int, from: bool, to: bool,
      x: seq<Point<int>>, y: seq<Point<int>>)
    requires a != [] && b != []
    requires Merged(x, Kept(a, b, buffer, from), a, b, buffer) && Merged(y, Kept(a, b, buffer, to), a, b, buffer)
    ensures TimesIn(x, y)
  {
    var here, there := Kept(a, b, buffer, from), Kept(a, b, buffer, to);
    forall p <- x ensures exists q <- y :: q.t == p.t {
      if p in here {
        var k :| 0 <= k < |a| && here[k] == p;
        KeptRaises(a, b, buffer, from, k);
        KeptRaises(a, b, buffer, to, k);
        assert there[k] in y;
      } else {
        assert p in y;
      }
    }
  }

  lemma {:induction false} OneAtATime<V>(s: seq<Point<V>>, i: nat, p: Point<V>)
    requires Increasing(s) && i < |s| && p in s && p.t == s[i].t
    ensures p == s[i]
  {
  }

  /** What preferring the larger value may make of the sample p. */
  ghost predicate RaisedFrom(p: Point<int>, q: Point<int>, b: seq<Point<int>>, buffer: int) {
    && q.t == p.t && q.v >= p.v
    && (q.v > p.v ==> exists o <- b :: SameObservation(p.t, o.t, buffer) && o.v == q.v)
  }

  lemma {:induction false} PreferenceRaises(a: seq<Point<int>>, b: seq<Point<int>>, buffer: int,
      plain: seq<Point<int>>, preferred: seq<Point<int>>)
    requires a != [] && b != []
    requires Merged(plain, Kept(a, b, buffer, false), a, b, buffer)
        && Merged(preferred, Kept(a, b, buffer, true), a, b, buffer)
    ensures |plain| == |preferred| && forall i :: 0 <= i < |plain| ==> RaisedFrom(plain[i], preferred[i], b, buffer)
  {
    hide Kept, RaisedFrom, Far, Increasing, TimesIn;
    MergedIncreasing(plain, Kept(a, b, buffer, false), a, b, buffer);
    MergedIncreasing(preferred, Kept(a, b, buffer, true), a, b, buffer);
    Counterpart(a, b, buffer, false, true, plain, preferred);
    Counterpart(a, b, buffer, true, false, preferred, plain);
    SameTimesInOrder(plain, preferred);
    assert |Times(plain)| == |plain| && |Times(preferred)| == |preferred|;
    forall i | 0 <= i < |plain| ensures RaisedFrom(plain[i], preferred[i], b, buffer) {
      assert Times(plain)[i] == Times(preferred)[i];
      RaisedAt(a, b, buffer, plain, preferred, i);
    }
  }

  lemma {:induction false} RaisedAt(a: seq<Point<int>>, b: seq<Point<int>>, buffer: int, plain: seq<Point<int>>,
      preferred: seq<Point<int>>, i: nat)
    requires a != [] && b != [] && i < |plain| && i < |preferred| && plain[i].t == preferred[i].t
    requires Merged(plain, Kept(a, b, buffer, false), a, b, buffer)
        && Merged(preferred, Kept(a, b, buffer, true), a, b, buffer)
    ensures RaisedFrom(plain[i], preferred[i], b, buffer)
  {
    hide Kept, Far, Increasing, SameObservation;
    var p, here, there := plain[i], Kept(a, b, buffer, false), Kept(a, b, buffer, true);
    assert p in plain;
    if p in here {
      var k :| 0 <= k < |here| && here[k] == p;
      NotPreferred(a, b, buffer, k);
      KeptRaises(a, b, buffer, true, k);
      OneAtATime(preferred, i, there[k]);
    } else {
      OneAtATime(preferred, i, p);
    }
  }

  lemma {:induction false} MergedIncreasing<V>(out: seq<Point<V>>, kept: seq<Point<V>>, a: seq<Point<V>>,
      b: seq<Point<V>>, buffer: int)
    requires Merged(out, kept, a, b, buffer)
    ensures Increasing(out)
  {
  }

  lemma {:induction false} NotPreferred(a: seq<Point<int>>, b: seq<Point<int>>, buffer: int, k: nat)
    requires a != [] && b != [] && k < |a|
    ensures Kept(a, b, buffer, false)[k] == a[k]
  {
  }

  /**
   * Merging the same streams with the larger value preferred gives as many samples, at the same times, with no value
   * lower; and a raised value was observed close by in one of them.
   */
  lemma {:induction false} PreferMaxOnlyRaises(x: seq<Point<int>>, y: seq<Point<int>>, buffer: int,
      plain: seq<Point<int>>, preferred: seq<Point<int>>)
    requires FloatMergeOf(plain, x, y, buffer, false) && FloatMergeOf(preferred, x, y, buffer, true)
    ensures |plain| == |preferred|
    ensures forall i :: 0 <= i < |plain| ==> RaisedFrom(plain[i], preferred[i], x + y, buffer)
  {
    hide Kept, Merged, Increasing;
    var (a, b) := if |y| > |x| then (y, x) else (x, y);
    if b == [] {
      MergedUnique(plain, preferred, a, a, b, buffer);
    } else {
      PreferenceRaises(a, b, buffer, plain, preferred);
      forall i | 0 <= i < |plain| ensures RaisedFrom(plain[i], preferred[i], x + y, buffer) {
        assert RaisedFrom(plain[i], preferred[i], b, buffer);
      }
    }
  }

  /**
   * Every sample of the longer stream comes out compared with the shorter one if and only if the shorter one starts
   * more than buffer before it, or the comparison would not raise the longer one's first sample.
   */
  lemma {:induction false} AllComparedExactly(a: seq<Point<int>>, b: seq<Point<int>>, buffer: int, out: seq<Point<int>>)
    requires a != [] && b != [] && |a| >= |b| && FloatMergeOf(out, a, b, buffer, true)
    ensures (forall p <- a :: Raised(p, b, buffer) in out)
        <==> (b[0].t < a[0].t - buffer || Raised(a[0], b, buffer) == a[0])
  {
    hide Raised;
    var kept := Kept(a, b, buffer, true);
    assert kept[0] in out && a[0] in a;
    RaisedInPlace(a[0], b, buffer);
    if b[0].t < a[0].t - buffer || Raised(a[0], b, buffer) == a[0] {
      forall p <- a ensures Raised(p, b, buffer) in out {
        var k :| 0 <= k < |a| && a[k] == p;
        assert kept[k] == Raised(p, b, buffer) && kept[k] in out;
      }
    }
  }

  lemma {:induction false} RaisedInPlace(p: Point<int>, b: seq<Point<int>>, buffer: int)
    ensures Raised(p, b, buffer).t == p.t
  {
  }

  /** The replicas 1, 1 and 5, 1 observed at the same times: the first sample stays 1 although 5 is the larger value. */
  lemma {:induction false} FirstNotCompared()
    ensures var a, b := [Point(10, 1), Point(20, 1)], [Point(10, 5), Point(20, 5)];
            && FloatMergeOf([Point(10, 1), Point(20, 5)], a, b, 0, true)
            && Raised(a[0], b, 0) == Point(10, 5)
  {
    var a, b := [Point(10, 1), Point(20, 1)], [Point(10, 5), Point(20, 5)];
    assert Raised(a[0], b, 0) == Point(10, 5);
    assert Observation(b, 1, 20, 0) == 1 == Observation(b, 0, 20, 0);
    assert Kept(a, b, 0, true) == [Point(10, 1), Point(20, 5)];
    assert a[0] in a && a[1] in a;
  }

  // --- the same in plain numbers --------------------------------------------------

  /** b[j] is the first of b at time t or less than buffer away from it; |b| stands for none. */
  predicate FirstClose(b: seq<Point<int>>, j: nat, t: int, buffer: int) {
    && j <= |b|
    && (j < |b| ==> b[j].t == t || -buffer < b[j].t - t < buffer)
    && forall k :: 0 <= k < j ==> b[k].t != t && !(-buffer < b[k].t - t < buffer)
  }

  /** More than buffer from every sample of a, on either side. */
  ghost predicate Clear<V>(a: seq<Point<V>>, t: int, buffer: int) {
    forall q <- a :: q.t - t > buffer || t - q.t > buffer
  }

  lemma {:induction false} FirstCloseIs(b: seq<Point<int>>, j: nat, i: nat, t: int, buffer: int)
    requires FirstClose(b, j, t, buffer) && i <= j
    ensures Observation(b, i, t, buffer) == j
    decreases j - i
  {
    if i < j {
      FirstCloseIs(b, j, i + 1, t, buffer);
    }
  }

  /**
   * Preferring the larger value: sample i of the longer stream comes out at its time with the larger of its value and
   * that of the other stream's first sample close to it.  The first sample does so only when the other stream starts
   * more than buffer earlier, and keeps its value otherwise.
   */
  lemma {:induction false} LargerTaken(a: seq<Point<int>>, b: seq<Point<int>>, buffer: int, out: seq<Point<int>>,
      i: nat, j: nat)
    requires i < |a| && b != [] && FloatMergeOf(out, a, b, buffer, true) && |a| >= |b|
    requires FirstClose(b, j, a[i].t, buffer)
    ensures i > 0 || a[0].t - b[0].t > buffer ==>
      Point(a[i].t, if j < |b| && b[j].v > a[i].v then b[j].v else a[i].v) in out
    ensures i == 0 && a[0].t - b[0].t <= buffer ==> a[0] in out
    ensures forall p <- out :: p.t == a[i].t ==>
      p.v == if j < |b| && b[j].v > a[i].v && (i > 0 || a[0].t - b[0].t > buffer) then b[j].v else a[i].v
  {
    FirstCloseIs(b, j, 0, a[i].t, buffer);
    var kept := Kept(a, b, buffer, true);
    assert kept[i] in kept;
    forall p <- out | p.t == a[i].t ensures p == kept[i] {
      AtMostOne(out, p, kept[i]);
    }
  }

  lemma {:induction false} AtMostOne<V>(s: seq<Point<V>>, p: Point<V>, q: Point<V>)
    requires Increasing(s) && p in s && q in s
    ensures p.t == q.t ==> p == q
  {
    var i :| 0 <= i < |s| && s[i] == p;
    var j :| 0 <= j < |s| && s[j] == q;
  }

  /** The merge has the times of the longer stream, and of the shorter one exactly the samples clear of it. */
  lemma {:induction false} MergedTimes(a: seq<Point<int>>, b: seq<Point<int>>, buffer: int, preferMax: bool,
      out: seq<Point<int>>)
    requires a != [] && |a| >= |b| && FloatMergeOf(out, a, b, buffer, preferMax)
    ensures forall k :: 0 <= k < |a| ==> AtTimeOf(out, a[k].t) && (!preferMax ==> a[k] in out)
    ensures forall p <- b :: Clear(a, p.t, buffer) ==> p in out
    ensures forall p <- out :: AtTimeOf(a, p.t) || (p in b && Clear(a, p.t, buffer))
  {
    hide Far, Clear, Kept, AtTimeOf;
    var kept := if b == [] then a else Kept(a, b, buffer, preferMax);
    forall k | 0 <= k < |a| ensures AtTimeOf(out, a[k].t) && (!preferMax ==> a[k] in out) {
      KeptAt(a, b, buffer, preferMax, k);
      assert kept[k] in kept;
      HasItsTime(out, kept[k]);
    }
    forall p <- b ensures Clear(a, p.t, buffer) <==> Far(p.t, a, buffer) {
      ClearIsFar(a, p.t, buffer);
    }
    forall p <- out | p in kept ensures AtTimeOf(a, p.t) {
      var k :| 0 <= k < |kept| && kept[k] == p;
      KeptAt(a, b, buffer, preferMax, k);
    }
  }

  ghost predicate AtTimeOf<V>(a: seq<Point<V>>, t: int) {
    exists k :: 0 <= k < |a| && a[k].t == t
  }

  lemma {:induction false} HasItsTime<V>(s: seq<Point<V>>, p: Point<V>)
    requires p in s
    ensures AtTimeOf(s, p.t)
  {
    var k :| 0 <= k < |s| && s[k] == p;
  }

  lemma {:induction false} KeptAt(a: seq<Point<int>>, b: seq<Point<int>>, buffer: int, preferMax: bool, k: nat)
    requires k < |a|
    ensures var kept := if b == [] then a else Kept(a, b, buffer, preferMax);
            |kept| == |a| && kept[k].t == a[k].t && AtTimeOf(a, kept[k].t) && (!preferMax ==> kept[k] == a[k])
  {
  }

  lemma {:induction false} ClearIsFar<V>(a: seq<Point<V>>, t: int, buffer: int)
    ensures Clear(a, t, buffer) <==> Far(t, a, buffer)
  {
  }

  /** Which stream comes first only matters when they are equally long. */
  lemma {:induction false} LengthDecides<V>(x: seq<Point<V>>, y: seq<Point<V>>, p: seq<Point<int>>, q: seq<Point<int>>,
      buffer: int, preferMax: bool)
    ensures |x| != |y| ==> forall out: seq<Point<V>> :: MergeOf(out, x, y, buffer) <==> MergeOf(out, y, x, buffer)
    ensures |p| != |q| ==>
      forall out :: FloatMergeOf(out, p, q, buffer, preferMax) <==> FloatMergeOf(out, q, p, buffer, preferMax)
  {
  }

  /** A histogram merge has the longer stream and exactly the samples of the shorter one that are clear of it. */
  lemma {:induction false} MergedExactly<V>(a: seq<Point<V>>, b: seq<Point<V>>, buffer: int, out: seq<Point<V>>,
      p: Point<V>)
    requires |a| >= |b| && MergeOf(out, a, b, buffer)
    ensures p in out <==> p in a || (p in b && Clear(a, p.t, buffer))
  {
    assert Clear(a, p.t, buffer) <==> Far(p.t, a, buffer);
  }

  // --- the merge loop -----------------------------------------------------------

  /** The invariant of the main loop: the first k points of the longer stream are done. */
  ghost predicate Done<V>(out: seq<Point<V>>, kept: seq<Point<V>>, a: seq<Point<V>>, b: seq<Point<V>>, buffer: int,
      k: nat, bOffset: nat)
    requires |kept| == |a| && 0 < |a| && k <= |a| && bOffset <= |b|
  {
    var reach := a[if k == 0 then 0 else k - 1].t;
    && Increasing(out)
    && (k == 0 ==> forall p <- out :: p.t < a[0].t - buffer)
    && (k > 0 ==> out != [] && out[|out| - 1] == kept[k - 1])
    && (forall i :: 0 <= i < k ==> kept[i] in out)
    && (forall p <- b :: Far(p.t, a, buffer) && p.t < reach ==> p in out)
    && (forall p <- out :: p in kept[..k] || (p in b && Far(p.t, a, buffer) && p.t < reach))
    && (forall i :: 0 <= i < bOffset ==> b[i].t < reach)
  }

  predicate SameTimes<V>(kept: seq<Point<V>>, a: seq<Point<V>>) {
    |kept| == |a| && forall i :: 0 <= i < |a| ==> kept[i].t == a[i].t
  }

  lemma {:induction false} FarBetween<V>(a: seq<Point<V>>, k: nat, t: int, buffer: int)
    requires Increasing(a) && buffer >= 0 && k <= |a| && a != []
    requires (k > 0 ==> a[k - 1].t <= t) && (k < |a| ==> t < a[k].t)
    ensures Far(t, a, buffer) <==> (k > 0 ==> a[k - 1].t + buffer < t) && (k < |a| ==> t < a[k].t - buffer)
  {
    if (k > 0 ==> a[k - 1].t + buffer < t) && (k < |a| ==> t < a[k].t - buffer) {
      forall p <- a ensures t < p.t - buffer || p.t + buffer < t {
        var i :| 0 <= i < |a| && a[i] == p;
      }
    }
  }

  /** Loads the points of b that come more than buffer before a. */
  method LoadBefore<V>(a: seq<Point<V>>, b: seq<Point<V>>, buffer: int, ghost kept: seq<Point<V>>)
    returns (out: seq<Point<V>>, bOffset: nat)
    requires a != [] && b != [] && Increasing(a) && Increasing(b) && buffer >= 0 && SameTimes(kept, a)
    ensures bOffset < |b| && Done(out, kept, a, b, buffer, 0, bOffset)
    ensures out == [] <==> b[0].t >= a[0].t - buffer
    ensures forall i :: 0 <= i < bOffset ==> b[i].t < a[0].t - buffer
    ensures b[bOffset].t < a[0].t - buffer ==> out != [] && out[|out| - 1] == b[bOffset] && bOffset == |b| - 1
  {
    hide Increasing, Done;
    out, bOffset := [], 0;
    var n: nat := 0;
    var aStartBuffered := a[0].t - buffer;
    if b[0].t < aStartBuffered {
      while n < |b|
        invariant 0 <= n <= |b| && bOffset == (if n == 0 then 0 else n - 1)
        invariant out == b[..n] && forall j :: 0 <= j < n ==> b[j].t < aStartBuffered
      {
        bOffset := n;
        if b[n].t < aStartBuffered {
          out := out + [b[n]];
        } else {
          break;
        }
        n := n + 1;
      }
    }
    BeforeDone(a, b, buffer, n, bOffset, kept);
  }

  lemma {:induction false} BeforeDone<V>(a: seq<Point<V>>, b: seq<Point<V>>, buffer: int, n: nat, bOffset: nat,
      kept: seq<Point<V>>)
    requires a != [] && b != [] && Increasing(a) && Increasing(b) && buffer >= 0 && SameTimes(kept, a)
    requires n <= |b| && bOffset < |b| && bOffset <= n && forall j :: 0 <= j < n ==> b[j].t < a[0].t - buffer
    requires n < |b| ==> b[n].t >= a[0].t - buffer
    ensures Done(b[..n], kept, a, b, buffer, 0, bOffset)
  {
    forall p <- b ensures p.t < a[0].t ==> (Far(p.t, a, buffer) <==> p.t < a[0].t - buffer) {
      if p.t < a[0].t {
        FarBetween(a, 0, p.t, buffer);
      }
    }
    forall p <- b | p.t < a[0].t - buffer ensures p in b[..n] {
      var i :| 0 <= i < |b| && b[i] == p;
      assert i < n;
    }
  }

  /** Adds the points of b that fit between the last point of out and the next point of a. */
  method FillBetween<V>(a: seq<Point<V>>, b: seq<Point<V>>, buffer: int, k: nat, out0: seq<Point<V>>, bOffset0: nat,
      ghost kept: seq<Point<V>>)
    returns (out: seq<Point<V>>, bOffset: nat)
    requires a != [] && Increasing(a) && Increasing(b) && buffer >= 0 && SameTimes(kept, a)
    requires k < |a| && bOffset0 <= |b| && out0 != [] && Done(out0, kept, a, b, buffer, k, bOffset0)
    ensures bOffset0 <= bOffset <= |b|
    ensures Increasing(out + [kept[k]]) && Done(out + [kept[k]], kept, a, b, buffer, k + 1, bOffset)
  {
    LastBefore(out0, kept, a, b, buffer, k, bOffset0);
    var lastTime := out0[|out0| - 1].t;
    var added: seq<Point<V>>;
    added, bOffset := ScanGap(b, buffer, bOffset0, lastTime, a[k].t);
    AllAppended(out0, added, kept[k]);
    StepDone(a, b, buffer, k, out0, bOffset0, added, bOffset, kept);
    out := out0 + added;
  }

  /**
   * Collects the points of b from bOffset0 on that are more than buffer inside (lastTime, next), when there is room for
   * one.
   */
  method ScanGap<V>(b: seq<Point<V>>, buffer: int, bOffset0: nat, lastTime: int, next: int)
    returns (added: seq<Point<V>>, bOffset: nat)
    requires Increasing(b) && buffer >= 0 && bOffset0 <= |b|
    ensures bOffset0 <= bOffset <= |b| && Increasing(added) && Between(added, b, lastTime, next, buffer)
    ensures forall i :: bOffset0 <= i < bOffset ==> b[i].t < next
    ensures forall i :: bOffset0 <= i < |b| && lastTime + buffer < b[i].t < next - buffer ==> b[i] in added
  {
    hide Increasing;
    IncreasingEmpty<V>();
    added, bOffset := [], bOffset0;
    if next - lastTime > buffer * 2 {
      while bOffset < |b|
        invariant bOffset0 <= bOffset <= |b|
        invariant Increasing(added) && Between(added, b, lastTime, next, buffer)
        invariant forall i :: bOffset0 <= i < bOffset ==> b[i].t < next
        invariant forall i :: bOffset0 <= i < bOffset && lastTime + buffer < b[i].t < next - buffer ==> b[i] in added
        invariant bOffset < |b| ==> added == [] || added[|added| - 1].t < b[bOffset].t
      {
        var p := b[bOffset];
        if p.t >= next {
          NoEarlierFollows(b, bOffset, next);
          break;
        }
        if bOffset + 1 < |b| {
          Adjacent(b, bOffset);
        }
        if p.t > lastTime + buffer && p.t < next - buffer {
          Appended(added, p);
          added := added + [p];
        }
        bOffset := bOffset + 1;
      }
    }
  }

  lemma {:induction false} LastBefore<V>(out: seq<Point<V>>, kept: seq<Point<V>>, a: seq<Point<V>>, b: seq<Point<V>>,
      buffer: int, k: nat, bOffset: nat)
    requires a != [] && Increasing(a) && buffer >= 0 && SameTimes(kept, a)
    requires k < |a| && bOffset <= |b| && out != [] && Done(out, kept, a, b, buffer, k, bOffset)
    ensures out[|out| - 1].t < a[k].t
    ensures k > 0 ==> out[|out| - 1].t == a[k - 1].t
  {
    assert out[|out| - 1] in out;
  }

  lemma {:induction false} AllAppended<V>(out: seq<Point<V>>, added: seq<Point<V>>, p: Point<V>)
    requires Increasing(out) && Increasing(added) && out != [] && out[|out| - 1].t < p.t
    requires forall q <- added :: out[|out| - 1].t < q.t < p.t
    ensures Increasing(out + added + [p])
  {
    assert forall q <- out :: q.t <= out[|out| - 1].t;
    assert forall q <- out + added :: q.t < p.t;
  }

  lemma {:induction false} IncreasingEmpty<V>()
    ensures Increasing<V>([])
  {
  }

  lemma {:induction false} NoEarlierFollows<V>(s: seq<Point<V>>, from: nat, t: int)
    requires Increasing(s) && from < |s| && s[from].t >= t
    ensures forall i :: from <= i < |s| ==> s[i].t >= t
  {
    assert forall i :: from <= i < |s| ==> s[i].t >= s[from].t;
  }

  lemma {:induction false} Adjacent<V>(s: seq<Point<V>>, i: nat)
    requires Increasing(s) && i + 1 < |s|
    ensures s[i].t < s[i + 1].t
  {
  }

  lemma {:induction false} Appended<V>(s: seq<Point<V>>, p: Point<V>)
    requires Increasing(s) && (s == [] || s[|s| - 1].t < p.t)
    ensures Increasing(s + [p])
  {
  }

  /** Points of b more than buffer after lastTime and more than buffer before next. */
  ghost predicate Between<V>(ps: seq<Point<V>>, b: seq<Point<V>>, lastTime: int, next: int, buffer: int) {
    forall p <- ps :: p in b && lastTime + buffer < p.t < next - buffer
  }

  lemma {:induction false} StepDone<V>(a: seq<Point<V>>, b: seq<Point<V>>, buffer: int, k: nat, out0: seq<Point<V>>,
      bOffset0: nat, added: seq<Point<V>>, bOffset: nat, kept: seq<Point<V>>)
    requires a != [] && Increasing(a) && Increasing(b) && buffer >= 0 && SameTimes(kept, a)
    requires k < |a| && bOffset0 <= bOffset <= |b| && out0 != [] && Done(out0, kept, a, b, buffer, k, bOffset0)
    requires Increasing(out0 + added + [kept[k]])
    requires Between(added, b, out0[|out0| - 1].t, a[k].t, buffer)
    requires forall i :: bOffset0 <= i < bOffset ==> b[i].t < a[k].t
    requires forall i :: bOffset0 <= i < |b| && out0[|out0| - 1].t + buffer < b[i].t < a[k].t - buffer ==> b[i] in added
    ensures Done(out0 + added + [kept[k]], kept, a, b, buffer, k + 1, bOffset)
  {
    hide Increasing, Far;
    LastBefore(out0, kept, a, b, buffer, k, bOffset0);
    var next := out0 + added + [kept[k]];
    assert next[|next| - 1] == kept[k];
    forall i | 0 <= i < k + 1 ensures kept[i] in next {
      assert i < k ==> kept[i] in out0;
    }
    forall p <- b | Far(p.t, a, buffer) && p.t < a[k].t ensures p in next {
      if k > 0 && a[k - 1].t <= p.t {
        FarBetween(a, k, p.t, buffer);
        InGap(b, bOffset0, p, a[k - 1].t, a[k].t, buffer, added);
      }
    }
    forall p <- next ensures p in kept[..k + 1] || (p in b && Far(p.t, a, buffer) && p.t < a[k].t) {
      NextFrom(a, b, buffer, k, out0, bOffset0, added, kept, p);
    }
  }

  /** Where a point of the next output comes from. */
  lemma {:induction false} NextFrom<V>(a: seq<Point<V>>, b: seq<Point<V>>, buffer: int, k: nat, out0: seq<Point<V>>,
      bOffset0: nat, added: seq<Point<V>>, kept: seq<Point<V>>, p: Point<V>)
    requires a != [] && Increasing(a) && buffer >= 0 && SameTimes(kept, a) && k < |a| && bOffset0 <= |b| && out0 != []
    requires Done(out0, kept, a, b, buffer, k, bOffset0) && Between(added, b, out0[|out0| - 1].t, a[k].t, buffer)
    requires p in out0 + added + [kept[k]]
    ensures p in kept[..k + 1] || (p in b && Far(p.t, a, buffer) && p.t < a[k].t)
  {
    hide Increasing, Far;
    LastBefore(out0, kept, a, b, buffer, k, bOffset0);
    if p in out0 {
      assert p in kept[..k] ==> p in kept[..k + 1];
    } else if p in added {
      FarBetween(a, k, p.t, buffer);
    } else {
      assert p == kept[k] == kept[..k + 1][k];
    }
  }

  lemma {:induction false} InGap<V>(b: seq<Point<V>>, from: nat, p: Point<V>, last: int, next: int, buffer: int,
      added: seq<Point<V>>)
    requires p in b && last + buffer < p.t < next - buffer && buffer >= 0 && from <= |b|
    requires forall i :: 0 <= i < from ==> b[i].t < last
    requires forall i :: from <= i < |b| && last + buffer < b[i].t < next - buffer ==> b[i] in added
    ensures p in added
  {
    var i :| 0 <= i < |b| && b[i] == p;
  }

  /** Adds what is left of b behind a. */
  method LoadAfter<V>(a: seq<Point<V>>, b: seq<Point<V>>, buffer: int, out0: seq<Point<V>>, bOffset0: nat,
      ghost kept: seq<Point<V>>)
    returns (out: seq<Point<V>>)
    requires a != [] && Increasing(a) && Increasing(b) && buffer >= 0 && SameTimes(kept, a)
    requires bOffset0 <= |b| && Done(out0, kept, a, b, buffer, |a|, bOffset0)
    ensures Merged(out, kept, a, b, buffer)
  {
    var lastTime := out0[|out0| - 1].t;
    var added := ScanTail(b, buffer, bOffset0, lastTime);
    TailAppended(out0, added);
    AfterDone(a, b, buffer, out0, bOffset0, added, kept);
    out := out0 + added;
  }

  lemma {:induction false} TailAppended<V>(out: seq<Point<V>>, added: seq<Point<V>>)
    requires Increasing(out) && Increasing(added) && out != []
    requires forall q <- added :: out[|out| - 1].t < q.t
    ensures Increasing(out + added)
  {
    assert forall q <- out :: q.t <= out[|out| - 1].t;
  }

  method ScanTail<V>(b: seq<Point<V>>, buffer: int, bOffset0: nat, lastTime: int) returns (added: seq<Point<V>>)
    requires Increasing(b) && bOffset0 <= |b|
    ensures Increasing(added) && forall p <- added :: p in b && lastTime + buffer < p.t
    ensures forall i :: bOffset0 <= i < |b| && lastTime + buffer < b[i].t ==> b[i] in added
  {
    added := [];
    var bOffset := bOffset0;
    while bOffset < |b|
      invariant bOffset0 <= bOffset <= |b| && Increasing(added)
      invariant forall p <- added :: p in b && lastTime + buffer < p.t
      invariant forall i :: bOffset0 <= i < bOffset && lastTime + buffer < b[i].t ==> b[i] in added
      invariant bOffset < |b| ==> added == [] || added[|added| - 1].t < b[bOffset].t
    {
      var p := b[bOffset];
      if p.t > lastTime + buffer {
        Appended(added, p);
        added := added + [p];
      }
      bOffset := bOffset + 1;
    }
  }

  lemma {:induction false} AfterDone<V>(a: seq<Point<V>>, b: seq<Point<V>>, buffer: int, out0: seq<Point<V>>,
      bOffset0: nat, added: seq<Point<V>>, kept: seq<Point<V>>)
    requires a != [] && Increasing(a) && Increasing(b) && buffer >= 0 && SameTimes(kept, a)
    requires bOffset0 <= |b| && Done(out0, kept, a, b, buffer, |a|, bOffset0) && Increasing(out0 + added)
    requires forall p <- added :: p in b && a[|a| - 1].t + buffer < p.t
    requires forall i :: bOffset0 <= i < |b| && a[|a| - 1].t + buffer < b[i].t ==> b[i] in added
    ensures Merged(out0 + added, kept, a, b, buffer)
  {
    hide Increasing, Far, Done, SameTimes;
    var out, last := out0 + added, a[|a| - 1].t;
    DoneAtEnd(a, b, buffer, out0, bOffset0, kept);
    forall p <- b | Far(p.t, a, buffer) ensures p in out {
      if p.t >= last {
        FarBetween(a, |a|, p.t, buffer);
        LeftOver(b, bOffset0, p, last, buffer, added);
      }
    }
    forall p <- out ensures p in kept || (p in b && Far(p.t, a, buffer)) {
      if p !in out0 {
        assert p in added;
        FarBetween(a, |a|, p.t, buffer);
      }
    }
  }

  lemma {:induction false} DoneAtEnd<V>(a: seq<Point<V>>, b: seq<Point<V>>, buffer: int, out: seq<Point<V>>,
      bOffset: nat, kept: seq<Point<V>>)
    requires a != [] && SameTimes(kept, a) && bOffset <= |b| && Done(out, kept, a, b, buffer, |a|, bOffset)
    ensures forall p <- kept :: p in out
    ensures forall p <- b :: Far(p.t, a, buffer) && p.t < a[|a| - 1].t ==> p in out
    ensures forall p <- out :: p in kept || (p in b && Far(p.t, a, buffer))
    ensures forall i :: 0 <= i < bOffset ==> b[i].t < a[|a| - 1].t
  {
    hide Increasing, Far;
    assert kept[..|a|] == kept;
  }

  lemma {:induction false} LeftOver<V>(b: seq<Point<V>>, from: nat, p: Point<V>, last: int, buffer: int,
      added: seq<Point<V>>)
    requires p in b && last + buffer < p.t && buffer >= 0 && from <= |b|
    requires forall i :: 0 <= i < from ==> b[i].t < last
    requires forall i :: from <= i < |b| && last + buffer < b[i].t ==> b[i] in added
    ensures p in added
  {
    var i :| 0 <= i < |b| && b[i] == p;
  }

  /**
   * The histogram merge: all of the longer stream (the first on a tie) and what of the shorter one is far from it.
   */
  method MergeHistogramSamples<V>(buffer: int, x: seq<Point<V>>, y: seq<Point<V>>) returns (out: seq<Point<V>>)
    requires Increasing(x) && Increasing(y) && buffer >= 0
    ensures MergeOf(out, x, y, buffer)
  {
    if |x| == 0 && |y| == 0 {
      return [];
    }
    if |x| == 0 {
      return y;
    }
    if |y| == 0 {
      return x;
    }
    var a, b := x, y;
    if |b| > |a| {
      a, b := b, a;
    }
    out := MergeHistogramsInto(a, b, buffer);
  }

  method MergeHistogramsInto<V>(a: seq<Point<V>>, b: seq<Point<V>>, buffer: int) returns (out: seq<Point<V>>)
    requires a != [] && b != [] && Increasing(a) && Increasing(b) && buffer >= 0
    ensures Merged(out, a, a, b, buffer)
  {
    hide Done, Merged, Far;
    var bOffset: nat;
    out, bOffset := LoadBefore(a, b, buffer, a);
    var k: nat := 0;
    while k < |a|
      invariant 0 <= k <= |a| && bOffset <= |b| && Done(out, a, a, b, buffer, k, bOffset)
    {
      if |out| == 0 {
        FirstPoint(a, b, buffer, k, bOffset, a);
        out := [a[k]];
      } else {
        out, bOffset := FillBetween(a, b, buffer, k, out, bOffset, a);
        out := out + [a[k]];
      }
      k := k + 1;
    }
    out := LoadAfter(a, b, buffer, out, bOffset, a);
  }

  /** With nothing loaded before it, the first point of a starts the result as it is. */
  lemma {:induction false} FirstPoint<V>(a: seq<Point<V>>, b: seq<Point<V>>, buffer: int, k: nat, bOffset: nat,
      kept: seq<Point<V>>)
    requires a != [] && Increasing(a) && SameTimes(kept, a) && k <= |a| && bOffset <= |b|
    requires Done([], kept, a, b, buffer, k, bOffset)
    ensures k == 0 && Done([kept[0]], kept, a, b, buffer, 1, bOffset)
  {
    assert kept[..1] == [kept[0]];
  }

  /** The float merge.  With preferMax a point of a takes the larger of its own value and b's observation of it. */
  method MergeFloatSamples(buffer: int, x: seq<Point<int>>, y: seq<Point<int>>, preferMax: bool)
    returns (out: seq<Point<int>>)
    requires Increasing(x) && Increasing(y) && buffer >= 0
    ensures FloatMergeOf(out, x, y, buffer, preferMax)
  {
    if |x| == 0 {
      return y;
    } else if |y| == 0 {
      return x;
    }
    var a, b := x, y;
    if |b| > |a| {
      a, b := b, a;
    }
    out := MergeFloatsInto(a, b, buffer, preferMax);
  }

  lemma {:induction false} KeptOf(a: seq<Point<int>>, b: seq<Point<int>>, buffer: int, preferMax: bool)
    returns (kept: seq<Point<int>>)
    requires a != [] && b != []
    ensures kept == Kept(a, b, buffer, preferMax) && SameTimes(kept, a)
    ensures b[0].t >= a[0].t - buffer ==> kept[0] == a[0]
  {
    kept := Kept(a, b, buffer, preferMax);
  }

  method MergeFloatsInto(a: seq<Point<int>>, b: seq<Point<int>>, buffer: int, preferMax: bool)
    returns (out: seq<Point<int>>)
    requires a != [] && b != [] && Increasing(a) && Increasing(b) && buffer >= 0
    ensures Merged(out, Kept(a, b, buffer, preferMax), a, b, buffer)
  {
    hide Done, Merged, Far;
    ghost var kept := KeptOf(a, b, buffer, preferMax);
    var bOffset: nat;
    out, bOffset := LoadBefore(a, b, buffer, kept);
    var lastOffset: nat := bOffset;
    var k: nat := 0;
    while k < |a|
      invariant 0 <= k <= |a| && bOffset <= |b| && Done(out, kept, a, b, buffer, k, bOffset)
      invariant k == 0 ==> (out == [] <==> b[0].t >= a[0].t - buffer)
      invariant lastOffset < |b|
      invariant k < |a| ==> forall i :: 0 <= i < lastOffset ==> b[i].t < a[k].t - buffer
    {
      if |out| == 0 {
        FirstPoint(a, b, buffer, k, bOffset, kept);
        assert a[k] == kept[0];
        out := [a[k]];
      } else {
        out, bOffset := FillBetween(a, b, buffer, k, out, bOffset, kept);
        var p;
        p, lastOffset := TakeFloat(a, b, buffer, preferMax, k, lastOffset, kept);
        out := out + [p];
      }
      k := k + 1;
    }
    out := LoadAfter(a, b, buffer, out, bOffset, kept);
  }

  /** The k-th point of a as it goes into the result, once something precedes it there. */
  method TakeFloat(a: seq<Point<int>>, b: seq<Point<int>>, buffer: int, preferMax: bool, k: nat, lastOffset0: nat,
                   ghost kept: seq<Point<int>>)
    returns (p: Point<int>, lastOffset: nat)
    requires Increasing(a) && Increasing(b) && buffer >= 0 && k < |a| && lastOffset0 < |b|
    requires kept == Kept(a, b, buffer, preferMax)
    requires k == 0 ==> b[0].t < a[0].t - buffer
    requires forall i :: 0 <= i < lastOffset0 ==> b[i].t < a[k].t - buffer
    ensures p == kept[k] && lastOffset < |b|
    ensures k + 1 < |a| ==> forall i :: 0 <= i < lastOffset ==> b[i].t < a[k + 1].t - buffer
  {
    if !preferMax {
      p, lastOffset := a[k], lastOffset0;
    } else {
      p, lastOffset := Larger(a[k], b, buffer, lastOffset0);
    }
  }

  /** Looks for b's first observation of p's time, from lastOffset on, and takes its value when that is larger. */
  method Larger(p: Point<int>, b: seq<Point<int>>, buffer: int, lastOffset0: nat)
    returns (r: Point<int>, lastOffset: nat)
    requires Increasing(b) && buffer >= 0 && lastOffset0 < |b|
    requires forall i :: 0 <= i < lastOffset0 ==> b[i].t < p.t - buffer
    ensures r == Raised(p, b, buffer) && lastOffset < |b|
    ensures forall i :: 0 <= i < lastOffset ==> b[i].t <= p.t - buffer
  {
    lastOffset := lastOffset0;
    r := p;
    var i := lastOffset0;
    while i < |b|
      invariant lastOffset0 <= i <= |b| && lastOffset == lastOffset0 && r == p
      invariant forall j :: 0 <= j < i ==> b[j].t <= p.t - buffer && !SameObservation(p.t, b[j].t, buffer)
    {
      var q := b[i];
      if q.t >= p.t + buffer && q.t != p.t {
        break;
      }
      if q.t == p.t || q.t > p.t - buffer {
        lastOffset := i;
        ObservationIs(b, 0, i, p.t, buffer);
        if q.v > p.v {
          r := Point(p.t, q.v);
        }
        return;
      }
      i := i + 1;
    }
    ObservationIs(b, 0, |b|, p.t, buffer);
  }

  lemma {:induction false} ObservationIs(b: seq<Point<int>>, j: nat, i: nat, t: int, buffer: int)
    requires j <= i <= |b|
    requires forall k :: j <= k < i ==> !SameObservation(t, b[k].t, buffer)
    requires i < |b| ==> SameObservation(t, b[i].t, buffer)
    ensures Observation(b, j, t, buffer) == i
    decreases i - j
  {
    if j < i {
      ObservationIs(b, j + 1, i, t, buffer);
    }
  }

  // --- the dynamic buffer --------------------------------------------------------

  function Times<V>(s: seq<Point<V>>): seq<int> {
    seq(|s|, i requires 0 <= i < |s| => s[i].t)
  }

  /** Half the median interval of a, topped up with b's intervals when a has fewer than three. */
  function DynamicBuffer(a: seq<int>, b: seq<int>): Option<int> {
    var own := PositiveGaps(a, |a|);
    var gaps := if |own| < 3 then own + PositiveGaps(b, |b|) else own;
    if |gaps| < 3 then None else Some(Median(gaps) / 2)
  }

  /** Appends the positive differences of consecutive times. */
  method CollectGaps(ts: seq<int>, gaps0: seq<int>) returns (gaps: seq<int>)
    ensures gaps == gaps0 + PositiveGaps(ts, |ts|)
  {
    gaps := gaps0;
    if |ts| == 0 {
      return;
    }
    var i := 1;
    while i < |ts|
      invariant 1 <= i <= |ts|
      invariant gaps == gaps0 + PositiveGaps(ts, i)
    {
      var d := ts[i] - ts[i - 1];
      if d > 0 {
        gaps := gaps + [d];
      }
      i := i + 1;
    }
  }

  method DynamicAntiAffinityFromTimes(a: seq<int>, b: seq<int>) returns (buffer: Option<int>)
    ensures buffer == DynamicBuffer(a, b)
  {
    var gaps := CollectGaps(a, []);
    assert gaps == PositiveGaps(a, |a|);
    if |gaps| < 3 {
      gaps := CollectGaps(b, gaps);
    }
    buffer := if |gaps| < 3 then None else Some(Median(gaps) / 2);
  }

  lemma {:induction false} GapsPositive(ts: seq<int>, n: nat)
    requires n <= |ts|
    ensures forall g <- PositiveGaps(ts, n) :: g > 0
  {
    if n > 1 {
      GapsPositive(ts, n - 1);
    }
  }

  lemma {:induction false} DynamicBufferNonNegative(a: seq<int>, b: seq<int>)
    ensures DynamicBuffer(a, b).Some? ==> DynamicBuffer(a, b).value >= 0
  {
    var own := PositiveGaps(a, |a|);
    var gaps := if |own| < 3 then own + PositiveGaps(b, |b|) else own;
    GapsPositive(a, |a|);
    GapsPositive(b, |b|);
    if gaps != [] {
      MedianIsElement(gaps);
    }
  }

  /** The inferred buffer is half the interval that splits the intervals in half. */
  lemma {:induction false} BufferIsHalfMedian(a: seq<int>, b: seq<int>, v: int)
    ensures var own := PositiveGaps(a, |a|);
            var gaps := if |own| < 3 then own + PositiveGaps(b, |b|) else own;
            && (DynamicBuffer(a, b).None? <==> |gaps| < 3)
            && (|gaps| >= 3 && SplitsInHalf(gaps, v) ==> DynamicBuffer(a, b) == Some(v / 2))
  {
    var own := PositiveGaps(a, |a|);
    var gaps := if |own| < 3 then own + PositiveGaps(b, |b|) else own;
    if gaps != [] {
      MedianSplits(gaps, v);
    }
  }

  lemma {:induction false} UniformGaps(ts: seq<int>, d: int, n: nat)
    requires d > 0 && n <= |ts| && forall i :: 0 < i < |ts| ==> ts[i] - ts[i - 1] == d
    ensures |PositiveGaps(ts, n)| == (if n <= 1 then 0 else n - 1) && forall g <- PositiveGaps(ts, n) :: g == d
  {
    if n > 1 {
      UniformGaps(ts, d, n - 1);
    }
  }

  /** The index k of the last point of a at or before t. */
  lemma {:induction false} SpanAround<V>(a: seq<Point<V>>, t: int) returns (k: nat)
    requires a != [] && a[0].t <= t
    ensures k < |a| && a[k].t <= t && (k + 1 < |a| ==> t < a[k + 1].t)
  {
    k := 0;
    while k + 1 < |a| && a[k + 1].t <= t
      invariant k < |a| && a[k].t <= t
    {
      k := k + 1;
    }
  }

  /**
   * With the dynamic buffer, a uniformly spaced longer stream of at least four samples admits nothing between its own.
   */
  lemma {:induction false} UniformAdmitsNothing<V>(a: seq<Point<V>>, b: seq<int>, d: int, t: int)
    requires |a| >= 4 && d > 0 && forall i :: 0 < i < |a| ==> a[i].t - a[i - 1].t == d
    requires a[0].t <= t <= a[|a| - 1].t
    ensures DynamicBuffer(Times(a), b) == Some(d / 2) && !Far(t, a, d / 2)
  {
    UniformGaps(Times(a), d, |a|);
    EqualGaps(PositiveGaps(Times(a), |a|), d);
    var k := SpanAround(a, t);
    assert a[k] in a;
    if k + 1 < |a| {
      assert a[k + 1] in a && a[k + 1].t - a[k + 1 - 1].t == d;
    }
  }
}
