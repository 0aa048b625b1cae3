/**
 * When a pushed-down request is evaluated, and when its answer is read (the offsets in
 * pkg/proxystorage/node_replacer.go): offsets are either taken out of the query and the
 * request moved by them, or left to the backends.
 */
module RequestShift {
  import opened Wrappers
  import opened GapFill
  import opened StaleFill
  import Sorting

  /** What prepare finds of a subtree: its selector's offset and @ time, and whether a call in it reads the clock. */
  datatype Timing = Timing(offset: int, at: Option<int>, readsClock: bool) {
    /** The offset stays in the query. */
    predicate Keeps() {
      at.Some? || (offset != 0 && readsClock)
    }

    /** How far back the request is moved, and with it the times at which its answer is read. */
    function Shift(): int {
      if Keeps() then 0 else offset
    }

    /** The query as the backends get it. */
    function Sent(): Timing {
      if Keeps() then this else this.(offset := 0)
    }

    /** The time of the data that the value at time t is about. */
    function LookedAt(t: int): int {
      (if at.Some? then at.value else t) - offset
    }
  }

  /**
   * The subtree's value at time t: calculated from what is stored at the time looked at and, if it reads it, the clock.
   */
  function ValueOf<X, Y>(q: Timing, stored: int -> X, compute: (X, Option<int>) -> Y, t: int): Y {
    compute(stored(q.LookedAt(t)), if q.readsClock then Some(t) else None)
  }

  /** The query that is sent has, at the time the request is moved to, the value the original has at its time. */
  lemma {:induction false} RequestExact<X, Y>(q: Timing, stored: int -> X, compute: (X, Option<int>) -> Y, t: int)
    ensures ValueOf(q.Sent(), stored, compute, t - q.Shift()) == ValueOf(q, stored, compute, t)
  {
    assert q.Sent().LookedAt(t - q.Shift()) == q.LookedAt(t);
  }

  /** Taking the offset out and moving the request by it has this query's value. */
  ghost predicate CouldStrip(q: Timing) {
    forall stored: int -> int, compute: (int, Option<int>) -> int, t: int ::
      ValueOf(q.(offset := 0), stored, compute, t - q.offset) == ValueOf(q, stored, compute, t)
  }

  /** Offsets are kept whenever taking them out could change a value; without an offset both are the same. */
  lemma {:induction false} KeptWhenNeeded(q: Timing)
    ensures CouldStrip(q) <==> !q.Keeps() || q.offset == 0
  {
    if q.offset == 0 {
      assert q.(offset := 0) == q;
    } else if q.Keeps() {
      var stored, compute := (t: int) => t, (x: int, now: Option<int>) => if now.Some? then now.value else x;
      assert ValueOf(q.(offset := 0), stored, compute, 0 - q.offset) != ValueOf(q, stored, compute, 0);
    } else {
      forall stored: int -> int, compute: (int, Option<int>) -> int, t: int
        ensures ValueOf(q.(offset := 0), stored, compute, t - q.offset) == ValueOf(q, stored, compute, t)
      {
        RequestExact(q, stored, compute, t);
      }
    }
  }

  /** A subtree pinned by @ that does not read the clock has one value for all times, so one instant request will do. */
  lemma {:induction false} PinnedOnce<X, Y>(q: Timing, stored: int -> X, compute: (X, Option<int>) -> Y, t: int)
    requires q.at.Some? && !q.readsClock
    ensures ValueOf(q.Sent(), stored, compute, q.at.value) == ValueOf(q, stored, compute, t)
  {
  }

  /**
   * Sent down, filled and read back by the engine at each step, a range call has the value it would have had in
   * place.  samples is what the backends answered for the steps of the moved window.
   */
  lemma {:induction false} PushedDownReadBack<X>(q: Timing, stored: int -> X,
      compute: (X, Option<int>) -> Option<Reading>, samples: seq<Sample>, start: int, end: int, interval: int,
          lookback: int, k: nat)
    requires interval > 0 && lookback > 0 && Sorting.StrictlySortedBy(TimeOf, samples)
        && k < Steps(start, end, interval)
    requires Steps(start, end, interval) <= |samples| + 10_000
    requires forall j: nat :: j < Steps(start, end, interval) ==>
               var t := start - q.Shift() + j * interval; ValueAt(samples, t) == ValueOf(q.Sent(), stored, compute, t)
    ensures var t := start + k * interval;
            Lookup(Filled(samples, start - q.Shift(), end - q.Shift(), interval), t - q.Shift(), lookback)
                == ValueOf(q, stored, compute, t)
  {
    hide Lookup, Filled, ValueAt, ValueOf;
    var t := start + k * interval;
    ReadBackExact(samples, start, end, interval, q.Shift(), lookback, k);
    RequestExact(q, stored, compute, t);
    assert start - q.Shift() + k * interval == t - q.Shift();
  }
}
