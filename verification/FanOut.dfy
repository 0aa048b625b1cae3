/**
 * The fan-out protocol of pkg/promclient/multi_api.go: backends answer in any order,
 * the caller may cancel at any step, and a bucket of identical backends decides when
 * the whole call has failed.
 */
module FanOut {
  import opened Wrappers
  import Sorting

  /** What one backend will answer, whenever that is. */
  datatype Outcome<+T> = Answer(value: T, warnings: set<string>) | Failure(error: string, warnings: set<string>)

  datatype Warning = Reported(text: string) | Unavailable(ordinal: nat, error: string) | Cancelled(got: nat, total: nat)

  datatype Gathered<+T> = Gathered(value: T, ordinal: nat)

  datatype Response<+T> = Response(results: seq<Gathered<T>>, warnings: set<Warning>, error: Option<string>)

  /** A configured fan-out: the bucket of each backend, how many of a bucket must answer, and the partial mode. */
  datatype MultiAPI = MultiAPI(fingerprints: seq<int>, requiredCount: int, partialResponse: bool) {
    function Size(): nat {
      |fingerprints|
    }

    /** Every bucket has requiredCount members. */
    predicate Valid() {
      forall f <- fingerprints :: Pending(this, f, {}, Size()) >= requiredCount
    }
  }

  /** How many of the first n backends are in bucket f and not in s. */
  function Pending(m: MultiAPI, f: int, s: set<nat>, n: nat): nat
    requires n <= m.Size()
  {
    if n == 0 then 0
    else Pending(m, f, s, n - 1) + if m.fingerprints[n - 1] == f && n - 1 !in s then 1 else 0
  }

  /** How many of the first n backends are in bucket f, in s, and have an answer. */
  function Answered<T>(m: MultiAPI, outcomes: seq<Outcome<T>>, f: int, s: set<nat>, n: nat): nat
    requires n <= m.Size() == |outcomes|
  {
    if n == 0 then 0
    else Answered(m, outcomes, f, s, n - 1)
         + if m.fingerprints[n - 1] == f && n - 1 in s && outcomes[n - 1].Answer? then 1 else 0
  }

  /** How many of the first n backends are in bucket f and have an answer. */
  function Answers<T>(m: MultiAPI, outcomes: seq<Outcome<T>>, f: int, n: nat): nat
    requires n <= m.Size() == |outcomes|
  {
    if n == 0 then 0
    else Answers(m, outcomes, f, n - 1) + if m.fingerprints[n - 1] == f && outcomes[n - 1].Answer? then 1 else 0
  }

  // --- what the loops have to decide ---------------------------------------

  /** Every bucket gets requiredCount answers. */
  predicate Quorum<T>(m: MultiAPI, outcomes: seq<Outcome<T>>)
    requires m.Size() == |outcomes|
  {
    forall f <- m.fingerprints :: Answers(m, outcomes, f, m.Size()) >= m.requiredCount
  }

  /** The answers of the backends in s, by ascending ordinal. */
  function AnswersOf<T>(outcomes: seq<Outcome<T>>, s: set<nat>, n: nat): seq<Gathered<T>>
    requires n <= |outcomes|
  {
    if n == 0 then []
    else AnswersOf(outcomes, s, n - 1)
         + if n - 1 in s && outcomes[n - 1].Answer? then [Gathered(outcomes[n - 1].value, n - 1)] else []
  }

  /** What backend i's outcome adds to the warnings. */
  function OwnWarnings<T>(m: MultiAPI, o: Outcome<T>, i: nat): set<Warning> {
    (set w | w in o.warnings :: Reported(w)) + if m.partialResponse && o.Failure? then {Unavailable(i, o.error)} else {}
  }

  /** The warnings of the backends in s. */
  function WarningsOf<T>(m: MultiAPI, outcomes: seq<Outcome<T>>, s: set<nat>, n: nat): set<Warning>
    requires n <= |outcomes|
  {
    if n == 0 then {}
    else WarningsOf(m, outcomes, s, n - 1) + if n - 1 in s then OwnWarnings(m, outcomes[n - 1], n - 1) else {}
  }

  /** The order in which the backends' answers arrive. */
  predicate Arrival(order: seq<nat>, n: nat) {
    && |order| == n && (forall k :: 0 <= k < n ==> order[k] < n)
    && (forall j, k :: 0 <= j < k < n ==> order[j] != order[k])
    && (forall i: nat :: i < n ==> i in order)
  }

  function Delivered(order: seq<nat>, d: nat): set<nat>
    requires d <= |order|
  {
    if d == 0 then {} else Delivered(order, d - 1) + {order[d - 1]}
  }

  /** How many answers the loop waits for: all, or those before the cancellation. */
  function Waited(n: nat, cancelAt: Option<nat>): (d: nat)
    ensures d <= n
  {
    if cancelAt.Some? && cancelAt.value < n then cancelAt.value else n
  }

  /** Does a call that gets d answers succeed? */
  predicate Succeeds<T>(m: MultiAPI, outcomes: seq<Outcome<T>>, order: seq<nat>, d: nat)
    requires d <= |order| && m.Size() == |outcomes|
  {
    if m.partialResponse then m.Size() == 0 || AnswersOf(outcomes, Delivered(order, d), m.Size()) != []
    else d == m.Size() && Quorum(m, outcomes)
  }

  /** What a successful call returns after d answers. */
  predicate Returns<T(==)>(m: MultiAPI, outcomes: seq<Outcome<T>>, order: seq<nat>, d: nat, r: Response<T>)
    requires d <= |order| && m.Size() == |outcomes|
  {
    && r.results == AnswersOf(outcomes, Delivered(order, d), m.Size())
    && r.warnings == WarningsOf(m, outcomes, Delivered(order, d), m.Size())
                     + (if d < m.Size() then {Cancelled(|r.results|, m.Size())} else {})
  }

  /** The k-th answer is an error that its bucket cannot make up for; only the strict mode minds. */
  predicate Lost<T>(m: MultiAPI, outcomes: seq<Outcome<T>>, order: seq<nat>, k: nat)
    requires k <= |order| && m.Size() == |outcomes| && forall j :: 0 <= j < |order| ==> order[j] < m.Size()
  {
    k > 0 && !m.partialResponse && outcomes[order[k - 1]].Failure?
        && !Reachable(m, outcomes, Delivered(order, k), m.fingerprints[order[k - 1]])
  }

  /** The error of the latest failure among the first k answers. */
  function LatestError<T>(outcomes: seq<Outcome<T>>, order: seq<nat>, k: nat): Option<string>
    requires k <= |order| && forall j :: 0 <= j < |order| ==> order[j] < |outcomes|
  {
    if k == 0 then None
    else if outcomes[order[k - 1]].Failure? then Some(outcomes[order[k - 1]].error)
    else LatestError(outcomes, order, k - 1)
  }

  /** A call stops at the first answer that loses it, or when it need not wait any longer; its error says which. */
  ghost predicate StopsAt<T>(m: MultiAPI, outcomes: seq<Outcome<T>>, order: seq<nat>, cancelAt: Option<nat>, k: nat,
      error: Option<string>)
    requires m.Size() == |outcomes| && Arrival(order, m.Size())
  {
    && k <= Waited(m.Size(), cancelAt)
    && (forall j: nat :: j < k ==> !Lost(m, outcomes, order, j))
    && (Lost(m, outcomes, order, k) || k == Waited(m.Size(), cancelAt))
    && error == if !Lost(m, outcomes, order, k) && k < m.Size() then Some("context canceled")
                else LatestError(outcomes, order, k)
  }

  /** What a failing call returns: its error, and the warnings of the answers it has seen. */
  ghost predicate Fails<T>(m: MultiAPI, outcomes: seq<Outcome<T>>, order: seq<nat>, cancelAt: Option<nat>,
      error: Option<string>, warnings: set<Warning>)
    requires m.Size() == |outcomes| && Arrival(order, m.Size())
  {
    exists k: nat :: StopsAt(m, outcomes, order, cancelAt, k, error)
      && warnings == WarningsOf(m, outcomes, Delivered(order, k), m.Size())
  }

  // --- the loop state and its invariant ------------------------------------

  /** The loop variables of a fan-out. */
  datatype Tally<T> = Tally(outstanding: map<int, int>, success: map<int, int>, results: seq<Gathered<T>>,
                            warnings: set<Warning>, lastError: Option<string>)

  function Ordinal<T>(g: Gathered<T>): int {
    g.ordinal
  }

  function At(counts: map<int, int>, f: int): int {
    if f in counts then counts[f] else 0
  }

  /** The outstanding counter knows, for each bucket, how many of its backends are not yet in s. */
  ghost predicate Awaiting(m: MultiAPI, s: set<nat>, outstanding: map<int, int>) {
    && (forall f :: f in outstanding <==> f in m.fingerprints)
    && (forall f :: At(outstanding, f) == Pending(m, f, s, m.Size()))
  }

  /** The success counter knows, for each bucket, how many of its backends in s have answered. */
  ghost predicate Succeeded<T>(m: MultiAPI, outcomes: seq<Outcome<T>>, s: set<nat>, success: map<int, int>)
    requires m.Size() == |outcomes|
  {
    && (forall f :: At(success, f) == Answered(m, outcomes, f, s, m.Size()))
    && (forall f <- success :: success[f] > 0)
  }

  /** The results are the answers of s; sorting puts them in ordinal order. */
  ghost predicate Holding<T>(outcomes: seq<Outcome<T>>, s: set<nat>, results: seq<Gathered<T>>) {
    Sorting.StableSort(Ordinal, results) == AnswersOf(outcomes, s, |outcomes|)
  }

  /** The tally tells exactly what the backends in s have answered. */
  ghost predicate Collected<T>(m: MultiAPI, outcomes: seq<Outcome<T>>, s: set<nat>, t: Tally<T>)
    requires m.Size() == |outcomes|
  {
    && Awaiting(m, s, t.outstanding)
    && Succeeded(m, outcomes, s, t.success)
    && Holding(outcomes, s, t.results)
    && t.warnings == WarningsOf(m, outcomes, s, m.Size())
  }

  /** Every bucket with a failed backend in s can still reach requiredCount. */
  ghost predicate StillPossible<T>(m: MultiAPI, outcomes: seq<Outcome<T>>, s: set<nat>)
    requires m.Size() == |outcomes|
  {
    forall i <- s :: i < m.Size() && outcomes[i].Failure? ==> Reachable(m, outcomes, s, m.fingerprints[i])
  }

  predicate Reachable<T>(m: MultiAPI, outcomes: seq<Outcome<T>>, s: set<nat>, f: int)
    requires m.Size() == |outcomes|
  {
    Pending(m, f, s, m.Size()) + Answered(m, outcomes, f, s, m.Size()) >= m.requiredCount
  }

  /** The loop invariant. */
  ghost predicate Going<T>(m: MultiAPI, outcomes: seq<Outcome<T>>, s: set<nat>, t: Tally<T>)
    requires m.Size() == |outcomes|
  {
    && Collected(m, outcomes, s, t)
    && (!m.partialResponse ==> StillPossible(m, outcomes, s))
    && (t.lastError.None? ==> forall i <- s :: i < |outcomes| ==> outcomes[i].Answer?)
    && (t.lastError.Some? ==> s != {})
  }

  /** The tally after backend i's answer. */
  function Next<T>(m: MultiAPI, outcomes: seq<Outcome<T>>, t: Tally<T>, i: nat): Tally<T>
    requires i < m.Size() == |outcomes|
  {
    var ret, f := outcomes[i], m.fingerprints[i];
    Tally(t.outstanding[f := At(t.outstanding, f) - 1],
          if ret.Answer? then t.success[f := At(t.success, f) + 1] else t.success,
          if ret.Answer? then t.results + [Gathered(ret.value, i)] else t.results,
          t.warnings + OwnWarnings(m, ret, i),
          if ret.Failure? then Some(ret.error) else t.lastError)
  }

  // --- one more answer -------------------------------------------------------

  lemma {:induction false} PendingStep(m: MultiAPI, f: int, s: set<nat>, i: nat, n: nat)
    requires n <= m.Size() && i < m.Size() && i !in s
    ensures Pending(m, f, s + {i}, n) == Pending(m, f, s, n) - if i < n && m.fingerprints[i] == f then 1 else 0
  {
    if n > 0 {
      PendingStep(m, f, s, i, n - 1);
    }
  }

  lemma {:induction false} AnsweredStep<T>(m: MultiAPI, outcomes: seq<Outcome<T>>, f: int, s: set<nat>, i: nat, n: nat)
    requires n <= m.Size() == |outcomes| && i < m.Size() && i !in s
    ensures Answered(m, outcomes, f, s + {i}, n)
         == Answered(m, outcomes, f, s, n) + if i < n && m.fingerprints[i] == f && outcomes[i].Answer? then 1 else 0
  {
    if n > 0 {
      AnsweredStep(m, outcomes, f, s, i, n - 1);
    }
  }

  lemma {:induction false} WarningsStep<T>(m: MultiAPI, outcomes: seq<Outcome<T>>, s: set<nat>, i: nat, n: nat)
    requires n <= |outcomes| && i < |outcomes|
    ensures WarningsOf(m, outcomes, s + {i}, n) == WarningsOf(m, outcomes, s, n)
        + if i < n then OwnWarnings(m, outcomes[i], i) else {}
  {
    if n > 0 {
      WarningsStep(m, outcomes, s, i, n - 1);
    }
  }

  /** A backend that is not among the first n, or has no answer, does not show in their answers. */
  lemma {:induction false} AnswersFrame<T>(outcomes: seq<Outcome<T>>, s: set<nat>, i: nat, n: nat)
    requires n <= |outcomes| && i < |outcomes| && (n <= i || outcomes[i].Failure?)
    ensures AnswersOf(outcomes, s + {i}, n) == AnswersOf(outcomes, s, n)
  {
    if n > 0 {
      AnswersFrame(outcomes, s, i, n - 1);
    }
  }

  lemma {:induction false} AnswersBelow<T>(outcomes: seq<Outcome<T>>, s: set<nat>, n: nat)
    requires n <= |outcomes|
    ensures forall g <- AnswersOf(outcomes, s, n) :: g.ordinal < n
  {
    if n > 0 {
      AnswersBelow(outcomes, s, n - 1);
    }
  }

  lemma {:induction false} InsertLast<T>(front: seq<Gathered<T>>, x: Gathered<T>)
    requires forall g <- front :: g.ordinal < x.ordinal
    ensures Sorting.Insert(Ordinal, front, x) == front + [x]
  {
    assert front != [] ==> front[|front| - 1] in front;
  }

  lemma {:induction false} InsertBefore<T>(front: seq<Gathered<T>>, last: Gathered<T>, x: Gathered<T>)
    requires x.ordinal < last.ordinal
    ensures Sorting.Insert(Ordinal, front + [last], x) == Sorting.Insert(Ordinal, front, x) + [last]
  {
    assert (front + [last])[..|front + [last]| - 1] == front;
  }

  lemma {:induction false} InsertAnswer<T>(outcomes: seq<Outcome<T>>, s: set<nat>, i: nat, n: nat)
    requires i < n <= |outcomes| && i !in s && outcomes[i].Answer?
    ensures Sorting.Insert(Ordinal, AnswersOf(outcomes, s, n), Gathered(outcomes[i].value, i))
        == AnswersOf(outcomes, s + {i}, n)
  {
    var x := Gathered(outcomes[i].value, i);
    if i == n - 1 {
      AnswersBelow(outcomes, s, i);
      AnswersFrame(outcomes, s, i, i);
      assert AnswersOf(outcomes, s, n) == AnswersOf(outcomes, s, i);
      InsertLast(AnswersOf(outcomes, s, i), x);
    } else {
      InsertAnswer(outcomes, s, i, n - 1);
      if n - 1 in s && outcomes[n - 1].Answer? {
        InsertBefore(AnswersOf(outcomes, s, n - 1), Gathered(outcomes[n - 1].value, n - 1), x);
      } else {
        assert AnswersOf(outcomes, s, n) == AnswersOf(outcomes, s, n - 1);
        assert AnswersOf(outcomes, s + {i}, n) == AnswersOf(outcomes, s + {i}, n - 1);
      }
    }
  }

  lemma {:induction false} HoldingStep<T>(outcomes: seq<Outcome<T>>, s: set<nat>, results: seq<Gathered<T>>, i: nat)
    requires i < |outcomes| && i !in s && Holding(outcomes, s, results)
    ensures Holding(outcomes, s + {i},
        if outcomes[i].Answer? then results + [Gathered(outcomes[i].value, i)] else results)
  {
    if outcomes[i].Answer? {
      InsertAnswer(outcomes, s, i, |outcomes|);
      var next := results + [Gathered(outcomes[i].value, i)];
      assert next[..|next| - 1] == results;
    } else {
      AnswersFrame(outcomes, s, i, |outcomes|);
    }
  }

  lemma {:induction false} AwaitingStep(m: MultiAPI, s: set<nat>, outstanding: map<int, int>, i: nat)
    requires i < m.Size() && i !in s && Awaiting(m, s, outstanding)
    ensures Awaiting(m, s + {i}, outstanding[m.fingerprints[i] := At(outstanding, m.fingerprints[i]) - 1])
  {
    var f := m.fingerprints[i];
    assert f in m.fingerprints;
    forall g ensures At(outstanding[f := At(outstanding, f) - 1], g) == Pending(m, g, s + {i}, m.Size()) {
      PendingStep(m, g, s, i, m.Size());
    }
  }

  lemma {:induction false} SucceededStep<T>(m: MultiAPI, outcomes: seq<Outcome<T>>, s: set<nat>,
      success: map<int, int>, i: nat)
    requires i < m.Size() == |outcomes| && i !in s && Succeeded(m, outcomes, s, success)
    ensures Succeeded(m, outcomes, s + {i},
                      if outcomes[i].Answer? then success[m.fingerprints[i] := At(success, m.fingerprints[i]) + 1]
                          else success)
  {
    var f := m.fingerprints[i];
    var next := if outcomes[i].Answer? then success[f := At(success, f) + 1] else success;
    forall g ensures At(next, g) == Answered(m, outcomes, g, s + {i}, m.Size()) {
      AnsweredStep(m, outcomes, g, s, i, m.Size());
    }
  }

  lemma {:induction false} CollectedStep<T>(m: MultiAPI, outcomes: seq<Outcome<T>>, s: set<nat>, t: Tally<T>, i: nat)
    requires i < m.Size() == |outcomes| && i !in s && Collected(m, outcomes, s, t)
    ensures Collected(m, outcomes, s + {i}, Next(m, outcomes, t, i))
  {
    hide Awaiting, Succeeded, Holding, OwnWarnings;
    AwaitingStep(m, s, t.outstanding, i);
    SucceededStep(m, outcomes, s, t.success, i);
    HoldingStep(outcomes, s, t.results, i);
    WarningsStep(m, outcomes, s, i, m.Size());
  }

  /** Whether an error in bucket f ends the call at once. */
  predicate AbortOnError(m: MultiAPI, f: int, outstanding: map<int, int>, success: map<int, int>) {
    !m.partialResponse && At(outstanding, f) + At(success, f) < m.requiredCount
  }

  lemma {:induction false} AnswersAtMost<T>(m: MultiAPI, outcomes: seq<Outcome<T>>, f: int, s: set<nat>, n: nat)
    requires n <= m.Size() == |outcomes|
    ensures Answers(m, outcomes, f, n) <= Pending(m, f, s, n) + Answered(m, outcomes, f, s, n)
  {
    if n > 0 {
      AnswersAtMost(m, outcomes, f, s, n - 1);
    }
  }

  lemma {:induction false} StillPossibleStep<T>(m: MultiAPI, outcomes: seq<Outcome<T>>, s: set<nat>, i: nat)
    requires i < m.Size() == |outcomes| && i !in s && StillPossible(m, outcomes, s)
    requires outcomes[i].Failure? ==> Reachable(m, outcomes, s + {i}, m.fingerprints[i])
    ensures StillPossible(m, outcomes, s + {i})
  {
    var f := m.fingerprints[i];
    forall j <- s + {i} | j < m.Size() && outcomes[j].Failure?
      ensures Reachable(m, outcomes, s + {i}, m.fingerprints[j])
    {
      var g := m.fingerprints[j];
      PendingStep(m, g, s, i, m.Size());
      AnsweredStep(m, outcomes, g, s, i, m.Size());
    }
  }

  /** An early abort happens only when the bucket can no longer reach requiredCount. */
  lemma {:induction false} GoingStep<T>(m: MultiAPI, outcomes: seq<Outcome<T>>, s: set<nat>, t: Tally<T>, i: nat)
    requires i < m.Size() == |outcomes| && i !in s && Going(m, outcomes, s, t)
    ensures var next, f := Next(m, outcomes, t, i), m.fingerprints[i];
            if outcomes[i].Failure? && AbortOnError(m, f, next.outstanding, next.success) then !Quorum(m, outcomes)
            else Going(m, outcomes, s + {i}, next)
  {
    var f, next := m.fingerprints[i], Next(m, outcomes, t, i);
    CollectedStep(m, outcomes, s, t, i);
    if outcomes[i].Failure? && AbortOnError(m, f, next.outstanding, next.success) {
      AnswersAtMost(m, outcomes, f, s + {i}, m.Size());
      assert f in m.fingerprints;
    } else if !m.partialResponse {
      StillPossibleStep(m, outcomes, s, i);
    }
  }

  // --- the ends of a run -------------------------------------------------------

  lemma {:induction false} HoldingCount<T>(outcomes: seq<Outcome<T>>, s: set<nat>, results: seq<Gathered<T>>)
    requires Holding(outcomes, s, results)
    ensures |results| == |AnswersOf(outcomes, s, |outcomes|)|
  {
    Sorting.StableSortFacts(Ordinal, results);
  }

  lemma {:induction false} EmptyStart<T>(m: MultiAPI, outcomes: seq<Outcome<T>>, f: int, n: nat)
    requires n <= m.Size() == |outcomes|
    ensures Answered(m, outcomes, f, {}, n) == 0 && AnswersOf(outcomes, {}, n) == []
        && WarningsOf(m, outcomes, {}, n) == {}
  {
    if n > 0 {
      EmptyStart(m, outcomes, f, n - 1);
    }
  }

  lemma {:induction false} GoingInit<T>(m: MultiAPI, outcomes: seq<Outcome<T>>, outstanding: map<int, int>)
    requires m.Size() == |outcomes| && Awaiting(m, {}, outstanding)
    ensures Going(m, outcomes, {}, Tally(outstanding, map[], [], {}, None))
  {
    forall f ensures Answered(m, outcomes, f, {}, m.Size()) == 0 {
      EmptyStart(m, outcomes, f, m.Size());
    }
    EmptyStart(m, outcomes, 0, m.Size());
  }

  lemma {:induction false} EveryoneCounted<T>(m: MultiAPI, outcomes: seq<Outcome<T>>, f: int, s: set<nat>, n: nat)
    requires n <= m.Size() == |outcomes| && forall i: nat :: i < m.Size() ==> i in s
    ensures Pending(m, f, s, n) == 0 && Answered(m, outcomes, f, s, n) == Answers(m, outcomes, f, n)
  {
    if n > 0 {
      EveryoneCounted(m, outcomes, f, s, n - 1);
    }
  }

  /** A bucket without failures gets all its answers. */
  lemma {:induction false} BucketWithoutFailure<T>(m: MultiAPI, outcomes: seq<Outcome<T>>, f: int, n: nat)
    requires n <= m.Size() == |outcomes| && forall i :: 0 <= i < n && m.fingerprints[i] == f ==> outcomes[i].Answer?
    ensures Answers(m, outcomes, f, n) == Pending(m, f, {}, n)
  {
    if n > 0 {
      BucketWithoutFailure(m, outcomes, f, n - 1);
    }
  }

  /** Outside partial mode the final check cannot fail: whatever bucket could have missed would have aborted. */
  lemma {:induction false} NothingMissing<T>(m: MultiAPI, outcomes: seq<Outcome<T>>, s: set<nat>, t: Tally<T>)
    requires m.Valid() && m.Size() == |outcomes| && Going(m, outcomes, s, t) && !m.partialResponse
    requires forall i: nat :: i < m.Size() ==> i in s
    ensures Quorum(m, outcomes) && forall f <- t.outstanding :: At(t.success, f) >= m.requiredCount
  {
    forall f <- m.fingerprints ensures At(t.success, f) == Answers(m, outcomes, f, m.Size()) >= m.requiredCount {
      EveryoneCounted(m, outcomes, f, s, m.Size());
      if i :| 0 <= i < m.Size() && m.fingerprints[i] == f && outcomes[i].Failure? {
        assert Reachable(m, outcomes, s, f);
      } else {
        BucketWithoutFailure(m, outcomes, f, m.Size());
      }
    }
  }

  lemma {:induction false} SomeAnswer<T>(m: MultiAPI, outcomes: seq<Outcome<T>>, s: set<nat>, n: nat)
    requires n <= m.Size() == |outcomes|
    ensures AnswersOf(outcomes, s, n) != [] <==> exists i ::
        0 <= i < n && Answered(m, outcomes, m.fingerprints[i], s, n) > 0
  {
    if n > 0 {
      SomeAnswer(m, outcomes, s, n - 1);
      if i :| 0 <= i < n - 1 && Answered(m, outcomes, m.fingerprints[i], s, n - 1) > 0 {
        assert Answered(m, outcomes, m.fingerprints[i], s, n) > 0;
      }
      if n - 1 in s && outcomes[n - 1].Answer? {
        assert Answered(m, outcomes, m.fingerprints[n - 1], s, n) > 0;
      }
      if i :|
          0 <= i < n && Answered(m, outcomes, m.fingerprints[i], s, n) > 0 && !(n - 1 in s && outcomes[n - 1].Answer?) {
        var j := FirstAnswered(m, outcomes, m.fingerprints[i], s, n - 1);
        assert Answered(m, outcomes, m.fingerprints[j], s, n - 1) > 0;
      }
    }
  }

  lemma {:induction false} FirstAnswered<T>(m: MultiAPI, outcomes: seq<Outcome<T>>, f: int, s: set<nat>, n: nat)
    returns (j: nat)
    requires n <= m.Size() == |outcomes| && Answered(m, outcomes, f, s, n) > 0
    ensures j < n && m.fingerprints[j] == f
  {
    if m.fingerprints[n - 1] == f {
      j := n - 1;
    } else {
      j := FirstAnswered(m, outcomes, f, s, n - 1);
    }
  }

  /** The success counter is empty exactly when nobody in s answered. */
  lemma {:induction false} NoSuccess<T>(m: MultiAPI, outcomes: seq<Outcome<T>>, s: set<nat>, t: Tally<T>)
    requires m.Size() == |outcomes| && Collected(m, outcomes, s, t)
    ensures t.success == map[] <==> AnswersOf(outcomes, s, m.Size()) == []
  {
    SomeAnswer(m, outcomes, s, m.Size());
    assert (forall f :: f !in t.success) ==> t.success == map[];
    if t.success != map[] {
      var f :| f in t.success;
      assert At(t.success, f) > 0;
      var j := FirstAnswered(m, outcomes, f, s, m.Size());
    }
    if i :| 0 <= i < m.Size() && Answered(m, outcomes, m.fingerprints[i], s, m.Size()) > 0 {
      assert At(t.success, m.fingerprints[i]) > 0;
    }
  }

  /** With everyone heard and no answer there has been an error. */
  lemma {:induction false} ErrorSeen<T>(m: MultiAPI, outcomes: seq<Outcome<T>>, s: set<nat>, t: Tally<T>)
    requires m.Size() == |outcomes| && Going(m, outcomes, s, t) && m.Size() > 0
    requires (forall i: nat :: i < m.Size() ==> i in s) && AnswersOf(outcomes, s, m.Size()) == []
    ensures t.lastError.Some?
  {
    var n := m.Size();
    assert n - 1 in s;
  }

  lemma {:induction false} DeliveredIs(order: seq<nat>, d: nat)
    requires d <= |order|
    ensures forall i :: i in Delivered(order, d) <==> exists k :: 0 <= k < d && order[k] == i
  {
    if d > 0 {
      DeliveredIs(order, d - 1);
    }
  }

  lemma {:induction false} NothingLost<T>(m: MultiAPI, outcomes: seq<Outcome<T>>, order: seq<nat>)
    requires m.Size() == |outcomes| && Arrival(order, m.Size())
    ensures !Lost(m, outcomes, order, 0)
  {
  }

  /**
   * The step of the loop as the arrival order sees it: it aborts exactly when the answer loses the call, and then no
   * quorum is left; otherwise the invariant goes on.
   */
  lemma {:induction false} LoopStep<T>(m: MultiAPI, outcomes: seq<Outcome<T>>, order: seq<nat>, d: nat, t: Tally<T>)
    requires m.Size() == |outcomes| && Arrival(order, m.Size()) && d < m.Size()
    requires Going(m, outcomes, Delivered(order, d), t) && t.lastError == LatestError(outcomes, order, d)
    ensures var next, i := Next(m, outcomes, t, order[d]), order[d];
            var lost := Lost(m, outcomes, order, d + 1);
            && (outcomes[i].Failure? && AbortOnError(m, m.fingerprints[i], next.outstanding, next.success) <==> lost)
            && next.warnings == WarningsOf(m, outcomes, Delivered(order, d + 1), m.Size())
            && (lost ==> !m.partialResponse && !Quorum(m, outcomes))
            && LatestError(outcomes, order, d + 1) == next.lastError
            && (!lost ==> Going(m, outcomes, Delivered(order, d + 1), next))
  {
    hide Holding, WarningsOf, OwnWarnings, Quorum, StillPossible, Awaiting, Succeeded;
    DeliveredIs(order, d);
    GoingStep(m, outcomes, Delivered(order, d), t, order[d]);
    CollectedStep(m, outcomes, Delivered(order, d), t, order[d]);
    CountersSay(m, outcomes, Delivered(order, d + 1), Next(m, outcomes, t, order[d]), m.fingerprints[order[d]]);
  }

  lemma {:induction false} CountersSay<T>(m: MultiAPI, outcomes: seq<Outcome<T>>, s: set<nat>, t: Tally<T>, f: int)
    requires m.Size() == |outcomes| && Collected(m, outcomes, s, t)
    ensures AbortOnError(m, f, t.outstanding, t.success) <==> !m.partialResponse && !Reachable(m, outcomes, s, f)
  {
  }

  // --- the source's loops ------------------------------------------------------

  /** Counts the backends of each bucket. */
  method CountBuckets(m: MultiAPI) returns (outstanding: map<int, int>)
    ensures Awaiting(m, {}, outstanding)
  {
    outstanding := map[];
    for i := 0 to m.Size()
      invariant forall f :: f in outstanding <==> f in m.fingerprints[..i]
      invariant forall f :: At(outstanding, f) == Pending(m, f, {}, i)
    {
      var f := m.fingerprints[i];
      outstanding := outstanding[f := At(outstanding, f) + 1];
    }
    assert m.fingerprints[..m.Size()] == m.fingerprints;
  }

  /** The constructor's check that each bucket is large enough. */
  method CheckBuckets(m: MultiAPI) returns (ok: bool)
    ensures ok <==> m.Valid()
  {
    var counts := CountBuckets(m);
    var keys := counts.Keys;
    while keys != {}
      invariant keys <= counts.Keys
      invariant forall f <- counts.Keys - keys :: At(counts, f) >= m.requiredCount
    {
      assert (forall f :: f !in keys) ==> keys == {};
      var f :| f in keys;
      if counts[f] < m.requiredCount {
        assert f in m.fingerprints && At(counts, f) == Pending(m, f, {}, m.Size());
        return false;
      }
      keys := keys - {f};
    }
    assert forall f <- m.fingerprints :: f in counts.Keys - keys;
    return true;
  }

  /**
   * isolateFingerprints: a bucket of its own for each backend, none of them the bucket of those without a key.  No
   * bucket can then ask for more than one answer.
   */
  method IsolateFingerprints(m: MultiAPI) returns (isolated: MultiAPI)
    ensures isolated.Size() == m.Size() && 0 !in isolated.fingerprints
    ensures forall i, j :: 0 <= i < j < m.Size() ==> isolated.fingerprints[i] != isolated.fingerprints[j]
    ensures (isolated.requiredCount, isolated.partialResponse) == (m.requiredCount, m.partialResponse)
    ensures isolated.Valid() <==> m.requiredCount <= 1 || m.Size() == 0
  {
    var fs: seq<int> := [];
    for i := 0 to m.Size()
      invariant |fs| == i && forall j :: 0 <= j < i ==> fs[j] == j + 1
    {
      fs := fs + [i + 1];
    }
    isolated := m.(fingerprints := fs);
    forall f <- fs ensures Pending(isolated, f, {}, |fs|) == 1 {
      var i :| 0 <= i < |fs| && fs[i] == f;
      PendingAlone(isolated, i, |fs|);
    }
    assert |fs| > 0 ==> fs[0] in fs;
  }

  lemma {:induction false} PendingAlone(m: MultiAPI, i: nat, n: nat)
    requires i < m.Size() && n <= m.Size() && forall j, k ::
        0 <= j < k < m.Size() ==> m.fingerprints[j] != m.fingerprints[k]
    ensures Pending(m, m.fingerprints[i], {}, n) == if i < n then 1 else 0
  {
    if n > 0 {
      PendingAlone(m, i, n - 1);
    }
  }

  /** Takes one backend's answer; says whether the call is lost. */
  method Receive<T>(m: MultiAPI, outcomes: seq<Outcome<T>>, t: Tally<T>, i: nat) returns (next: Tally<T>, abort: bool)
    requires i < m.Size() == |outcomes|
    ensures var after := Next(m, outcomes, t, i);
            && abort == (outcomes[i].Failure? && AbortOnError(m, m.fingerprints[i], after.outstanding, after.success))
            && next.warnings == after.warnings && (!abort ==> next == after)
  {
    var ret, f := outcomes[i], m.fingerprints[i];
    var warnings := t.warnings + set w | w in ret.warnings :: Reported(w);
    var outstanding := t.outstanding[f := At(t.outstanding, f) - 1];
    next := Tally(outstanding, t.success, t.results, warnings, t.lastError);
    if ret.Failure? {
      if AbortOnError(m, f, outstanding, t.success) {
        return next, true;
      }
      if m.partialResponse {
        next := next.(warnings := warnings + {Unavailable(i, ret.error)});
      }
      return next.(lastError := Some(ret.error)), false;
    }
    return next.(success := t.success[f := At(t.success, f) + 1], results := t.results + [Gathered(ret.value, i)]),
        false;
  }

  /** The final check. */
  method MissingRequired(m: MultiAPI, outstanding: map<int, int>, success: map<int, int>) returns (missing: bool)
    ensures missing <==> if m.partialResponse then success == map[] else exists f <- outstanding ::
        At(success, f) < m.requiredCount
  {
    if m.partialResponse {
      return success == map[];
    }
    var keys := outstanding.Keys;
    while keys != {}
      invariant keys <= outstanding.Keys
      invariant forall f <- outstanding.Keys - keys :: At(success, f) >= m.requiredCount
    {
      assert (forall f :: f !in keys) ==> keys == {};
      var f :| f in keys;
      if At(success, f) < m.requiredCount {
        return true;
      }
      keys := keys - {f};
    }
    assert forall f <- outstanding :: f in outstanding.Keys - keys;
    return false;
  }

  /** The error of a failed final check wraps the last backend error; wrapping no error gives no error. */
  function FetchError(lastError: Option<string>): Option<string> {
    lastError
  }

  /**
   * Fans a call out and gathers the answers in arrival order, stopping early on a cancellation or a lost bucket.
   * The decision and, on success, the answers and warnings are those of the backends waited for, whatever the order.
   */
  method ScatterGather<T>(m: MultiAPI, outcomes: seq<Outcome<T>>, order: seq<nat>, cancelAt: Option<nat>)
    returns (r: Response<T>)
    requires m.Valid() && m.Size() == |outcomes| && Arrival(order, m.Size())
    ensures r.error.None? <==> Succeeds(m, outcomes, order, Waited(m.Size(), cancelAt))
    ensures r.error.None? ==> Returns(m, outcomes, order, Waited(m.Size(), cancelAt), r)
    ensures r.error.Some? ==> r.results == [] && Fails(m, outcomes, order, cancelAt, r.error, r.warnings)
  {
    hide AnswersOf, WarningsOf, Answers, Answered, Pending, Sorting.StableSort, OwnWarnings, StillPossible, Awaiting,
        Succeeded, Lost, AbortOnError, Quorum;
    var outstanding := CountBuckets(m);
    GoingInit(m, outcomes, outstanding);
    NothingLost(m, outcomes, order);
    var t: Tally<T> := Tally(outstanding, map[], [], {}, None);
    for d := 0 to m.Size()
      invariant cancelAt.Some? ==> d <= cancelAt.value
      invariant Going(m, outcomes, Delivered(order, d), t)
      invariant forall j: nat :: j <= d ==> !Lost(m, outcomes, order, j)
      invariant t.lastError == LatestError(outcomes, order, d)
    {
      if cancelAt.Some? && cancelAt.value == d {
        HoldingCount(outcomes, Delivered(order, d), t.results);
        if m.partialResponse && |t.results| > 0 {
          return Response(Sorting.StableSort(Ordinal, t.results), t.warnings + {Cancelled(|t.results|, m.Size())},
              None);
        }
        assert StopsAt(m, outcomes, order, cancelAt, d, Some("context canceled"));
        return Response([], t.warnings, Some("context canceled"));
      }
      LoopStep(m, outcomes, order, d, t);
      var abort;
      t, abort := Receive(m, outcomes, t, order[d]);
      if abort {
        assert StopsAt(m, outcomes, order, cancelAt, d + 1, Some(outcomes[order[d]].error));
        return Response([], t.warnings, Some(outcomes[order[d]].error));
      }
    }
    AllIn(m, outcomes, order, t);
    var missing := MissingRequired(m, t.outstanding, t.success);
    if missing {
      assert StopsAt(m, outcomes, order, cancelAt, m.Size(), t.lastError);
      return Response([], t.warnings, FetchError(t.lastError));
    }
    return Response(Sorting.StableSort(Ordinal, t.results), t.warnings, None);
  }

  /** What the tally says once every backend has answered. */
  lemma {:induction false} AllIn<T>(m: MultiAPI, outcomes: seq<Outcome<T>>, order: seq<nat>, t: Tally<T>)
    requires m.Valid() && m.Size() == |outcomes| && Arrival(order, m.Size())
        && Going(m, outcomes, Delivered(order, m.Size()), t)
    ensures !m.partialResponse ==> Quorum(m, outcomes) && forall f <- t.outstanding ::
        At(t.success, f) >= m.requiredCount
    ensures t.success == map[] <==> AnswersOf(outcomes, Delivered(order, m.Size()), m.Size()) == []
    ensures t.success == map[] && m.Size() > 0 ==> t.lastError.Some?
    ensures m.Size() == 0 ==> t.lastError.None? && t.warnings == {}
  {
    var s := Delivered(order, m.Size());
    DeliveredIs(order, m.Size());
    forall i: nat | i < m.Size() ensures i in s {
      assert i in order;
    }
    if !m.partialResponse {
      NothingMissing(m, outcomes, s, t);
    }
    NoSuccess(m, outcomes, s, t);
    if t.success == map[] && m.Size() > 0 {
      ErrorSeen(m, outcomes, s, t);
    }
  }

  /** A merged answer: nothing when the call has failed or nobody was there to ask. */
  datatype MergedResponse<+U> = MergedResponse(value: Option<U>, warnings: set<Warning>, error: Option<string>)

  /** The series-set fan-out: the same decision, with the answers handed to the merge hook in ordinal order. */
  method ScatterMerge<T, U>(m: MultiAPI, outcomes: seq<Outcome<T>>, order: seq<nat>, cancelAt: Option<nat>,
      merge: seq<Gathered<T>> -> U)
    returns (r: MergedResponse<U>)
    requires m.Valid() && m.Size() == |outcomes| && Arrival(order, m.Size())
    ensures r.error.None? <==> Succeeds(m, outcomes, order, Waited(m.Size(), cancelAt))
    ensures r.error.None? && (m.Size() > 0 || !m.partialResponse) ==>
      exists inner :: Returns(m, outcomes, order, Waited(m.Size(), cancelAt), inner)
        && r.value == Some(merge(inner.results)) && r.warnings == inner.warnings
    ensures r.error.Some? ==> r.value == None && Fails(m, outcomes, order, cancelAt, r.error, r.warnings)
  {
    hide AnswersOf, WarningsOf, Answers, Answered, Pending, Sorting.StableSort, OwnWarnings, StillPossible, Awaiting,
        Succeeded, Lost, AbortOnError, Quorum;
    var outstanding := CountBuckets(m);
    GoingInit(m, outcomes, outstanding);
    NothingLost(m, outcomes, order);
    var t: Tally<T> := Tally(outstanding, map[], [], {}, None);
    for d := 0 to m.Size()
      invariant cancelAt.Some? ==> d <= cancelAt.value
      invariant Going(m, outcomes, Delivered(order, d), t)
      invariant forall j: nat :: j <= d ==> !Lost(m, outcomes, order, j)
      invariant t.lastError == LatestError(outcomes, order, d)
    {
      if cancelAt.Some? && cancelAt.value == d {
        HoldingCount(outcomes, Delivered(order, d), t.results);
        if m.partialResponse && |t.results| > 0 {
          var sets := Sorting.StableSort(Ordinal, t.results);
          var warnings := t.warnings + {Cancelled(|t.results|, m.Size())};
          assert Returns(m, outcomes, order, d, Response(sets, warnings, None));
          return MergedResponse(Some(merge(sets)), warnings, None);
        }
        assert StopsAt(m, outcomes, order, cancelAt, d, Some("context canceled"));
        return MergedResponse(None, t.warnings, Some("context canceled"));
      }
      LoopStep(m, outcomes, order, d, t);
      var abort;
      t, abort := Receive(m, outcomes, t, order[d]);
      if abort {
        assert StopsAt(m, outcomes, order, cancelAt, d + 1, Some(outcomes[order[d]].error));
        return MergedResponse(None, t.warnings, Some(outcomes[order[d]].error));
      }
    }
    AllIn(m, outcomes, order, t);
    var missing := MissingRequired(m, t.outstanding, t.success);
    if missing {
      assert StopsAt(m, outcomes, order, cancelAt, m.Size(), t.lastError);
      return MergedResponse(None, t.warnings, FetchError(t.lastError));
    }
    var sets := Sorting.StableSort(Ordinal, t.results);
    assert Returns(m, outcomes, order, m.Size(), Response(sets, t.warnings, None));
    return MergedResponse(Some(merge(sets)), t.warnings, None);
  }

  // --- exemplars: answers taken in index order ---------------------------------

  /** One series' exemplars; a series is identified by the fingerprint of its labels. */
  datatype SeriesExemplars = SeriesExemplars(series: int, exemplars: seq<int>)

  /** The exemplars the first n results give for a series. */
  function InResult(rs: seq<SeriesExemplars>, series: int, n: nat): seq<int>
    requires n <= |rs|
  {
    if n == 0 then []
    else InResult(rs, series, n - 1) + if rs[n - 1].series == series then rs[n - 1].exemplars else []
  }

  /** The exemplars the first n backends give for a series, lowest ordinal first. */
  function ExemplarsOf(outcomes: seq<Outcome<seq<SeriesExemplars>>>, series: int, n: nat): seq<int>
    requires n <= |outcomes|
  {
    if n == 0 then []
    else ExemplarsOf(outcomes, series, n - 1)
         + if outcomes[n - 1].Answer? then InResult(outcomes[n - 1].value, series, |outcomes[n - 1].value|) else []
  }

  function Found(merged: map<int, seq<int>>, series: int): seq<int> {
    if series in merged then merged[series] else []
  }

  /** The first n results have an entry for the series, be it without exemplars. */
  predicate Named(rs: seq<SeriesExemplars>, series: int, n: nat)
    requires n <= |rs|
  {
    exists j :: 0 <= j < n && rs[j].series == series
  }

  predicate NamedBySome(outcomes: seq<Outcome<seq<SeriesExemplars>>>, series: int, n: nat)
    requires n <= |outcomes|
  {
    exists i :: 0 <= i < n && outcomes[i].Answer? && Named(outcomes[i].value, series, |outcomes[i].value|)
  }

  /** merged is merged0 with the first n results appended, series by series. */
  ghost predicate Extended(merged: map<int, seq<int>>, merged0: map<int, seq<int>>, rs: seq<SeriesExemplars>, n: nat)
    requires n <= |rs|
  {
    forall series :: Found(merged, series) == Found(merged0, series) + InResult(rs, series, n)
  }

  /** The series of merged are those of merged0 and of the first n results. */
  ghost predicate Widened(merged: map<int, seq<int>>, merged0: map<int, seq<int>>, rs: seq<SeriesExemplars>, n: nat)
    requires n <= |rs|
  {
    forall series :: series in merged <==> (series in merged0 || Named(rs, series, n))
  }

  /** merged holds what the first n backends give. */
  ghost predicate Unites(merged: map<int, seq<int>>, outcomes: seq<Outcome<seq<SeriesExemplars>>>, n: nat)
    requires n <= |outcomes|
  {
    forall series :: Found(merged, series) == ExemplarsOf(outcomes, series, n)
  }

  /** The series of merged are those that the first n backends name. */
  ghost predicate NamesAll(merged: map<int, seq<int>>, outcomes: seq<Outcome<seq<SeriesExemplars>>>, n: nat)
    requires n <= |outcomes|
  {
    forall series :: series in merged <==> NamedBySome(outcomes, series, n)
  }

  method MergeExemplars(merged0: map<int, seq<int>>, rs: seq<SeriesExemplars>) returns (merged: map<int, seq<int>>)
    ensures Extended(merged, merged0, rs, |rs|) && Widened(merged, merged0, rs, |rs|)
  {
    hide Extended, Widened;
    merged := merged0;
    ExtendedStart(merged0, rs);
    for j := 0 to |rs|
      invariant Extended(merged, merged0, rs, j) && Widened(merged, merged0, rs, j)
    {
      var qr := rs[j];
      ExtendedStep(merged, merged0, rs, j);
      WidenedStep(merged, merged0, rs, j,
                  if qr.series !in merged then qr.exemplars else merged[qr.series] + qr.exemplars);
      if qr.series !in merged {
        merged := merged[qr.series := qr.exemplars];
      } else {
        merged := merged[qr.series := merged[qr.series] + qr.exemplars];
      }
    }
  }

  lemma {:induction false} ExtendedStart(merged: map<int, seq<int>>, rs: seq<SeriesExemplars>)
    ensures Extended(merged, merged, rs, 0) && Widened(merged, merged, rs, 0)
  {
  }

  lemma {:induction false} ExtendedStep(merged: map<int, seq<int>>, merged0: map<int, seq<int>>,
      rs: seq<SeriesExemplars>, j: nat)
    requires j < |rs| && Extended(merged, merged0, rs, j)
    ensures var qr := rs[j];
            var own := if qr.series !in merged then qr.exemplars else merged[qr.series] + qr.exemplars;
            Extended(merged[qr.series := own], merged0, rs, j + 1)
  {
    var qr := rs[j];
    var own := Found(merged, qr.series) + qr.exemplars;
    assert qr.series !in merged ==> own == qr.exemplars;
    forall series
      ensures Found(merged[qr.series := own], series) == Found(merged0, series) + InResult(rs, series, j + 1)
    {
      assert Found(merged, series) == Found(merged0, series) + InResult(rs, series, j);
      ExtendedAt(merged, merged0, rs, j, own, series);
    }
  }

  lemma {:induction false} ExtendedAt(merged: map<int, seq<int>>, merged0: map<int, seq<int>>,
      rs: seq<SeriesExemplars>, j: nat, own: seq<int>, series: int)
    requires j < |rs| && own == Found(merged, rs[j].series) + rs[j].exemplars
    requires Found(merged, series) == Found(merged0, series) + InResult(rs, series, j)
    ensures Found(merged[rs[j].series := own], series) == Found(merged0, series) + InResult(rs, series, j + 1)
  {
    Regroup(Found(merged0, series), InResult(rs, series, j), rs[j].exemplars);
  }

  lemma {:induction false} WidenedStep(merged: map<int, seq<int>>, merged0: map<int, seq<int>>,
      rs: seq<SeriesExemplars>, j: nat, own: seq<int>)
    requires j < |rs| && Widened(merged, merged0, rs, j)
    ensures Widened(merged[rs[j].series := own], merged0, rs, j + 1)
  {
    forall series
      ensures series in merged[rs[j].series := own] <==> (series in merged0 || Named(rs, series, j + 1))
    {
      NamedStep(rs, series, j);
    }
  }

  lemma {:induction false} NamedStep(rs: seq<SeriesExemplars>, series: int, j: nat)
    requires j < |rs|
    ensures Named(rs, series, j + 1) <==> Named(rs, series, j) || rs[j].series == series
  {
  }

  lemma {:induction false} Regroup(a: seq<int>, b: seq<int>, c: seq<int>)
    ensures a + b + c == a + (b + c)
  {
  }

  lemma {:induction false} UnitesStart(outcomes: seq<Outcome<seq<SeriesExemplars>>>)
    ensures Unites(map[], outcomes, 0) && NamesAll(map[], outcomes, 0)
  {
  }

  lemma {:induction false} UnitesStep(merged: map<int, seq<int>>, next: map<int, seq<int>>,
      outcomes: seq<Outcome<seq<SeriesExemplars>>>, n: nat)
    requires n < |outcomes| && Unites(merged, outcomes, n)
    requires if outcomes[n].Answer? then Extended(next, merged, outcomes[n].value, |outcomes[n].value|)
        else next == merged
    ensures Unites(next, outcomes, n + 1)
  {
    forall series ensures Found(next, series) == ExemplarsOf(outcomes, series, n + 1) {
      assert Found(merged, series) == ExemplarsOf(outcomes, series, n);
    }
  }

  lemma {:induction false} NamesAllStep(merged: map<int, seq<int>>, next: map<int, seq<int>>,
      outcomes: seq<Outcome<seq<SeriesExemplars>>>, n: nat)
    requires n < |outcomes| && NamesAll(merged, outcomes, n)
    requires if outcomes[n].Answer? then Widened(next, merged, outcomes[n].value, |outcomes[n].value|)
        else next == merged
    ensures NamesAll(next, outcomes, n + 1)
  {
    forall series ensures series in next <==> NamedBySome(outcomes, series, n + 1) {
      NamedBySomeStep(outcomes, series, n);
    }
  }

  lemma {:induction false} NamedBySomeStep(outcomes: seq<Outcome<seq<SeriesExemplars>>>, series: int, n: nat)
    requires n < |outcomes|
    ensures NamedBySome(outcomes, series, n + 1)
        <==> (NamedBySome(outcomes, series, n)
              || (outcomes[n].Answer? && Named(outcomes[n].value, series, |outcomes[n].value|)))
  {
    hide Named;
  }

  /** The exemplars a series gets are those of all its entries in all answers. */
  lemma {:induction false} ExemplarsAre(outcomes: seq<Outcome<seq<SeriesExemplars>>>, series: int, n: nat, x: int)
    requires n <= |outcomes|
    ensures x in ExemplarsOf(outcomes, series, n)
        <==> exists i, j :: 0 <= i < n && outcomes[i].Answer? && 0 <= j < |outcomes[i].value|
               && outcomes[i].value[j].series == series && x in outcomes[i].value[j].exemplars
  {
    if n > 0 {
      ExemplarsAre(outcomes, series, n - 1, x);
      if outcomes[n - 1].Answer? {
        InResultIs(outcomes[n - 1].value, series, |outcomes[n - 1].value|, x);
      }
    }
  }

  lemma {:induction false} InResultIs(rs: seq<SeriesExemplars>, series: int, n: nat, x: int)
    requires n <= |rs|
    ensures x in InResult(rs, series, n)
        <==> exists j :: 0 <= j < n && rs[j].series == series && x in rs[j].exemplars
  {
    if n > 0 {
      InResultIs(rs, series, n - 1, x);
    }
  }

  /** The arrival order of answers that are taken by index. */
  function InTurn(n: nat): (order: seq<nat>)
    ensures Arrival(order, n)
  {
    var order := seq(n, i requires 0 <= i < n => i as nat);
    assert forall i: nat :: i < n ==> i in order by {
      forall i: nat | i < n ensures i in order { assert order[i] == i; }
    }
    order
  }

  /** Ignores the partial mode: every bucket must answer, and each series gets the exemplars of all that did. */
  method QueryExemplars(m: MultiAPI, outcomes: seq<Outcome<seq<SeriesExemplars>>>, cancelAt: Option<nat>)
    returns (merged: map<int, seq<int>>, error: Option<string>)
    requires m.Valid() && m.Size() == |outcomes|
    ensures error.None? <==> Waited(m.Size(), cancelAt) == m.Size() && Quorum(m, outcomes)
    ensures error.None? ==> Unites(merged, outcomes, m.Size()) && NamesAll(merged, outcomes, m.Size())
    ensures error.Some? ==>
      exists k: nat :: StopsAt(m.(partialResponse := false), outcomes, InTurn(m.Size()), cancelAt, k, error)
  {
    hide Going, Quorum, Extended, ExemplarsOf, Found, Arrival, Unites, Lost, NamesAll, Widened, AnswersOf, WarningsOf,
        OwnWarnings, Answers, Answered, Pending, Sorting.StableSort, Collected;
    var strict := m.(partialResponse := false);
    ghost var order := InTurn(m.Size());
    NothingLost(strict, outcomes, order);
    StrictSame(m, outcomes);
    var outstanding := CountBuckets(strict);
    GoingInit(strict, outcomes, outstanding);
    var t: Tally<seq<SeriesExemplars>> := Tally(outstanding, map[], [], {}, None);
    merged := map[];
    UnitesStart(outcomes);
    for i := 0 to m.Size()
      invariant cancelAt.Some? ==> i <= cancelAt.value
      invariant Going(strict, outcomes, Delivered(order, i), t)
      invariant forall j: nat :: j <= i ==> !Lost(strict, outcomes, order, j)
      invariant t.lastError == LatestError(outcomes, order, i)
      invariant Unites(merged, outcomes, i) && NamesAll(merged, outcomes, i)
    {
      if cancelAt.Some? && cancelAt.value == i {
        assert StopsAt(strict, outcomes, order, cancelAt, i, Some("context canceled"));
        return map[], Some("context canceled");
      }
      LoopStep(strict, outcomes, order, i, t);
      var abort;
      t, abort := Receive(strict, outcomes, t, i);
      if abort {
        assert StopsAt(strict, outcomes, order, cancelAt, i + 1, Some(outcomes[i].error));
        return map[], Some(outcomes[i].error);
      }
      ghost var before := merged;
      if outcomes[i].Answer? {
        merged := MergeExemplars(merged, outcomes[i].value);
      }
      UnitesStep(before, merged, outcomes, i);
      NamesAllStep(before, merged, outcomes, i);
    }
    AllIn(strict, outcomes, order, t);
    var missing := MissingRequired(strict, t.outstanding, t.success);
    if missing {
      return map[], FetchError(t.lastError);
    }
    return merged, None;
  }

  lemma {:induction false} PendingSame(m: MultiAPI, f: int, s: set<nat>, n: nat)
    requires n <= m.Size()
    ensures Pending(m.(partialResponse := false), f, s, n) == Pending(m, f, s, n)
  {
    if n > 0 {
      PendingSame(m, f, s, n - 1);
    }
  }

  lemma {:induction false} AnswersSame<T>(m: MultiAPI, outcomes: seq<Outcome<T>>, f: int, n: nat)
    requires n <= m.Size() == |outcomes|
    ensures Answers(m.(partialResponse := false), outcomes, f, n) == Answers(m, outcomes, f, n)
  {
    if n > 0 {
      AnswersSame(m, outcomes, f, n - 1);
    }
  }

  lemma {:induction false} StrictSame<T>(m: MultiAPI, outcomes: seq<Outcome<T>>)
    requires m.Valid() && m.Size() == |outcomes|
    ensures m.(partialResponse := false).Valid()
    ensures Quorum(m.(partialResponse := false), outcomes) <==> Quorum(m, outcomes)
  {
    forall f <- m.fingerprints
      ensures Pending(m.(partialResponse := false), f, {}, m.Size()) == Pending(m, f, {}, m.Size())
      ensures Answers(m.(partialResponse := false), outcomes, f, m.Size()) == Answers(m, outcomes, f, m.Size())
    {
      PendingSame(m, f, {}, m.Size());
      AnswersSame(m, outcomes, f, m.Size());
    }
  }

  // --- what follows for callers ----------------------------------------------

  /** Without a cancellation the arrival order changes neither the decision nor the answer. */
  lemma {:induction false} OrderIndependent<T>(m: MultiAPI, outcomes: seq<Outcome<T>>, order1: seq<nat>,
      order2: seq<nat>, r1: Response<T>, r2: Response<T>)
    requires m.Size() == |outcomes| && Arrival(order1, m.Size()) && Arrival(order2, m.Size())
    ensures Succeeds(m, outcomes, order1, m.Size()) <==> Succeeds(m, outcomes, order2, m.Size())
    ensures Returns(m, outcomes, order1, m.Size(), r1) && Returns(m, outcomes, order2, m.Size(), r2) ==>
      r1.results == r2.results && r1.warnings == r2.warnings
  {
    DeliveredIs(order1, m.Size());
    DeliveredIs(order2, m.Size());
    assert Delivered(order1, m.Size()) == Delivered(order2, m.Size()) by {
      forall i: nat ensures i in Delivered(order1, m.Size()) <==> i in Delivered(order2, m.Size()) {
        if i < m.Size() {
          assert i in order1 && i in order2;
        }
      }
    }
  }

  /** Backend i contributed to the results. */
  predicate Contributes<T>(r: Response<T>, i: nat) {
    exists k :: 0 <= k < |r.results| && r.results[k].ordinal == i
  }

  lemma {:induction false} AnswersSorted<T>(outcomes: seq<Outcome<T>>, s: set<nat>, n: nat)
    requires n <= |outcomes|
    ensures Sorting.StrictlySortedBy(Ordinal, AnswersOf(outcomes, s, n))
  {
    if n > 0 {
      AnswersSorted(outcomes, s, n - 1);
      AnswersBelow(outcomes, s, n - 1);
    }
  }

  lemma {:induction false} AnswerIncluded<T>(outcomes: seq<Outcome<T>>, s: set<nat>, i: nat, n: nat)
    requires i < n <= |outcomes| && i in s && outcomes[i].Answer?
    ensures Gathered(outcomes[i].value, i) in AnswersOf(outcomes, s, n)
  {
    if i < n - 1 {
      AnswerIncluded(outcomes, s, i, n - 1);
    }
  }

  lemma {:induction false} FailureReported<T>(m: MultiAPI, outcomes: seq<Outcome<T>>, s: set<nat>, i: nat, n: nat)
    requires i < n <= |outcomes| && i in s && outcomes[i].Failure? && m.partialResponse
    ensures Unavailable(i, outcomes[i].error) in WarningsOf(m, outcomes, s, n)
  {
    if i < n - 1 {
      FailureReported(m, outcomes, s, i, n - 1);
    }
  }

  /**
   * Partial-response safety, for every arrival order and cancellation point: a successful answer is not empty,
   * lists its contributors by ascending ordinal, and warns whenever some backend is missing from it.
   */
  lemma {:induction false} PartialSafety<T>(m: MultiAPI, outcomes: seq<Outcome<T>>, order: seq<nat>,
      cancelAt: Option<nat>, r: Response<T>, i: nat)
    requires m.partialResponse && m.Size() == |outcomes| > 0 && Arrival(order, m.Size())
    requires Succeeds(m, outcomes, order, Waited(m.Size(), cancelAt))
        && Returns(m, outcomes, order, Waited(m.Size(), cancelAt), r)
    ensures r.results != [] && Sorting.StrictlySortedBy(Ordinal, r.results)
    ensures i < m.Size() && !Contributes(r, i) ==>
      Cancelled(|r.results|, m.Size()) in r.warnings
          || (outcomes[i].Failure? && Unavailable(i, outcomes[i].error) in r.warnings)
  {
    var d := Waited(m.Size(), cancelAt);
    AnswersSorted(outcomes, Delivered(order, d), m.Size());
    if i < m.Size() && !Contributes(r, i) && d == m.Size() {
      DeliveredIs(order, d);
      assert i in order && i in Delivered(order, d);
      if outcomes[i].Answer? {
        AnswerIncluded(outcomes, Delivered(order, d), i, m.Size());
      } else {
        FailureReported(m, outcomes, Delivered(order, d), i, m.Size());
      }
    }
  }

  /** The counts behind quorum and abort are counts of backends. */
  lemma {:induction false} PendingIs(m: MultiAPI, f: int, s: set<nat>, n: nat)
    requires n <= m.Size()
    ensures Pending(m, f, s, n) == |set i: nat | i < n && m.fingerprints[i] == f && i !in s|
  {
    if n > 0 {
      PendingIs(m, f, s, n - 1);
      var before := set i: nat | i < n - 1 && m.fingerprints[i] == f && i !in s;
      var after := set i: nat | i < n && m.fingerprints[i] == f && i !in s;
      if n - 1 in after {
        assert after == before + {n - 1};
      } else {
        assert after == before;
      }
    }
  }

  lemma {:induction false} AnsweredIs<T>(m: MultiAPI, outcomes: seq<Outcome<T>>, f: int, s: set<nat>, n: nat)
    requires n <= m.Size() == |outcomes|
    ensures Answered(m, outcomes, f, s, n)
         == |set i: nat | i < n && m.fingerprints[i] == f && i in s && outcomes[i].Answer?|
  {
    if n > 0 {
      AnsweredIs(m, outcomes, f, s, n - 1);
      var before := set i: nat | i < n - 1 && m.fingerprints[i] == f && i in s && outcomes[i].Answer?;
      var after := set i: nat | i < n && m.fingerprints[i] == f && i in s && outcomes[i].Answer?;
      if n - 1 in after {
        assert after == before + {n - 1};
      } else {
        assert after == before;
      }
    }
  }

  lemma {:induction false} AnswerCountIs<T>(m: MultiAPI, outcomes: seq<Outcome<T>>, f: int, n: nat)
    requires n <= m.Size() == |outcomes|
    ensures Answers(m, outcomes, f, n) == |set i: nat | i < n && m.fingerprints[i] == f && outcomes[i].Answer?|
  {
    if n > 0 {
      AnswerCountIs(m, outcomes, f, n - 1);
      var before := set i: nat | i < n - 1 && m.fingerprints[i] == f && outcomes[i].Answer?;
      var after := set i: nat | i < n && m.fingerprints[i] == f && outcomes[i].Answer?;
      if n - 1 in after {
        assert after == before + {n - 1};
      } else {
        assert after == before;
      }
    }
  }

  lemma {:induction false} AnswersAre<T>(outcomes: seq<Outcome<T>>, s: set<nat>, n: nat, g: Gathered<T>)
    requires n <= |outcomes|
    ensures g in AnswersOf(outcomes, s, n)
        <==> (g.ordinal < n && g.ordinal in s && outcomes[g.ordinal].Answer? && outcomes[g.ordinal].value == g.value)
  {
    if n > 0 {
      AnswersAre(outcomes, s, n - 1, g);
    }
  }

  lemma {:induction false} WarningsAre<T>(m: MultiAPI, outcomes: seq<Outcome<T>>, s: set<nat>, n: nat)
    requires n <= |outcomes|
    ensures forall text :: (Reported(text) in WarningsOf(m, outcomes, s, n)
        <==> exists i: nat :: i < n && i in s && text in outcomes[i].warnings)
    ensures forall i: nat, e :: (Unavailable(i, e) in WarningsOf(m, outcomes, s, n)
        <==> (m.partialResponse && i < n && i in s && outcomes[i].Failure? && outcomes[i].error == e))
    ensures forall got, total :: Cancelled(got, total) !in WarningsOf(m, outcomes, s, n)
  {
    if n > 0 {
      WarningsAre(m, outcomes, s, n - 1);
    }
  }

  /**
   * A successful answer after d arrivals has exactly the values that arrived, by ascending ordinal; every warning some
   * arrived backend reported; in partial mode one for each that failed; and one for the cancellation if it cut the
   * call short.
   */
  lemma {:induction false} AnswerSays<T>(m: MultiAPI, outcomes: seq<Outcome<T>>, order: seq<nat>, d: nat,
      r: Response<T>)
    requires m.Size() == |outcomes| && Arrival(order, m.Size()) && d <= m.Size() && Returns(m, outcomes, order, d, r)
    ensures forall g :: (g in r.results
        <==> (g.ordinal in order[..d] && outcomes[g.ordinal].Answer? && outcomes[g.ordinal].value == g.value))
    ensures forall j, k :: 0 <= j < k < |r.results| ==> r.results[j].ordinal < r.results[k].ordinal
    ensures forall text :: (Reported(text) in r.warnings
        <==> exists i: nat :: i in order[..d] && text in outcomes[i].warnings)
    ensures forall i: nat, e :: (Unavailable(i, e) in r.warnings
        <==> (m.partialResponse && i in order[..d] && outcomes[i].Failure? && outcomes[i].error == e))
    ensures forall got, total :: (Cancelled(got, total) in r.warnings
        <==> (d < m.Size() && got == |r.results| && total == m.Size()))
  {
    hide AnswersOf, WarningsOf;
    var s, n := Delivered(order, d), m.Size();
    DeliveredIs(order, d);
    assert forall i: nat :: i in s <==> i in order[..d];
    forall g: Gathered<T> ensures g in r.results <==>
        (g.ordinal in order[..d] && outcomes[g.ordinal].Answer? && outcomes[g.ordinal].value == g.value)
    {
      AnswersAre(outcomes, s, n, g);
    }
    AnswersSorted(outcomes, s, n);
    assert forall k :: 0 <= k < |r.results| ==> Ordinal(r.results[k]) == r.results[k].ordinal;
    WarningsAre(m, outcomes, s, n);
  }

  /** The warnings of a failing call are those that the answers it has seen reported. */
  lemma {:induction false} FailureSays<T>(m: MultiAPI, outcomes: seq<Outcome<T>>, order: seq<nat>,
      cancelAt: Option<nat>, error: Option<string>, warnings: set<Warning>)
    returns (k: nat)
    requires m.Size() == |outcomes| && Arrival(order, m.Size())
    requires Fails(m, outcomes, order, cancelAt, error, warnings)
    ensures StopsAt(m, outcomes, order, cancelAt, k, error)
    ensures forall text :: (Reported(text) in warnings
        <==> exists i: nat :: i in order[..k] && text in outcomes[i].warnings)
    ensures forall i: nat, e :: (Unavailable(i, e) in warnings
        <==> (m.partialResponse && i in order[..k] && outcomes[i].Failure? && outcomes[i].error == e))
  {
    hide WarningsOf;
    k :| StopsAt(m, outcomes, order, cancelAt, k, error)
      && warnings == WarningsOf(m, outcomes, Delivered(order, k), m.Size());
    DeliveredIs(order, k);
    assert forall i: nat :: i in Delivered(order, k) <==> i in order[..k];
    WarningsAre(m, outcomes, Delivered(order, k), m.Size());
  }
}
