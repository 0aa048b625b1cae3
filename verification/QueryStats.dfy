/**
 * The per-query recorder of pkg/querystats/querystats.go: what its fields say about the requests
 * finished so far, whatever the order in which they began and finished.
 */
module QueryStats {
  import opened Wrappers
  import Sorting

  const MAX_REQUESTS := 100

  datatype Group = Group(name: string, ordinal: int)

  /** details stands for the operation, the query and its time range. */
  datatype Request = Request(ordinal: int, details: string)

  /** A finished request: its place in the order of beginning, and what came back. */
  datatype Finished = Finished(place: nat, req: Request, series: int, samples: int, took: real, error: Option<string>)

  datatype Totals = Totals(requests: nat, errors: nat, series: int, samples: int, duration: real)

  datatype Row = Row(name: string, ordinal: int, totals: Totals)

  datatype Listing = Listing(group: string, details: string, took: real, series: int, samples: int,
      error: Option<string>)

  /** The recorder's fields. */
  datatype Book = Book(rows: seq<Row>, byOrdinal: map<int, nat>, requests: seq<Option<Listing>>, truncated: nat)

  datatype Report = Report(groups: seq<Row>, requests: seq<Listing>, truncated: nat)

  // --- what a log of finished requests amounts to ------------------------------

  function Plus(a: Totals, b: Totals): Totals {
    Totals(a.requests + b.requests, a.errors + b.errors, a.series + b.series, a.samples + b.samples,
        a.duration + b.duration)
  }

  const NOTHING := Totals(0, 0, 0, 0, 0.0)

  function Own(f: Finished, ordinal: int): Totals {
    if f.req.ordinal == ordinal then Totals(1, if f.error.Some? then 1 else 0, f.series, f.samples, f.took) else NOTHING
  }

  /** What a group's requests add up to. */
  function TotalsOf(log: seq<Finished>, ordinal: int): Totals {
    if log == [] then NOTHING else Plus(TotalsOf(log[..|log| - 1], ordinal), Own(log[|log| - 1], ordinal))
  }

  function NameOf(snapshot: seq<Group>, ordinal: int): string {
    if snapshot == [] then ""
    else if snapshot[|snapshot| - 1].ordinal == ordinal then snapshot[|snapshot| - 1].name
    else NameOf(snapshot[..|snapshot| - 1], ordinal)
  }

  function ListingOf(snapshot: seq<Group>, f: Finished): Listing {
    Listing(NameOf(snapshot, f.req.ordinal), f.req.details, f.took, f.series, f.samples, f.error)
  }

  /** The listing for place k, when that request has finished and is among the first MAX_REQUESTS. */
  function ListedAt(snapshot: seq<Group>, log: seq<Finished>, k: nat): Option<Listing> {
    if log == [] then None
    else
      var last := log[|log| - 1];
      if last.place == k && k < MAX_REQUESTS then Some(ListingOf(snapshot, last))
          else ListedAt(snapshot, log[..|log| - 1], k)
  }

  /** The finished requests that began too late to be listed. */
  function Unlisted(log: seq<Finished>): nat {
    if log == [] then 0 else Unlisted(log[..|log| - 1]) + if log[|log| - 1].place >= MAX_REQUESTS then 1 else 0
  }

  ghost predicate Known(snapshot: seq<Group>, log: seq<Finished>, ordinal: int) {
    (exists g <- snapshot :: g.ordinal == ordinal) || (exists f <- log :: f.req.ordinal == ordinal)
  }

  /** The index points at the right row, and every row is in it. */
  predicate Indexed(rows: seq<Row>, byOrdinal: map<int, nat>) {
    && (forall o <- byOrdinal :: byOrdinal[o] < |rows| && rows[byOrdinal[o]].ordinal == o)
    && (forall i :: 0 <= i < |rows| ==> InIndex(rows[i].ordinal, byOrdinal, i))
  }

  predicate InIndex(ordinal: int, byOrdinal: map<int, nat>, i: nat) {
    ordinal in byOrdinal && byOrdinal[ordinal] == i
  }

  ghost predicate RowsTell(rows: seq<Row>, snapshot: seq<Group>, log: seq<Finished>) {
    forall i :: 0 <= i < |rows| ==> rows[i] == RowFor(snapshot, log, rows[i].ordinal)
  }

  function RowFor(snapshot: seq<Group>, log: seq<Finished>, ordinal: int): Row {
    Row(NameOf(snapshot, ordinal), ordinal, TotalsOf(log, ordinal))
  }

  /** The request list holds exactly the finished ones among the first MAX_REQUESTS, each in its place. */
  ghost predicate RequestsTell(requests: seq<Option<Listing>>, snapshot: seq<Group>, log: seq<Finished>) {
    && |requests| <= MAX_REQUESTS && (requests != [] ==> requests[|requests| - 1].Some?)
    && (forall k :: 0 <= k < |requests| ==> requests[k] == ListedAt(snapshot, log, k))
    && (forall k: nat :: k >= |requests| ==> ListedAt(snapshot, log, k) == None)
  }

  /** The fields say what the log amounts to. */
  ghost predicate Describes(b: Book, snapshot: seq<Group>, log: seq<Finished>) {
    && Indexed(b.rows, b.byOrdinal)
    && RowsTell(b.rows, snapshot, log)
    && (forall o :: o in b.byOrdinal <==> Known(snapshot, log, o))
    && RequestsTell(b.requests, snapshot, log)
    && b.truncated == Unlisted(log)
  }

  ghost predicate DistinctPlaces(log: seq<Finished>) {
    forall i, j :: 0 <= i < j < |log| ==> log[i].place != log[j].place
  }

  // --- one more finished request ---------------------------------------------------

  lemma {:induction false} LogNext(snapshot: seq<Group>, log: seq<Finished>, f: Finished)
    ensures forall o :: TotalsOf(log + [f], o) == Plus(TotalsOf(log, o), Own(f, o))
    ensures forall k: nat :: ListedAt(snapshot, log + [f], k)
                     == if f.place == k && k < MAX_REQUESTS then Some(ListingOf(snapshot, f))
                         else ListedAt(snapshot, log, k)
    ensures Unlisted(log + [f]) == Unlisted(log) + if f.place >= MAX_REQUESTS then 1 else 0
    ensures forall o :: Known(snapshot, log + [f], o) <==> Known(snapshot, log, o) || f.req.ordinal == o
  {
    assert (log + [f])[..|log|] == log;
    forall o ensures Known(snapshot, log + [f], o) <==> Known(snapshot, log, o) || f.req.ordinal == o {
      assert f in log + [f];
    }
  }

  lemma {:induction false} TotalsNext(t: Totals, f: Finished)
    ensures Plus(t, Own(f, f.req.ordinal)) == Totals(t.requests + 1, t.errors + (if f.error.Some? then 1 else 0),
                                                     t.series + f.series, t.samples + f.samples, t.duration + f.took)
  {
  }

  lemma {:induction false} PlusNothing(t: Totals)
    ensures Plus(t, NOTHING) == t
  {
  }

  lemma {:induction false} PlusAssoc(a: Totals, b: Totals, c: Totals)
    ensures Plus(Plus(a, b), c) == Plus(a, Plus(b, c)) && Plus(a, b) == Plus(b, a)
  {
  }

  /** Adding to the row of the request's group. */
  lemma {:induction false} RowsNext(rows: seq<Row>, byOrdinal: map<int, nat>, snapshot: seq<Group>, log: seq<Finished>,
      f: Finished)
    requires Indexed(rows, byOrdinal) && RowsTell(rows, snapshot, log) && f.req.ordinal in byOrdinal
    ensures var i := byOrdinal[f.req.ordinal];
            var next := rows[i := rows[i].(totals := Plus(rows[i].totals, Own(f, f.req.ordinal)))];
            Indexed(next, byOrdinal) && RowsTell(next, snapshot, log + [f])
  {
    hide TotalsOf, ListedAt, Known, Plus, NameOf;
    LogNext(snapshot, log, f);
    var i := byOrdinal[f.req.ordinal];
    var next := rows[i := rows[i].(totals := Plus(rows[i].totals, Own(f, f.req.ordinal)))];
    forall k | 0 <= k < |next|
      ensures next[k] == RowFor(snapshot, log + [f], next[k].ordinal) && InIndex(next[k].ordinal, byOrdinal, k)
    {
      assert rows[k] == RowFor(snapshot, log, rows[k].ordinal) && InIndex(rows[k].ordinal, byOrdinal, k);
      PlusNothing(rows[k].totals);
    }
  }

  /** A row for a group that was not in the snapshot. */
  lemma {:induction false} RowAdded(rows: seq<Row>, byOrdinal: map<int, nat>, snapshot: seq<Group>, log: seq<Finished>,
      ordinal: int)
    requires Indexed(rows, byOrdinal) && RowsTell(rows, snapshot, log)
        && (forall o :: o in byOrdinal <==> Known(snapshot, log, o))
    requires ordinal !in byOrdinal
    ensures var more := rows + [Row("", ordinal, NOTHING)];
            Indexed(more, byOrdinal[ordinal := |rows|]) && RowsTell(more, snapshot, log)
  {
    hide TotalsOf, NameOf;
    NameUnknown(snapshot, ordinal);
    TotalsUnknown(log, ordinal);
    forall k | 0 <= k < |rows| ensures rows[k].ordinal != ordinal {
      assert InIndex(rows[k].ordinal, byOrdinal, k);
    }
  }

  lemma {:induction false} NameUnknown(snapshot: seq<Group>, ordinal: int)
    requires forall g <- snapshot :: g.ordinal != ordinal
    ensures NameOf(snapshot, ordinal) == ""
  {
    if snapshot != [] {
      assert snapshot[|snapshot| - 1] in snapshot;
      NameUnknown(snapshot[..|snapshot| - 1], ordinal);
    }
  }

  lemma {:induction false} TotalsUnknown(log: seq<Finished>, ordinal: int)
    requires forall f <- log :: f.req.ordinal != ordinal
    ensures TotalsOf(log, ordinal) == NOTHING
  {
    hide Plus;
    PlusNothing(NOTHING);
    if log != [] {
      assert log[|log| - 1] in log;
      TotalsUnknown(log[..|log| - 1], ordinal);
    }
  }

  /** requests, long enough for place k, with x there. */
  function Placed(requests: seq<Option<Listing>>, k: nat, x: Listing): seq<Option<Listing>> {
    var long := if |requests| <= k then requests + seq(k + 1 - |requests|, i => None) else requests;
    long[k := Some(x)]
  }

  lemma {:induction false} RequestsNext(requests: seq<Option<Listing>>, snapshot: seq<Group>, log: seq<Finished>,
      f: Finished)
    requires RequestsTell(requests, snapshot, log)
    ensures RequestsTell(if f.place >= MAX_REQUESTS then requests else Placed(requests, f.place,
        ListingOf(snapshot, f)), snapshot, log + [f])
  {
    hide TotalsOf, ListedAt, Known, Unlisted, ListingOf;
    LogNext(snapshot, log, f);
  }

  // --- conservation -------------------------------------------------------------

  function AllRequests(rows: seq<Row>): nat {
    if rows == [] then 0 else AllRequests(rows[..|rows| - 1]) + rows[|rows| - 1].totals.requests
  }

  function Somes(requests: seq<Option<Listing>>): seq<Listing> {
    if requests == [] then []
    else
      var last := requests[|requests| - 1];
      Somes(requests[..|requests| - 1]) + if last.Some? then [last.value] else []
  }

  function CountIn(ordinals: seq<int>, log: seq<Finished>): nat {
    if ordinals == [] then 0
    else CountIn(ordinals[..|ordinals| - 1], log) + TotalsOf(log, ordinals[|ordinals| - 1]).requests
  }

  lemma {:induction false} CountInNext(ordinals: seq<int>, log: seq<Finished>, f: Finished)
    requires forall i, j :: 0 <= i < j < |ordinals| ==> ordinals[i] != ordinals[j]
    ensures CountIn(ordinals, log + [f]) == CountIn(ordinals, log) + if f.req.ordinal in ordinals then 1 else 0
  {
    if ordinals != [] {
      CountInNext(ordinals[..|ordinals| - 1], log, f);
      assert (log + [f])[..|log|] == log;
      assert ordinals == ordinals[..|ordinals| - 1] + [ordinals[|ordinals| - 1]];
    }
  }

  lemma {:induction false} CountInAll(ordinals: seq<int>, log: seq<Finished>)
    requires forall i, j :: 0 <= i < j < |ordinals| ==> ordinals[i] != ordinals[j]
    requires forall f <- log :: f.req.ordinal in ordinals
    ensures CountIn(ordinals, log) == |log|
  {
    if log == [] {
      CountInNone(ordinals);
    } else {
      var front, f := log[..|log| - 1], log[|log| - 1];
      assert f in log && log == front + [f];
      CountInAll(ordinals, front);
      CountInNext(ordinals, front, f);
    }
  }

  lemma {:induction false} CountInNone(ordinals: seq<int>)
    ensures CountIn(ordinals, []) == 0
  {
    if ordinals != [] {
      CountInNone(ordinals[..|ordinals| - 1]);
    }
  }

  function OrdinalsOf(rows: seq<Row>): seq<int> {
    seq(|rows|, i requires 0 <= i < |rows| => rows[i].ordinal)
  }

  lemma {:induction false} AllRequestsIs(rows: seq<Row>, snapshot: seq<Group>, log: seq<Finished>)
    requires RowsTell(rows, snapshot, log)
    ensures AllRequests(rows) == CountIn(OrdinalsOf(rows), log)
  {
    hide TotalsOf, NameOf;
    if rows != [] {
      AllRequestsIs(rows[..|rows| - 1], snapshot, log);
      assert OrdinalsOf(rows)[..|rows| - 1] == OrdinalsOf(rows[..|rows| - 1]);
    }
  }

  /** How many of the first m places are listed. */
  function ListedCount(snapshot: seq<Group>, log: seq<Finished>, m: nat): nat {
    if m == 0 then 0 else ListedCount(snapshot, log, m - 1) + if ListedAt(snapshot, log, m - 1).Some? then 1 else 0
  }

  lemma {:induction false} ListedNext(snapshot: seq<Group>, log: seq<Finished>, f: Finished, m: nat)
    requires forall g <- log :: g.place != f.place
    ensures ListedCount(snapshot, log + [f], m) == ListedCount(snapshot, log, m)
        + if f.place < m && f.place < MAX_REQUESTS then 1 else 0
  {
    hide ListedAt, Known, TotalsOf, Unlisted;
    if m > 0 {
      ListedNext(snapshot, log, f, m - 1);
      LogNext(snapshot, log, f);
      if f.place == m - 1 {
        ListedFresh(snapshot, log, f.place);
      }
    }
  }

  lemma {:induction false} ListedFresh(snapshot: seq<Group>, log: seq<Finished>, k: nat)
    requires forall g <- log :: g.place != k
    ensures ListedAt(snapshot, log, k) == None
  {
    if log != [] {
      assert log[|log| - 1] in log;
      ListedFresh(snapshot, log[..|log| - 1], k);
    }
  }

  lemma {:induction false} ListedNone(snapshot: seq<Group>, m: nat)
    ensures ListedCount(snapshot, [], m) == 0
  {
    if m > 0 {
      ListedNone(snapshot, m - 1);
    }
  }

  lemma {:induction false} ListedAndUnlisted(snapshot: seq<Group>, log: seq<Finished>)
    requires DistinctPlaces(log)
    ensures ListedCount(snapshot, log, MAX_REQUESTS) + Unlisted(log) == |log|
  {
    if log == [] {
      ListedNone(snapshot, MAX_REQUESTS);
    } else {
      var front, f := log[..|log| - 1], log[|log| - 1];
      assert log == front + [f];
      ListedAndUnlisted(snapshot, front);
      forall g <- front ensures g.place != f.place {
        var i :| 0 <= i < |front| && front[i] == g;
        assert log[i].place != log[|log| - 1].place;
      }
      ListedNext(snapshot, front, f, MAX_REQUESTS);
    }
  }

  lemma {:induction false} SomesCount(requests: seq<Option<Listing>>, snapshot: seq<Group>, log: seq<Finished>, m: nat)
    requires m <= |requests| && RequestsTell(requests, snapshot, log)
    ensures |Somes(requests[..m])| == ListedCount(snapshot, log, m)
  {
    if m > 0 {
      hide ListedAt;
      SomesCount(requests, snapshot, log, m - 1);
      assert requests[..m][..m - 1] == requests[..m - 1];
    }
  }

  lemma {:induction false} NothingBeyond(requests: seq<Option<Listing>>, snapshot: seq<Group>, log: seq<Finished>,
      m: nat)
    requires |requests| <= m && RequestsTell(requests, snapshot, log)
    ensures ListedCount(snapshot, log, m) == ListedCount(snapshot, log, |requests|)
  {
    if m > |requests| {
      hide ListedAt;
      NothingBeyond(requests, snapshot, log, m - 1);
    }
  }

  /** Finished requests are the groups' requests together, and are the listed and the truncated ones together. */
  lemma {:induction false} Conservation(b: Book, snapshot: seq<Group>, log: seq<Finished>)
    requires Describes(b, snapshot, log) && DistinctPlaces(log)
    ensures AllRequests(b.rows) == |log|
    ensures |Somes(b.requests)| + b.truncated == |log|
  {
    hide TotalsOf, ListedAt, NameOf;
    var ordinals := OrdinalsOf(b.rows);
    forall i, j | 0 <= i < j < |ordinals| ensures ordinals[i] != ordinals[j] {
      assert InIndex(b.rows[i].ordinal, b.byOrdinal, i) && InIndex(b.rows[j].ordinal, b.byOrdinal, j);
    }
    forall f <- log ensures f.req.ordinal in ordinals {
      assert Known(snapshot, log, f.req.ordinal);
      assert ordinals[b.byOrdinal[f.req.ordinal]] == f.req.ordinal;
    }
    AllRequestsIs(b.rows, snapshot, log);
    CountInAll(ordinals, log);
    ListedAndUnlisted(snapshot, log);
    SomesCount(b.requests, snapshot, log, |b.requests|);
    NothingBeyond(b.requests, snapshot, log, MAX_REQUESTS);
    assert b.requests[..|b.requests|] == b.requests;
  }

  // --- the order of finishing does not show ------------------------------------------

  function RowOrdinal(r: Row): int {
    r.ordinal
  }

  /** What Stats returns. */
  function ReportOf(b: Book): Report {
    Report(Sorting.StableSort(RowOrdinal, b.rows), Somes(b.requests), b.truncated)
  }

  lemma {:induction false} TotalsConcat(a: seq<Finished>, b: seq<Finished>, o: int)
    ensures TotalsOf(a + b, o) == Plus(TotalsOf(a, o), TotalsOf(b, o))
  {
    hide Plus, Own;
    if b == [] {
      assert a + b == a;
      PlusNothing(TotalsOf(a, o));
    } else {
      TotalsConcat(a, b[..|b| - 1], o);
      assert (a + b)[..|a + b| - 1] == a + b[..|b| - 1];
      PlusAssoc(TotalsOf(a, o), TotalsOf(b[..|b| - 1], o), Own(b[|b| - 1], o));
    }
  }

  lemma {:induction false} UnlistedConcat(a: seq<Finished>, b: seq<Finished>)
    ensures Unlisted(a + b) == Unlisted(a) + Unlisted(b)
  {
    if b == [] {
      assert a + b == a;
    } else {
      UnlistedConcat(a, b[..|b| - 1]);
      assert (a + b)[..|a + b| - 1] == a + b[..|b| - 1];
    }
  }

  lemma {:induction false} Without(s: seq<Finished>, i: nat, o: int)
    requires i < |s|
    ensures var rest := s[..i] + s[i + 1..];
            && TotalsOf(s, o) == Plus(TotalsOf(rest, o), Own(s[i], o))
            && Unlisted(s) == Unlisted(rest) + (if s[i].place >= MAX_REQUESTS then 1 else 0)
            && multiset(s) == multiset(rest) + multiset{s[i]}
  {
    hide TotalsOf, Unlisted, Own, Plus;
    var x, y, z := s[..i], [s[i]], s[i + 1..];
    assert s == x + y + z;
    JustOne(s[i], o);
    TotalsConcat(x, z, o);
    TotalsConcat(x, y, o);
    TotalsConcat(x + y, z, o);
    PlusAssoc(TotalsOf(x, o), TotalsOf(y, o), TotalsOf(z, o));
    PlusAssoc(TotalsOf(x, o), TotalsOf(z, o), TotalsOf(y, o));
    PlusAssoc(TotalsOf(z, o), TotalsOf(y, o), NOTHING);
    UnlistedConcat(x, z);
    UnlistedConcat(x, y);
    UnlistedConcat(x + y, z);
  }

  lemma {:induction false} JustOne(f: Finished, o: int)
    ensures TotalsOf([f], o) == Own(f, o) && Unlisted([f]) == if f.place >= MAX_REQUESTS then 1 else 0
  {
    hide Plus, Own;
    assert [f][..0] == [];
    NothingPlus(Own(f, o));
  }

  lemma {:induction false} NothingPlus(t: Totals)
    ensures Plus(NOTHING, t) == t
  {
  }

  lemma {:induction false} SameTotals(a: seq<Finished>, b: seq<Finished>, o: int)
    requires multiset(a) == multiset(b)
    ensures TotalsOf(a, o) == TotalsOf(b, o) && Unlisted(a) == Unlisted(b)
  {
    hide Own, Plus;
    if a == [] {
      assert |multiset(b)| == 0;
    } else {
      var front, last := a[..|a| - 1], a[|a| - 1];
      assert a == front + [last];
      assert last in multiset(b);
      var i :| 0 <= i < |b| && b[i] == last;
      var rest := b[..i] + b[i + 1..];
      Without(b, i, o);
      assert multiset(front) == multiset(a) - multiset{last} == multiset(rest);
      SameTotals(front, rest, o);
    }
  }

  lemma {:induction false} ListedFrom(snapshot: seq<Group>, log: seq<Finished>, k: nat)
    ensures ListedAt(snapshot, log, k).Some? ==>
      exists f <- log :: f.place == k && k < MAX_REQUESTS && ListedAt(snapshot, log, k) == Some(ListingOf(snapshot, f))
  {
    if log != [] {
      ListedFrom(snapshot, log[..|log| - 1], k);
      assert log[|log| - 1] in log;
    }
  }

  lemma {:induction false} ListedIs(snapshot: seq<Group>, log: seq<Finished>, f: Finished)
    requires DistinctPlaces(log) && f in log && f.place < MAX_REQUESTS
    ensures ListedAt(snapshot, log, f.place) == Some(ListingOf(snapshot, f))
  {
    var front, last := log[..|log| - 1], log[|log| - 1];
    if last != f {
      assert log == front + [last];
      var i :| 0 <= i < |log| && log[i] == f;
      assert i < |log| - 1;
      assert front[i] == f;
      ListedIs(snapshot, front, f);
    }
  }

  lemma {:induction false} SameListings(snapshot: seq<Group>, a: seq<Finished>, b: seq<Finished>, k: nat)
    requires DistinctPlaces(a) && DistinctPlaces(b) && multiset(a) == multiset(b)
    ensures ListedAt(snapshot, a, k) == ListedAt(snapshot, b, k)
  {
    hide ListedAt, ListingOf;
    ListedFrom(snapshot, a, k);
    ListedFrom(snapshot, b, k);
    if ListedAt(snapshot, a, k).Some? {
      var f :| f in a && f.place == k && k < MAX_REQUESTS && ListedAt(snapshot, a, k) == Some(ListingOf(snapshot, f));
      assert f in multiset(b);
      ListedIs(snapshot, b, f);
    } else if ListedAt(snapshot, b, k).Some? {
      var f :| f in b && f.place == k && k < MAX_REQUESTS && ListedAt(snapshot, b, k) == Some(ListingOf(snapshot, f));
      assert f in multiset(a);
      ListedIs(snapshot, a, f);
    }
  }

  lemma {:induction false} RowsWithin(x: Book, y: Book, snapshot: seq<Group>, a: seq<Finished>, b: seq<Finished>)
    requires Describes(x, snapshot, a) && Describes(y, snapshot, b) && multiset(a) == multiset(b)
    ensures forall r <- x.rows :: r in y.rows
  {
    hide TotalsOf, NameOf, RequestsTell, Unlisted;
    forall r <- x.rows ensures r in y.rows {
      var i :| 0 <= i < |x.rows| && x.rows[i] == r;
      assert InIndex(r.ordinal, x.byOrdinal, i);
      KnownSame(snapshot, a, b, r.ordinal);
      SameTotals(a, b, r.ordinal);
      var j := y.byOrdinal[r.ordinal];
      assert y.rows[j] == RowFor(snapshot, b, r.ordinal);
    }
  }

  lemma {:induction false} KnownSame(snapshot: seq<Group>, a: seq<Finished>, b: seq<Finished>, o: int)
    requires multiset(a) == multiset(b) && Known(snapshot, a, o)
    ensures Known(snapshot, b, o)
  {
    if f :| f in a && f.req.ordinal == o {
      assert f in multiset(b);
    }
  }

  lemma {:induction false} RowsDistinct(b: Book)
    requires Indexed(b.rows, b.byOrdinal)
    ensures Sorting.DistinctKeys(RowOrdinal, b.rows)
  {
    forall i, j | 0 <= i < j < |b.rows| ensures RowOrdinal(b.rows[i]) != RowOrdinal(b.rows[j]) {
      assert InIndex(b.rows[i].ordinal, b.byOrdinal, i) && InIndex(b.rows[j].ordinal, b.byOrdinal, j);
    }
  }

  lemma {:induction false} SameRequests(x: seq<Option<Listing>>, y: seq<Option<Listing>>, snapshot: seq<Group>,
      a: seq<Finished>, b: seq<Finished>)
    requires RequestsTell(x, snapshot, a) && RequestsTell(y, snapshot, b)
    requires DistinctPlaces(a) && DistinctPlaces(b) && multiset(a) == multiset(b)
    ensures x == y
  {
    hide ListedAt, DistinctPlaces;
    forall k: nat ensures ListedAt(snapshot, a, k) == ListedAt(snapshot, b, k) {
      SameListings(snapshot, a, b, k);
    }
    if x != [] {
      assert ListedAt(snapshot, b, |x| - 1).Some?;
    }
    if y != [] {
      assert ListedAt(snapshot, a, |y| - 1).Some?;
    }
  }

  /** The same requests finished in another order give the same report. */
  lemma {:induction false} FinishOrderInvisible(x: Book, y: Book, snapshot: seq<Group>, a: seq<Finished>,
      b: seq<Finished>)
    requires Describes(x, snapshot, a) && Describes(y, snapshot, b) && DistinctPlaces(a) && multiset(a) == multiset(b)
    requires DistinctPlaces(b)
    ensures ReportOf(x) == ReportOf(y)
  {
    hide TotalsOf, NameOf, ListedAt, Sorting.StableSort, DistinctPlaces, RequestsTell, Unlisted, Somes;
    RowsWithin(x, y, snapshot, a, b);
    RowsWithin(y, x, snapshot, b, a);
    RowsDistinct(x);
    RowsDistinct(y);
    Sorting.StableSortStrict(RowOrdinal, x.rows);
    Sorting.StableSortStrict(RowOrdinal, y.rows);
    Sorting.StableSortMembers(RowOrdinal, x.rows);
    Sorting.StableSortMembers(RowOrdinal, y.rows);
    Sorting.SameElements(RowOrdinal, Sorting.StableSort(RowOrdinal, x.rows), Sorting.StableSort(RowOrdinal, y.rows));
    SameRequests(x.requests, y.requests, snapshot, a, b);
    SameTotals(a, b, 0);
  }

  // --- the recorder ------------------------------------------------------------------

  lemma {:induction false} PlacesNext(log: seq<Finished>, f: Finished)
    requires DistinctPlaces(log) && forall g <- log :: g.place != f.place
    ensures DistinctPlaces(log + [f])
  {
  }

  method IndexRows(rows: seq<Row>) returns (index: map<int, nat>)
    requires Sorting.StrictlySortedBy(RowOrdinal, rows)
    ensures Indexed(rows, index)
  {
    index := map[];
    for i := 0 to |rows|
      invariant forall o <- index :: index[o] < i && rows[index[o]].ordinal == o
      invariant forall j :: 0 <= j < i ==> InIndex(rows[j].ordinal, index, j)
    {
      assert forall j :: 0 <= j < i ==> RowOrdinal(rows[j]) < RowOrdinal(rows[i]);
      index := index[rows[i].ordinal := i];
    }
  }

  class Recorder {
    /** The configured groups; their ordinals are their positions in the configuration. */
    const snapshot: seq<Group>
    var groups: seq<Row>
    var byOrdinal: map<int, nat>
    var begun: nat
    var requests: seq<Option<Listing>>
    var truncated: nat
    /** The requests finished so far, in the order they finished. */
    ghost var log: seq<Finished>

    function State(): Book
      reads this
    {
      Book(groups, byOrdinal, requests, truncated)
    }

    /** Holds between any two calls, so over every interleaving of beginnings and finishes. */
    ghost predicate Valid()
      reads this
    {
      && Describes(State(), snapshot, log) && DistinctPlaces(log)
      && forall f <- log :: f.place < begun
    }

    ghost predicate HasFinished(place: nat)
      reads this
    {
      exists f <- log :: f.place == place
    }

    constructor (configured: seq<Group>)
      requires forall i, j :: 0 <= i < j < |configured| ==> configured[i].ordinal != configured[j].ordinal
      ensures Valid() && snapshot == configured && log == [] && begun == 0
      ensures forall g <- configured :: Row(g.name, g.ordinal, NOTHING) in groups
    {
      var rows: seq<Row> := [];
      for i := 0 to |configured|
        invariant |rows| == i && forall j ::
            0 <= j < i ==> rows[j] == Row(configured[j].name, configured[j].ordinal, NOTHING)
      {
        rows := rows + [Row(configured[i].name, configured[i].ordinal, NOTHING)];
      }
      var sorted := Sorting.StableSort(RowOrdinal, rows);
      SortedRows(configured, rows);
      var index := IndexRows(sorted);
      snapshot := configured;
      groups := sorted;
      byOrdinal := index;
      begun := 0;
      requests := [];
      truncated := 0;
      log := [];
      NewBook(configured, sorted, index);
    }

    /** Starts a request; its place is decided here. */
    method Begin(req: Request) returns (e: Entry)
      requires Valid()
      modifies this`begun
      ensures Valid() && begun == old(begun) + 1
      ensures fresh(e) && e.r == this && e.place == old(begun) && e.req == req && e.Valid()
    {
      var place := begun;
      begun := begun + 1;
      e := new Entry(this, place, req);
    }

    /** The position of a group's row; a group missing from the snapshot gets a row. */
    method RowIndex(ordinal: int) returns (i: nat)
      requires Indexed(groups, byOrdinal) && RowsTell(groups, snapshot, log)
          && (forall o :: o in byOrdinal <==> Known(snapshot, log, o))
      modifies this`groups, this`byOrdinal
      ensures Indexed(groups, byOrdinal) && RowsTell(groups, snapshot, log)
      ensures ordinal in byOrdinal && i == byOrdinal[ordinal]
      ensures forall o :: o in byOrdinal <==> Known(snapshot, log, o) || o == ordinal
    {
      if ordinal in byOrdinal {
        return byOrdinal[ordinal];
      }
      RowAdded(groups, byOrdinal, snapshot, log, ordinal);
      groups := groups + [Row("", ordinal, NOTHING)];
      byOrdinal := byOrdinal[ordinal := |groups| - 1];
      return |groups| - 1;
    }

    /** Records what a request returned, under the lock. */
    method Record(f: Finished)
      requires Valid() && f.place < begun && !HasFinished(f.place)
      modifies this
      ensures Valid() && log == old(log) + [f] && begun == old(begun)
    {
      hide RowsTell, RequestsTell, Unlisted, Known, Placed, Indexed, DistinctPlaces, TotalsOf, ListedAt, NameOf, Plus,
          Own;
      PlacesNext(log, f);
      LogNext(snapshot, log, f);
      var i := RowIndex(f.req.ordinal);
      RowsNext(groups, byOrdinal, snapshot, log, f);
      RequestsNext(requests, snapshot, log, f);
      RowKnown(groups, byOrdinal, snapshot, log, f.req.ordinal);
      var row := groups[i];
      TotalsNext(row.totals, f);
      groups := groups[i := row.(totals := Totals(row.totals.requests + 1,
                                                  row.totals.errors + if f.error.Some? then 1 else 0,
                                                  row.totals.series + f.series,
                                                  row.totals.samples + f.samples,
                                                  row.totals.duration + f.took))];
      if f.place >= MAX_REQUESTS {
        truncated := truncated + 1;
      } else {
        var listing := Listing(row.name, f.req.details, f.took, f.series, f.samples, f.error);
        requests := Placed(requests, f.place, listing);
      }
      log := log + [f];
    }

    /** What has been recorded so far. */
    method Stats() returns (s: Report)
      requires Valid()
      ensures s == ReportOf(State())
      ensures |s.requests| + s.truncated == |log|
    {
      Conservation(State(), snapshot, log);
      var listed: seq<Listing> := [];
      for k := 0 to |requests|
        invariant listed == Somes(requests[..k])
      {
        assert requests[..k + 1][..k] == requests[..k];
        if requests[k].Some? {
          listed := listed + [requests[k].value];
        }
      }
      assert requests[..|requests|] == requests;
      return Report(Sorting.StableSort(RowOrdinal, groups), listed, truncated);
    }
  }

  /** One request in flight. */
  class Entry {
    const r: Recorder
    const place: nat
    const req: Request
    var done: bool

    constructor (r: Recorder, place: nat, req: Request)
      ensures this.r == r && this.place == place && this.req == req && !done
    {
      this.r, this.place, this.req := r, place, req;
      done := false;
    }

    ghost predicate Valid()
      reads this, r
    {
      r.Valid() && place < r.begun && (done <==> r.HasFinished(place))
    }

    /** Records the outcome, the first time only. */
    method Finish(series: int, samples: int, took: real, error: Option<string>)
      requires Valid()
      modifies this`done, r
      ensures Valid() && done && r.begun == old(r.begun)
      ensures r.log == if old(done) then old(r.log)
          else old(r.log) + [Finished(place, req, series, samples, took, error)]
    {
      if !done {
        done := true;
        var f := Finished(place, req, series, samples, took, error);
        r.Record(f);
        assert f in r.log;
      }
    }
  }

  lemma {:induction false} SortedRows(configured: seq<Group>, rows: seq<Row>)
    requires forall i, j :: 0 <= i < j < |configured| ==> configured[i].ordinal != configured[j].ordinal
    requires |rows| == |configured| && forall j ::
        0 <= j < |rows| ==> rows[j] == Row(configured[j].name, configured[j].ordinal, NOTHING)
    ensures var sorted := Sorting.StableSort(RowOrdinal, rows);
            && Sorting.StrictlySortedBy(RowOrdinal, sorted)
            && (forall r <- sorted :: exists g <- configured :: r == Row(g.name, g.ordinal, NOTHING))
            && (forall g <- configured :: Row(g.name, g.ordinal, NOTHING) in sorted)
  {
    hide Sorting.StableSort;
    var sorted := Sorting.StableSort(RowOrdinal, rows);
    Sorting.StableSortStrict(RowOrdinal, rows);
    Sorting.StableSortMembers(RowOrdinal, rows);
    forall r <- sorted ensures exists g <- configured :: r == Row(g.name, g.ordinal, NOTHING) {
      var j :| 0 <= j < |rows| && rows[j] == r;
      assert configured[j] in configured;
    }
    forall g <- configured ensures Row(g.name, g.ordinal, NOTHING) in sorted {
      var j :| 0 <= j < |configured| && configured[j] == g;
      assert rows[j] in sorted;
    }
  }

  lemma {:induction false} NameFound(snapshot: seq<Group>, g: Group)
    requires (forall i, j :: 0 <= i < j < |snapshot| ==> snapshot[i].ordinal != snapshot[j].ordinal) && g in snapshot
    ensures NameOf(snapshot, g.ordinal) == g.name
  {
    var front, last := snapshot[..|snapshot| - 1], snapshot[|snapshot| - 1];
    if last != g {
      assert snapshot == front + [last];
      var i :| 0 <= i < |snapshot| && snapshot[i] == g;
      assert front[i] == g;
      NameFound(front, g);
    }
  }

  lemma {:induction false} NewBook(configured: seq<Group>, rows: seq<Row>, index: map<int, nat>)
    requires forall i, j :: 0 <= i < j < |configured| ==> configured[i].ordinal != configured[j].ordinal
    requires Indexed(rows, index)
    requires forall r <- rows :: exists g <- configured :: r == Row(g.name, g.ordinal, NOTHING)
    requires forall g <- configured :: Row(g.name, g.ordinal, NOTHING) in rows
    ensures Describes(Book(rows, index, [], 0), configured, [])
  {
    forall i | 0 <= i < |rows| ensures rows[i] == RowFor(configured, [], rows[i].ordinal) {
      assert rows[i] in rows;
      var g :| g in configured && rows[i] == Row(g.name, g.ordinal, NOTHING);
      NameFound(configured, g);
    }
    forall o ensures o in index <==> Known(configured, [], o) {
      if o in index {
        assert rows[index[o]] in rows;
      }
      if g :| g in configured && g.ordinal == o {
        var i :| 0 <= i < |rows| && rows[i] == Row(g.name, g.ordinal, NOTHING);
        assert InIndex(rows[i].ordinal, index, i);
      }
    }
  }

  lemma {:induction false} RowKnown(rows: seq<Row>, byOrdinal: map<int, nat>, snapshot: seq<Group>, log: seq<Finished>,
      ordinal: int)
    requires Indexed(rows, byOrdinal) && RowsTell(rows, snapshot, log) && ordinal in byOrdinal
    ensures byOrdinal[ordinal] < |rows| && rows[byOrdinal[ordinal]].name == NameOf(snapshot, ordinal)
  {
  }

  // --- whole runs ------------------------------------------------------------------------

  /** What concurrent callers do, in the order the lock serialises it; k counts the requests begun. */
  datatype Event = Begins(req: Request) | Finishes(k: nat, series: int, samples: int, took: real, error: Option<string>)

  function BegunBy(run: seq<Event>): seq<Request> {
    if run == [] then []
    else BegunBy(run[..|run| - 1]) + match run[|run| - 1] case Begins(req) => [req] case Finishes(_, _, _, _, _) => []
  }

  /** The requests a run finishes: each once, and only after it has begun. */
  function FinishedBy(run: seq<Event>): seq<Finished> {
    if run == [] then []
    else
      var before, begun := FinishedBy(run[..|run| - 1]), BegunBy(run[..|run| - 1]);
      before + match run[|run| - 1]
               case Begins(_) => []
               case Finishes(k, series, samples, took, error) =>
                 if k < |begun| && !Has(before, k) then [Finished(k, begun[k], series, samples, took, error)] else []
  }

  predicate Has(log: seq<Finished>, place: nat) {
    exists f <- log :: f.place == place
  }

  lemma {:induction false} RunNext(run: seq<Event>, n: nat)
    requires n < |run|
    ensures var begun, before := BegunBy(run[..n]), FinishedBy(run[..n]);
            match run[n]
            case Begins(req) => BegunBy(run[..n + 1]) == begun + [req] && FinishedBy(run[..n + 1]) == before
            case Finishes(k, series, samples, took, error) =>
              && BegunBy(run[..n + 1]) == begun
              && FinishedBy(run[..n + 1]) == if k < |begun| && !Has(before, k) then before
                  + [Finished(k, begun[k], series, samples, took, error)] else before
  {
    assert run[..n + 1][..n] == run[..n];
  }

  /** Every run of the recorder, whatever the interleaving, reports what its finished requests amount to. */
  method Run(configured: seq<Group>, run: seq<Event>) returns (s: Report, ghost book: Book)
    requires forall i, j :: 0 <= i < j < |configured| ==> configured[i].ordinal != configured[j].ordinal
    ensures Describes(book, configured, FinishedBy(run)) && DistinctPlaces(FinishedBy(run)) && s == ReportOf(book)
    ensures forall b :: Describes(b, configured, FinishedBy(run)) ==> s == ReportOf(b)
  {
    hide Recorder.Valid, Describes, DistinctPlaces, FinishedBy, BegunBy;
    var r := new Recorder(configured);
    var entries: seq<Entry> := [];
    RunStart(run);
    for n := 0 to |run|
      invariant fresh(r) && r.Valid() && r.snapshot == configured && r.log == FinishedBy(run[..n])
      invariant |entries| == r.begun == |BegunBy(run[..n])|
      invariant forall k :: 0 <= k < |entries| ==> fresh(entries[k]) && InFlight(entries[k], r, k, BegunBy(run[..n])[k])
    {
      RunNext(run, n);
      match run[n]
      case Begins(req) =>
        var e := r.Begin(req);
        entries := entries + [e];
      case Finishes(k, series, samples, took, error) =>
        if k < |entries| {
          entries[k].Finish(series, samples, took, error);
        }
    }
    assert run[..|run|] == run;
    RecorderTells(r);
    book := r.State();
    s := r.Stats();
    forall b | Describes(b, configured, FinishedBy(run)) ensures s == ReportOf(b) {
      FinishOrderInvisible(book, b, configured, FinishedBy(run), FinishedBy(run));
    }
  }

  lemma {:induction false} RunStart(run: seq<Event>)
    ensures BegunBy(run[..0]) == [] && FinishedBy(run[..0]) == []
  {
  }

  lemma {:induction false} RecorderTells(r: Recorder)
    requires r.Valid()
    ensures Describes(r.State(), r.snapshot, r.log) && DistinctPlaces(r.log)
  {
  }

  ghost predicate InFlight(e: Entry, r: Recorder, k: nat, req: Request)
    reads e, r
  {
    e.r == r && e.place == k && e.req == req && (e.done <==> Has(r.log, k))
  }

  /** Two runs that finish the same requests, with the same outcomes, report the same, however they interleave. */
  lemma {:induction false} InterleavingInvisible(configured: seq<Group>, run1: seq<Event>, run2: seq<Event>, x: Book,
      y: Book)
    requires Describes(x, configured, FinishedBy(run1)) && DistinctPlaces(FinishedBy(run1))
    requires Describes(y, configured, FinishedBy(run2)) && DistinctPlaces(FinishedBy(run2))
    requires multiset(FinishedBy(run1)) == multiset(FinishedBy(run2))
    ensures ReportOf(x) == ReportOf(y)
  {
    hide Describes, DistinctPlaces, FinishedBy;
    FinishOrderInvisible(x, y, configured, FinishedBy(run1), FinishedBy(run2));
  }

  // --- what a report says ------------------------------------------------------------------

  /** The finished requests of a group. */
  function OfGroup(log: seq<Finished>, ordinal: int): seq<Finished> {
    if log == [] then []
    else OfGroup(log[..|log| - 1], ordinal) + if log[|log| - 1].req.ordinal == ordinal then [log[|log| - 1]] else []
  }

  function Sum(xs: seq<int>): int {
    if xs == [] then 0 else Sum(xs[..|xs| - 1]) + xs[|xs| - 1]
  }

  function Total(xs: seq<real>): real {
    if xs == [] then 0.0 else Total(xs[..|xs| - 1]) + xs[|xs| - 1]
  }

  /** The totals of some requests, each field by itself. */
  predicate AddsUp(t: Totals, g: seq<Finished>) {
    && t.requests == |g|
    && t.errors == Sum(seq(|g|, i requires 0 <= i < |g| => if g[i].error.Some? then 1 else 0))
    && t.series == Sum(seq(|g|, i requires 0 <= i < |g| => g[i].series))
    && t.samples == Sum(seq(|g|, i requires 0 <= i < |g| => g[i].samples))
    && t.duration == Total(seq(|g|, i requires 0 <= i < |g| => g[i].took))
  }

  lemma {:induction false} SumNext(xs: seq<int>, x: int)
    ensures Sum(xs + [x]) == Sum(xs) + x
  {
    assert (xs + [x])[..|xs|] == xs;
  }

  lemma {:induction false} TotalNext(xs: seq<real>, x: real)
    ensures Total(xs + [x]) == Total(xs) + x
  {
    assert (xs + [x])[..|xs|] == xs;
  }

  lemma {:induction false} AddsUpNext(t: Totals, g: seq<Finished>, f: Finished)
    requires AddsUp(t, g)
    ensures AddsUp(Plus(t, Own(f, f.req.ordinal)), g + [f])
  {
    hide Sum, Total;
    var h := g + [f];
    SumNext(seq(|g|, i requires 0 <= i < |g| => if g[i].error.Some? then 1 else 0), if f.error.Some? then 1 else 0);
    assert seq(|h|, i requires 0 <= i < |h| => if h[i].error.Some? then 1 else 0)
        == seq(|g|, i requires 0 <= i < |g| => if g[i].error.Some? then 1 else 0) + [if f.error.Some? then 1 else 0];
    SumNext(seq(|g|, i requires 0 <= i < |g| => g[i].series), f.series);
    assert seq(|h|, i requires 0 <= i < |h| => h[i].series)
        == seq(|g|, i requires 0 <= i < |g| => g[i].series) + [f.series];
    SumNext(seq(|g|, i requires 0 <= i < |g| => g[i].samples), f.samples);
    assert seq(|h|, i requires 0 <= i < |h| => h[i].samples)
        == seq(|g|, i requires 0 <= i < |g| => g[i].samples) + [f.samples];
    TotalNext(seq(|g|, i requires 0 <= i < |g| => g[i].took), f.took);
    assert seq(|h|, i requires 0 <= i < |h| => h[i].took)
        == seq(|g|, i requires 0 <= i < |g| => g[i].took) + [f.took];
  }

  lemma {:induction false} TotalsAddUp(log: seq<Finished>, ordinal: int)
    ensures AddsUp(TotalsOf(log, ordinal), OfGroup(log, ordinal))
  {
    hide AddsUp, Plus;
    if log == [] {
      NothingAddsUp();
    } else {
      var front, f := log[..|log| - 1], log[|log| - 1];
      TotalsAddUp(front, ordinal);
      if f.req.ordinal == ordinal {
        AddsUpNext(TotalsOf(front, ordinal), OfGroup(front, ordinal), f);
      } else {
        PlusNothing(TotalsOf(front, ordinal));
        assert OfGroup(log, ordinal) == OfGroup(front, ordinal);
      }
    }
  }

  lemma {:induction false} NothingAddsUp()
    ensures AddsUp(NOTHING, [])
  {
  }

  predicate HasRow(groups: seq<Row>, ordinal: int) {
    exists r <- groups :: r.ordinal == ordinal
  }

  /**
   * The groups of a report: those configured and those asked, by ordinal, each under its configured name with the sums
   * over its own finished requests.
   */
  lemma {:induction false} GroupsSay(b: Book, snapshot: seq<Group>, log: seq<Finished>)
    requires Describes(b, snapshot, log)
    requires forall i, j :: 0 <= i < j < |snapshot| ==> snapshot[i].ordinal != snapshot[j].ordinal
    ensures var groups := ReportOf(b).groups;
            && (forall i, j :: 0 <= i < j < |groups| ==> groups[i].ordinal < groups[j].ordinal)
            && (forall r <- groups :: AddsUp(r.totals, OfGroup(log, r.ordinal)))
            && (forall r <- groups, g <- snapshot :: g.ordinal == r.ordinal ==> g.name == r.name)
            && (forall g <- snapshot :: HasRow(groups, g.ordinal))
            && (forall f <- log :: HasRow(groups, f.req.ordinal))
            && (forall r <- groups ::
                  (exists g <- snapshot :: g.ordinal == r.ordinal) || (exists f <- log :: f.req.ordinal == r.ordinal))
  {
    hide TotalsOf, NameOf, AddsUp, OfGroup, Sorting.StableSort, RequestsTell, Unlisted, Somes;
    RowsDistinct(b);
    Sorting.StableSortStrict(RowOrdinal, b.rows);
    Sorting.StableSortMembers(RowOrdinal, b.rows);
    var groups := ReportOf(b).groups;
    assert forall i :: 0 <= i < |groups| ==> RowOrdinal(groups[i]) == groups[i].ordinal;
    forall r <- groups
      ensures AddsUp(r.totals, OfGroup(log, r.ordinal)) && Known(snapshot, log, r.ordinal)
      ensures forall g <- snapshot :: g.ordinal == r.ordinal ==> g.name == r.name
    {
      var i :| 0 <= i < |b.rows| && b.rows[i] == r;
      assert InIndex(r.ordinal, b.byOrdinal, i);
      TotalsAddUp(log, r.ordinal);
      forall g <- snapshot | g.ordinal == r.ordinal ensures g.name == r.name {
        NameFound(snapshot, g);
      }
    }
    forall o | Known(snapshot, log, o) ensures HasRow(groups, o) {
      assert b.rows[b.byOrdinal[o]] in groups;
    }
    assert forall g <- snapshot :: Known(snapshot, log, g.ordinal);
    assert forall f <- log :: Known(snapshot, log, f.req.ordinal);
  }

  predicate InBeginOrder(log: seq<Finished>) {
    forall i, j :: 0 <= i < j < |log| ==> log[i].place < log[j].place
  }

  /** How many requests of a log have a place before m. */
  function Earlier(log: seq<Finished>, m: nat): nat {
    if log == [] then 0 else Earlier(log[..|log| - 1], m) + if log[|log| - 1].place < m then 1 else 0
  }

  lemma {:induction false} EarlierIs(log: seq<Finished>, m: nat)
    requires InBeginOrder(log)
    ensures Earlier(log, m) <= |log|
    ensures forall i :: 0 <= i < |log| ==> (log[i].place < m <==> i < Earlier(log, m))
  {
    if log != [] {
      EarlierIs(log[..|log| - 1], m);
    }
  }

  /** A listing says what its request was and what came back. */
  predicate Lists(l: Listing, snapshot: seq<Group>, f: Finished) {
    && l.details == f.req.details && l.took == f.took && l.series == f.series && l.samples == f.samples
    && l.error == f.error && forall g <- snapshot :: g.ordinal == f.req.ordinal ==> l.group == g.name
  }

  lemma {:induction false} ListingSays(snapshot: seq<Group>, f: Finished)
    requires forall i, j :: 0 <= i < j < |snapshot| ==> snapshot[i].ordinal != snapshot[j].ordinal
    ensures Lists(ListingOf(snapshot, f), snapshot, f)
  {
    forall g <- snapshot | g.ordinal == f.req.ordinal ensures NameOf(snapshot, f.req.ordinal) == g.name {
      NameFound(snapshot, g);
    }
  }

  lemma {:induction false} EarlierStep(log: seq<Finished>, m: nat)
    requires InBeginOrder(log) && m > 0
    ensures var k := Earlier(log, m - 1);
            && k <= |log|
            && Earlier(log, m) == k + (if k < |log| && log[k].place == m - 1 then 1 else 0)
            && ((k < |log| && log[k].place == m - 1) || forall i :: 0 <= i < |log| ==> log[i].place != m - 1)
  {
    hide Earlier;
    EarlierIs(log, m);
    EarlierIs(log, m - 1);
    var k, n := Earlier(log, m - 1), Earlier(log, m);
    assert n < |log| ==> log[n].place >= m;
    assert k < |log| ==> log[k].place >= m - 1;
    assert k + 1 < |log| ==> log[k].place < log[k + 1].place;
  }

  /** The first m places of the request list hold the listings of the requests that began there, in that order. */
  lemma {:induction false} ListedInOrder(requests: seq<Option<Listing>>, snapshot: seq<Group>, log: seq<Finished>,
      m: nat)
    requires m <= |requests| && RequestsTell(requests, snapshot, log) && InBeginOrder(log)
    ensures |Somes(requests[..m])| == Earlier(log, m) <= |log|
    ensures forall k :: 0 <= k < Earlier(log, m) ==> Somes(requests[..m])[k] == ListingOf(snapshot, log[k])
  {
    hide ListedAt, ListingOf, Earlier;
    EarlierIs(log, m);
    if m == 0 {
      assert requests[..m] == [];
      assert Earlier(log, m) > 0 ==> log[0].place < m;
    } else {
      ListedInOrder(requests, snapshot, log, m - 1);
      assert requests[..m][..m - 1] == requests[..m - 1];
      EarlierStep(log, m);
      ListedThere(snapshot, log, m - 1, Earlier(log, m - 1));
    }
  }

  lemma {:induction false} ListedThere(snapshot: seq<Group>, log: seq<Finished>, place: nat, k: nat)
    requires InBeginOrder(log) && place < MAX_REQUESTS
    requires (k < |log| && log[k].place == place) || forall i :: 0 <= i < |log| ==> log[i].place != place
    ensures ListedAt(snapshot, log, place)
         == if k < |log| && log[k].place == place then Some(ListingOf(snapshot, log[k])) else None
  {
    hide ListedAt, ListingOf;
    if k < |log| && log[k].place == place {
      assert log[k] in log;
      ListedIs(snapshot, log, log[k]);
    } else {
      ListedFrom(snapshot, log, place);
    }
  }

  /**
   * The requests of a report: those that began among the first hundred, in the order they began, each listed with its
   * own details and outcome; the others are counted.  Any order of finishing gives the report of the begin order.
   */
  lemma {:induction false} RequestsSay(b: Book, snapshot: seq<Group>, log: seq<Finished>)
    requires Describes(b, snapshot, log) && InBeginOrder(log)
    requires forall i, j :: 0 <= i < j < |snapshot| ==> snapshot[i].ordinal != snapshot[j].ordinal
    ensures var r := ReportOf(b);
            && |r.requests| + r.truncated == |log|
            && (forall k :: 0 <= k < |log| ==> (log[k].place < 100 <==> k < |r.requests|))
            && (forall k :: 0 <= k < |r.requests| ==> Lists(r.requests[k], snapshot, log[k]))
  {
    hide ListedAt, ListingOf, TotalsOf, NameOf, Lists, Indexed, RowsTell, Known, Somes;
    Conservation(b, snapshot, log);
    var n := |b.requests|;
    assert b.requests[..n] == b.requests;
    ListedInOrder(b.requests, snapshot, log, n);
    EarlierIs(log, n);
    forall k | 0 <= k < |log| && log[k].place < 100 ensures k < Earlier(log, n) {
      assert log[k] in log;
      ListedIs(snapshot, log, log[k]);
    }
    forall k | 0 <= k < Earlier(log, n) ensures Lists(ListingOf(snapshot, log[k]), snapshot, log[k]) {
      ListingSays(snapshot, log[k]);
    }
  }
}
