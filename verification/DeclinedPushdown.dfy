/**
 * A declined pushdown is invisible (pkg/proxystorage/node_replacer.go): the visit clears offsets
 * and tightens lookbacks in the shared tree before it knows whether it can answer, and when it
 * cannot, everything below the node is as before.
 */
module DeclinedPushdown {
  import opened Wrappers
  import opened RequestShift

  datatype Op = Sum | Min | Max | Topk | Bottomk | Group | Avg | Count | CountValues(literalLabel: bool) | Holistic

  /** perSeries: a call the groups can answer by themselves; sorts: one that needs the whole result again. */
  datatype Kind =
    | Selects | Matrix | Calls(perSeries: bool, sorts: bool) | Aggregates | Divides | Compares | Subqueries | Other

  class VectorSelector {
    var originalOffset: int
    var lookbackDelta: int
    const timestamp: Option<int>
    /** It holds the answer of a pushed-down request. */
    var fetched: bool

    constructor (originalOffset: int, lookbackDelta: int, timestamp: Option<int>, fetched: bool)
      ensures this.originalOffset == originalOffset && this.lookbackDelta == lookbackDelta
      ensures this.timestamp == timestamp && this.fetched == fetched
    {
      this.originalOffset, this.lookbackDelta, this.timestamp, this.fetched := originalOffset, lookbackDelta,
          timestamp, fetched;
    }
  }

  class Node {
    const kind: Kind
    const selector: VectorSelector?
    var op: Op
    var children: seq<Node>
    /** The nodes of the tree below, with the node itself. */
    ghost const repr: set<Node>

    constructor (kind: Kind, selector: VectorSelector?, op: Op, children: seq<Node>, ghost repr: set<Node>)
      ensures this.kind == kind && this.selector == selector && this.op == op && this.children == children
          && this.repr == repr + {this}
    {
      this.kind, this.selector, this.op, this.children := kind, selector, op, children;
      this.repr := repr + {this};
    }

    /** A tree: no node is reached twice. */
    ghost predicate Valid()
      reads this, repr
      decreases repr
    {
      && this in repr && repr == {this} + Below(children, |children|) && this !in Below(children, |children|)
      && (kind.Selects? <==> selector != null)
      && (kind.Aggregates? || kind.Subqueries? ==> |children| == 1)
      && (forall i :: 0 <= i < |children| ==> children[i] in repr && children[i].repr < repr && children[i].Valid())
      && (forall i :: 0 <= i < |children| ==> SharesNothing(children, i))
    }
  }

  /** The nodes of the first n of these trees. */
  ghost function Below(children: seq<Node>, n: nat): set<Node>
    requires n <= |children|
  {
    if n == 0 then {} else Below(children, n - 1) + children[n - 1].repr
  }

  /** The i-th tree has no node of those before it. */
  ghost predicate SharesNothing(children: seq<Node>, i: nat)
    requires i < |children|
  {
    Below(children, i) !! children[i].repr
  }

  ghost function SelectorsIn(nodes: set<Node>): set<VectorSelector> {
    set x | x in nodes && x.selector != null :: x.selector
  }

  /** Every selector belongs to one node. */
  ghost predicate Unshared(nodes: set<Node>) {
    forall x, y :: x in nodes && y in nodes && x != y && x.selector != null ==> x.selector != y.selector
  }

  /** What the groups answered to the request: histograms in it lose detail; or it failed. */
  datatype Answer = Answer(lossy: bool, failed: bool)

  /** What prepare finds below the node. */
  datatype Guards = Guards(stop: bool, timing: Timing)

  datatype Outcome = Declined | Failed | Replaced(node: Node)

  /** One visit of a node. */
  class NodeReplacer {
    const interval: int
    const groups: nat
    const parentIsMatrix: bool
    var offset: int
    var reqOffset: int
    var synthOffset: int
    var keepOffsets: bool
    /** The offsets removeOffset cleared. */
    var offsets: map<VectorSelector, int>

    constructor (interval: int, groups: nat, parentIsMatrix: bool)
      ensures offsets == map[] && this.interval == interval && this.groups == groups
          && this.parentIsMatrix == parentIsMatrix
    {
      this.interval, this.groups, this.parentIsMatrix := interval, groups, parentIsMatrix;
      offset, reqOffset, synthOffset, keepOffsets, offsets := 0, 0, 0, false, map[];
    }

    /** How the request is moved and its answer read; RequestShift has what follows for its values. */
    method Prepare(guards: Guards) returns (stop: bool)
      modifies this
      ensures stop == guards.stop && offsets == old(offsets)
      ensures !stop ==> offset == guards.timing.offset && keepOffsets == guards.timing.Keeps()
      ensures !stop ==> reqOffset == synthOffset == guards.timing.Shift()
    {
      if guards.stop {
        return true;
      }
      offset := guards.timing.offset;
      keepOffsets := guards.timing.at.Some? || (offset != 0 && guards.timing.readsClock);
      reqOffset := offset;
      synthOffset := offset;
      if keepOffsets {
        reqOffset := 0;
        synthOffset := 0;
      }
      return false;
    }

    /** What restoring the remembered offsets makes of these selectors: what they were. */
    twostate predicate Recoverable(selectors: set<VectorSelector>)
      reads this, selectors
    {
      forall s <- selectors ::
        && s.lookbackDelta == old(s.lookbackDelta) && s.fetched == old(s.fetched)
        && (if s in offsets then offsets[s] else s.originalOffset) == old(s.originalOffset)
    }

    /** Clears the offset of every selector below n and remembers it, unless the offsets stay in the query. */
    method RemoveOffset(n: Node)
      requires n.Valid() && Unshared(n.repr) && offsets == map[]
      modifies this`offsets, SelectorsIn(n.repr)
      ensures offsets.Keys <= SelectorsIn(n.repr) && Recoverable(SelectorsIn(n.repr))
      ensures !keepOffsets ==> forall s <- SelectorsIn(n.repr) :: s.originalOffset == 0
    {
      hide Node.Valid, Unshared, Below, SelectorsIn;
      if keepOffsets {
        return;
      }
      var list := Selectors(n);
      for i := 0 to |list|
        invariant offsets.Keys <= Elements(list) == SelectorsIn(n.repr) && Recoverable(SelectorsIn(n.repr))
        invariant forall s :: s in offsets <==> s in list[..i]
        invariant forall s <- offsets :: s.originalOffset == 0
      {
        assert list[i] !in list[..i] && list[i] in Elements(list);
        offsets := offsets[list[i] := list[i].originalOffset];
        list[i].originalOffset := 0;
      }
    }

    method RestoreOffset()
      modifies offsets.Keys
      ensures forall s <- offsets :: s.originalOffset == offsets[s]
      ensures forall s <- offsets :: s.lookbackDelta == old(s.lookbackDelta) && s.fetched == old(s.fetched)
    {
      var keys := offsets.Keys;
      while keys != {}
        invariant keys <= offsets.Keys
        invariant forall s <- offsets :: s !in keys ==> s.originalOffset == offsets[s]
        invariant forall s <- offsets :: s.lookbackDelta == old(s.lookbackDelta) && s.fetched == old(s.fetched)
      {
        assert (forall s :: s !in keys) ==> keys == {};
        var s :| s in keys;
        s.originalOffset := offsets[s];
        keys := keys - {s};
      }
    }

    /** A node that stands for fetched data. */
    ghost predicate Stands(node: Node)
      reads this, node, node.selector
    {
      && node.kind.Selects? && node.selector != null && node.selector.fetched
          && node.selector.originalOffset == synthOffset
      && node.selector.lookbackDelta == if interval > 0 then interval - 1 else 0
    }

    method FetchedNode() returns (node: Node)
      ensures fresh(node) && fresh(node.selector) && Stands(node)
    {
      var s := new VectorSelector(synthOffset, if interval > 0 then interval - 1 else 0, None, true);
      node := new Node(Selects, s, Sum, [], {});
    }

    /** A sum over a count. */
    ghost predicate Quotient(r: Node)
      reads r, r.children
    {
      && r.kind.Divides? && |r.children| == 2 && r.children[0].kind.Aggregates? && r.children[1].kind.Aggregates?
      && r.children[0].op == Sum && r.children[1].op == Count
    }

    /** Each aggregation gets a tree of its own that reads as the argument did. */
    method SumOverCount(arg: Node) returns (r: Node)
      requires arg.Valid()
      ensures fresh(r.repr) && r in r.repr && Quotient(r)
      ensures forall c <- r.children ::
          |c.children| == 1 && c.children[0].Valid() && TextOf(c.children[0]) == old(TextOf(arg))
      ensures r.children[0].children[0].repr !! r.children[1].children[0].repr
    {
      hide Node.Valid, Below, TextOf, SelectorsIn;
      AllocatedSelectors(arg);
      var left := Clone(arg);
      var right := Clone(arg);
      var sum := new Node(Aggregates, null, Sum, [left], left.repr);
      var count := new Node(Aggregates, null, Count, [right], right.repr);
      r := new Node(Divides, null, Sum, [sum, count], sum.repr + count.repr);
    }

    /** What an aggregation becomes: partials combined again, or for a mean of several groups a sum over a count. */
    ghost predicate Aggregated(op: Op, n: Node, r: Node)
      reads this, n, r, r.children, set c | c in r.children && c.selector != null :: c.selector
    {
      if op.Avg? && groups != 1 then
        Quotient(r)
      else
        && (op.CountValues? || r == n) && !op.Holistic?
        && r.op == (if op.Count? || op.CountValues? then Sum else op)
        && |r.children| == 1 && Stands(r.children[0])
    }

    method ReplaceAggregate(n: Node, answer: Answer) returns (r: Outcome)
      requires n.Valid() && Unshared(n.repr) && n.kind.Aggregates? && offsets == map[]
      modifies this`offsets, n, SelectorsIn(n.repr)
      ensures offsets.Keys <= SelectorsIn(n.repr)
      ensures !r.Replaced? ==> Recoverable(SelectorsIn(n.repr)) && n.op == old(n.op) && n.children == old(n.children)
      ensures r.Replaced? ==> Aggregated(old(n.op), n, r.node)
      ensures r.Replaced? && old(n.op).Avg? && groups != 1 ==>
        forall c <- r.node.children ::
            |c.children| == 1 && c.children[0].Valid() && TextOf(c.children[0]) == old(TextOf(n.children[0]))
    {
      var arg := n.children[0];
      if arg.selector != null && arg.selector.fetched {
        return Declined;
      }
      match n.op {
      case Sum | Min | Max | Topk | Bottomk | Group =>
        RemoveOffset(n);
        if answer.lossy {
          return Declined;
        }
      case Avg =>
        if groups != 1 {
          var quotient := SumOverCount(arg);
          return Replaced(quotient);
        }
        RemoveOffset(n);
        if answer.lossy {
          return Declined;
        }
      case Count =>
        RemoveOffset(n);
        if answer.lossy {
          return Declined;
        }
        n.op := Sum;
      case CountValues(literalLabel) =>
        if !literalLabel {
          return Declined;
        }
        RemoveOffset(n);
        if answer.lossy {
          return Declined;
        }
        var counted := FetchedNode();
        var total := new Node(Aggregates, null, Sum, [counted], counted.repr);
        assert total.children[0] == counted;
        return Replaced(total);
      case Holistic =>
        return Declined;
      }
      var fetched := FetchedNode();
      n.children := [fetched];
      return Replaced(n);
    }

    method ReplaceCall(n: Node, answer: Answer) returns (r: Outcome)
      requires n.Valid() && Unshared(n.repr) && n.kind.Calls? && offsets == map[]
      modifies this`offsets, SelectorsIn(n.repr)
      ensures offsets.Keys <= SelectorsIn(n.repr)
      ensures !r.Replaced? ==> Recoverable(SelectorsIn(n.repr))
      ensures r.Replaced? <==> n.kind.perSeries && !answer.lossy
      ensures r.Replaced? && !n.kind.sorts ==> Stands(r.node)
      ensures r.Replaced? && n.kind.sorts ==>
          r.node.kind == n.kind && |r.node.children| == 1 && Stands(r.node.children[0])
    {
      if !n.kind.perSeries {
        return Declined;
      }
      RemoveOffset(n);
      if answer.lossy {
        return Declined;
      }
      var fetched := FetchedNode();
      if n.kind.sorts {
        var again := new Node(n.kind, null, Sum, [fetched], fetched.repr);
        return Replaced(again);
      }
      return Replaced(fetched);
    }

    method ReplaceVectorSelector(n: Node, answer: Answer) returns (r: Outcome)
      requires n.Valid() && Unshared(n.repr) && n.kind.Selects? && offsets == map[]
      modifies this`offsets, SelectorsIn(n.repr)
      ensures offsets.Keys <= SelectorsIn(n.repr)
      ensures r.Declined? ==> Recoverable(SelectorsIn(n.repr))
      ensures r.Replaced? && n.selector.timestamp.Some? ==> Stands(r.node)
      ensures r.Replaced? && n.selector.timestamp.None? ==>
        && r.node == n && n.selector.fetched && n.selector.originalOffset == offset
        && n.selector.lookbackDelta == if interval > 0 then interval - 1 else old(n.selector.lookbackDelta)
    {
      var s := n.selector;
      assert s in SelectorsIn(n.repr);
      if s.fetched || parentIsMatrix {
        return Declined;
      }
      RemoveOffset(n);
      var origLookback := s.lookbackDelta;
      if interval > 0 {
        s.lookbackDelta := interval - 1;
      }
      if answer.failed {
        return Failed;
      }
      if answer.lossy {
        s.lookbackDelta := origLookback;
        return Declined;
      }
      if s.timestamp.Some? {
        var fetched := FetchedNode();
        return Replaced(fetched);
      }
      s.originalOffset := offset;
      s.fetched := true;
      return Replaced(n);
    }

    /** A comparison or operator: only a selector against a literal goes down. */
    method ReplaceBinary(n: Node, answer: Answer, literal: Option<nat>) returns (r: Outcome)
      requires n.Valid() && Unshared(n.repr) && n.kind.Compares? && offsets == map[]
      requires literal.Some? ==> |n.children| == 2 && literal.value < 2
      modifies this`offsets, SelectorsIn(n.repr)
      ensures offsets.Keys <= SelectorsIn(n.repr)
      ensures r.Declined? ==> Recoverable(SelectorsIn(n.repr))
      ensures r.Replaced? ==> literal.Some? && old(n.children)[1 - literal.value].selector != null && Stands(r.node)
    {
      hide Node.Valid, Below;
      if literal.None? {
        return Declined;
      }
      var other := n.children[1 - literal.value];
      ChildValid(n, 1 - literal.value);
      if other.selector == null {
        return Declined;
      }
      var s := other.selector;
      assert s in SelectorsIn(n.repr);
      RemoveOffset(n);
      var origLookback := s.lookbackDelta;
      if interval > 0 {
        s.lookbackDelta := interval - 1;
      }
      if answer.failed {
        return Failed;
      }
      if answer.lossy {
        s.lookbackDelta := origLookback;
        return Declined;
      }
      var fetched := FetchedNode();
      return Replaced(fetched);
    }

    /**
     * The switch over the node types other than subqueries, with the offsets restored when it comes back empty-handed.
     */
    method Replace(n: Node, answer: Answer, literal: Option<nat>) returns (r: Outcome)
      requires n.Valid() && Unshared(n.repr) && !n.kind.Subqueries? && offsets == map[]
      requires n.kind.Compares? && literal.Some? ==> |n.children| == 2 && literal.value < 2
      modifies this`offsets, n, SelectorsIn(n.repr)
      ensures r.Declined? ==> AsBefore(n)
    {
      match n.kind {
      case Aggregates => r := ReplaceAggregate(n, answer);
      case Calls(_, _) => r := ReplaceCall(n, answer);
      case Selects => r := ReplaceVectorSelector(n, answer);
      case Compares => r := ReplaceBinary(n, answer, literal);
      case Matrix => r := Declined;
      case Divides => r := Declined;
      case Other => r := Declined;
      }
      if !r.Replaced? {
        RestoreOffset();
      }
    }
  }

  /**
   * A tree written out: its selectors' offsets and @ times are part of the query, lookbacks and fetched data are not.
   */
  datatype Text = Text(kind: Kind, op: Op, selector: Option<Written>, below: seq<Text>)

  datatype Written = Written(originalOffset: int, timestamp: Option<int>)

  predicate WellFormed(t: Text) {
    && (t.kind.Selects? <==> t.selector.Some?)
    && (t.kind.Aggregates? || t.kind.Subqueries? ==> |t.below| == 1)
    && forall b <- t.below :: WellFormed(b)
  }

  function WrittenOf(s: VectorSelector?): Option<Written>
    reads s
  {
    if s == null then None else Some(Written(s.originalOffset, s.timestamp))
  }

  function TextOf(n: Node): (t: Text)
    requires n.Valid()
    reads n.repr, SelectorsIn(n.repr)
    decreases n.repr, 0
  {
    ChildrenValid(n, |n.children|);
    SelectorsWithin(Below(n.children, |n.children|), n.repr);
    Text(n.kind, n.op, WrittenOf(n.selector), TextsOf(n.children, |n.children|))
  }

  ghost predicate AllValid(children: seq<Node>, k: nat)
    requires k <= |children|
    reads Below(children, k)
  {
    k == 0 || (AllValid(children, k - 1) && children[k - 1] in children[k - 1].repr && children[k - 1].Valid())
  }

  /** The first k of these trees written out. */
  function TextsOf(children: seq<Node>, k: nat): (r: seq<Text>)
    requires k <= |children| && AllValid(children, k)
    reads Below(children, k), SelectorsIn(Below(children, k))
    ensures |r| == k
    decreases Below(children, k), k + 1
  {
    if k == 0 then []
    else
      SelectorsWithin(Below(children, k - 1), Below(children, k));
      SelectorsWithin(children[k - 1].repr, Below(children, k));
      TextsOf(children, k - 1) + [TextOf(children[k - 1])]
  }

  lemma {:induction false} SelectorsWithin(a: set<Node>, b: set<Node>)
    requires a <= b
    ensures SelectorsIn(a) <= SelectorsIn(b)
  {
  }

  lemma {:induction false} ChildrenValid(n: Node, k: nat)
    requires n.Valid() && k <= |n.children|
    ensures AllValid(n.children, k)
  {
    hide Node.Valid;
    if k > 0 {
      ChildrenValid(n, k - 1);
      ChildValid(n, k - 1);
      InItsOwn(n.children[k - 1]);
    }
  }

  lemma {:induction false} InItsOwn(n: Node)
    requires n.Valid()
    ensures n in n.repr
  {
  }

  /** Whatever is appended to the first k trees. */
  lemma {:induction false} Prefix(a: seq<Node>, b: seq<Node>, k: nat)
    requires k <= |a| <= |b| && forall i :: 0 <= i < k ==> a[i] == b[i]
    ensures Below(a, k) == Below(b, k) && (AllValid(a, k) <==> AllValid(b, k))
    ensures AllValid(a, k) ==> TextsOf(a, k) == TextsOf(b, k)
  {
    hide Node.Valid, TextOf;
    if k > 0 {
      Prefix(a, b, k - 1);
    }
  }

  lemma {:induction false} TextWellFormed(n: Node)
    requires n.Valid()
    ensures WellFormed(TextOf(n))
    decreases n.repr, 0
  {
    ChildrenValid(n, |n.children|);
    SelectorsWithin(Below(n.children, |n.children|), n.repr);
    TextsWellFormed(n.children, |n.children|);
  }

  lemma {:induction false} TextsWellFormed(children: seq<Node>, k: nat)
    requires k <= |children| && AllValid(children, k)
    ensures forall t <- TextsOf(children, k) :: WellFormed(t)
    decreases Below(children, k), k + 1
  {
    hide Node.Valid, TextOf;
    if k > 0 {
      TextsWellFormed(children, k - 1);
      TextWellFormed(children[k - 1]);
    }
  }

  /** The first k trees share no node. */
  ghost predicate Grove(children: seq<Node>, k: nat)
    requires k <= |children|
  {
    forall i :: 0 <= i < k ==> children[i] in children[i].repr && SharesNothing(children, i)
  }

  /** The tree a text is read as: all nodes new, nothing fetched. */
  method Parse(t: Text) returns (c: Node)
    requires WellFormed(t)
    ensures c.Valid() && fresh(c.repr) && fresh(SelectorsIn(c.repr)) && TextOf(c) == t
    ensures allocated(c.repr) && allocated(SelectorsIn(c.repr))
    ensures forall s <- SelectorsIn(c.repr) :: !s.fetched
    decreases t, 0
  {
    hide Node.Valid, Below, TextOf, TextsOf, AllValid, SelectorsIn;
    var children := ParseAll(t.below, |t.below|);
    var s: VectorSelector? := null;
    if t.selector.Some? {
      s := new VectorSelector(t.selector.value.originalOffset, 0, t.selector.value.timestamp, false);
    }
    ghost var below := Below(children, |children|);
    c := new Node(t.kind, s, t.op, children, below);
    JoinSelectors(below, {c});
    OneSelector(c);
    Assembled(c, t, below);
  }

  lemma {:induction false} OneSelector(c: Node)
    ensures SelectorsIn({c}) == if c.selector == null then {} else {c.selector}
  {
    if c.selector != null {
      assert c in {c};
    }
  }

  lemma {:induction false} Assembled(c: Node, t: Text, below: set<Node>)
    requires WellFormed(t) && c.kind == t.kind && c.op == t.op && |c.children| == |t.below|
        && WrittenOf(c.selector) == t.selector
    requires c.repr == below + {c} && below == Below(c.children, |c.children|) && c !in below
    requires AllValid(c.children, |c.children|) && Grove(c.children, |c.children|)
        && TextsOf(c.children, |c.children|) == t.below
    ensures c.Valid() && TextOf(c) == t
  {
    hide TextsOf, Below, AllValid;
    forall i | 0 <= i < |c.children|
      ensures c.children[i].Valid() && c.children[i] in c.repr && c.children[i].repr < c.repr
          && SharesNothing(c.children, i)
    {
      InGrove(c.children, |c.children|, i);
    }
  }

  lemma {:induction false} InGrove(children: seq<Node>, k: nat, i: nat)
    requires i < k <= |children| && AllValid(children, k) && Grove(children, k)
    ensures children[i].Valid() && children[i] in children[i].repr && children[i].repr <= Below(children, k)
  {
    hide Node.Valid;
    if i < k - 1 {
      InGrove(children, k - 1, i);
    }
  }

  /** The first k texts, each as a tree of its own. */
  method ParseAll(ts: seq<Text>, k: nat) returns (children: seq<Node>)
    requires k <= |ts| && forall t <- ts :: WellFormed(t)
    ensures |children| == k && AllValid(children, k) && Grove(children, k)
    ensures fresh(Below(children, k)) && fresh(SelectorsIn(Below(children, k)))
    ensures allocated(Below(children, k)) && allocated(SelectorsIn(Below(children, k)))
    ensures TextsOf(children, k) == ts[..k]
    ensures forall s <- SelectorsIn(Below(children, k)) :: !s.fetched
    decreases ts, k
  {
    hide Node.Valid, Below, TextOf, TextsOf, AllValid, SelectorsIn;
    if k == 0 {
      children := [];
      NoneYet();
      return;
    }
    var front := ParseAll(ts, k - 1);
    assert ts[k - 1] in ts;
    var c := Parse(ts[k - 1]);
    children := front + [c];
    OneMore(front, c, k);
    assert ts[..k] == ts[..k - 1] + [ts[k - 1]];
  }

  lemma {:induction false} NoneYet()
    ensures AllValid([], 0) && Below([], 0) == {} && SelectorsIn({}) == {} && TextsOf([], 0) == []
  {
  }

  lemma {:induction false} OneMore(front: seq<Node>, c: Node, k: nat)
    requires 0 < k && |front| == k - 1 && AllValid(front, k - 1) && Grove(front, k - 1)
    requires c.Valid() && Below(front, k - 1) !! c.repr
    ensures var all := front + [c];
            && AllValid(all, k) && Grove(all, k) && Below(all, k) == Below(front, k - 1) + c.repr
            && SelectorsIn(Below(all, k)) == SelectorsIn(Below(front, k - 1)) + SelectorsIn(c.repr)
            && TextsOf(all, k) == TextsOf(front, k - 1) + [TextOf(c)]
  {
    hide TextOf, Node.Valid, AllValid, TextsOf, SelectorsIn, Below, Grove, WellFormed;
    var all := front + [c];
    Prefix(front, all, k - 1);
    InItsOwn(c);
    assert all[k - 1] == c;
    GroveGrows(front, all, k);
    LastTree(all, k);
    LastText(all, k);
    JoinSelectors(Below(front, k - 1), c.repr);
  }

  lemma {:induction false} LastTree(all: seq<Node>, k: nat)
    requires 0 < k <= |all| && AllValid(all, k - 1) && all[k - 1] in all[k - 1].repr && all[k - 1].Valid()
    ensures AllValid(all, k) && Below(all, k) == Below(all, k - 1) + all[k - 1].repr
  {
    hide Node.Valid;
  }

  lemma {:induction false} LastText(all: seq<Node>, k: nat)
    requires 0 < k <= |all| && AllValid(all, k) && AllValid(all, k - 1) && all[k - 1].Valid()
    ensures TextsOf(all, k) == TextsOf(all, k - 1) + [TextOf(all[k - 1])]
  {
    hide TextOf, Node.Valid, SelectorsIn, AllValid, Below, WellFormed;
  }

  lemma {:induction false} GroveGrows(front: seq<Node>, all: seq<Node>, k: nat)
    requires 0 < k == |all| && front == all[..k - 1] && Grove(front, k - 1)
    requires all[k - 1] in all[k - 1].repr && Below(front, k - 1) !! all[k - 1].repr
    ensures Grove(all, k)
  {
    hide AllValid, TextsOf;
    forall i | 0 <= i < k ensures all[i] in all[i].repr && SharesNothing(all, i) {
      Prefix(front, all, i);
    }
  }

  lemma {:induction false} AllocatedSelectors(n: Node)
    ensures allocated(SelectorsIn(n.repr))
  {
  }

  /** CloneExpr: the tree written out and read again. */
  method Clone(n: Node) returns (c: Node)
    requires n.Valid()
    ensures c.Valid() && fresh(c.repr) && allocated(c.repr) && allocated(SelectorsIn(c.repr))
        && TextOf(c) == old(TextOf(n))
    ensures fresh(SelectorsIn(c.repr)) && forall s <- SelectorsIn(c.repr) :: !s.fetched
  {
    var text := TextOf(n);
    TextWellFormed(n);
    c := Parse(text);
  }

  function Elements(list: seq<VectorSelector>): set<VectorSelector> {
    set s | s in list
  }

  /** The selectors below n, each once. */
  method Selectors(n: Node) returns (list: seq<VectorSelector>)
    requires n.Valid() && Unshared(n.repr)
    ensures Elements(list) == SelectorsIn(n.repr)
    ensures forall i, j :: 0 <= i < j < |list| ==> list[i] != list[j]
    decreases n.repr
  {
    hide Unshared, Node.Valid, SelectorsIn;
    list := [];
    var own := n.selector;
    if own != null {
      list := [own];
    }
    OwnSelectors(n);
    for k := 0 to |n.children|
      invariant Elements(list) == SelectorsIn({n} + Below(n.children, k))
      invariant forall i, j :: 0 <= i < j < |list| ==> list[i] != list[j]
    {
      var c := n.children[k];
      ghost var before, after := {n} + Below(n.children, k), {n} + Below(n.children, k + 1);
      ChildFacts(n, k);
      UnsharedWithin(c.repr, n.repr);
      DisjointSelectors(before, c.repr, n.repr);
      JoinSelectors(before, c.repr);
      assert after == before + c.repr;
      var more := Selectors(c);
      ListsJoin(list, more);
      list := list + more;
    }
  }

  lemma {:induction false} ListsJoin(a: seq<VectorSelector>, b: seq<VectorSelector>)
    requires Elements(a) !! Elements(b)
    requires (forall i, j :: 0 <= i < j < |a| ==> a[i] != a[j]) && (forall i, j :: 0 <= i < j < |b| ==> b[i] != b[j])
    ensures Elements(a + b) == Elements(a) + Elements(b)
        && (forall i, j :: 0 <= i < j < |a + b| ==> (a + b)[i] != (a + b)[j])
  {
    assert forall i :: 0 <= i < |a| ==> a[i] in Elements(a);
    assert forall i :: 0 <= i < |b| ==> b[i] in Elements(b);
  }

  lemma {:induction false} OwnSelectors(n: Node)
    requires n.Valid()
    ensures SelectorsIn({n} + Below(n.children, 0)) == if n.selector != null then {n.selector} else {}
    ensures n.repr == {n} + Below(n.children, |n.children|)
  {
    assert {n} + Below(n.children, 0) == {n};
  }

  lemma {:induction false} BelowWithin(n: Node, k: nat)
    requires n.Valid() && k <= |n.children|
    ensures Below(n.children, k) <= n.repr && n !in Below(n.children, k)
  {
    BelowGrows(n, k, |n.children|);
  }

  lemma {:induction false} BelowGrows(n: Node, j: nat, k: nat)
    requires j <= k <= |n.children|
    ensures Below(n.children, j) <= Below(n.children, k)
  {
    if j < k {
      BelowGrows(n, j, k - 1);
    }
  }

  lemma {:induction false} DisjointSelectors(a: set<Node>, b: set<Node>, all: set<Node>)
    requires a !! b && a <= all && b <= all && Unshared(all)
    ensures SelectorsIn(a) !! SelectorsIn(b)
  {
    forall s <- SelectorsIn(a) ensures s !in SelectorsIn(b) {
      var x :| x in a && x.selector == s;
      forall y <- b ensures y.selector != s {
        assert x != y;
      }
    }
  }

  lemma {:induction false} JoinSelectors(a: set<Node>, b: set<Node>)
    ensures SelectorsIn(a + b) == SelectorsIn(a) + SelectorsIn(b)
  {
  }

  /** What Valid says about one child. */
  lemma {:induction false} ChildFacts(n: Node, k: nat)
    requires n.Valid() && k < |n.children|
    ensures n.children[k].Valid() && n.children[k].repr < n.repr && n.children[k] in n.repr && n !in n.children[k].repr
    ensures {n} + Below(n.children, k) <= n.repr && {n} + Below(n.children, k) !! n.children[k].repr
    ensures Below(n.children, k + 1) == Below(n.children, k) + n.children[k].repr
  {
    hide Node.Valid, Below;
    BelowWithin(n, k);
    BelowWithin(n, k + 1);
    BelowNext(n, k);
    ChildValid(n, k);
  }

  lemma {:induction false} BelowNext(n: Node, k: nat)
    requires k < |n.children|
    ensures Below(n.children, k + 1) == Below(n.children, k) + n.children[k].repr
  {
  }

  lemma {:induction false} ChildValid(n: Node, k: nat)
    requires n.Valid() && k < |n.children|
    ensures n.children[k].Valid() && n.children[k].repr < n.repr && n.children[k] in n.repr
        && Below(n.children, k) !! n.children[k].repr
    ensures n in n.repr
  {
    hide Below;
    assert SharesNothing(n.children, k);
  }

  lemma {:induction false} UnsharedWithin(a: set<Node>, all: set<Node>)
    requires a <= all && Unshared(all)
    ensures Unshared(a) && SelectorsIn(a) <= SelectorsIn(all)
  {
  }

  /** Every selector's offset and lookback, every operator and every child pointer below n is what it was. */
  twostate predicate AsBefore(n: Node)
    reads n.repr, SelectorsIn(n.repr)
  {
    && (forall s <- SelectorsIn(n.repr) ::
          s.originalOffset == old(s.originalOffset) && s.lookbackDelta == old(s.lookbackDelta)
              && s.fetched == old(s.fetched))
    && (forall x <- n.repr :: x.op == old(x.op) && x.children == old(x.children))
  }

  // --- the walk ---------------------------------------------------------------------------

  /**
   * One visit, whatever the guards find and the groups answer.  A subquery's own expression is walked as a
   * statement of its own, with some positive step.
   */
  method Visit(n: Node, interval: int, groups: nat, parentIsMatrix: bool) returns (r: Outcome)
    requires n.Valid() && Unshared(n.repr)
    modifies n.repr, SelectorsIn(n.repr)
    ensures r.Declined? ==> AsBefore(n)
    decreases n.repr, 0
  {
    var replacer := new NodeReplacer(interval, groups, parentIsMatrix);
    var guards: Guards := *;
    var stop := replacer.Prepare(guards);
    if stop {
      return Declined;
    }
    if n.kind.Subqueries? {
      r := ReplaceSubquery(n, groups);
    } else {
      var answer: Answer := *;
      var literal: Option<nat> := *;
      if |n.children| != 2 || (literal.Some? && literal.value >= 2) {
        literal := None;
      }
      r := replacer.Replace(n, answer, literal);
    }
  }

  method ReplaceSubquery(n: Node, groups: nat) returns (r: Outcome)
    requires n.Valid() && Unshared(n.repr) && n.kind.Subqueries?
    modifies n.repr, SelectorsIn(n.repr)
    ensures r.Declined? ==> AsBefore(n)
    decreases n.repr, -1
  {
    var c := n.children[0];
    assert c in n.repr && c.repr <= n.repr;
    var step: nat := *;
    var newN, pushed, failed := Inspect(c, step + 1, groups, false);
    if failed {
      return Failed;
    }
    if pushed {
      n.children := [newN];
      return Replaced(n);
    }
    return Declined;
  }

  /** The walk over a whole tree; pushed says whether anything in it was replaced. */
  method Inspect(n: Node, interval: int, groups: nat, parentIsMatrix: bool)
    returns (newN: Node, pushed: bool, failed: bool)
    requires n.Valid() && Unshared(n.repr)
    modifies n.repr, SelectorsIn(n.repr)
    ensures !pushed && !failed ==> AsBefore(n) && newN == n
    decreases n.repr, 1
  {
    newN, pushed, failed := n, false, false;
    var r := Visit(n, interval, groups, parentIsMatrix);
    if r.Failed? {
      return n, false, true;
    }
    if r.Replaced? {
      return r.node, true, false;
    }
    ValidKept(n);
    ChildrenSeparate(n);
    pushed, failed := InspectChildren(n, n.children, 0, interval, groups);
  }

  /** The children's trees are parts of n's, apart from each other and from n itself; those from i on are untouched. */
  ghost predicate Separate(n: Node, children: seq<Node>, i: nat)
    reads n.repr
  {
    && (forall k :: 0 <= k < |children| ==> Part(n, children[k]))
    && (forall j, k :: 0 <= j < k < |children| ==> children[j].repr !! children[k].repr)
    && (forall k :: i <= k < |children| ==> Part(n, children[k]) && children[k].Valid())
  }

  ghost predicate Part(n: Node, c: Node) {
    c in n.repr && c.repr < n.repr && n !in c.repr
  }

  lemma {:induction false} ChildrenSeparate(n: Node)
    requires n.Valid()
    ensures Separate(n, n.children, 0)
  {
    hide Node.Valid;
    forall k | 0 <= k < |n.children| ensures Part(n, n.children[k]) && n.children[k].Valid() {
      ChildFacts(n, k);
    }
    forall j, k | 0 <= j < k < |n.children| ensures n.children[j].repr !! n.children[k].repr {
      ChildFacts(n, j);
      ChildFacts(n, k);
      BelowGrows(n, j + 1, k);
    }
  }

  /** A tree that is as before is still a tree. */
  twostate lemma {:induction false} ValidKept(n: Node)
    requires old(n.Valid()) && AsBefore(n)
    ensures n.Valid()
    decreases n.repr
  {
    forall k | 0 <= k < |n.children| ensures n.children[k].Valid() {
      var c := n.children[k];
      assert c.repr < n.repr;
      ValidKept(c);
    }
  }

  method InspectChildren(n: Node, children: seq<Node>, i: nat, interval: int, groups: nat)
    returns (pushed: bool, failed: bool)
    requires i <= |children| == |n.children| && Separate(n, children, i) && Unshared(n.repr) && n in n.repr
    modifies n.repr, SelectorsIn(n.repr)
    ensures !pushed && !failed ==> AsBefore(n)
    decreases n.repr, 0, |children| - i
  {
    if i == |children| {
      return false, false;
    }
    var c := children[i];
    UnsharedWithin(c.repr, n.repr);
    var newC, pushedC, failedC := Inspect(c, interval, groups, n.kind.Matrix?);
    if failedC {
      return pushedC, true;
    }
    if pushedC {
      n.children := n.children[i := newC];
    }
    assert Separate(n, children, i + 1);
    pushed, failed := InspectChildren(n, children, i + 1, interval, groups);
    pushed := pushed || pushedC;
  }
}
