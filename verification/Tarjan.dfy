/** `_strongly_connected_components` (scripts/architecture_gate.py:185-222): Tarjan's algorithm over
    a shared index counter, low-links, a stack and its membership set. */
module Tarjan {
  import opened Ordering
  import opened Graphs

  /** What the result must be: the sorted list of the sorted components of two or more nodes. */
  ghost predicate IsReport(g: Graph, r: seq<seq<Node>>) {
    && Sorted(NamesLe, r) && NoDuplicates(r)
    && (forall i | 0 <= i < |r| :: IsNamedComponent(g, r[i]))
    && (forall c | IsComponent(g, c) && |c| >= 2 :: exists names :: names in r && Elements(names) == c)
  }

  ghost predicate IsNamedComponent(g: Graph, names: seq<Node>) {
    && Sorted(StringLe, names) && NoDuplicates(names)
    && IsComponent(g, Elements(names)) && |names| >= 2
  }

  lemma ReportIsUnique(g: Graph, a: seq<seq<Node>>, b: seq<seq<Node>>)
    requires IsReport(g, a) && IsReport(g, b)
    ensures a == b
  {
    ReportContains(g, a, b);
    ReportContains(g, b, a);
    StringsAreOrdered();
    SortedListIsUnique(NamesLe, a, b);
  }

  lemma ReportContains(g: Graph, a: seq<seq<Node>>, b: seq<seq<Node>>)
    requires IsReport(g, a) && IsReport(g, b)
    ensures Elements(a) <= Elements(b)
  {
    StringsAreOrdered();
    forall names | names in a ensures names in b {
      DistinctCounts(names);
      assert IsNamedComponent(g, names);
      var other :| other in b && Elements(other) == Elements(names);
      assert IsNamedComponent(g, other);
      SortedListIsUnique(StringLe, names, other);
    }
  }

  // The algorithm's state as a value, and its invariant

  /** `gray` are the nodes whose visit is under way; `found` are all components popped so far,
      single nodes included. */
  datatype Env = Env(indexes: map<Node, nat>, next: nat, stack: seq<Node>, gray: set<Node>, found: set<set<Node>>)

  ghost predicate Numbered(g: Graph, e: Env) {
    && e.indexes.Keys <= g.Keys
    && (forall n | n in e.indexes :: e.indexes[n] < e.next)
    && (forall i | 0 <= i < |e.stack| :: e.stack[i] in e.indexes)
    && (forall i, j | 0 <= i < j < |e.stack| :: e.indexes[e.stack[i]] < e.indexes[e.stack[j]])
    && (forall n | n in e.gray :: n in e.stack)
  }

  ghost predicate FoundOk(g: Graph, e: Env) {
    && (forall c | c in e.found :: IsComponent(g, c) && c <= e.indexes.Keys)
    && (forall n | n in e.indexes :: Placed(e, n))
  }

  /** A numbered node is either on the stack or in a component already found. */
  ghost predicate Placed(e: Env, n: Node) {
    n !in e.stack <==> exists c :: c in e.found && n in c
  }

  /** A node is left only after all its successors have been numbered. */
  ghost predicate Expanded(g: Graph, e: Env, u: Node) {
    u in g && Successors(g, u) <= e.indexes.Keys
  }

  ghost predicate LeftOk(g: Graph, e: Env) {
    forall n | n in e.indexes && n !in e.gray :: Expanded(g, e, n)
  }

  /** Lower stack nodes reach higher ones, and every stack node reaches a node under way at or below it. */
  ghost predicate StackOk(g: Graph, e: Env) {
    && (forall i, j | 0 <= i <= j < |e.stack| :: Climbs(g, e.stack, i, j))
    && (forall j | 0 <= j < |e.stack| :: ReachesGray(g, e, j))
  }

  ghost predicate Climbs(g: Graph, stack: seq<Node>, i: nat, j: nat) {
    i <= j < |stack| && Reach(g, stack[i], stack[j])
  }

  ghost predicate ReachesGray(g: Graph, e: Env, j: nat) {
    exists i: nat :: ReachesGrayAt(g, e, j, i)
  }

  ghost predicate ReachesGrayAt(g: Graph, e: Env, j: nat, i: nat) {
    i <= j < |e.stack| && e.stack[i] in e.gray && Reach(g, e.stack[j], e.stack[i])
  }

  ghost predicate Valid(g: Graph, e: Env) {
    Numbered(g, e) && FoundOk(g, e) && StackOk(g, e) && LeftOk(g, e)
  }

  /** What a visit keeps of the state it started from. */
  ghost predicate Extends(e: Env, e': Env) {
    && e.indexes.Keys <= e'.indexes.Keys && e.next <= e'.next
    && (forall n | n in e.indexes :: e'.indexes[n] == e.indexes[n])
    && (forall n | n in e'.indexes && n !in e.indexes :: e.next <= e'.indexes[n])
    && |e.stack| <= |e'.stack| && e'.stack[..|e.stack|] == e.stack
    && e'.gray == e.gray && e.found <= e'.found
  }

  /** Edges of `u` into the older part of the stack, those still in `todo` excepted, do not go below `low`. */
  ghost predicate EdgesAbove(g: Graph, e: Env, u: Node, base: seq<Node>, todo: set<Node>, low: nat) {
    forall y | u in g && y in base && y in Successors(g, u) - todo :: y in e.indexes && low <= e.indexes[y]
  }

  ghost predicate LowReached(g: Graph, e: Env, x: Node, low: nat) {
    exists y :: y in e.stack && y in e.indexes && e.indexes[y] == low && Reach(g, x, y)
  }

  /** Result of a visit: either the whole component of `x` has been popped, or `x` stays above
      `base` and its low-link is a stack number that `x` reaches and no edge undercuts. */
  ghost predicate Visited(g: Graph, e: Env, base: seq<Node>, x: Node, low: nat) {
    && x in e.indexes && x !in e.gray
    && if |e.stack| == |base| then low == e.indexes[x]
       else
         && |base| < |e.stack| && e.stack[|base|] == x
         && low < e.indexes[x] && LowReached(g, e, x, low)
         && forall j | |base| <= j < |e.stack| :: EdgesAbove(g, e, e.stack[j], base, {}, low)
  }

  function Pushed(e: Env, x: Node): Env {
    Env(e.indexes[x := e.next], e.next + 1, e.stack + [x], e.gray + {x}, e.found)
  }

  lemma PushKeepsNumbered(g: Graph, e: Env, x: Node)
    requires Numbered(g, e) && x in g && x !in e.indexes
    ensures Numbered(g, Pushed(e, x))
  {
    var e' := Pushed(e, x);
    assert e'.stack[|e.stack|] == x;
    assert forall n | n in e.stack :: n in e'.stack;
  }

  lemma PushKeepsFound(g: Graph, e: Env, x: Node)
    requires FoundOk(g, e) && LeftOk(g, e) && x in g && x !in e.indexes
    ensures FoundOk(g, Pushed(e, x)) && LeftOk(g, Pushed(e, x))
  {
    var e' := Pushed(e, x);
    forall n | n in e'.indexes ensures Placed(e', n) {
      assert n != x ==> Placed(e, n);
      assert n in e'.stack <==> n == x || n in e.stack;
    }
    forall n | n in e'.indexes && n !in e'.gray ensures Expanded(g, e', n) {
      assert Expanded(g, e, n);
    }
  }

  lemma PushKeepsStack(g: Graph, e: Env, x: Node)
    requires StackOk(g, e) && x in g
    requires forall n | n in e.gray :: Reach(g, n, x)
    ensures StackOk(g, Pushed(e, x))
  {
    var e' := Pushed(e, x);
    var h := |e.stack|;
    ReachSelf(g, x);
    assert ReachesGrayAt(g, e', h, h);
    forall j | 0 <= j < h ensures Climbs(g, e'.stack, j, h) && ReachesGray(g, e', j) {
      assert ReachesGray(g, e, j);
      var i: nat :| ReachesGrayAt(g, e, j, i);
      ReachTransitive(g, e.stack[j], e.stack[i], x);
      assert ReachesGrayAt(g, e', j, i);
    }
    forall i, j | 0 <= i <= j < |e'.stack| ensures Climbs(g, e'.stack, i, j) {
      if j < h { assert Climbs(g, e.stack, i, j); }
    }
  }

  lemma PushKeepsValid(g: Graph, e: Env, x: Node)
    requires Valid(g, e) && x in g && x !in e.indexes
    requires forall n | n in e.gray :: Reach(g, n, x)
    ensures Valid(g, Pushed(e, x))
  {
    PushKeepsNumbered(g, e, x);
    PushKeepsFound(g, e, x);
    PushKeepsStack(g, e, x);
  }

  function Blackened(e: Env, x: Node): Env {
    e.(gray := e.gray - {x})
  }

  lemma BlackenKeepsStack(g: Graph, e: Env, b: nat, m: nat)
    requires StackOk(g, e) && m < b < |e.stack| && Reach(g, e.stack[b], e.stack[m])
    requires forall i | 0 <= i < |e.stack| && e.stack[i] == e.stack[b] :: i == b
    ensures StackOk(g, Blackened(e, e.stack[b]))
  {
    var x := e.stack[b];
    var e' := Blackened(e, x);
    assert ReachesGray(g, e, m);
    var k: nat :| ReachesGrayAt(g, e, m, k);
    ReachTransitive(g, x, e.stack[m], e.stack[k]);
    forall j | 0 <= j < |e'.stack| ensures ReachesGray(g, e', j) {
      assert ReachesGray(g, e, j);
      var i: nat :| ReachesGrayAt(g, e, j, i);
      if e.stack[i] == x {
        ReachTransitive(g, e.stack[j], x, e.stack[k]);
        assert ReachesGrayAt(g, e', j, k);
      } else {
        assert ReachesGrayAt(g, e', j, i);
      }
    }
    forall i, j | 0 <= i <= j < |e'.stack| ensures Climbs(g, e'.stack, i, j) {
      assert Climbs(g, e.stack, i, j);
    }
  }

  /** A node that reaches below itself can be left without losing the invariant. */
  lemma BlackenKeepsValid(g: Graph, e: Env, b: nat, low: nat)
    requires Valid(g, e) && b < |e.stack| && Expanded(g, e, e.stack[b])
    requires low < e.indexes[e.stack[b]] && LowReached(g, e, e.stack[b], low)
    ensures Valid(g, Blackened(e, e.stack[b]))
  {
    var x := e.stack[b];
    var e' := Blackened(e, x);
    var y :| y in e.stack && e.indexes[y] == low && Reach(g, x, y);
    var m :| 0 <= m < |e.stack| && e.stack[m] == y;
    BlackenKeepsStack(g, e, b, m);
    forall n | n in e'.indexes ensures Placed(e', n) {
      assert Placed(e, n);
    }
    forall n | n in e'.indexes && n !in e'.gray ensures Expanded(g, e', n) {
      assert n != x ==> n !in e.gray;
      assert Expanded(g, e, n);
    }
  }

  function Popped(e: Env, b: nat): Env
    requires b < |e.stack|
  {
    Env(e.indexes, e.next, e.stack[..b], e.gray - {e.stack[b]}, e.found + {Elements(e.stack[b..])})
  }

  ghost predicate ReadyToPop(g: Graph, e: Env, b: nat) {
    && Valid(g, e) && b < |e.stack|
    && (forall i | 0 <= i < |e.stack| && e.stack[i] in e.gray :: i <= b)
    && Expanded(g, e, e.stack[b])
    && (forall j | b <= j < |e.stack| :: EdgesAbove(g, e, e.stack[j], e.stack[..b], {}, e.indexes[e.stack[b]]))
  }

  lemma SegmentIsConnected(g: Graph, e: Env, b: nat, j: nat)
    requires StackOk(g, e) && b <= j < |e.stack|
    requires forall i | 0 <= i < |e.stack| && e.stack[i] in e.gray :: i <= b
    ensures Reach(g, e.stack[j], e.stack[b]) && Reach(g, e.stack[b], e.stack[j])
  {
    assert ReachesGray(g, e, j);
    var i: nat :| ReachesGrayAt(g, e, j, i);
    assert Climbs(g, e.stack, i, b) && Climbs(g, e.stack, b, j);
    ReachTransitive(g, e.stack[j], e.stack[i], e.stack[b]);
  }

  lemma SegmentIsClosed(g: Graph, e: Env, b: nat, j: nat)
    requires ReadyToPop(g, e, b) && b <= j < |e.stack|
    ensures Expanded(g, e, e.stack[j])
    ensures forall y | y in Successors(g, e.stack[j]) :: y !in e.stack[..b]
  {
    assert e.stack[j] != e.stack[b] ==> e.stack[j] !in e.stack[..b];
    assert Expanded(g, e, e.stack[j]);
    assert EdgesAbove(g, e, e.stack[j], e.stack[..b], {}, e.indexes[e.stack[b]]);
  }

  lemma OutsideSegment(stack: seq<Node>, b: nat, y: Node)
    requires b <= |stack| && y !in stack[..b] && y !in stack[b..]
    ensures y !in stack
  {
    assert stack == stack[..b] + stack[b..];
  }

  /** A node in one mutual reachability class with a segment node is in the segment itself. */
  lemma SegmentIsMaximal(g: Graph, e: Env, b: nat, u: Node, v: Node)
    requires ReadyToPop(g, e, b) && u in e.stack[b..]
    requires Reach(g, u, v) && Reach(g, v, u)
    ensures v in e.stack[b..]
  {
    if v !in e.stack[b..] {
      var k: nat :| ReachIn(g, u, v, k);
      var a, y := LeavingEdge(g, Elements(e.stack[b..]), u, v, k);
      var j :| b <= j < |e.stack| && e.stack[j] == a;
      SegmentIsClosed(g, e, b, j);
      OutsideSegment(e.stack, b, y);
      assert Placed(e, y);
      var d :| d in e.found && y in d;
      ReachEdge(g, a, y);
      ReachTransitive(g, u, a, y);
      ReachTransitive(g, y, v, u);
      StackNodeIsNotFound(g, e, u, y, d);
      assert false;
    }
  }

  lemma StackNodeIsNotFound(g: Graph, e: Env, u: Node, y: Node, d: set<Node>)
    requires Numbered(g, e) && FoundOk(g, e) && u in e.stack && d in e.found && y in d
    ensures !(Reach(g, u, y) && Reach(g, y, u))
  {
    ComponentIsMutualClass(g, d);
    assert u in e.indexes && Placed(e, u);
  }

  /** A low-link equal to the node's own number closes a component: the stack from the node up. */
  lemma SegmentIsComponent(g: Graph, e: Env, b: nat)
    requires ReadyToPop(g, e, b)
    ensures IsComponent(g, Elements(e.stack[b..]))
  {
    var c := Elements(e.stack[b..]);
    var x := e.stack[b];
    assert x == e.stack[b..][0];
    forall u | u in c ensures u in g && Reach(g, u, x) && Reach(g, x, u) {
      var j :| b <= j < |e.stack| && e.stack[j] == u;
      SegmentIsConnected(g, e, b, j);
    }
    forall u, v | u in c && v in g ensures v in c <==> Reach(g, u, v) && Reach(g, v, u) {
      if v in c {
        ReachTransitive(g, u, x, v);
        ReachTransitive(g, v, x, u);
      } else if Reach(g, u, v) && Reach(g, v, u) {
        SegmentIsMaximal(g, e, b, u, v);
      }
    }
    ComponentIsMutualClass(g, c);
  }

  lemma PopKeepsStack(g: Graph, e: Env, b: nat)
    requires Numbered(g, e) && StackOk(g, e) && b < |e.stack|
    ensures StackOk(g, Popped(e, b))
  {
    var e' := Popped(e, b);
    forall j | 0 <= j < b ensures ReachesGray(g, e', j) {
      assert ReachesGray(g, e, j);
      var i: nat :| ReachesGrayAt(g, e, j, i);
      assert e.stack[i] != e.stack[b];
      assert ReachesGrayAt(g, e', j, i);
    }
    forall i, j | 0 <= i <= j < |e'.stack| ensures Climbs(g, e'.stack, i, j) {
      assert Climbs(g, e.stack, i, j);
    }
  }

  lemma PopKeepsPlaced(e: Env, b: nat, n: Node)
    requires b < |e.stack| && Placed(e, n)
    requires forall i, j | 0 <= i < j < |e.stack| :: e.stack[i] != e.stack[j]
    ensures Placed(Popped(e, b), n)
  {
    var c := Elements(e.stack[b..]);
    assert e.stack == e.stack[..b] + e.stack[b..];
    assert c in Popped(e, b).found;
    assert n in e.stack[b..] ==> n !in e.stack[..b];
  }

  lemma PopKeepsFound(g: Graph, e: Env, b: nat)
    requires Numbered(g, e) && FoundOk(g, e) && b < |e.stack| && IsComponent(g, Elements(e.stack[b..]))
    ensures FoundOk(g, Popped(e, b))
  {
    forall i, j | 0 <= i < j < |e.stack| ensures e.stack[i] != e.stack[j] {
      assert e.indexes[e.stack[i]] < e.indexes[e.stack[j]];
    }
    forall n | n in e.indexes ensures Placed(Popped(e, b), n) {
      assert Placed(e, n);
      PopKeepsPlaced(e, b, n);
    }
  }

  lemma PopKeepsNumbered(g: Graph, e: Env, b: nat)
    requires Numbered(g, e) && b < |e.stack|
    requires forall i | 0 <= i < |e.stack| && e.stack[i] in e.gray :: i <= b
    ensures Numbered(g, Popped(e, b))
  {
    var e' := Popped(e, b);
    forall n | n in e'.gray ensures n in e'.stack {
      var i :| 0 <= i < |e.stack| && e.stack[i] == n;
      assert e'.stack[i] == n;
    }
  }

  lemma PopKeepsLeft(g: Graph, e: Env, b: nat)
    requires LeftOk(g, e) && b < |e.stack| && Expanded(g, e, e.stack[b])
    ensures LeftOk(g, Popped(e, b))
  {
    var e' := Popped(e, b);
    forall n | n in e'.indexes && n !in e'.gray ensures Expanded(g, e', n) {
      assert n != e.stack[b] ==> n !in e.gray;
      assert Expanded(g, e, n);
    }
  }

  lemma PopKeepsValid(g: Graph, e: Env, b: nat)
    requires ReadyToPop(g, e, b)
    ensures Valid(g, Popped(e, b)) && IsComponent(g, Elements(e.stack[b..]))
  {
    hide Numbered, FoundOk, StackOk, LeftOk, Popped, IsComponent, Elements, Expanded, EdgesAbove;
    SegmentIsComponent(g, e, b);
    PopKeepsFound(g, e, b);
    PopKeepsStack(g, e, b);
    PopKeepsNumbered(g, e, b);
    PopKeepsLeft(g, e, b);
  }

  // One visit, step by step

  /** Invariant of the loop over the targets of `x`, `e0` being the state before the visit. */
  ghost predicate Visiting(g: Graph, e0: Env, e: Env, x: Node, todo: set<Node>, low: nat) {
    && Extends(Pushed(e0, x), e) && x in g
    && low <= e.indexes[x] && LowReached(g, e, x, low)
    && Successors(g, x) - todo <= e.indexes.Keys
    && EdgesAbove(g, e, x, e0.stack, todo, low)
    && (forall j | |e0.stack| < j < |e.stack| :: EdgesAbove(g, e, e.stack[j], e0.stack, {}, low))
  }

  lemma VisitStarts(g: Graph, e: Env, x: Node)
    requires Valid(g, e) && x in g && x !in e.indexes
    requires forall n | n in e.gray :: Reach(g, n, x)
    ensures Valid(g, Pushed(e, x)) && Visiting(g, e, Pushed(e, x), x, g[x], e.next)
  {
    PushKeepsValid(g, e, x);
    ReachSelf(g, x);
    assert Pushed(e, x).stack[|e.stack|] == x;
  }

  lemma GrayReachesTarget(g: Graph, e0: Env, e: Env, x: Node, t: Node, todo: set<Node>, low: nat)
    requires Visiting(g, e0, e, x, todo, low) && t in Successors(g, x)
    requires forall n | n in e0.gray :: Reach(g, n, x)
    ensures forall n | n in e.gray :: Reach(g, n, t)
  {
    ReachEdge(g, x, t);
    forall n | n in e.gray ensures Reach(g, n, t) {
      if n != x { ReachTransitive(g, n, x, t); }
    }
  }

  function Min(a: nat, b: nat): nat { if a <= b then a else b }

  lemma ExtendsTransitive(a: Env, b: Env, c: Env)
    requires Extends(a, b) && Extends(b, c)
    ensures Extends(a, c)
  {
    assert c.stack[..|a.stack|] == c.stack[..|b.stack|][..|a.stack|];
  }

  lemma BaseOnStack(e0: Env, e: Env, x: Node)
    requires Extends(Pushed(e0, x), e)
    ensures |e0.stack| < |e.stack| && e.stack[|e0.stack|] == x && e.stack[..|e0.stack|] == e0.stack
    ensures forall y | y in e0.stack :: y in e.stack
  {
    assert e.stack[..|e0.stack| + 1] == e0.stack + [x];
    assert forall i | 0 <= i < |e0.stack| :: e.stack[..|e0.stack| + 1][i] == e0.stack[i];
  }

  lemma EdgesWeaken(g: Graph, e: Env, e': Env, u: Node, base: seq<Node>, base': seq<Node>, todo: set<Node>,
                    low: nat, low': nat)
    requires EdgesAbove(g, e, u, base, todo, low) && low' <= low
    requires forall y | y in base' :: y in base
    requires forall n | n in e.indexes :: n in e'.indexes && e'.indexes[n] == e.indexes[n]
    ensures EdgesAbove(g, e', u, base', todo, low')
  {
  }

  lemma LowAfterTarget(g: Graph, e: Env, e': Env, x: Node, t: Node, low: nat, lowT: nat)
    requires Extends(e, e') && LowReached(g, e, x, low)
    requires x in g && t in Successors(g, x) && x in e.indexes && low <= e.indexes[x] < e.next
    requires Visited(g, e', e.stack, t, lowT) && t !in e.indexes
    ensures LowReached(g, e', x, Min(low, lowT))
  {
    if low <= lowT {
      var y :| y in e.stack && y in e.indexes && e.indexes[y] == low && Reach(g, x, y);
      assert y in e'.stack[..|e.stack|];
    } else {
      var y :| y in e'.stack && y in e'.indexes && e'.indexes[y] == lowT && Reach(g, t, y);
      ReachEdge(g, x, t);
      ReachTransitive(g, x, t, y);
    }
  }

  lemma EdgesAfterTarget(g: Graph, e0: Env, e: Env, e': Env, x: Node, t: Node, low: nat, lowT: nat)
    requires Extends(Pushed(e0, x), e) && Extends(e, e')
    requires forall j | |e0.stack| < j < |e.stack| :: EdgesAbove(g, e, e.stack[j], e0.stack, {}, low)
    requires Visited(g, e', e.stack, t, lowT)
    ensures forall j | |e0.stack| < j < |e'.stack| :: EdgesAbove(g, e', e'.stack[j], e0.stack, {}, Min(low, lowT))
  {
    BaseOnStack(e0, e, x);
    forall j | |e0.stack| < j < |e'.stack| ensures EdgesAbove(g, e', e'.stack[j], e0.stack, {}, Min(low, lowT)) {
      if j < |e.stack| {
        assert e'.stack[..|e.stack|][j] == e.stack[j];
        EdgesWeaken(g, e, e', e.stack[j], e0.stack, e0.stack, {}, low, Min(low, lowT));
      } else {
        EdgesWeaken(g, e', e', e'.stack[j], e.stack, e0.stack, {}, lowT, Min(low, lowT));
      }
    }
  }

  /** An unnumbered target has been visited: its low-link bounds the new part of the stack. */
  lemma TargetVisited(g: Graph, e0: Env, e: Env, e': Env, x: Node, t: Node, todo: set<Node>, low: nat, lowT: nat)
    requires Visiting(g, e0, e, x, todo, low) && t in todo && t in Successors(g, x) && t !in e.indexes
    requires Valid(g, e) && Extends(e, e') && Visited(g, e', e.stack, t, lowT)
    ensures Visiting(g, e0, e', x, todo - {t}, Min(low, lowT))
  {
    hide StackOk, FoundOk, LeftOk, LowReached, EdgesAbove;
    BaseOnStack(e0, e, x);
    LowAfterTarget(g, e, e', x, t, low, lowT);
    EdgesAfterTarget(g, e0, e, e', x, t, low, lowT);
    EdgesDropTarget(g, e0, e, x, t, todo, low);
    EdgesWeaken(g, e, e', x, e0.stack, e0.stack, todo - {t}, low, Min(low, lowT));
    ExtendsTransitive(Pushed(e0, x), e, e');
  }

  lemma EdgesDropTarget(g: Graph, e0: Env, e: Env, x: Node, t: Node, todo: set<Node>, low: nat)
    requires Numbered(g, e) && t !in e.indexes && EdgesAbove(g, e, x, e0.stack, todo, low)
    requires forall y | y in e0.stack :: y in e.stack
    ensures EdgesAbove(g, e, x, e0.stack, todo - {t}, low)
  {
  }

  /** A target numbered earlier matters only while it is on the stack. */
  lemma TargetSeen(g: Graph, e0: Env, e: Env, x: Node, t: Node, todo: set<Node>, low: nat)
    requires Visiting(g, e0, e, x, todo, low) && t in todo
    requires t in g ==> t in e.indexes
    ensures t !in g || t !in e.stack ==> Visiting(g, e0, e, x, todo - {t}, low)
    ensures t in g && t in e.stack && t in g[x] ==> Visiting(g, e0, e, x, todo - {t}, Min(low, e.indexes[t]))
  {
    BaseOnStack(e0, e, x);
    if t in g && t in e.stack && t in g[x] {
      ReachEdge(g, x, t);
      forall j | |e0.stack| < j < |e.stack|
        ensures EdgesAbove(g, e, e.stack[j], e0.stack, {}, Min(low, e.indexes[t]))
      {
        EdgesWeaken(g, e, e, e.stack[j], e0.stack, e0.stack, {}, low, Min(low, e.indexes[t]));
      }
    }
  }

  lemma VisitedBelow(g: Graph, e0: Env, e: Env, x: Node, low: nat)
    requires Visiting(g, e0, e, x, {}, low) && low < e.indexes[x]
    ensures Visited(g, Blackened(e, x), e0.stack, x, low)
  {
    var e' := Blackened(e, x);
    BaseOnStack(e0, e, x);
    assert LowReached(g, e', x, low);
    forall j | |e0.stack| <= j < |e'.stack| ensures EdgesAbove(g, e', e'.stack[j], e0.stack, {}, low) {
      EdgesWeaken(g, e, e', e.stack[j], e0.stack, e0.stack, {}, low, low);
    }
  }

  lemma VisitEndsBelow(g: Graph, e0: Env, e: Env, x: Node, low: nat)
    requires Valid(g, e) && Visiting(g, e0, e, x, {}, low) && low != e.indexes[x]
    requires Valid(g, e0) && x !in e0.indexes
    ensures Valid(g, Blackened(e, x)) && Extends(e0, Blackened(e, x))
    ensures Visited(g, Blackened(e, x), e0.stack, x, low)
  {
    BaseOnStack(e0, e, x);
    BlackenKeepsValid(g, e, |e0.stack|, low);
    ExtendsPushed(e0, e, x);
    VisitedBelow(g, e0, e, x, low);
  }

  lemma ExtendsPushed(e0: Env, e: Env, x: Node)
    requires Extends(Pushed(e0, x), e) && x !in e0.indexes && x !in e0.gray
    ensures Extends(e0, Blackened(e, x)) && Extends(e0, Popped(e, |e0.stack|))
  {
    BaseOnStack(e0, e, x);
  }

  lemma RootIsReadyToPop(g: Graph, e0: Env, e: Env, x: Node)
    requires Valid(g, e) && x in e.indexes && Visiting(g, e0, e, x, {}, e.indexes[x]) && Valid(g, e0)
    ensures ReadyToPop(g, e, |e0.stack|)
  {
    var b := |e0.stack|;
    BaseOnStack(e0, e, x);
    assert forall i, j | 0 <= i < j < |e.stack| :: e.stack[i] != e.stack[j];
    forall i | 0 <= i < |e.stack| && e.stack[i] in e.gray ensures i <= b {
      if e.stack[i] in e0.gray {
        var k :| 0 <= k < b && e0.stack[k] == e.stack[i];
        assert e.stack[..b][k] == e.stack[k];
      }
    }
  }

  lemma VisitEndsAtRoot(g: Graph, e0: Env, e: Env, x: Node)
    requires Valid(g, e) && x in e.indexes && Visiting(g, e0, e, x, {}, e.indexes[x])
    requires Valid(g, e0) && x !in e0.indexes
    ensures |e0.stack| < |e.stack| && e.stack[|e0.stack|] == x && NoDuplicates(e.stack)
    ensures IsComponent(g, Elements(e.stack[|e0.stack|..])) && Elements(e.stack[|e0.stack|..]) !in e.found
    ensures Valid(g, Popped(e, |e0.stack|)) && Extends(e0, Popped(e, |e0.stack|))
    ensures Visited(g, Popped(e, |e0.stack|), e0.stack, x, e.indexes[x])
  {
    var b := |e0.stack|;
    BaseOnStack(e0, e, x);
    RootIsReadyToPop(g, e0, e, x);
    PopKeepsValid(g, e, b);
    ExtendsPushed(e0, e, x);
    assert x in Elements(e.stack[b..]) by { assert e.stack[b..][0] == x; }
    assert Placed(e, x);
  }

  // Reported components

  ghost predicate Reported(g: Graph, found: set<set<Node>>, components: seq<seq<Node>>) {
    && NoDuplicates(components)
    && (forall i | 0 <= i < |components| :: IsNamedComponent(g, components[i]) && Elements(components[i]) in found)
    && (forall c | c in found && |c| >= 2 :: exists names :: names in components && Elements(names) == c)
  }

  lemma ReportComponent(g: Graph, found: set<set<Node>>, components: seq<seq<Node>>, names: seq<Node>)
    requires Reported(g, found, components)
    requires Sorted(StringLe, names) && NoDuplicates(names) && IsComponent(g, Elements(names))
    requires Elements(names) !in found
    ensures Reported(g, found + {Elements(names)}, if |names| > 1 then components + [names] else components)
  {
    DistinctCounts(names);
    var components' := if |names| > 1 then components + [names] else components;
    var found' := found + {Elements(names)};
    forall c | c in found' && |c| >= 2 ensures exists n :: n in components' && Elements(n) == c {
      if c in found {
        var n :| n in components && Elements(n) == c;
        assert n in components';
      } else {
        assert components'[|components|] == names;
      }
    }
  }

  /** The closure state of one call, and `visit`. */
  class Search {
    const graph: Graph
    var index: nat
    var indexes: map<Node, nat>
    var lowlinks: map<Node, nat>
    var stack: seq<Node>
    var onStack: set<Node>
    var components: seq<seq<Node>>
    ghost var gray: set<Node>
    ghost var found: set<set<Node>>

    ghost function State(): Env
      reads `indexes, `index, `stack, `gray, `found
    {
      Env(indexes, index, stack, gray, found)
    }

    ghost predicate Consistent()
      reads this
    {
      && Valid(graph, State())
      && lowlinks.Keys == indexes.Keys && onStack == Elements(stack)
      && Reported(graph, found, components)
    }

    constructor (g: Graph)
      ensures graph == g && Consistent() && gray == {} && stack == [] && indexes == map[]
    {
      graph := g;
      index, indexes, lowlinks, stack, onStack, components := 0, map[], map[], [], {}, [];
      gray, found := {}, {};
    }

    method Visit(node: Node)
      requires Consistent() && node in graph && node !in indexes
      requires forall n | n in gray :: Reach(graph, n, node)
      modifies this
      ensures Consistent() && Extends(old(State()), State())
      ensures node in indexes && Visited(graph, State(), old(stack), node, lowlinks[node])
      ensures old(indexes).Keys <= indexes.Keys
      ensures forall n | n in old(indexes) :: lowlinks[n] == old(lowlinks)[n]
      decreases |graph.Keys - indexes.Keys|, 0
    {
      hide Valid, Visiting, Visited, Extends, Reach, Reported, IsComponent;
      ghost var e0 := State();
      Enter(node);
      var todo := graph[node];
      while todo != {}
        invariant todo <= graph[node] && Consistent() && node in lowlinks
        invariant old(indexes).Keys + {node} <= indexes.Keys
        invariant Visiting(graph, e0, State(), node, todo, lowlinks[node])
        invariant forall n | n in old(indexes) :: lowlinks[n] == old(lowlinks)[n]
        decreases todo
      {
        var target :| target in todo;
        CardinalityOfProperSubset(graph.Keys - indexes.Keys, graph.Keys - old(indexes).Keys);
        Follow(node, target, e0, todo);
        todo := todo - {target};
      }
      Leave(node, e0);
    }

    /** The start of a visit: number the node and push it. */
    method Enter(node: Node)
      requires Consistent() && node in graph && node !in indexes
      requires forall n | n in gray :: Reach(graph, n, node)
      modifies this
      ensures Consistent() && State() == Pushed(old(State()), node)
      ensures Visiting(graph, old(State()), State(), node, graph[node], lowlinks[node])
      ensures forall n | n in old(indexes) :: lowlinks[n] == old(lowlinks)[n]
    {
      hide Valid, Visiting, Reach, Reported, IsComponent;
      VisitStarts(graph, State(), node);
      indexes, lowlinks := indexes[node := index], lowlinks[node := index];
      index := index + 1;
      stack, onStack := stack + [node], onStack + {node};
      gray := gray + {node};
      assert State() == Pushed(old(State()), node) && onStack == Elements(stack);
    }

    /** The body of the loop over the targets of `node`. */
    method Follow(node: Node, target: Node, ghost e0: Env, ghost todo: set<Node>)
      requires Consistent() && node in lowlinks && node in graph && target in todo && target in graph[node]
      requires Visiting(graph, e0, State(), node, todo, lowlinks[node])
      requires forall n | n in e0.gray :: Reach(graph, n, node)
      modifies this
      ensures Consistent() && old(indexes).Keys <= indexes.Keys
      ensures Visiting(graph, e0, State(), node, todo - {target}, lowlinks[node])
      ensures forall n | n in old(indexes) && n != node :: lowlinks[n] == old(lowlinks)[n]
      decreases |graph.Keys - indexes.Keys|, 1
    {
      hide Valid, Visiting, Visited, Extends, Reach, Reported, IsComponent;
      ghost var e, low := State(), lowlinks[node];
      if target !in graph {
        TargetSeen(graph, e0, e, node, target, todo, low);
        return;
      }
      if target !in indexes {
        GrayReachesTarget(graph, e0, e, node, target, todo, low);
        Visit(target);
        TargetVisited(graph, e0, e, State(), node, target, todo, low, lowlinks[target]);
        Lower(node, lowlinks[target]);
      } else {
        TargetSeen(graph, e0, e, node, target, todo, low);
        if target in onStack {
          Lower(node, indexes[target]);
        }
      }
    }

    /** The end of a visit: return below a root, or pop the root's component and report it. */
    method Leave(node: Node, ghost e0: Env)
      requires Consistent() && node in lowlinks
      requires Visiting(graph, e0, State(), node, {}, lowlinks[node])
      requires Valid(graph, e0) && node !in e0.indexes
      modifies `stack, `onStack, `components, `gray, `found
      ensures Consistent() && Extends(e0, State()) && e0.indexes.Keys <= indexes.Keys
      ensures Visited(graph, State(), e0.stack, node, lowlinks[node])
    {
      hide Valid, Visiting, Visited, Reach, Reported, IsComponent;
      ghost var e := State();
      if lowlinks[node] != indexes[node] {
        VisitEndsBelow(graph, e0, e, node, lowlinks[node]);
        gray := gray - {node};
        assert State() == Blackened(e, node);
        return;
      }
      VisitEndsAtRoot(graph, e0, e, node);
      var component := PopComponent(node);
      gray, found := gray - {node}, found + {Elements(e.stack[|e0.stack|..])};
      assert State() == Popped(e, |e0.stack|);
      Record(component, e.found);
    }

    /** `lowlinks[node] = min(lowlinks[node], value)` */
    method Lower(node: Node, value: nat)
      requires node in lowlinks
      modifies `lowlinks
      ensures lowlinks.Keys == old(lowlinks).Keys && lowlinks[node] == Min(old(lowlinks)[node], value)
      ensures forall n | n in lowlinks && n != node :: lowlinks[n] == old(lowlinks)[n]
      ensures old(Consistent()) ==> Consistent()
    {
      lowlinks := lowlinks[node := Min(lowlinks[node], value)];
    }

    method Record(component: seq<Node>, ghost before: set<set<Node>>)
      requires Reported(graph, before, components) && found == before + {Elements(component)}
      requires NoDuplicates(component) && Elements(component) !in before && IsComponent(graph, Elements(component))
      modifies this`components
      ensures Reported(graph, found, components)
    {
      var sorted := SortedList(Elements(component));
      DistinctCounts(component);
      DistinctCounts(sorted);
      ReportComponent(graph, before, components, sorted);
      if |component| > 1 {
        components := components + [sorted];
      }
    }

    /** The inner loop: pop up to and including `node`. */
    method PopComponent(node: Node) returns (component: seq<Node>)
      requires node in stack && NoDuplicates(stack) && onStack == Elements(stack)
      modifies this`stack, this`onStack
      ensures stack <= old(stack) && |stack| < |old(stack)| && old(stack)[|stack|] == node
      ensures onStack == Elements(stack) && Elements(component) == Elements(old(stack)[|stack|..])
      ensures NoDuplicates(component)
    {
      component := [];
      while stack != []
        invariant node in stack && stack <= old(stack) && NoDuplicates(stack) && onStack == Elements(stack)
        invariant Elements(component) == Elements(old(stack)[|stack|..]) && NoDuplicates(component)
        decreases |stack|
      {
        var item := stack[|stack| - 1];
        ghost var popped := old(stack)[|stack|..];
        assert old(stack)[|stack| - 1..] == [item] + popped;
        assert item !in Elements(popped) && item !in Elements(component);
        stack := stack[..|stack| - 1];
        onStack := onStack - {item};
        component := component + [item];
        assert Elements([item] + popped) == {item} + Elements(popped);
        if item == node { return; }
      }
    }
  }

  lemma NothingUnderWay(g: Graph, e: Env)
    requires Valid(g, e) && e.gray == {}
    ensures e.stack == []
  {
    assert |e.stack| > 0 ==> ReachesGray(g, e, 0);
  }

  lemma EverythingFound(g: Graph, e: Env, c: set<Node>)
    requires Valid(g, e) && e.gray == {} && e.indexes.Keys == g.Keys && IsComponent(g, c)
    ensures c in e.found
  {
    hide Numbered, StackOk, LeftOk, Reach;
    NothingUnderWay(g, e);
    var u :| u in c;
    assert Placed(e, u);
    var d :| d in e.found && u in d;
    ComponentsAreDisjoint(g, c, d, u);
  }

  lemma SortedReport(g: Graph, e: Env, components: seq<seq<Node>>, r: seq<seq<Node>>)
    requires Valid(g, e) && e.gray == {} && e.indexes.Keys == g.Keys
    requires Reported(g, e.found, components)
    requires Sorted(NamesLe, r) && multiset(r) == multiset(components)
    ensures IsReport(g, r)
  {
    hide Valid, IsComponent, Reach;
    MultisetsAndElements(components, r);
    forall names | names in r ensures IsNamedComponent(g, names) {
      assert names in Elements(components);
    }
    forall c | IsComponent(g, c) && |c| >= 2 ensures exists names :: names in r && Elements(names) == c {
      EverythingFound(g, e, c);
      var names :| names in components && Elements(names) == c;
      assert names in Elements(r);
    }
  }

  method StronglyConnectedComponents(graph: Graph) returns (r: seq<seq<Node>>)
    ensures IsReport(graph, r)
  {
    hide Valid, Reported, Visited, IsReport, Reach;
    var search := new Search(graph);
    var nodes := SortedList(graph.Keys);
    var i := 0;
    while i < |nodes|
      invariant 0 <= i <= |nodes| && fresh(search) && search.graph == graph
      invariant search.Consistent() && search.gray == {}
      invariant Elements(nodes[..i]) <= search.indexes.Keys
    {
      if nodes[i] !in search.indexes {
        assert nodes[i] in Elements(nodes);
        search.Visit(nodes[i]);
      }
      assert Elements(nodes[..i + 1]) == Elements(nodes[..i]) + {nodes[i]};
      i := i + 1;
    }
    assert nodes[..i] == nodes;
    StringsAreOrdered();
    r := SortedBy(NamesLe, search.components);
    AllNumbered(graph, search.State());
    SortedReport(graph, search.State(), search.components, r);
  }

  lemma AllNumbered(g: Graph, e: Env)
    requires Valid(g, e) && g.Keys <= e.indexes.Keys
    ensures e.indexes.Keys == g.Keys
  {
  }
}
