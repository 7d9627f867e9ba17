/** Directed graphs over names: reachability, strongly connected sets, topological orders. */
module Graphs {
  import opened Ordering

  type Node = string
  type Graph = map<Node, set<Node>>

  /** Edges to names outside the graph are ignored, as `if target not in graph: continue` does. */
  function Successors(g: Graph, u: Node): set<Node>
    requires u in g
  {
    g[u] * g.Keys
  }

  ghost predicate ReachIn(g: Graph, u: Node, v: Node, k: nat)
    decreases k
  {
    u in g && v in g &&
    if k == 0 then u == v else exists w :: w in Successors(g, u) && ReachIn(g, w, v, k - 1)
  }

  ghost predicate Reach(g: Graph, u: Node, v: Node) {
    exists k: nat :: ReachIn(g, u, v, k)
  }

  lemma ReachSelf(g: Graph, u: Node)
    requires u in g
    ensures Reach(g, u, u)
  {
    assert ReachIn(g, u, u, 0);
  }

  lemma ReachEdge(g: Graph, u: Node, v: Node)
    requires u in g && v in Successors(g, u)
    ensures Reach(g, u, v)
  {
    assert ReachIn(g, v, v, 0);
    assert ReachIn(g, u, v, 1);
  }

  lemma {:induction false} ReachInTransitive(g: Graph, u: Node, v: Node, w: Node, k: nat, m: nat)
    requires ReachIn(g, u, v, k) && ReachIn(g, v, w, m)
    ensures ReachIn(g, u, w, k + m)
    decreases k
  {
    if k > 0 {
      var x :| x in Successors(g, u) && ReachIn(g, x, v, k - 1);
      ReachInTransitive(g, x, v, w, k - 1, m);
    }
  }

  lemma ReachTransitive(g: Graph, u: Node, v: Node, w: Node)
    requires Reach(g, u, v) && Reach(g, v, w)
    ensures Reach(g, u, w)
  {
    var k: nat :| ReachIn(g, u, v, k);
    var m: nat :| ReachIn(g, v, w, m);
    ReachInTransitive(g, u, v, w, k, m);
  }

  /** A path that leaves a set crosses its border. */
  lemma {:induction false} LeavingEdge(g: Graph, s: set<Node>, u: Node, v: Node, k: nat)
    returns (x: Node, y: Node)
    requires ReachIn(g, u, v, k) && u in s && v !in s
    ensures x in s && x in g && y in Successors(g, x) && y !in s
    ensures Reach(g, u, x) && Reach(g, y, v)
    decreases k
  {
    var w :| w in Successors(g, u) && ReachIn(g, w, v, k - 1);
    if w in s {
      x, y := LeavingEdge(g, s, w, v, k - 1);
      ReachEdge(g, u, w);
      ReachTransitive(g, u, w, x);
    } else {
      x, y := u, w;
      ReachSelf(g, u);
    }
  }

  // Strongly connected sets

  ghost predicate StronglyConnected(g: Graph, c: set<Node>) {
    c != {} && c <= g.Keys && forall u, v | u in c && v in c :: Reach(g, u, v)
  }

  /** Strongly connected, and no strongly connected set properly contains it. */
  ghost predicate IsComponent(g: Graph, c: set<Node>) {
    StronglyConnected(g, c) && forall d | StronglyConnected(g, d) && c <= d :: d == c
  }

  /** The form the algorithm's invariant uses: one class of mutual reachability. */
  ghost predicate MutualClass(g: Graph, c: set<Node>) {
    && c != {} && c <= g.Keys
    && forall u, v | u in c && v in g :: v in c <==> Reach(g, u, v) && Reach(g, v, u)
  }

  lemma ComponentIsMutualClass(g: Graph, c: set<Node>)
    ensures IsComponent(g, c) <==> MutualClass(g, c)
  {
    if IsComponent(g, c) {
      forall u, v | u in c && v in g && Reach(g, u, v) && Reach(g, v, u) ensures v in c {
        var d := c + {v};
        forall a, b | a in d && b in d ensures Reach(g, a, b) {
          ReachSelf(g, v);
          if a != v && b == v { ReachTransitive(g, a, u, v); }
          if a == v && b != v { ReachTransitive(g, v, u, b); }
        }
        assert StronglyConnected(g, d);
      }
    }
    if MutualClass(g, c) {
      forall d | StronglyConnected(g, d) && c <= d ensures d == c {
        var u :| u in c;
        assert forall v | v in d :: Reach(g, u, v) && Reach(g, v, u);
      }
    }
  }

  lemma ComponentsAreDisjoint(g: Graph, c: set<Node>, d: set<Node>, n: Node)
    requires IsComponent(g, c) && IsComponent(g, d) && n in c && n in d
    ensures c == d
  {
    ComponentIsMutualClass(g, c);
    ComponentIsMutualClass(g, d);
    assert forall v | v in c :: Reach(g, n, v) && Reach(g, v, n);
    assert forall v | v in d :: Reach(g, n, v) && Reach(g, v, n);
  }

  // Acyclicity

  ghost predicate NoSelfEdges(g: Graph) {
    forall n | n in g :: n !in g[n]
  }

  /** Every node of `s` exactly once, and every edge inside `s` goes forward. */
  ghost predicate OrdersSet(g: Graph, s: set<Node>, order: seq<Node>) {
    && NoDuplicates(order) && Elements(order) == s
    && forall i, j | 0 <= i < |order| && 0 <= j < |order| && order[i] in g && order[j] in Successors(g, order[i]) ::
        i < j
  }

  ghost predicate TopologicalOrder(g: Graph, order: seq<Node>) {
    OrdersSet(g, g.Keys, order)
  }

  ghost predicate NoLargeComponent(g: Graph) {
    forall c | IsComponent(g, c) :: |c| < 2
  }

  ghost function ReachSet(g: Graph, u: Node): set<Node> {
    set v | v in g.Keys && Reach(g, u, v)
  }

  lemma MutualNodesShareAComponent(g: Graph, u: Node, v: Node) returns (c: set<Node>)
    requires Reach(g, u, v) && Reach(g, v, u)
    ensures IsComponent(g, c) && u in c && v in c
  {
    var k: nat :| ReachIn(g, u, v, k);
    c := set w | w in g.Keys && Reach(g, u, w) && Reach(g, w, u);
    ReachSelf(g, u);
    forall a, b | a in c && b in g ensures b in c <==> Reach(g, a, b) && Reach(g, b, a) {
      if b in c { ReachTransitive(g, a, u, b); ReachTransitive(g, b, u, a); }
      if Reach(g, a, b) && Reach(g, b, a) { ReachTransitive(g, u, a, b); ReachTransitive(g, b, a, u); }
    }
    ComponentIsMutualClass(g, c);
  }

  /** Without a component of two nodes, following edges inside `s` ends: each step shrinks the set
      of nodes still reachable. */
  lemma {:induction false} FindSink(g: Graph, s: set<Node>, u: Node) returns (sink: Node)
    requires NoSelfEdges(g) && NoLargeComponent(g) && s <= g.Keys && u in s
    ensures sink in s && Successors(g, sink) !! s
    decreases |ReachSet(g, u)|
  {
    if Successors(g, u) !! s {
      sink := u;
    } else {
      var v :| v in Successors(g, u) && v in s;
      ReachEdge(g, u, v);
      if Reach(g, v, u) {
        var c := MutualNodesShareAComponent(g, u, v);
        assert {u, v} <= c && |{u, v}| == 2;
        CardinalityOfSubset({u, v}, c);
        assert false;
      }
      forall w | w in ReachSet(g, v) ensures w in ReachSet(g, u) { ReachTransitive(g, u, v, w); }
      ReachSelf(g, u);
      assert u in ReachSet(g, u) && u !in ReachSet(g, v);
      CardinalityOfProperSubset(ReachSet(g, v), ReachSet(g, u));
      sink := FindSink(g, s, v);
    }
  }

  lemma {:induction false} CardinalityOfSubset<T>(a: set<T>, b: set<T>)
    requires a <= b
    ensures |a| <= |b|
  {
    assert b == a + (b - a);
  }

  lemma CardinalityOfProperSubset<T>(a: set<T>, b: set<T>)
    requires a < b
    ensures |a| < |b|
  {
    var x :| x in b && x !in a;
    CardinalityOfSubset(a, b - {x});
  }

  lemma SinkGoesLast(g: Graph, s: set<Node>, init: seq<Node>, sink: Node)
    requires s <= g.Keys && OrdersSet(g, s - {sink}, init) && sink in s && Successors(g, sink) !! s
    ensures OrdersSet(g, s, init + [sink])
  {
    hide Successors;
    var order := init + [sink];
    ElementsOfAppend(init, sink);
    forall k | 0 <= k < |init| ensures init[k] in s && init[k] != sink {
      assert init[k] in Elements(init);
    }
    forall i, j | 0 <= i < |order| && 0 <= j < |order| && order[i] in g && order[j] in Successors(g, order[i])
      ensures i < j
    {
      assert order[j] in s;
    }
  }

  lemma {:induction false} OrderOfSet(g: Graph, s: set<Node>) returns (order: seq<Node>)
    requires NoSelfEdges(g) && NoLargeComponent(g) && s <= g.Keys
    ensures OrdersSet(g, s, order)
    decreases |s|
  {
    if s == {} {
      order := [];
    } else {
      var u :| u in s;
      var sink := FindSink(g, s, u);
      var init := OrderOfSet(g, s - {sink});
      SinkGoesLast(g, s, init, sink);
      order := init + [sink];
    }
  }

  lemma {:induction false} PathGoesForward(g: Graph, order: seq<Node>, i: nat, j: nat, k: nat)
    requires TopologicalOrder(g, order) && i < |order| && j < |order|
    requires ReachIn(g, order[i], order[j], k)
    ensures i <= j
    decreases k
  {
    if k > 0 {
      var w :| w in Successors(g, order[i]) && ReachIn(g, w, order[j], k - 1);
      assert w in Elements(order);
      var m :| 0 <= m < |order| && order[m] == w;
      PathGoesForward(g, order, m, j, k - 1);
    }
  }

  lemma NoWayBack(g: Graph, order: seq<Node>, u: Node, v: Node)
    requires TopologicalOrder(g, order) && u in g && v in g && Reach(g, u, v) && Reach(g, v, u)
    ensures u == v
  {
    assert u in Elements(order) && v in Elements(order);
    var i :| 0 <= i < |order| && order[i] == u;
    var j :| 0 <= j < |order| && order[j] == v;
    var k: nat :| ReachIn(g, u, v, k);
    var m: nat :| ReachIn(g, v, u, m);
    PathGoesForward(g, order, i, j, k);
    PathGoesForward(g, order, j, i, m);
  }

  /** A graph without self-edges is acyclic, that is, has a topological order, exactly when all its
      components are single nodes. */
  lemma AcyclicIffNoLargeComponent(g: Graph)
    requires NoSelfEdges(g)
    ensures NoLargeComponent(g) <==> exists order :: TopologicalOrder(g, order)
  {
    hide OrdersSet, Reach;
    if NoLargeComponent(g) {
      var order := OrderOfSet(g, g.Keys);
      assert TopologicalOrder(g, order);
    }
    if order :| TopologicalOrder(g, order) {
      forall c | IsComponent(g, c) ensures |c| < 2 {
        forall u, v | u in c && v in c ensures u == v {
          NoWayBack(g, order, u, v);
        }
        var u :| u in c;
        assert c == {u};
      }
    }
  }
}
