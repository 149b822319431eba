/** Directed graphs of imports: reachability, strongly connected components and
    topological orders, independent of any algorithm. */
module Graphs {
  import opened Ordering

  type Node = string
  type Graph = map<Node, set<Node>>

  /** The shape `import_graph` builds: every edge target is itself a module. */
  ghost predicate TargetClosed(g: Graph) {
    forall x, y {:trigger Edge(g, x, y)} | Edge(g, x, y) :: y in g
  }

  predicate Edge(g: Graph, x: Node, y: Node) {
    x in g && y in g[x]
  }

  ghost predicate Walk(g: Graph, p: seq<Node>) {
    && p != []
    && p[0] in g
    && (|p| > 1 ==> Edge(g, p[0], p[1]) && Walk(g, p[1..]))
  }

  ghost predicate Reach(g: Graph, x: Node, y: Node) {
    exists p :: Walk(g, p) && p[0] == x && p[|p| - 1] == y
  }

  ghost predicate MutuallyReachable(g: Graph, x: Node, y: Node) {
    Reach(g, x, y) && Reach(g, y, x)
  }

  /** A strongly connected component: mutually reachable, and maximal. */
  ghost predicate IsScc(g: Graph, c: set<Node>) {
    && c != {}
    && (forall x, y | x in c && y in c :: Reach(g, x, y))
    && (forall x, y | x in c && MutuallyReachable(g, x, y) :: y in c)
  }

  ghost predicate NontrivialScc(g: Graph, c: set<Node>) {
    IsScc(g, c) && (|c| > 1 || exists v | v in c :: Edge(g, v, v))
  }

  /** The node can be left along an edge and reached again. */
  ghost predicate OnCycle(g: Graph, v: Node) {
    exists w | Edge(g, v, w) :: Reach(g, w, v)
  }

  /** Every module once, and each after all the modules it imports. */
  ghost predicate TopologicalOrder(g: Graph, order: seq<Node>) {
    && Distinct(order)
    && Elements(order) == g.Keys
    && (forall j, y | 0 <= j < |order| && Edge(g, order[j], y) :: y in order[..j])
  }

  // ------------------------------------------------------------- reachability

  lemma ReachSelf(g: Graph, x: Node)
    requires x in g
    ensures Reach(g, x, x)
  {
    assert Walk(g, [x]);
  }

  lemma {:induction false} WalkJoin(g: Graph, p: seq<Node>, q: seq<Node>)
    requires Walk(g, p) && Walk(g, q) && p[|p| - 1] == q[0]
    ensures Walk(g, p + q[1..]) && (p + q[1..])[0] == p[0]
    ensures (p + q[1..])[|p + q[1..]| - 1] == q[|q| - 1]
  {
    if |p| == 1 {
      assert p + q[1..] == q;
    } else {
      WalkJoin(g, p[1..], q);
      assert (p + q[1..])[1..] == p[1..] + q[1..];
    }
  }

  lemma ReachTransitive(g: Graph, x: Node, y: Node, z: Node)
    requires Reach(g, x, y) && Reach(g, y, z)
    ensures Reach(g, x, z)
  {
    var p :| Walk(g, p) && p[0] == x && p[|p| - 1] == y;
    var q :| Walk(g, q) && q[0] == y && q[|q| - 1] == z;
    WalkJoin(g, p, q);
  }

  lemma ReachEdge(g: Graph, x: Node, y: Node)
    requires Edge(g, x, y) && y in g
    ensures Reach(g, x, y)
  {
    assert [x, y][1..] == [y];
    assert Walk(g, [x, y]);
  }

  lemma {:induction false} WalkStaysInside(g: Graph, s: set<Node>, p: seq<Node>)
    requires Walk(g, p) && p[0] in s
    requires forall x, y | x in s && Edge(g, x, y) :: y in s
    ensures p[|p| - 1] in s
  {
    if |p| > 1 {
      WalkStaysInside(g, s, p[1..]);
    }
  }

  /** A set that no edge leaves cannot be left at all. */
  lemma ReachStaysInside(g: Graph, s: set<Node>, x: Node, y: Node)
    requires x in s && Reach(g, x, y)
    requires forall a, b | a in s && Edge(g, a, b) :: b in s
    ensures y in s
  {
    var p :| Walk(g, p) && p[0] == x && p[|p| - 1] == y;
    WalkStaysInside(g, s, p);
  }

  lemma {:induction false} WalkEndsInGraph(g: Graph, p: seq<Node>)
    requires Walk(g, p)
    ensures p[|p| - 1] in g
  {
    if |p| > 1 { WalkEndsInGraph(g, p[1..]); }
  }

  lemma ReachInGraph(g: Graph, x: Node, y: Node)
    requires Reach(g, x, y)
    ensures x in g && y in g
  {
    var p :| Walk(g, p) && p[0] == x && p[|p| - 1] == y;
    WalkEndsInGraph(g, p);
  }

  // --------------------------------------------------------------- components

  lemma SccUnique(g: Graph, c: set<Node>, d: set<Node>, v: Node)
    requires IsScc(g, c) && IsScc(g, d) && v in c && v in d
    ensures c == d
  {
    forall x | x in c ensures x in d { assert MutuallyReachable(g, v, x); }
    forall x | x in d ensures x in c { assert MutuallyReachable(g, v, x); }
  }

  /** A node lies on a cycle exactly when its component is nontrivial. */
  lemma CycleIffNontrivial(g: Graph, c: set<Node>, v: Node)
    requires TargetClosed(g) && IsScc(g, c) && v in c
    ensures OnCycle(g, v) <==> NontrivialScc(g, c)
  {
    if OnCycle(g, v) {
      var w :| Edge(g, v, w) && Reach(g, w, v);
      ReachEdge(g, v, w);
      assert MutuallyReachable(g, v, w);
      if w != v {
        assert {v, w} <= c;
        CardinalityMonotone({v, w}, c);
      }
    }
    if NontrivialScc(g, c) {
      if |c| > 1 {
        assert c != {v} by { assert |{v}| == 1; }
        var w :| w in c && w != v;
        NontrivialWalkGivesCycle(g, v, w);
      } else {
        var u :| u in c && Edge(g, u, u);
        assert u == v by { if u != v { CardinalityMonotone({u, v}, c); } }
        ReachInGraph(g, v, v);
        ReachSelf(g, v);
      }
    }
  }

  lemma NontrivialWalkGivesCycle(g: Graph, v: Node, w: Node)
    requires TargetClosed(g) && v != w && MutuallyReachable(g, v, w)
    ensures OnCycle(g, v)
  {
    var p :| Walk(g, p) && p[0] == v && p[|p| - 1] == w;
    assert Edge(g, v, p[1]) && Walk(g, p[1..]);
    assert Reach(g, p[1], w);
    ReachTransitive(g, p[1], w, v);
  }

  lemma CardinalityMonotone<T>(a: set<T>, b: set<T>)
    requires a <= b
    ensures |a| <= |b|
  {
    assert b == a + (b - a);
  }

  // -------------------------------------------------------- topological orders

  lemma {:induction false} WalkGoesBack(g: Graph, order: seq<Node>, p: seq<Node>, j: nat)
    requires TopologicalOrder(g, order) && Walk(g, p) && j < |order| && order[j] == p[0]
    ensures p[|p| - 1] in order[..j + 1]
  {
    if |p| > 1 {
      assert p[1] in order[..j];
      var i :| 0 <= i < j && order[i] == p[1];
      WalkGoesBack(g, order, p[1..], i);
      assert order[..i + 1] <= order[..j + 1];
    }
  }

  /** A topological order rules out every cycle. */
  lemma OrderedHasNoCycle(g: Graph, order: seq<Node>, v: Node)
    requires TargetClosed(g) && TopologicalOrder(g, order)
    ensures !OnCycle(g, v)
  {
    if OnCycle(g, v) {
      var w :| Edge(g, v, w) && Reach(g, w, v);
      var p :| Walk(g, p) && p[0] == w && p[|p| - 1] == v;
      assert v in Elements(order);
      var j :| 0 <= j < |order| && order[j] == v;
      assert w in order[..j];
      var i :| 0 <= i < j && order[i] == w;
      WalkGoesBack(g, order, p, i);
    }
  }
}
