/** What a running search for strongly connected components maintains, and why each
    step of Tarjan's algorithm keeps it. `ImportCycles` runs the search. */
module TarjanInvariant {
  import opened Ordering
  import opened Graphs

  // ------------------------------------------------------- what a run maintains

  /** The part of a running search the proof speaks of. `gray` holds the nodes whose
      `visit` has not returned, `sccs` every component popped so far, trivial or not. */
  datatype Search = Search(idx: map<Node, nat>, stack: seq<Node>, gray: set<Node>, sccs: seq<set<Node>>)

  ghost function Popped(sccs: seq<set<Node>>): set<Node> {
    set i, v | 0 <= i < |sccs| && v in sccs[i] :: v
  }

  ghost predicate Partition(nodes: set<Node>, indexed: set<Node>, stacked: set<Node>, popped: set<Node>,
                            gray: set<Node>)
  {
    indexed <= nodes && indexed == stacked + popped && stacked !! popped && gray <= stacked
  }

  /** Every indexed node is on the stack or in a popped component, never both. */
  ghost predicate Coloured(g: Graph, s: Search) {
    Partition(g.Keys, s.idx.Keys, Elements(s.stack), Popped(s.sccs), s.gray)
  }

  /** Stack order is index order, and the next index is larger than all in use. */
  ghost predicate Numbered(idx: map<Node, nat>, stack: seq<Node>) {
    && (forall v | v in idx :: idx[v] < |idx|)
    && (forall v | v in stack :: v in idx)
    && (forall i, j | 0 <= i < j < |stack| :: idx[stack[i]] < idx[stack[j]])
  }

  ghost predicate NoFinishedToNew(g: Graph, indexed: set<Node>, gray: set<Node>) {
    forall x, y {:trigger Edge(g, x, y)} | x in indexed && x !in gray && Edge(g, x, y) :: y in indexed
  }

  ghost predicate AnchoredAt(g: Graph, s: Search, x: Node, y: Node) {
    x in s.gray && x in s.idx && y in s.idx && s.idx[x] <= s.idx[y] && Reach(g, y, x)
  }

  ghost predicate Anchored(g: Graph, s: Search, y: Node) {
    exists x :: AnchoredAt(g, s, x, y)
  }

  /** Whatever is on the stack reaches an unfinished node at or below it ... */
  ghost predicate StackReachesGray(g: Graph, s: Search) {
    forall y {:trigger Anchored(g, s, y)} | y in s.stack :: Anchored(g, s, y)
  }

  /** ... and every unfinished node reaches whatever is at or above it. */
  ghost predicate GrayReachesStack(g: Graph, s: Search) {
    forall x, y {:trigger Reach(g, x, y)} |
      x in s.gray && y in s.stack && x in s.idx && y in s.idx && s.idx[x] <= s.idx[y] :: Reach(g, x, y)
  }

  /** Popped components are components, disjoint, and listed targets first. */
  ghost predicate Finished(g: Graph, sccs: seq<set<Node>>) {
    && (forall i | 0 <= i < |sccs| :: IsScc(g, sccs[i]))
    && (forall i, j | 0 <= i < j < |sccs| :: sccs[i] !! sccs[j])
    && (forall i, x, y | 0 <= i < |sccs| && x in sccs[i] && Edge(g, x, y) :: y in Popped(sccs[..i + 1]))
  }

  ghost predicate Invariant(g: Graph, s: Search) {
    && TargetClosed(g)
    && Coloured(g, s)
    && Numbered(s.idx, s.stack)
    && NoFinishedToNew(g, s.idx.Keys, s.gray)
    && StackReachesGray(g, s)
    && GrayReachesStack(g, s)
    && Finished(g, s.sccs)
  }

  ghost predicate Grows(s0: Search, s: Search) {
    && s0.idx.Keys <= s.idx.Keys
    && (forall v | v in s0.idx :: s.idx[v] == s0.idx[v])
    && s0.stack <= s.stack
    && s0.sccs <= s.sccs
  }

  ghost predicate LowAt(g: Graph, s: Search, node: Node, l: nat, z: Node) {
    z in s.stack && z in s.idx && s.idx[z] == l && Reach(g, node, z)
  }

  /** `l` is the index of a stacked node that `node` reaches. */
  ghost predicate LowReached(g: Graph, s: Search, node: Node, l: nat) {
    exists z :: LowAt(g, s, node, l, z)
  }

  /** No edge from the stack at or above `depth` into `base` goes below `l`. */
  ghost predicate LowBounds(g: Graph, s: Search, base: seq<Node>, depth: nat, l: nat) {
    forall i, y | depth <= i < |s.stack| && Edge(g, s.stack[i], y) && y in base && y in s.idx :: l <= s.idx[y]
  }

  /** What one `visit(node)` achieves, from `s0` to `s`, returning low-link `l`. */
  ghost predicate Visited(g: Graph, s0: Search, s: Search, node: Node, l: nat) {
    && Grows(s0, s)
    && s.gray == s0.gray
    && node in s.idx && s.idx[node] == |s0.idx| && l <= s.idx[node]
    && LowBounds(g, s, s0.stack, |s0.stack|, l)
    && (node in s.stack ==> LowReached(g, s, node, l))
    && (node !in s.stack ==> s.stack == s0.stack && l == s.idx[node])
  }

  function Push(s: Search, node: Node): Search {
    Search(s.idx[node := |s.idx|], s.stack + [node], s.gray + {node}, s.sccs)
  }

  /** Half-way through `node`: the first `k` of its targets have been handled. */
  ghost predicate Exploring(g: Graph, s0: Search, s: Search, node: Node, targets: seq<Node>, k: nat, l: nat)
    requires k <= |targets|
  {
    && Grows(Push(s0, node), s)
    && s.gray == s0.gray + {node}
    && s.idx[node] == |s0.idx| && l <= s.idx[node]
    && LowReached(g, s, node, l)
    && LowBounds(g, s, s0.stack, |s0.stack| + 1, l)
    && (forall j | 0 <= j < k :: targets[j] in s.idx)
    && (forall j | 0 <= j < k && targets[j] in s0.stack :: l <= s.idx[targets[j]])
  }

  lemma PushGrows(s0: Search, s: Search, node: Node)
    requires Grows(Push(s0, node), s) && node !in s0.idx
    ensures Grows(s0, s) && |s0.stack| < |s.stack| && s.stack[|s0.stack|] == node
    ensures forall x | x in s0.stack :: x in s.stack
  {
    var p := Push(s0, node);
    assert p.stack[|s0.stack|] == node && s0.stack <= p.stack;
  }

  function Min(a: nat, b: nat): nat { if a <= b then a else b }

  // ------------------------------------------------------------ the proof steps

  lemma StackPositions(s: Search, a: nat, x: Node)
    requires Numbered(s.idx, s.stack) && a < |s.stack| && x in s.stack
    ensures x in s.stack[a..] <==> s.idx[s.stack[a]] <= s.idx[x]
    ensures x in s.stack[..a] <==> s.idx[x] < s.idx[s.stack[a]]
  {
    var i :| 0 <= i < |s.stack| && s.stack[i] == x;
    assert i >= a ==> s.stack[a..][i - a] == x;
    assert i < a ==> s.stack[..a][i] == x;
  }

  lemma PushKeepsInvariant(g: Graph, s: Search, node: Node)
    requires Invariant(g, s) && node in g && node !in s.idx
    requires forall x | x in s.gray :: Reach(g, x, node)
    ensures Invariant(g, Push(s, node))
  {
    hide Reach, Finished, StackReachesGray, GrayReachesStack, Numbered, Coloured, NoFinishedToNew, TargetClosed;
    PushColours(g, s, node);
    PushNumbers(s, node);
    PushReaches(g, s, node);
  }

  lemma PushColours(g: Graph, s: Search, node: Node)
    requires Coloured(g, s) && NoFinishedToNew(g, s.idx.Keys, s.gray) && node in g && node !in s.idx
    ensures Coloured(g, Push(s, node)) && NoFinishedToNew(g, Push(s, node).idx.Keys, Push(s, node).gray)
    ensures s.gray <= Elements(s.stack)
  {
    hide Popped, Elements, Partition;
    var p := Push(s, node);
    assert p.idx.Keys == s.idx.Keys + {node};
    ElementsPush(s.stack, node);
    PartitionPush(g.Keys, s.idx.Keys, Elements(s.stack), Popped(s.sccs), s.gray, node);
  }

  lemma PartitionPush(nodes: set<Node>, indexed: set<Node>, stacked: set<Node>, popped: set<Node>, gray: set<Node>,
                      node: Node)
    requires Partition(nodes, indexed, stacked, popped, gray) && node in nodes && node !in indexed
    ensures Partition(nodes, indexed + {node}, stacked + {node}, popped, gray + {node})
    ensures gray <= stacked
  {
  }

  lemma ElementsPush(s: seq<Node>, x: Node)
    ensures Elements(s + [x]) == Elements(s) + {x}
  {
  }

  lemma PushNumbers(s: Search, node: Node)
    requires Numbered(s.idx, s.stack) && node !in s.idx
    ensures Numbered(Push(s, node).idx, Push(s, node).stack)
  {
    var p := Push(s, node);
    assert p.idx.Keys == s.idx.Keys + {node};
    assert |p.idx| == |s.idx| + 1;
    forall i, j | 0 <= i < j < |p.stack| ensures p.idx[p.stack[i]] < p.idx[p.stack[j]] {
      assert s.stack[i] in s.stack;
      if j < |s.stack| { assert s.stack[j] in s.stack; }
    }
  }

  lemma PushReaches(g: Graph, s: Search, node: Node)
    requires Numbered(s.idx, s.stack) && StackReachesGray(g, s) && GrayReachesStack(g, s) && node in g && node !in s.idx
    requires s.gray <= Elements(s.stack)
    requires forall x | x in s.gray :: Reach(g, x, node)
    ensures StackReachesGray(g, Push(s, node)) && GrayReachesStack(g, Push(s, node))
  {
    hide Reach;
    var p := Push(s, node);
    ReachSelf(g, node);
    assert AnchoredAt(g, p, node, node);
    forall y | y in p.stack ensures Anchored(g, p, y) {
      if y != node {
        assert Anchored(g, s, y);
        var x :| AnchoredAt(g, s, x, y);
        assert AnchoredAt(g, p, x, y);
      }
    }
  }

  lemma StartExploring(g: Graph, s0: Search, node: Node, targets: seq<Node>)
    requires node in g && node !in s0.idx
    ensures Exploring(g, s0, Push(s0, node), node, targets, 0, |s0.idx|)
  {
    hide Reach;
    var p := Push(s0, node);
    ReachSelf(g, node);
    assert LowAt(g, p, node, |s0.idx|, node);
  }

  lemma GrowsTransitive(a: Search, b: Search, c: Search)
    requires Grows(a, b) && Grows(b, c)
    ensures Grows(a, c)
  {
  }

  lemma LowBoundsWeaken(g: Graph, s: Search, base: seq<Node>, depth: nat, l: nat, m: nat)
    requires LowBounds(g, s, base, depth, l) && m <= l
    ensures LowBounds(g, s, base, depth, m)
  {
  }

  /** A nested visit bounds its own part of the stack, the loop before it the part below. */
  lemma LowBoundsJoin(g: Graph, s: Search, s': Search, base: seq<Node>, depth: nat, l: nat, lt: nat)
    requires LowBounds(g, s, base, depth, l) && LowBounds(g, s', s.stack, |s.stack|, lt)
    requires Grows(s, s') && Elements(s.stack) <= s.idx.Keys
    requires forall y | y in base :: y in s.stack
    ensures LowBounds(g, s', base, depth, Min(l, lt))
  {
    forall i, y | depth <= i < |s'.stack| && Edge(g, s'.stack[i], y) && y in base && y in s'.idx
      ensures Min(l, lt) <= s'.idx[y]
    {
      assert y in Elements(s.stack);
      if i < |s.stack| { assert s'.stack[i] == s.stack[i]; }
    }
  }

  lemma LowReachedVia(g: Graph, s: Search, node: Node, t: Node, l: nat)
    requires Edge(g, node, t) && t in g && LowReached(g, s, t, l)
    ensures LowReached(g, s, node, l)
  {
    hide Reach;
    var z :| LowAt(g, s, t, l, z);
    ReachEdge(g, node, t);
    ReachTransitive(g, node, t, z);
    assert LowAt(g, s, node, l, z);
  }

  lemma LowReachedGrows(g: Graph, s: Search, s': Search, node: Node, l: nat)
    requires LowReached(g, s, node, l) && Grows(s, s')
    ensures LowReached(g, s', node, l)
  {
    hide Reach;
    var z :| LowAt(g, s, node, l, z);
    assert LowAt(g, s', node, l, z);
  }

  /** After `visit(targets[k])` returned with low-link `lt`. */
  lemma TargetVisited(g: Graph, s0: Search, s: Search, s': Search, node: Node, targets: seq<Node>, k: nat, l: nat,
                      lt: nat)
    requires k < |targets| && Edge(g, node, targets[k]) && targets[k] in g && node !in s0.idx
    requires Exploring(g, s0, s, node, targets, k, l) && node in s.idx && s.idx[node] < |s.idx|
    requires targets[k] !in s.idx && Visited(g, s, s', targets[k], lt)
    requires Elements(s.stack) <= s.idx.Keys
    ensures Exploring(g, s0, s', node, targets, k + 1, Min(l, lt))
  {
    hide LowBounds, LowReached;
    PushGrows(s0, s, node);
    LowBoundsJoin(g, s, s', s0.stack, |s0.stack| + 1, l, lt);
    if lt < l { LowReachedVia(g, s', node, targets[k], lt); } else { LowReachedGrows(g, s, s', node, l); }
    assert targets[k] !in Elements(s.stack);
    IndexedGrows(s, s', targets, k, s0.stack, l, Min(l, lt));
    GrowsTransitive(Push(s0, node), s, s');
    hide Grows;
  }

  /** The bounds on targets handled so far survive growth and a smaller link. */
  lemma IndexedGrows(s: Search, s': Search, targets: seq<Node>, k: nat, base: seq<Node>, l: nat, m: nat)
    requires k <= |targets| && Grows(s, s') && m <= l
    requires forall j | 0 <= j < k :: targets[j] in s.idx && (targets[j] in base ==> l <= s.idx[targets[j]])
    ensures forall j | 0 <= j < k :: targets[j] in s'.idx && (targets[j] in base ==> m <= s'.idx[targets[j]])
  {
  }

  /** The target was indexed before: a stacked one may lower the link, a popped one may not. */
  lemma TargetSeen(g: Graph, s0: Search, s: Search, node: Node, targets: seq<Node>, k: nat, l: nat)
    requires k < |targets| && Edge(g, node, targets[k]) && targets[k] in g
    requires Exploring(g, s0, s, node, targets, k, l) && targets[k] in s.idx && node !in s0.idx
    ensures targets[k] in s.stack ==> Exploring(g, s0, s, node, targets, k + 1, Min(l, s.idx[targets[k]]))
    ensures targets[k] !in s.stack ==> Exploring(g, s0, s, node, targets, k + 1, l)
  {
    hide LowBounds, LowReached;
    var t := targets[k];
    PushGrows(s0, s, node);
    if t in s.stack {
      LowBoundsWeaken(g, s, s0.stack, |s0.stack| + 1, l, Min(l, s.idx[t]));
      if s.idx[t] < l { ReachTarget(g, s, node, t); }
    }
    hide Grows;
  }

  lemma ReachTarget(g: Graph, s: Search, node: Node, t: Node)
    requires Edge(g, node, t) && t in g && t in s.stack && t in s.idx
    ensures LowReached(g, s, node, s.idx[t])
  {
    hide Reach;
    ReachEdge(g, node, t);
    assert LowAt(g, s, node, s.idx[t], t);
  }

  /** All targets handled: what the finished node and the stack above it point to. */
  lemma EdgesAboveNode(g: Graph, s0: Search, s: Search, node: Node, targets: seq<Node>, l: nat)
    requires NoFinishedToNew(g, s.idx.Keys, s.gray) && node in g && node !in s0.gray && Elements(targets) == g[node]
    requires Exploring(g, s0, s, node, targets, |targets|, l)
    ensures |s0.stack| < |s.stack| && s.stack[|s0.stack|] == node && s.stack[..|s0.stack|] == s0.stack
    ensures NoFinishedToNew(g, s.idx.Keys, s0.gray)
    ensures LowBounds(g, s, s0.stack, |s0.stack|, l)
  {
    hide Reach, LowReached;
    var d := |s0.stack|;
    assert Push(s0, node).stack[d] == node;
    forall y | Edge(g, node, y) ensures y in s.idx && (y in s0.stack ==> l <= s.idx[y]) {
      assert y in Elements(targets);
    }
    forall i, y | d <= i < |s.stack| && Edge(g, s.stack[i], y) && y in s0.stack && y in s.idx ensures l <= s.idx[y] {
      if i != d { assert d + 1 <= i; }
    }
  }

  /** `low[node] < indices[node]`: the node stays on the stack for an older root. */
  lemma LeaveOnStack(g: Graph, s0: Search, s: Search, node: Node, targets: seq<Node>, l: nat)
    requires Invariant(g, s0) && Invariant(g, s) && node in g && node !in s0.idx
    requires Elements(targets) == g[node] && node !in s0.gray
    requires Exploring(g, s0, s, node, targets, |targets|, l) && node in s.idx && l < s.idx[node]
    ensures Invariant(g, s.(gray := s0.gray))
    ensures Visited(g, s0, s.(gray := s0.gray), node, l)
  {
    hide Finished, Popped, NoFinishedToNew, StackReachesGray, GrayReachesStack, Reach;
    EdgesAboveNode(g, s0, s, node, targets, l);
    PushGrows(s0, s, node);
    OldAnchor(g, s0, s, node, l);
    hide Grows, LowBounds;
    GrayShrinks(g, s, s0.gray);
    StillVisited(g, s0, s, node, l);
  }

  lemma GrayShrinks(g: Graph, s: Search, gray: set<Node>)
    requires GrayReachesStack(g, s) && Coloured(g, s) && gray <= s.gray
    ensures GrayReachesStack(g, s.(gray := gray)) && Coloured(g, s.(gray := gray))
  {
    hide Reach, Popped;
  }

  lemma StillVisited(g: Graph, s0: Search, s: Search, node: Node, l: nat)
    requires Grows(s0, s) && LowReached(g, s, node, l) && LowBounds(g, s, s0.stack, |s0.stack|, l)
    requires |s0.stack| < |s.stack| && s.stack[|s0.stack|] == node
    requires node in s.idx && s.idx[node] == |s0.idx| && l <= s.idx[node]
    ensures Visited(g, s0, s.(gray := s0.gray), node, l)
  {
    hide Reach;
    var z :| LowAt(g, s, node, l, z);
    assert LowAt(g, s.(gray := s0.gray), node, l, z);
  }

  lemma OldAnchor(g: Graph, s0: Search, s: Search, node: Node, l: nat)
    requires StackReachesGray(g, s0) && StackReachesGray(g, s) && Numbered(s.idx, s.stack)
    requires Elements(s0.stack) <= s0.idx.Keys
    requires Grows(s0, s) && |s0.stack| < |s.stack| && s.stack[|s0.stack|] == node && s.stack[..|s0.stack|] == s0.stack
    requires node in s.idx && LowReached(g, s, node, l) && l < s.idx[node] && s.gray == s0.gray + {node}
    ensures StackReachesGray(g, s.(gray := s0.gray))
  {
    hide Reach, StackReachesGray;
    var z :| LowAt(g, s, node, l, z);
    StackPositions(s, |s0.stack|, z);
    assert z in Elements(s0.stack);
    AnchorBelow(g, s0, s, node, z);
  }

  lemma AnchorBelow(g: Graph, s0: Search, s: Search, node: Node, z: Node)
    requires StackReachesGray(g, s0) && StackReachesGray(g, s)
    requires z in s0.stack && Reach(g, node, z) && Grows(s0, s) && node in s.idx && z in s0.idx
               && s.idx[z] < s.idx[node]
    requires s.gray == s0.gray + {node}
    ensures StackReachesGray(g, s.(gray := s0.gray))
  {
    hide Reach;
    var s' := s.(gray := s0.gray);
    assert Anchored(g, s0, z);
    var w :| AnchoredAt(g, s0, w, z);
    ReachTransitive(g, node, z, w);
    forall y | y in s'.stack ensures Anchored(g, s', y) {
      assert Anchored(g, s, y);
      var x :| AnchoredAt(g, s, x, y);
      if x == node {
        ReachTransitive(g, y, node, w);
        assert AnchoredAt(g, s', w, y);
      } else {
        assert AnchoredAt(g, s', x, y);
      }
    }
  }

  /** `low[node] == indices[node]`: no edge leaves the top of the stack but into popped components. */
  lemma TopIsClosed(g: Graph, s0: Search, s: Search, node: Node, targets: seq<Node>, x: Node, y: Node)
    requires Invariant(g, s0) && Invariant(g, s) && node in g && node !in s0.idx
    requires Elements(targets) == g[node]
    requires node in s.idx && Exploring(g, s0, s, node, targets, |targets|, s.idx[node])
    requires x in s.stack[|s0.stack|..] && Edge(g, x, y)
    ensures y in s.stack[|s0.stack|..] || y in Popped(s.sccs)
  {
    hide Reach, Finished, StackReachesGray, GrayReachesStack, Popped;
    var d := |s0.stack|;
    EdgesAboveNode(g, s0, s, node, targets, s.idx[node]);
    assert x in s.stack && x in Elements(s.stack);
    if x in s0.gray { GrayBelow(g, s0, s, node, x); }
    assert y in s.idx;
    if y in s.stack {
      StackPositions(s, d, y);
    } else {
      assert y !in Elements(s.stack);
    }
  }

  /** ... so what lies on the stack from `node` up is a component. */
  lemma TopIsScc(g: Graph, s0: Search, s: Search, node: Node, targets: seq<Node>)
    requires Invariant(g, s0) && Invariant(g, s) && node in g && node !in s0.idx
    requires Elements(targets) == g[node] && node !in s0.gray
    requires node in s.idx && Exploring(g, s0, s, node, targets, |targets|, s.idx[node])
    ensures IsScc(g, Elements(s.stack[|s0.stack|..]))
  {
    hide Reach, Popped, Finished, NoFinishedToNew, StackReachesGray, GrayReachesStack, LowBounds, LowReached, Numbered;
    var d, popped := |s0.stack|, Popped(s.sccs);
    EdgesAboveNode(g, s0, s, node, targets, s.idx[node]);
    hide Grows;
    var c := Elements(s.stack[d..]);
    var closed := c + popped;
    PoppedClosed(g, s.sccs);
    forall x, y | x in closed && Edge(g, x, y) ensures y in closed {
      if x in c { TopIsClosed(g, s0, s, node, targets, x, y); }
    }
    forall y | y in c ensures MutuallyReachable(g, node, y) {
      NodeReachesTop(g, s, node, d, y);
      TopReachesNode(g, s0, s, node, y, closed);
    }
    assert c !! popped by { TopNotPopped(s, d, popped); }
    assert node in c by { assert s.stack[d..][0] == node; }
    ComponentFromRoot(g, c, node, closed, popped);
  }

  lemma TopNotPopped(s: Search, d: nat, popped: set<Node>)
    requires Elements(s.stack) !! popped && d <= |s.stack|
    ensures Elements(s.stack[d..]) !! popped
  {
    forall x | x in s.stack[d..] ensures x in Elements(s.stack) { assert x in s.stack; }
  }

  lemma NodeReachesTop(g: Graph, s: Search, node: Node, d: nat, y: Node)
    requires GrayReachesStack(g, s) && Numbered(s.idx, s.stack) && node in s.gray
    requires d < |s.stack| && s.stack[d] == node && y in s.stack[d..]
    ensures Reach(g, node, y)
  {
    hide Reach;
    assert y in s.stack;
    StackPositions(s, d, y);
  }

  lemma TopReachesNode(g: Graph, s0: Search, s: Search, node: Node, y: Node, closed: set<Node>)
    requires Coloured(g, s) && Numbered(s.idx, s.stack) && StackReachesGray(g, s) && node !in s0.idx && Coloured(g, s0)
    requires Grows(Push(s0, node), s) && s.gray == s0.gray + {node}
    requires |s0.stack| < |s.stack| && y in s.stack[|s0.stack|..]
    requires closed == Elements(s.stack[|s0.stack|..]) + Popped(s.sccs)
    requires forall a, b | a in closed && Edge(g, a, b) :: b in closed
    ensures Reach(g, y, node)
  {
    hide Reach, Popped;
    assert y in s.stack;
    assert Anchored(g, s, y);
    var x :| AnchoredAt(g, s, x, y);
    ReachStaysInside(g, closed, y, x);
    assert x in Elements(s.stack) && x !in Popped(s.sccs);
    assert x in s.stack[|s0.stack|..];
    GrayBelow(g, s0, s, node, x);
  }

  lemma ComponentFromRoot(g: Graph, c: set<Node>, root: Node, closed: set<Node>, popped: set<Node>)
    requires root in c && c !! popped && closed == c + popped
    requires forall y | y in c :: MutuallyReachable(g, root, y)
    requires forall x, y | x in closed && Edge(g, x, y) :: y in closed
    requires forall x, y | x in popped && Edge(g, x, y) :: y in popped
    ensures IsScc(g, c)
  {
    hide Reach;
    forall x, y | x in c && y in c ensures Reach(g, x, y) { ReachTransitive(g, x, root, y); }
    forall x, y | x in c && MutuallyReachable(g, x, y) ensures y in c {
      ReachStaysInside(g, closed, x, y);
      if y in popped { ReachStaysInside(g, popped, y, x); }
    }
  }

  /** Above `node` on the stack nothing is unfinished. */
  lemma GrayBelow(g: Graph, s0: Search, s: Search, node: Node, x: Node)
    requires Coloured(g, s0) && Numbered(s.idx, s.stack) && node !in s0.idx
    requires Grows(Push(s0, node), s) && s.gray == s0.gray + {node}
    requires |s0.stack| < |s.stack| && x in s.stack[|s0.stack|..] && x in s.gray
    ensures x == node
  {
    hide Reach, Popped;
    assert x in s.stack && s.stack[..|s0.stack|] == s0.stack;
    StackPositions(s, |s0.stack|, x);
  }

  lemma PoppedClosed(g: Graph, sccs: seq<set<Node>>)
    requires Finished(g, sccs)
    ensures forall x, y | x in Popped(sccs) && Edge(g, x, y) :: y in Popped(sccs)
  {
    forall x, y | x in Popped(sccs) && Edge(g, x, y) ensures y in Popped(sccs) {
      var i :| 0 <= i < |sccs| && x in sccs[i];
      assert y in Popped(sccs[..i + 1]);
      var j :| 0 <= j < i + 1 && y in sccs[..i + 1][j];
      assert sccs[..i + 1][j] == sccs[j];
    }
  }

  lemma PoppedAppend(sccs: seq<set<Node>>, c: set<Node>)
    ensures Popped(sccs + [c]) == Popped(sccs) + c
  {
    var all := sccs + [c];
    assert all[|sccs|] == c;
    forall v | v in Popped(sccs) ensures v in Popped(all) {
      var i :| 0 <= i < |sccs| && v in sccs[i];
      assert v in all[i];
    }
  }

  /** Popping that component keeps the invariant and completes the visit. */
  lemma PopScc(g: Graph, s0: Search, s: Search, node: Node, targets: seq<Node>)
    requires Invariant(g, s0) && Invariant(g, s) && node in g && node !in s0.idx
    requires Elements(targets) == g[node] && node !in s0.gray
    requires node in s.idx && Exploring(g, s0, s, node, targets, |targets|, s.idx[node])
    ensures var s' := Search(s.idx, s0.stack, s0.gray, s.sccs + [Elements(s.stack[|s0.stack|..])]);
            Invariant(g, s') && Visited(g, s0, s', node, s.idx[node])
  {
    hide Reach, Finished, IsScc, Popped, GrayReachesStack, StackReachesGray, NoFinishedToNew, LowBounds, LowReached,
         Numbered;
    var d := |s0.stack|;
    var c := Elements(s.stack[d..]);
    var s' := Search(s.idx, s0.stack, s0.gray, s.sccs + [c]);
    EdgesAboveNode(g, s0, s, node, targets, s.idx[node]);
    PushGrows(s0, s, node);
    TopIsScc(g, s0, s, node, targets);
    forall x, y | x in c && Edge(g, x, y) ensures y in c + Popped(s.sccs) {
      TopIsClosed(g, s0, s, node, targets, x, y);
    }
    PopColours(g, s0, s, node, c, s');
    OldStackReaches(g, s0, s');
    PoppedVisited(g, s0, s, s', node);
    hide Grows, Partition, Exploring, Visited;
  }

  lemma PoppedVisited(g: Graph, s0: Search, s: Search, s': Search, node: Node)
    requires Grows(s0, s) && s'.idx == s.idx && s'.stack == s0.stack && s'.gray == s0.gray && s.sccs <= s'.sccs
    requires node in s.idx && s.idx[node] == |s0.idx| && node !in s'.stack
    ensures Visited(g, s0, s', node, s.idx[node])
  {
  }

  lemma PopColours(g: Graph, s0: Search, s: Search, node: Node, c: set<Node>, s': Search)
    requires Coloured(g, s0) && Coloured(g, s) && Numbered(s.idx, s.stack) && Finished(g, s.sccs)
    requires |s0.stack| < |s.stack| && s.stack[..|s0.stack|] == s0.stack && s.stack[|s0.stack|] == node
    requires c == Elements(s.stack[|s0.stack|..]) && IsScc(g, c)
    requires forall x, y | x in c && Edge(g, x, y) :: y in c + Popped(s.sccs)
    requires NoFinishedToNew(g, s.idx.Keys, s0.gray)
    requires s' == Search(s.idx, s0.stack, s0.gray, s.sccs + [c])
    ensures Coloured(g, s') && Numbered(s'.idx, s'.stack) && Finished(g, s'.sccs)
              && NoFinishedToNew(g, s'.idx.Keys, s'.gray)
    ensures node !in s'.stack
  {
    hide Reach, IsScc, Popped, Finished, Partition, Numbered, NoFinishedToNew, Elements;
    var d := |s0.stack|;
    NumberedSplits(s.idx, s.stack, d);
    PartitionPop(g.Keys, s0.idx.Keys, s.idx.Keys, Elements(s0.stack), c, Popped(s0.sccs), Popped(s.sccs), s0.gray,
                 s.gray);
    PoppedAppend(s.sccs, c);
    FinishedAppend(g, s.sccs, c);
  }

  lemma PartitionPop(nodes: set<Node>, indexed0: set<Node>, indexed: set<Node>, stacked0: set<Node>, c: set<Node>,
                     popped0: set<Node>, popped: set<Node>, gray0: set<Node>, gray: set<Node>)
    requires Partition(nodes, indexed0, stacked0, popped0, gray0)
    requires Partition(nodes, indexed, stacked0 + c, popped, gray) && stacked0 !! c
    ensures Partition(nodes, indexed, stacked0, popped + c, gray0) && c !! popped
  {
  }

  lemma NumberedSplits(idx: map<Node, nat>, stack: seq<Node>, d: nat)
    requires Numbered(idx, stack) && d < |stack|
    ensures Numbered(idx, stack[..d])
    ensures Elements(stack) == Elements(stack[..d]) + Elements(stack[d..])
    ensures Elements(stack[..d]) !! Elements(stack[d..])
    ensures stack[d] in Elements(stack[d..]) && stack[d] !in stack[..d]
  {
    var low, high := stack[..d], stack[d..];
    assert forall i | 0 <= i < d :: low[i] == stack[i];
    assert forall i | 0 <= i < |high| :: high[i] == stack[d + i];
    assert Numbered(idx, low) by { assert forall v | v in low :: v in stack; }
    assert Distinct(stack) by { NumberedDistinct(idx, stack); }
    hide Numbered;
    DistinctSplits(stack, d);
  }

  lemma NumberedDistinct(idx: map<Node, nat>, stack: seq<Node>)
    requires Numbered(idx, stack)
    ensures Distinct(stack)
  {
  }

  lemma DistinctSplits(s: seq<Node>, d: nat)
    requires Distinct(s) && d < |s|
    ensures Elements(s) == Elements(s[..d]) + Elements(s[d..])
    ensures Elements(s[..d]) !! Elements(s[d..])
    ensures s[d] in Elements(s[d..]) && s[d] !in s[..d]
  {
    assert s == s[..d] + s[d..] && s[d..][0] == s[d];
    assert forall i | 0 <= i < |s[d..]| :: s[d..][i] == s[d + i];
  }

  lemma OldStackReaches(g: Graph, s0: Search, s: Search)
    requires StackReachesGray(g, s0) && GrayReachesStack(g, s0) && Coloured(g, s0)
    requires s.stack == s0.stack && s.gray == s0.gray && Grows(s0, s)
    ensures StackReachesGray(g, s) && GrayReachesStack(g, s)
  {
    hide Reach, Popped;
    forall y | y in s.stack ensures y in s0.idx { assert y in Elements(s0.stack); }
    forall y | y in s.stack ensures Anchored(g, s, y) {
      assert Anchored(g, s0, y);
      var x :| AnchoredAt(g, s0, x, y);
      assert AnchoredAt(g, s, x, y);
    }
  }

  lemma FinishedAppend(g: Graph, sccs: seq<set<Node>>, c: set<Node>)
    requires Finished(g, sccs) && IsScc(g, c) && c !! Popped(sccs)
    requires forall x, y | x in c && Edge(g, x, y) :: y in c + Popped(sccs)
    ensures Finished(g, sccs + [c])
  {
    hide Reach, IsScc;
    var all := sccs + [c];
    PoppedAppend(sccs, c);
    forall i, j | 0 <= i < j < |all| ensures all[i] !! all[j] {
      if j == |sccs| {
        forall v | v in sccs[i] ensures v !in c { assert v in Popped(sccs); }
      }
    }
    forall i, x, y | 0 <= i < |all| && x in all[i] && Edge(g, x, y) ensures y in Popped(all[..i + 1]) {
      if i < |sccs| {
        assert all[..i + 1] == sccs[..i + 1];
      } else {
        assert all[..i + 1] == all;
      }
    }
  }
}
