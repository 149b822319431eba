/** The import-cycle check: Tarjan's algorithm as a recursive `visit` that updates an
    index map, a low-link map, a stack and an active set, and what its result means. */
module ImportCycles {
  import opened Ordering
  import opened Graphs
  import opened TarjanInvariant

  /** `sorted` of a set of module names. */
  function SortedNames(s: set<Node>): (r: seq<Node>)
    ensures StrictlySorted(StringLe, r) && Elements(r) == s && |r| == |s|
  {
    StringOrder();
    SortedSet(StringLe, s)
  }

  predicate Reportable(g: Graph, c: set<Node>) {
    |c| > 1 || exists v {:trigger v in c} | v in c :: Edge(g, v, v)
  }

  /** The components worth reporting, in the order they were popped. */
  function Reported(g: Graph, sccs: seq<set<Node>>): seq<seq<Node>> {
    if sccs == [] then []
    else
      var last := sccs[|sccs| - 1];
      Reported(g, sccs[..|sccs| - 1]) + if Reportable(g, last) then [SortedNames(last)] else []
  }

  lemma ReportedExtends(g: Graph, sccs: seq<set<Node>>, c: set<Node>)
    ensures Reported(g, sccs + [c]) ==
            if Reportable(g, c) then Reported(g, sccs) + [SortedNames(c)] else Reported(g, sccs)
  {
    assert (sccs + [c])[..|sccs|] == sccs;
  }

  /** Sorting a list without repetitions gives the sorted set of its elements. */
  lemma SortedComponent(component: seq<Node>)
    requires Distinct(component)
    ensures TotalPreorder(StringLe)
    ensures Sort(StringLe, component) == SortedNames(Elements(component))
    ensures |component| == |Elements(component)|
  {
    StringOrder();
    SortKeepsDistinct(StringLe, component);
    SortedListUnique(StringLe, Sort(StringLe, component), SortedNames(Elements(component)));
    SameMultisetSameElements(component, Sort(StringLe, component));
  }

  lemma PopStep(full: seq<Node>, n: nat)
    requires Distinct(full) && n < |full|
    ensures full[..n + 1][..n] == full[..n]
    ensures Distinct(full[..n]) && Elements(full[..n]) == Elements(full[..n + 1]) - {full[n]}
    ensures Elements(full[n..]) == Elements(full[n + 1..]) + {full[n]} && full[n] !in Elements(full[n + 1..])
  {
    assert full[..n + 1] == full[..n] + [full[n]];
    assert full[n..] == [full[n]] + full[n + 1..];
    DistinctSplits(full, n);
    assert full[..n] + full[n..] == full;
  }

  /** `active` is the set of the stack, and exactly the indexed nodes have a low-link. */
  ghost predicate Mirrors(g: Graph, s: Search, active: set<Node>, low: map<Node, nat>) {
    active == Elements(s.stack) && low.Keys == s.idx.Keys
  }

  lemma MirrorsPush(g: Graph, s: Search, active: set<Node>, low: map<Node, nat>, node: Node)
    requires Mirrors(g, s, active, low)
    ensures Mirrors(g, Push(s, node), active + {node}, low[node := |s.idx|])
    ensures low.Keys == s.idx.Keys
  {
    ElementsPush(s.stack, node);
  }

  lemma MirrorsLower(g: Graph, s: Search, active: set<Node>, low: map<Node, nat>, node: Node, l: nat)
    requires Mirrors(g, s, active, low) && node in s.idx
    ensures Mirrors(g, s, active, low[node := l])
  {
    assert low[node := l].Keys == low.Keys + {node};
  }

  /** Two low-link maps agree on `nodes`. */
  ghost predicate Kept(nodes: set<Node>, a: map<Node, nat>, b: map<Node, nat>) {
    forall v | v in nodes :: v in a && v in b && a[v] == b[v]
  }

  lemma KeptJoin(nodes: set<Node>, a: map<Node, nat>, b: map<Node, nat>, c: map<Node, nat>)
    requires Kept(nodes, a, b) && Kept(b.Keys, b, c)
    ensures Kept(nodes, a, c) && forall v | v in b :: v in c && b[v] == c[v]
  {
  }

  lemma KeptUpdate(nodes: set<Node>, a: map<Node, nat>, b: map<Node, nat>, node: Node, l: nat)
    requires node !in nodes && (Kept(nodes, a, b) || (a == b && nodes == a.Keys))
    ensures Kept(nodes, a, b[node := l])
  {
  }

  class CycleFinder {
    const graph: Graph
    var indices: map<Node, nat>
    var low: map<Node, nat>
    var stack: seq<Node>
    var active: set<Node>
    var cycles: seq<seq<Node>>
    ghost var gray: set<Node>
    ghost var sccs: seq<set<Node>>

    ghost function Progress(): Search
      reads this
    {
      Search(indices, stack, gray, sccs)
    }

    ghost predicate Valid()
      reads this
    {
      && Invariant(graph, Progress())
      && Mirrors(graph, Progress(), active, low)
      && cycles == Reported(graph, sccs)
    }

    constructor (graph: Graph)
      requires TargetClosed(graph)
      ensures Valid() && this.graph == graph && indices == map[] && gray == {} && sccs == []
    {
      hide Reach, IsScc;
      this.graph := graph;
      indices, low, stack, active, cycles := map[], map[], [], {}, [];
      gray, sccs := {}, [];
      NothingVisited(graph);
      hide Invariant;
    }

    /** The pop loop: everything from the top of the stack down to and including `node`. */
    method PopThrough(node: Node, ghost d: nat) returns (component: seq<Node>)
      requires Distinct(stack) && active == Elements(stack) && d < |stack| && stack[d] == node
      modifies this`stack, this`active
      ensures Distinct(component) && active == Elements(stack)
      ensures stack == old(stack)[..d] && Elements(component) == Elements(old(stack)[d..])
    {
      component := [];
      ghost var full := stack;
      while true
        invariant d < |stack| <= |full| && stack == full[..|stack|]
        invariant active == Elements(stack)
        invariant Elements(component) == Elements(full[|stack|..])
        invariant Distinct(component) && Distinct(stack)
        decreases |stack|
      {
        var target := stack[|stack| - 1];
        var n := |stack| - 1;
        PopStep(full, n);
        stack := stack[..n];
        active := active - {target};
        component := component + [target];
        if target == node {
          break;
        }
      }
    }

    /** The end of a visit: report and pop the component `node` is the root of, if it is. */
    method Close(node: Node, ghost s0: Search, ghost targets: seq<Node>)
      requires Valid() && node in graph && node in indices
      requires Invariant(graph, s0) && node !in s0.idx && Elements(targets) == graph[node]
      requires Exploring(graph, s0, Progress(), node, targets, |targets|, low[node])
      modifies this`stack, this`active, this`cycles, this`gray, this`sccs
      ensures Valid()
      ensures Visited(graph, s0, Progress(), node, low[node])
    {
      hide Reach, Invariant, Exploring, Visited, StrictlySorted, Distinct, Elements, Sort, SortedNames, Reportable,
           Reported, TotalPreorder, TargetClosed, Edge;
      ghost var s := Progress();
      ClosingFacts(graph, s0, s, node, targets, low[node]);
      gray := s0.gray;
      if low[node] == indices[node] {
        PopScc(graph, s0, s, node, targets);
        var component := PopThrough(node, |s0.stack|);
        SortedComponent(component);
        ReportedExtends(graph, sccs, Elements(component));
        sccs := sccs + [Elements(component)];
        ReportableRoot(graph, Elements(component), node);
        if |component| > 1 || node in graph[node] {
          cycles := cycles + [Sort(StringLe, component)];
        }
      } else {
        LeaveOnStack(graph, s0, s, node, targets, low[node]);
      }
    }

    method Visit(node: Node)
      requires Valid() && node in graph && node !in indices
      requires forall x | x in gray :: Reach(graph, x, node)
      modifies this
      ensures Valid() && node in low
      ensures Visited(graph, old(Progress()), Progress(), node, low[node])
      ensures Kept(old(low).Keys, old(low), low)
      decreases graph.Keys - indices.Keys
    {
      hide Reach, Invariant, Exploring, Visited, Reported, StrictlySorted, Elements, Kept, Mirrors, SortedNames,
           Edge, TargetClosed;
      ghost var s0 := Progress();
      PushKeepsInvariant(graph, s0, node);
      MirrorsPush(graph, s0, active, low, node);
      KeptUpdate(low.Keys, low, low, node, |indices|);
      indices, low := indices[node := |indices|], low[node := |indices|];
      stack := stack + [node];
      active := active + {node};
      gray := gray + {node};
      var targets := SortedNames(graph[node]);
      StartExploring(graph, s0, node, targets);
      for k := 0 to |targets|
        invariant Valid() && node in low && node in indices
        invariant Exploring(graph, s0, Progress(), node, targets, k, low[node])
        invariant Kept(s0.idx.Keys, old(low), low)
      {
        var target := targets[k];
        ghost var s, before := Progress(), low;
        ExploringFacts(graph, s0, s, active, low, node, targets, k, low[node]);
        if target !in indices {
          Visit(target);
          AfterVisit(graph, s0, s, Progress(), active, old(low), before, low, node, targets, k);
          low := low[node := Min(low[node], low[target])];
        } else {
          AfterSeen(graph, s0, s, active, old(low), low, node, targets, k);
          if target in active {
            low := low[node := Min(low[node], indices[target])];
          }
        }
      }
      Close(node, s0, targets);
    }
  }

  /** A nested visit returned; the caller lowers its own link by the target's. */
  lemma AfterVisit(g: Graph, s0: Search, s: Search, s': Search, active: set<Node>,
                   low0: map<Node, nat>, before: map<Node, nat>, low: map<Node, nat>, node: Node, targets: seq<Node>,
                   k: nat)
    requires k < |targets| && Edge(g, node, targets[k]) && targets[k] in g && node !in s0.idx
    requires node in s.idx && s.idx[node] < |s.idx| && Elements(s.stack) <= s.idx.Keys
    requires node in before && Exploring(g, s0, s, node, targets, k, before[node])
    requires targets[k] !in s.idx && targets[k] in low && Visited(g, s, s', targets[k], low[targets[k]])
    requires Mirrors(g, s', active, low) && Kept(s0.idx.Keys, low0, before) && Kept(before.Keys, before, low)
    ensures node in low && node in s'.idx
    ensures var lowered := low[node := Min(low[node], low[targets[k]])];
            && Mirrors(g, s', active, lowered) && Kept(s0.idx.Keys, low0, lowered)
            && Exploring(g, s0, s', node, targets, k + 1, lowered[node])
  {
    hide Exploring;
    VisitedFacts(g, s, s', targets[k], low[targets[k]]);
    TargetVisited(g, s0, s, s', node, targets, k, before[node], low[targets[k]]);
    hide Visited;
    MirrorsLower(g, s', active, low, node, Min(low[node], low[targets[k]]));
    KeptJoin(s0.idx.Keys, low0, before, low);
    KeptUpdate(s0.idx.Keys, low0, low, node, Min(low[node], low[targets[k]]));
  }

  /** The target had been indexed; only one still on the stack may lower the link. */
  lemma AfterSeen(g: Graph, s0: Search, s: Search, active: set<Node>,
                  low0: map<Node, nat>, low: map<Node, nat>, node: Node, targets: seq<Node>, k: nat)
    requires k < |targets| && Edge(g, node, targets[k]) && targets[k] in g && node !in s0.idx
    requires node in low && node in s.idx && Exploring(g, s0, s, node, targets, k, low[node])
    requires targets[k] in s.idx && Mirrors(g, s, active, low) && Kept(s0.idx.Keys, low0, low)
    ensures targets[k] !in active ==> Exploring(g, s0, s, node, targets, k + 1, low[node])
    ensures targets[k] in active ==>
              var lowered := low[node := Min(low[node], s.idx[targets[k]])];
              && Mirrors(g, s, active, lowered) && Kept(s0.idx.Keys, low0, lowered)
              && Exploring(g, s0, s, node, targets, k + 1, lowered[node])
  {
    hide Exploring;
    TargetSeen(g, s0, s, node, targets, k, low[node]);
    assert targets[k] in active <==> targets[k] in s.stack;
    MirrorsLower(g, s, active, low, node, Min(low[node], s.idx[targets[k]]));
    KeptUpdate(s0.idx.Keys, low0, low, node, Min(low[node], s.idx[targets[k]]));
  }

  lemma VisitedFacts(g: Graph, s: Search, s': Search, node: Node, l: nat)
    requires Visited(g, s, s', node, l)
    ensures s.idx.Keys <= s'.idx.Keys
  {
  }

  /** What the loop body of a visit relies on. */
  lemma ExploringFacts(g: Graph, s0: Search, s: Search, active: set<Node>, low: map<Node, nat>, node: Node,
                       targets: seq<Node>, k: nat, l: nat)
    requires Invariant(g, s0) && Invariant(g, s) && node in g && node !in s0.idx
    requires Elements(targets) == g[node] && k < |targets| && Mirrors(g, s, active, low)
    requires forall x | x in s0.gray :: Reach(g, x, node)
    requires Exploring(g, s0, s, node, targets, k, l)
    ensures Edge(g, node, targets[k]) && targets[k] in g
    ensures node in s.idx && s.idx[node] < |s.idx| && Elements(s.stack) <= s.idx.Keys
    ensures s0.idx.Keys <= s.idx.Keys <= g.Keys
    ensures forall x | x in s.gray :: Reach(g, x, targets[k])
    ensures forall v | v in s.idx :: v in low
  {
    hide Reach, StackReachesGray, GrayReachesStack, Finished, NoFinishedToNew, Popped, LowBounds, LowReached;
    assert targets[k] in Elements(targets);
    GraysReachTarget(g, s0.gray, node, targets[k]);
    PushGrows(s0, s, node);
  }

  lemma GraysReachTarget(g: Graph, gray: set<Node>, node: Node, target: Node)
    requires Edge(g, node, target) && target in g
    requires forall x | x in gray :: Reach(g, x, node)
    ensures forall x | x in gray + {node} :: Reach(g, x, target)
  {
    hide Reach;
    ReachEdge(g, node, target);
    forall x | x in gray ensures Reach(g, x, target) { ReachTransitive(g, x, node, target); }
  }

  /** What the end of a visit relies on. */
  lemma ClosingFacts(g: Graph, s0: Search, s: Search, node: Node, targets: seq<Node>, l: nat)
    requires Invariant(g, s0) && Invariant(g, s) && node in g && node !in s0.idx
    requires Elements(targets) == g[node]
    requires Exploring(g, s0, s, node, targets, |targets|, l)
    ensures |s0.stack| < |s.stack| && s.stack[|s0.stack|] == node && s.stack[..|s0.stack|] == s0.stack
    ensures node in s.idx && l <= s.idx[node] && node !in s0.gray && Distinct(s.stack)
    ensures node in Elements(s.stack[|s0.stack|..])
  {
    hide Reach, StackReachesGray, GrayReachesStack, Finished, Popped;
    assert node !in s0.gray;
    EdgesAboveNode(g, s0, s, node, targets, l);
    NumberedDistinct(s.idx, s.stack);
    assert s.stack[|s0.stack|..][0] == node;
  }

  lemma ReportableRoot(g: Graph, c: set<Node>, node: Node)
    requires node in c && node in g
    ensures Reportable(g, c) <==> |c| > 1 || node in g[node]
  {
    if |c| <= 1 {
      assert c == {node} by { CardinalityMonotone({node}, c); assert |c - {node}| == |c| - 1; }
    }
  }

  lemma NothingVisited(g: Graph)
    requires TargetClosed(g)
    ensures Invariant(g, Search(map[], [], {}, []))
  {
    hide Reach, IsScc;
  }

  // ------------------------------------------------------------------ the result

  predicate InReport(r: seq<seq<Node>>, v: Node) {
    exists c | c in r :: v in c
  }

  /** What the check reports: each nontrivial component once, as a sorted list of names,
      the lists in order, and every module on an import cycle in one of them. */
  ghost predicate IsCycleReport(g: Graph, r: seq<seq<Node>>) {
    && StrictlySorted(NamesLe, r)
    && (forall i | 0 <= i < |r| :: StrictlySorted(StringLe, r[i]) && NontrivialScc(g, Elements(r[i])))
    && (forall i, j | 0 <= i < j < |r| :: Elements(r[i]) !! Elements(r[j]))
    && (forall v | v in g :: OnCycle(g, v) <==> InReport(r, v))
  }

  method StronglyConnectedComponents(graph: Graph) returns (r: seq<seq<Node>>)
    requires TargetClosed(graph)
    ensures IsCycleReport(graph, r)
    ensures r == [] <==> exists order :: TopologicalOrder(graph, order)
  {
    hide Reach, Invariant, Visited, Reported, StrictlySorted, IsCycleReport, Mirrors, TopologicalOrder;
    var finder := new CycleFinder(graph);
    var nodes := SortedNames(graph.Keys);
    for k := 0 to |nodes|
      invariant finder.Valid() && finder.graph == graph && finder.gray == {}
      invariant forall j | 0 <= j < k :: nodes[j] in finder.indices
      invariant fresh(finder)
    {
      var node := nodes[k];
      ghost var s := finder.Progress();
      if node !in finder.indices {
        assert node in Elements(nodes);
        finder.Visit(node);
        SearchGrew(graph, s, finder.Progress(), node, finder.low[node]);
      }
    }
    assert graph.Keys <= finder.indices.Keys by {
      forall v | v in graph ensures v in finder.indices { assert v in Elements(nodes); }
    }
    ghost var s := finder.Progress();
    SearchComplete(graph, s);
    ReportOfComponents(graph, s.sccs);
    NamesOrder();
    r := Sort(NamesLe, finder.cycles);
    OrderIffNothingReported(graph, s.sccs, r);
  }

  lemma SearchGrew(g: Graph, s: Search, s': Search, node: Node, l: nat)
    requires Visited(g, s, s', node, l)
    ensures s.idx.Keys <= s'.idx.Keys && node in s'.idx && s'.gray == s.gray
  {
    hide Reach;
  }

  /** With no visit running the stack is empty, so everything indexed has been popped. */
  lemma SearchComplete(g: Graph, s: Search)
    requires Invariant(g, s) && s.gray == {} && g.Keys <= s.idx.Keys
    ensures s.stack == [] && Finished(g, s.sccs) && Popped(s.sccs) == g.Keys
  {
    hide Reach, Finished, Popped, Numbered, NoFinishedToNew;
    assert s.stack == [] || s.stack[0] in s.stack;
    assert forall y | y in s.stack :: Anchored(g, s, y);
  }

  /** A list is reported exactly when it is the sorted form of a reportable component. */
  lemma {:induction false} ReportedIff(g: Graph, sccs: seq<set<Node>>, c: seq<Node>)
    ensures c in Reported(g, sccs) <==>
            exists i :: 0 <= i < |sccs| && Reportable(g, sccs[i]) && c == SortedNames(sccs[i])
  {
    hide StrictlySorted, Reportable;
    if sccs != [] {
      var init, last := sccs[..|sccs| - 1], sccs[|sccs| - 1];
      ReportedIff(g, init, c);
      if c in Reported(g, init) {
        var i :| 0 <= i < |init| && Reportable(g, init[i]) && c == SortedNames(init[i]);
        assert sccs[i] == init[i];
      }
      if i :| 0 <= i < |sccs| && Reportable(g, sccs[i]) && c == SortedNames(sccs[i]) {
        assert i < |init| ==> init[i] == sccs[i];
      }
    }
  }

  lemma ReportedFrom(g: Graph, sccs: seq<set<Node>>)
    ensures forall c | c in Reported(g, sccs) :: StrictlySorted(StringLe, c) && Elements(c) in sccs
              && Reportable(g, Elements(c))
    ensures forall i | 0 <= i < |sccs| && Reportable(g, sccs[i]) :: SortedNames(sccs[i]) in Reported(g, sccs)
  {
    hide StrictlySorted, Reportable, Reported;
    forall c | c in Reported(g, sccs)
      ensures StrictlySorted(StringLe, c) && Elements(c) in sccs && Reportable(g, Elements(c))
    {
      ReportedIff(g, sccs, c);
    }
    forall i | 0 <= i < |sccs| && Reportable(g, sccs[i]) ensures SortedNames(sccs[i]) in Reported(g, sccs) {
      ReportedIff(g, sccs, SortedNames(sccs[i]));
    }
  }

  lemma {:induction false} ReportedDisjoint(g: Graph, sccs: seq<set<Node>>)
    requires forall i, j | 0 <= i < j < |sccs| :: sccs[i] !! sccs[j]
    ensures forall i, j | 0 <= i < j < |Reported(g, sccs)| ::
              Elements(Reported(g, sccs)[i]) !! Elements(Reported(g, sccs)[j])
  {
    hide StrictlySorted, Reportable;
    if sccs != [] {
      var init, last := sccs[..|sccs| - 1], sccs[|sccs| - 1];
      ReportedDisjoint(g, init);
      ReportedFrom(g, init);
      forall c | c in Reported(g, init) ensures Elements(c) !! last {
        var i :| 0 <= i < |init| && init[i] == Elements(c);
        assert sccs[i] !! last;
      }
    }
  }

  lemma FinishedDisjoint(g: Graph, sccs: seq<set<Node>>)
    requires Finished(g, sccs)
    ensures forall i, j | 0 <= i < j < |sccs| :: sccs[i] !! sccs[j]
  {
  }

  lemma SameMembers(a: seq<seq<Node>>, b: seq<seq<Node>>)
    requires multiset(a) == multiset(b)
    ensures forall c :: c in a <==> c in b
  {
    assert forall c :: (c in a <==> c in multiset(a)) && (c in b <==> c in multiset(b));
  }

  lemma ReportOfComponents(g: Graph, sccs: seq<set<Node>>)
    requires TargetClosed(g) && Finished(g, sccs) && Popped(sccs) == g.Keys
    ensures TotalPreorder(NamesLe)
    ensures IsCycleReport(g, Sort(NamesLe, Reported(g, sccs)))
  {
    hide Reach, OnCycle, StrictlySorted, Reported, Reportable, NontrivialScc, Sort, InReport, Popped, Finished,
         Elements;
    NamesOrder();
    var listed := Reported(g, sccs);
    var r := Sort(NamesLe, listed);
    ReportedFrom(g, sccs);
    FinishedDisjoint(g, sccs);
    ReportedDisjoint(g, sccs);
    SameMembers(listed, r);
    forall c | c in listed ensures NontrivialScc(g, Elements(c)) && Elements(c) != {} {
      ReportedNontrivial(g, sccs, c);
    }
    ReportDistinct(g, listed, r);
    forall v | v in g ensures OnCycle(g, v) <==> InReport(r, v) { CycleReported(g, sccs, r, v); }
  }

  lemma ReportedNontrivial(g: Graph, sccs: seq<set<Node>>, c: seq<Node>)
    requires Finished(g, sccs) && Elements(c) in sccs && Reportable(g, Elements(c))
    ensures NontrivialScc(g, Elements(c)) && Elements(c) != {}
  {
    hide Reach;
    var i :| 0 <= i < |sccs| && sccs[i] == Elements(c);
  }

  lemma ReportDistinct(g: Graph, listed: seq<seq<Node>>, r: seq<seq<Node>>)
    requires TotalPreorder(NamesLe) && r == Sort(NamesLe, listed)
    requires forall c | c in listed :: Elements(c) != {}
    requires forall i, j | 0 <= i < j < |listed| :: Elements(listed[i]) !! Elements(listed[j])
    ensures StrictlySorted(NamesLe, r)
    ensures forall i, j | 0 <= i < j < |r| :: Elements(r[i]) !! Elements(r[j])
  {
    assert Distinct(listed);
    SortKeepsDistinct(NamesLe, listed);
    forall i, j | 0 <= i < j < |r| ensures Elements(r[i]) !! Elements(r[j]) {
      assert r[i] in Elements(r) && r[j] in Elements(r);
      var a :| 0 <= a < |listed| && listed[a] == r[i];
      var b :| 0 <= b < |listed| && listed[b] == r[j];
      assert a < b || b < a;
    }
  }

  lemma CycleReported(g: Graph, sccs: seq<set<Node>>, r: seq<seq<Node>>, v: Node)
    requires TargetClosed(g) && Finished(g, sccs) && v in Popped(sccs)
    requires forall c | c in r :: Elements(c) in sccs && Reportable(g, Elements(c))
    requires forall i | 0 <= i < |sccs| && Reportable(g, sccs[i]) :: SortedNames(sccs[i]) in r
    ensures OnCycle(g, v) <==> InReport(r, v)
  {
    hide Reach, OnCycle;
    var k :| 0 <= k < |sccs| && v in sccs[k];
    CycleIffNontrivial(g, sccs[k], v);
    if OnCycle(g, v) {
      var c := SortedNames(sccs[k]);
      assert v in Elements(c);
    }
    if c :| c in r && v in c {
      assert v in Elements(c);
      var m :| 0 <= m < |sccs| && sccs[m] == Elements(c);
      SccUnique(g, sccs[k], sccs[m], v);
    }
  }

  /** The check finds no cycle exactly when the modules can be put in import order. */
  lemma OrderIffNothingReported(g: Graph, sccs: seq<set<Node>>, r: seq<seq<Node>>)
    requires TargetClosed(g) && Finished(g, sccs) && Popped(sccs) == g.Keys
    requires IsCycleReport(g, r) && TotalPreorder(NamesLe) && r == Sort(NamesLe, Reported(g, sccs))
    ensures r == [] <==> exists order :: TopologicalOrder(g, order)
  {
    hide Reach, OnCycle, IsScc;
    if order :| TopologicalOrder(g, order) {
      if r != [] {
        assert Elements(r[0]) != {} by { NontrivialNonempty(g, Elements(r[0])); }
        var v :| v in Elements(r[0]);
        NontrivialInGraph(g, Elements(r[0]), v);
        OrderedHasNoCycle(g, order, v);
      }
    }
    if r == [] {
      ReportedFrom(g, sccs);
      assert Reported(g, sccs) == [] by { SameMultisetSameElements(r, Reported(g, sccs)); }
      OrderFromComponents(g, sccs);
    }
  }

  lemma NontrivialNonempty(g: Graph, c: set<Node>)
    requires NontrivialScc(g, c)
    ensures c != {}
  {
  }

  lemma NontrivialInGraph(g: Graph, c: set<Node>, v: Node)
    requires NontrivialScc(g, c) && v in c
    ensures v in g
  {
    assert Reach(g, v, v);
    ReachInGraph(g, v, v);
  }

  lemma SingletonOrder(g: Graph, sccs: seq<set<Node>>, order: seq<Node>)
    requires Finished(g, sccs) && Popped(sccs) == g.Keys && |order| == |sccs|
    requires forall i | 0 <= i < |sccs| :: sccs[i] == {order[i]} && !Reportable(g, sccs[i])
    ensures TopologicalOrder(g, order)
  {
    hide Reach, IsScc;
    forall i, j | 0 <= i < j < |order| ensures order[i] != order[j] {
      assert order[i] in sccs[i] && order[j] in sccs[j];
    }
    forall v ensures v in order <==> v in g {
      if v in order { var i :| 0 <= i < |order| && order[i] == v; assert v in sccs[i]; }
      if v in g { var i :| 0 <= i < |sccs| && v in sccs[i]; assert order[i] == v; }
    }
    forall i | 0 <= i < |order| ensures !Edge(g, order[i], order[i]) { assert order[i] in sccs[i]; }
    forall j, y | 0 <= j < |order| && Edge(g, order[j], y) ensures y in order[..j] {
      assert order[j] in sccs[j] && y in Popped(sccs[..j + 1]);
      var i :| 0 <= i < j + 1 && y in sccs[..j + 1][i];
      assert sccs[..j + 1][i] == sccs[i] && y == order[i] && i != j;
      assert order[..j][i] == y;
    }
  }

  ghost function Only(c: set<Node>): (v: Node)
    requires |c| == 1
    ensures c == {v}
  {
    var v :| v in c;
    assert c == {v} by { assert |c - {v}| == 0; }
    v
  }

  /** Single modules popped targets first are a topological order. */
  lemma OrderFromComponents(g: Graph, sccs: seq<set<Node>>)
    requires Finished(g, sccs) && Popped(sccs) == g.Keys
    requires forall i | 0 <= i < |sccs| :: !Reportable(g, sccs[i])
    ensures exists order :: TopologicalOrder(g, order)
  {
    hide Reach;
    forall i | 0 <= i < |sccs| ensures |sccs[i]| == 1 {
      assert IsScc(g, sccs[i]);
    }
    var order := seq(|sccs|, i requires 0 <= i < |sccs| => Only(sccs[i]));
    forall i | 0 <= i < |sccs| ensures sccs[i] == {order[i]} { assert |sccs[i]| == 1; }
    hide Finished;
    SingletonOrder(g, sccs, order);
    assert TopologicalOrder(g, order);
  }

  /** The report is determined by the graph alone. */
  lemma CycleReportUnique(g: Graph, r: seq<seq<Node>>, q: seq<seq<Node>>)
    requires IsCycleReport(g, r) && IsCycleReport(g, q)
    ensures r == q
  {
    hide Reach, OnCycle;
    NamesOrder();
    StringOrder();
    ReportIncluded(g, r, q);
    ReportIncluded(g, q, r);
    assert Elements(r) == Elements(q);
    SortedListUnique(NamesLe, r, q);
  }

  lemma ReportIncluded(g: Graph, r: seq<seq<Node>>, q: seq<seq<Node>>)
    requires IsCycleReport(g, r) && IsCycleReport(g, q) && TotalOrder(StringLe)
    ensures forall c | c in r :: c in q
  {
    hide Reach, OnCycle;
    forall c | c in r ensures c in q {
      assert Elements(c) != {} by { NontrivialNonempty(g, Elements(c)); }
      var v :| v in Elements(c);
      NontrivialInGraph(g, Elements(c), v);
      assert InReport(r, v);
      var d :| d in q && v in d;
      assert v in Elements(d);
      SccUnique(g, Elements(c), Elements(d), v);
      SortedListUnique(StringLe, c, d);
    }
  }
}
