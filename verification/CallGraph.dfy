/** The leaf-first analysis order over a call graph (`core/callgraph.py`). */
module CallGraph {
  import opened Graph
  import opened Ordering
  import opened TarjanSearch

  /** One strongly connected component, with its recursion flag. */
  datatype Component<T> = Component(members: seq<T>, isRecursive: bool)

  datatype AnalysisOrder<T> = AnalysisOrder(
    components: seq<Component<T>>,
    unresolvedCallers: seq<T>,
    selfRecursive: seq<T>)

  /** Callers, callees and unresolved callers. */
  ghost function AllNodes<T>(g: Adjacency<T>, unresolved: set<T>): set<T> {
    unresolved + g.Keys + set u, v | u in g && v in g[u] :: v
  }

  /** The distinct edges, with or without self-loops. */
  ghost function EdgeSet<T>(g: Adjacency<T>): set<(T, T)> {
    set u, v | u in g && v in g[u] :: (u, v)
  }

  ghost function ProperEdges<T>(g: Adjacency<T>): set<(T, T)> {
    set u, v | u in g && v in g[u] && v != u :: (u, v)
  }

  ghost predicate Partitions<T(!new)>(blocks: seq<Component<T>>, nodes: set<T>) {
    && (forall v :: v in nodes ==> exists i :: 0 <= i < |blocks| && v in blocks[i].members)
    && (forall i, v :: 0 <= i < |blocks| && v in blocks[i].members ==> v in nodes)
    && (forall i, j, v :: 0 <= i < |blocks| && 0 <= j < |blocks| && v in blocks[i].members && v in blocks[j].members ==> i == j)
    && (forall i :: 0 <= i < |blocks| ==> blocks[i].members != [])
  }

  /** A block holds exactly the nodes mutually reachable with any one of its members. */
  ghost predicate Classes<T(!new)>(g: Adjacency<T>, blocks: seq<Component<T>>) {
    forall i, u, v :: 0 <= i < |blocks| && u in blocks[i].members ==> (v in blocks[i].members <==> Mutual(g, u, v))
  }

  /** A callee's block never comes after its caller's. */
  ghost predicate CalleesFirst<T(!new)>(g: Adjacency<T>, blocks: seq<Component<T>>) {
    forall i, j, u, v ::
      0 <= i < |blocks| && 0 <= j < |blocks| && u in blocks[i].members && v in blocks[j].members && Edge(g, u, v)
      ==> j <= i
  }

  /** The flag tells, for every member alike, whether it lies on a directed cycle. */
  ghost predicate RecursionFlagged<T(!new)>(g: Adjacency<T>, blocks: seq<Component<T>>) {
    forall i, u :: 0 <= i < |blocks| && u in blocks[i].members ==> (blocks[i].isRecursive <==> OnCycle(g, u))
  }

  ghost predicate IsAnalysisOrder<T(!new)>(g: Adjacency<T>, unresolved: set<T>, order: AnalysisOrder<T>) {
    && Partitions(order.components, AllNodes(g, unresolved))
    && Classes(g, order.components)
    && CalleesFirst(g, order.components)
    && RecursionFlagged(g, order.components)
    && Lists(order.unresolvedCallers, unresolved)
    && (forall v :: v in order.selfRecursive <==> Edge(g, v, v))
  }

  method CollectNodes<T(==, !new)>(leq: (T, T) -> bool, adjacency: Adjacency<T>, unresolved: set<T>)
    returns (nodes: seq<T>)
    requires TotalOrder(leq)
    ensures Ascending(leq, nodes) && Lists(nodes, AllNodes(adjacency, unresolved))
    ensures |nodes| == |AllNodes(adjacency, unresolved)|
  {
    var found := unresolved;
    var todo := adjacency.Keys;
    while todo != {}
      invariant todo <= adjacency.Keys
      invariant forall v :: v in found <==>
                  (|| v in unresolved || (v in adjacency && v !in todo)
                   || exists u :: u in adjacency && u !in todo && v in adjacency[u])
      decreases todo
    {
      var caller :| caller in todo;
      found := found + {caller} + set v | v in adjacency[caller];
      todo := todo - {caller};
    }
    nodes := SortedElements(leq, found);
    assert found == AllNodes(adjacency, unresolved);
  }

  /** `succ` is `g` over all nodes, without self-loops and repetitions, each list ascending. */
  ghost predicate IsNormal<T(!new)>(leq: (T, T) -> bool, g: Adjacency<T>, succ: Adjacency<T>) {
    && (forall u, v :: Edge(succ, u, v) <==> Edge(g, u, v) && u != v)
    && (forall u :: u in succ ==> Ascending(leq, succ[u]))
  }

  method Normalize<T(==, !new)>(leq: (T, T) -> bool, adjacency: Adjacency<T>, nodes: seq<T>)
    returns (succ: Adjacency<T>, selfLoops: set<T>)
    requires TotalOrder(leq) && forall u :: u in adjacency ==> u in nodes
    ensures forall u :: u in succ <==> u in nodes
    ensures IsNormal(leq, adjacency, succ)
    ensures forall v :: v in selfLoops <==> Edge(adjacency, v, v)
  {
    succ, selfLoops := map u | u in nodes :: [], {};
    var todo := adjacency.Keys;
    while todo != {}
      invariant todo <= adjacency.Keys
      invariant forall u :: u in succ <==> u in nodes
      invariant forall u :: u in succ && (u !in adjacency || u in todo) ==> succ[u] == []
      invariant forall u, v :: u in adjacency && u !in todo ==> (v in succ[u] <==> v in adjacency[u] && u != v)
      invariant forall u :: u in succ ==> Ascending(leq, succ[u])
      invariant forall v :: v in selfLoops <==> v in adjacency && v !in todo && v in adjacency[v]
      decreases todo
    {
      var caller :| caller in todo;
      var callees := adjacency[caller];
      var seen := {};
      for k := 0 to |callees|
        invariant forall v :: v in seen <==> v in callees[..k] && v != caller
        invariant forall v :: v in selfLoops <==>
                    (v in adjacency && v !in todo && v in adjacency[v]) || (v == caller && caller in callees[..k])
      {
        if callees[k] == caller {
          selfLoops := selfLoops + {caller};
        } else {
          seen := seen + {callees[k]};
        }
      }
      var targets := SortedElements(leq, seen);
      succ := succ[caller := targets];
      todo := todo - {caller};
    }
  }

  method ComputeAnalysisOrder<T(==, !new)>(leq: (T, T) -> bool, adjacency: Adjacency<T>, unresolved: set<T>)
    returns (order: AnalysisOrder<T>, ghost rounds: nat)
    requires TotalOrder(leq)
    ensures IsAnalysisOrder(adjacency, unresolved, order)
    ensures forall i :: 0 <= i < |order.components| ==> Ascending(leq, order.components[i].members)
    ensures Ascending(leq, order.unresolvedCallers) && Ascending(leq, order.selfRecursive)
    ensures rounds == |AllNodes(adjacency, unresolved)| + |ProperEdges(adjacency)|
  {
    hide TotalOrder, LeafFirstClasses, AllNodes, ProperEdges, FullRounds, Partitions, Classes, CalleesFirst, RecursionFlagged;
    var nodes := CollectNodes(leq, adjacency, unresolved);
    NodesHaveEdges(adjacency, unresolved);
    var succ, selfLoops := Normalize(leq, adjacency, nodes);
    var sccs;
    ghost var entered;
    sccs, rounds, entered := TarjanSccs(leq, nodes, succ);
    var components := [];
    for k := 0 to |sccs|
      invariant |components| == k
      invariant forall i :: 0 <= i < k ==> components[i] == Flagged(sccs[i], selfLoops)
    {
      components := components + [Flagged(sccs[k], selfLoops)];
    }
    var callers := SortedElements(leq, unresolved);
    var loops := SortedElements(leq, selfLoops);
    order := AnalysisOrder(components, callers, loops);
    OrderFromClasses(leq, adjacency, unresolved, succ, sccs, selfLoops, components);
    RoundsAreNodesAndEdges(leq, adjacency, nodes, succ);
  }

  function Flagged<T>(scc: seq<T>, selfLoops: set<T>): Component<T> {
    Component(scc, |scc| > 1 || (|scc| == 1 && scc[0] in selfLoops))
  }

  lemma NodesHaveEdges<T(!new)>(g: Adjacency<T>, unresolved: set<T>)
    ensures forall u, v :: Edge(g, u, v) ==> u in AllNodes(g, unresolved) && v in AllNodes(g, unresolved)
    ensures forall u :: u in g ==> u in AllNodes(g, unresolved)
  {
  }

  // ---------- from the classes of the normalized graph to the analysis order

  /** A node that reaches a different node has a first edge on the way. */
  lemma FirstEdge<T(!new)>(g: Adjacency<T>, u: T, w: T) returns (x: T)
    requires Reach(g, u, w) && u != w
    ensures Edge(g, u, x) && Reach(g, x, w)
  {
    var p :| Leads(g, p, u, w);
    x := p[1];
    assert Edge(g, p[0], p[1]);
    assert Leads(g, p[1..], x, w) by {
      forall i | 0 < i < |p[1..]| ensures Edge(g, p[1..][i - 1], p[1..][i]) {
        assert Edge(g, p[i], p[i + 1]);
      }
    }
  }

  lemma FlagMeansCycle<T(!new)>(g: Adjacency<T>, scc: seq<T>, selfLoops: set<T>, u: T)
    requires u in scc && Distinct(scc)
    requires forall v :: v in scc <==> Mutual(g, u, v)
    requires forall v :: v in selfLoops <==> Edge(g, v, v)
    ensures Flagged(scc, selfLoops).isRecursive <==> OnCycle(g, u)
  {
    if |scc| > 1 {
      var w := if scc[0] != u then scc[0] else scc[1];
      assert w in scc && w != u;
      var x := FirstEdge(g, u, w);
      ReachTrans(g, x, w, u);
    } else {
      assert scc == [u];
      if Edge(g, u, u) { ReachRefl(g, u); }
      if OnCycle(g, u) {
        var v :| Edge(g, u, v) && Reach(g, v, u);
        ReachEdge(g, u, v);
        assert v in scc;
      }
    }
  }

  lemma MutualSameEdges<T(!new)>(leq: (T, T) -> bool, g: Adjacency<T>, succ: Adjacency<T>)
    requires IsNormal(leq, g, succ)
    ensures forall u, v :: Mutual(g, u, v) <==> Mutual(succ, u, v)
  {
    forall u, v ensures Mutual(g, u, v) <==> Mutual(succ, u, v) {
      ReachSameEdges(g, succ, u, v);
      ReachSameEdges(g, succ, v, u);
    }
  }

  lemma OrderFromClasses<T(!new)>(leq: (T, T) -> bool, g: Adjacency<T>, unresolved: set<T>, succ: Adjacency<T>,
                                  sccs: seq<seq<T>>, selfLoops: set<T>, components: seq<Component<T>>)
    requires succ.Keys == AllNodes(g, unresolved) && IsNormal(leq, g, succ) && LeafFirstClasses(succ, sccs)
    requires forall v :: v in selfLoops <==> Edge(g, v, v)
    requires |components| == |sccs| && forall i :: 0 <= i < |sccs| ==> components[i] == Flagged(sccs[i], selfLoops)
    requires forall i :: 0 <= i < |sccs| ==> Ascending(leq, sccs[i])
    ensures Partitions(components, AllNodes(g, unresolved))
    ensures Classes(g, components) && CalleesFirst(g, components) && RecursionFlagged(g, components)
  {
    hide Reach, Mutual, AllNodes, Edge;
    MutualSameEdges(leq, g, succ);
    assert forall i :: 0 <= i < |sccs| ==> components[i].members == sccs[i];
    forall v | v in AllNodes(g, unresolved) ensures exists i :: 0 <= i < |components| && v in components[i].members {
      var i :| 0 <= i < |sccs| && v in sccs[i];
      assert v in components[i].members;
    }
    forall i, u | 0 <= i < |components| && u in components[i].members
      ensures components[i].isRecursive <==> OnCycle(g, u)
    {
      AscendingDistinct(leq, sccs[i]);
      FlagMeansCycle(g, sccs[i], selfLoops, u);
    }
  }

  // ---------- counting the rounds as nodes and edges

  lemma {:induction false} PairCount<T(!new)>(u: T, targets: seq<T>)
    requires Distinct(targets)
    ensures |set v | v in targets :: (u, v)| == |targets|
  {
    if targets != [] {
      var rest := targets[1..];
      PairCount(u, rest);
      var fewer := set v | v in rest :: (u, v);
      assert (set v | v in targets :: (u, v)) == fewer + {(u, targets[0])} by {
        assert targets == [targets[0]] + rest;
      }
    }
  }

  ghost function PairsFrom<T>(nodes: seq<T>, g: Adjacency<T>): set<(T, T)> {
    set u, v | u in nodes && u in g && v in g[u] :: (u, v)
  }

  lemma {:induction false} RoundsCountPairs<T(!new)>(nodes: seq<T>, g: Adjacency<T>)
    requires Distinct(nodes)
    requires forall u :: u in nodes ==> u in g && Distinct(g[u])
    ensures FullRounds(nodes, g) == |nodes| + |PairsFrom(nodes, g)|
  {
    if nodes == [] {
      assert PairsFrom(nodes, g) == {};
    } else {
      var u, rest := nodes[0], nodes[1..];
      assert nodes == [u] + rest;
      RoundsCountPairs(rest, g);
      PairCount(u, g[u]);
      var first := set v | v in g[u] :: (u, v);
      assert PairsFrom(nodes, g) == first + PairsFrom(rest, g);
      assert first !! PairsFrom(rest, g);
    }
  }

  lemma RoundsAreNodesAndEdges<T(!new)>(leq: (T, T) -> bool, g: Adjacency<T>, nodes: seq<T>, succ: Adjacency<T>)
    requires Ascending(leq, nodes) && Lists(nodes, succ.Keys) && IsNormal(leq, g, succ)
    ensures FullRounds(nodes, succ) == |nodes| + |ProperEdges(g)|
  {
    AscendingDistinct(leq, nodes);
    forall u | u in nodes ensures Distinct(succ[u]) { AscendingDistinct(leq, succ[u]); }
    RoundsCountPairs(nodes, succ);
    forall e ensures e in PairsFrom(nodes, succ) <==> e in ProperEdges(g) {
      assert Edge(succ, e.0, e.1) <==> Edge(g, e.0, e.1) && e.0 != e.1;
      assert e == (e.0, e.1);
    }
    assert PairsFrom(nodes, succ) == ProperEdges(g);
  }

  // ---------- what the order tells

  /** The order reports recursion somewhere exactly when the call graph has a directed cycle. */
  lemma RecursiveIffCyclic<T(!new)>(g: Adjacency<T>, unresolved: set<T>, order: AnalysisOrder<T>)
    requires IsAnalysisOrder(g, unresolved, order)
    ensures (exists i :: 0 <= i < |order.components| && order.components[i].isRecursive) <==> Cyclic(g)
  {
    var blocks := order.components;
    if i :| 0 <= i < |blocks| && blocks[i].isRecursive {
      assert blocks[i].members[0] in blocks[i].members;
      assert OnCycle(g, blocks[i].members[0]);
    }
    if Cyclic(g) {
      var u :| OnCycle(g, u);
      assert u in AllNodes(g, unresolved);
      var i :| 0 <= i < |blocks| && u in blocks[i].members;
      assert blocks[i].isRecursive;
    }
  }

  // ---------- the plan as one list

  function Flatten<T>(components: seq<Component<T>>): seq<T> {
    if components == [] then []
    else Flatten(components[..|components| - 1]) + components[|components| - 1].members
  }

  lemma {:induction false} FlattenMembers<T(!new)>(blocks: seq<Component<T>>, v: T)
    ensures v in Flatten(blocks) <==> exists i :: 0 <= i < |blocks| && v in blocks[i].members
  {
    if blocks != [] {
      var init := blocks[..|blocks| - 1];
      FlattenMembers(init, v);
      assert forall i :: 0 <= i < |init| ==> init[i] == blocks[i];
    }
  }

  lemma {:induction false} FlattenDistinct<T(!new)>(blocks: seq<Component<T>>)
    requires forall i, j, v :: 0 <= i < |blocks| && 0 <= j < |blocks| && v in blocks[i].members && v in blocks[j].members ==> i == j
    requires forall i :: 0 <= i < |blocks| ==> Distinct(blocks[i].members)
    ensures Distinct(Flatten(blocks))
  {
    if blocks != [] {
      var last := |blocks| - 1;
      var init := blocks[..last];
      assert forall i :: 0 <= i < |init| ==> init[i] == blocks[i];
      FlattenDistinct(init);
      var flat := Flatten(init);
      forall i, j | 0 <= i < |flat| && 0 <= j < |blocks[last].members| ensures flat[i] != blocks[last].members[j] {
        FlattenMembers(init, flat[i]);
      }
    }
  }
}
