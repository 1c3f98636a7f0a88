/** Structural call-graph metrics (`core/metrics.py`). */
module Metrics {
  import opened Graph
  import opened Ordering
  import opened CallGraph
  import TarjanSearch

  datatype FanEntry<T> = FanEntry(address: T, count: nat)

  datatype CallGraphMetrics<T> = CallGraphMetrics(
    functionCount: nat,
    edgeCount: nat,
    leafCount: nat,
    rootCount: nat,
    recursiveComponentCount: nat,
    selfRecursiveCount: nat,
    unresolvedCallerCount: nat,
    topFanIn: seq<FanEntry<T>>,
    topFanOut: seq<FanEntry<T>>)

  // ---------- sums over a set of nodes

  ghost function Sum<T>(s: set<T>, f: map<T, nat>): nat
    requires s <= f.Keys
  {
    if s == {} then 0 else var x :| x in s; f[x] + Sum(s - {x}, f)
  }

  lemma {:induction false} SumTake<T(!new)>(s: set<T>, f: map<T, nat>, x: T)
    requires s <= f.Keys && x in s
    ensures Sum(s, f) == f[x] + Sum(s - {x}, f)
  {
    var y :| y in s && Sum(s, f) == f[y] + Sum(s - {y}, f);
    if y != x {
      SumTake(s - {y}, f, x);
      SumTake(s - {x}, f, y);
      assert s - {y} - {x} == s - {x} - {y};
    }
  }

  lemma {:induction false} SumSame<T(!new)>(s: set<T>, f: map<T, nat>, h: map<T, nat>)
    requires s <= f.Keys && s <= h.Keys && forall x :: x in s ==> f[x] == h[x]
    ensures Sum(s, f) == Sum(s, h)
  {
    if s != {} {
      var x :| x in s;
      SumTake(s, f, x);
      SumTake(s, h, x);
      SumSame(s - {x}, f, h);
    }
  }

  lemma SumBump<T(!new)>(s: set<T>, f: map<T, nat>, x: T)
    requires s <= f.Keys && x in s
    ensures Sum(s, f[x := f[x] + 1]) == Sum(s, f) + 1
  {
    var h := f[x := f[x] + 1];
    SumTake(s, f, x);
    SumTake(s, h, x);
    SumSame(s - {x}, f, h);
  }

  lemma {:induction false} SumZero<T(!new)>(s: set<T>, f: map<T, nat>)
    requires s <= f.Keys && forall x :: x in s ==> f[x] == 0
    ensures Sum(s, f) == 0
  {
    if s != {} {
      var x :| x in s;
      SumTake(s, f, x);
      SumZero(s - {x}, f);
    }
  }

  // ---------- degrees

  ghost function OutEdges<T(!new)>(edges: set<(T, T)>, v: T): set<(T, T)> { set e | e in edges && e.0 == v }
  ghost function InEdges<T(!new)>(edges: set<(T, T)>, v: T): set<(T, T)> { set e | e in edges && e.1 == v }

  /** The tables hold the out- and in-degrees of the given edges, and both add up to their number. */
  ghost predicate Degrees<T(!new)>(nodes: set<T>, edges: set<(T, T)>, fanOut: map<T, nat>, fanIn: map<T, nat>) {
    && fanOut.Keys == nodes && fanIn.Keys == nodes
    && (forall v :: v in nodes ==> fanOut[v] == |OutEdges(edges, v)|)
    && (forall v :: v in nodes ==> fanIn[v] == |InEdges(edges, v)|)
    && Sum(nodes, fanOut) == |edges|
    && Sum(nodes, fanIn) == |edges|
  }

  lemma OneMoreFrom<T(!new)>(edges: set<(T, T)>, u: T, v: T, w: T)
    requires (u, v) !in edges
    ensures |OutEdges(edges + {(u, v)}, w)| == |OutEdges(edges, w)| + if w == u then 1 else 0
  {
    var more := edges + {(u, v)};
    if w == u {
      assert OutEdges(more, w) == OutEdges(edges, w) + {(u, v)};
    } else {
      assert OutEdges(more, w) == OutEdges(edges, w);
    }
  }

  lemma OneMoreInto<T(!new)>(edges: set<(T, T)>, u: T, v: T, w: T)
    requires (u, v) !in edges
    ensures |InEdges(edges + {(u, v)}, w)| == |InEdges(edges, w)| + if w == v then 1 else 0
  {
    var more := edges + {(u, v)};
    if w == v {
      assert InEdges(more, w) == InEdges(edges, w) + {(u, v)};
    } else {
      assert InEdges(more, w) == InEdges(edges, w);
    }
  }

  lemma AddEdge<T(!new)>(nodes: set<T>, edges: set<(T, T)>, fanOut: map<T, nat>, fanIn: map<T, nat>, u: T, v: T)
    requires Degrees(nodes, edges, fanOut, fanIn) && u in nodes && v in nodes && (u, v) !in edges
    ensures Degrees(nodes, edges + {(u, v)}, fanOut[u := fanOut[u] + 1], fanIn[v := fanIn[v] + 1])
  {
    hide OutEdges, InEdges;
    SumBump(nodes, fanOut, u);
    SumBump(nodes, fanIn, v);
    forall w | w in nodes { OneMoreFrom(edges, u, v, w); }
    forall w | w in nodes { OneMoreInto(edges, u, v, w); }
  }

  method CountDegrees<T(==, !new)>(adjacency: Adjacency<T>, nodes: set<T>)
    returns (fanOut: map<T, nat>, fanIn: map<T, nat>, edges: set<(T, T)>)
    requires forall u, v :: Edge(adjacency, u, v) ==> u in nodes && v in nodes
    ensures edges == EdgeSet(adjacency) && Degrees(nodes, edges, fanOut, fanIn)
  {
    hide Degrees;
    fanOut, fanIn := map v | v in nodes :: 0, map v | v in nodes :: 0;
    edges := {};
    NoEdges(nodes, fanOut, fanIn);
    var todo := adjacency.Keys;
    while todo != {}
      invariant todo <= adjacency.Keys
      invariant Degrees(nodes, edges, fanOut, fanIn) && fanOut.Keys == nodes && fanIn.Keys == nodes
      invariant forall u, v :: (u, v) in edges <==> u in adjacency && u !in todo && v in adjacency[u]
      decreases todo
    {
      var caller :| caller in todo;
      var callees := adjacency[caller];
      for k := 0 to |callees|
        invariant Degrees(nodes, edges, fanOut, fanIn) && fanOut.Keys == nodes && fanIn.Keys == nodes
        invariant forall u, v :: (u, v) in edges <==>
                    (u in adjacency && u !in todo && v in adjacency[u]) || (u == caller && v in callees[..k])
      {
        var callee := callees[k];
        assert Edge(adjacency, caller, callee);
        if (caller, callee) !in edges {
          AddEdge(nodes, edges, fanOut, fanIn, caller, callee);
          edges := edges + {(caller, callee)};
          fanOut := fanOut[caller := fanOut[caller] + 1];
          fanIn := fanIn[callee := fanIn[callee] + 1];
        }
      }
      todo := todo - {caller};
    }
    forall e ensures e in edges <==> e in EdgeSet(adjacency) { assert e == (e.0, e.1); }
  }

  lemma NoEdges<T(!new)>(nodes: set<T>, fanOut: map<T, nat>, fanIn: map<T, nat>)
    requires fanOut.Keys == nodes && fanIn.Keys == nodes
    requires forall v :: v in nodes ==> fanOut[v] == 0 && fanIn[v] == 0
    ensures Degrees(nodes, {}, fanOut, fanIn)
  {
    SumZero(nodes, fanOut);
    SumZero(nodes, fanIn);
    forall v | v in nodes ensures OutEdges({}, v) == {} && InEdges({}, v) == {} { }
  }

  // ---------- counting components

  ghost function Elements<T>(members: seq<T>): set<T> { set v | v in members }

  /** The mutual-reachability class of a node. */
  ghost function ClassOf<T(!new)>(g: Adjacency<T>, nodes: set<T>, u: T): set<T> { set v | v in nodes && Mutual(g, u, v) }

  /** The classes that contain a directed cycle. */
  ghost function CyclicClasses<T(!new)>(g: Adjacency<T>, nodes: set<T>): set<set<T>> {
    set u | u in nodes && OnCycle(g, u) :: ClassOf(g, nodes, u)
  }

  ghost function FlaggedSets<T>(blocks: seq<Component<T>>): set<set<T>> {
    set i | 0 <= i < |blocks| && blocks[i].isRecursive :: Elements(blocks[i].members)
  }

  method CountRecursive<T>(blocks: seq<Component<T>>) returns (n: nat)
    requires forall i, j, v :: 0 <= i < |blocks| && 0 <= j < |blocks| && v in blocks[i].members && v in blocks[j].members ==> i == j
    requires forall i :: 0 <= i < |blocks| ==> blocks[i].members != []
    ensures n == |FlaggedSets(blocks)|
  {
    n := 0;
    for k := 0 to |blocks|
      invariant n == |FlaggedSets(blocks[..k])|
    {
      ghost var before, after := blocks[..k], blocks[..k + 1];
      ghost var s := Elements(blocks[k].members);
      assert forall i :: 0 <= i < k ==> before[i] == after[i] == blocks[i];
      assert after[k] == blocks[k];
      if blocks[k].isRecursive {
        assert FlaggedSets(after) == FlaggedSets(before) + {s} by {
          forall t | t in FlaggedSets(before) ensures t in FlaggedSets(after) {
            var i :| 0 <= i < |before| && before[i].isRecursive && Elements(before[i].members) == t;
            assert after[i].isRecursive;
          }
          assert after[k].isRecursive;
        }
        assert s !in FlaggedSets(before) by {
          assert blocks[k].members[0] in s;
        }
        n := n + 1;
      } else {
        assert FlaggedSets(after) == FlaggedSets(before) by {
          forall t | t in FlaggedSets(before) ensures t in FlaggedSets(after) {
            var i :| 0 <= i < |before| && before[i].isRecursive && Elements(before[i].members) == t;
            assert after[i].isRecursive;
          }
        }
      }
    }
    assert blocks[..|blocks|] == blocks;
  }

  lemma FlaggedAreCyclic<T(!new)>(g: Adjacency<T>, unresolved: set<T>, order: AnalysisOrder<T>)
    requires IsAnalysisOrder(g, unresolved, order)
    ensures FlaggedSets(order.components) == CyclicClasses(g, AllNodes(g, unresolved))
  {
    hide AllNodes, Mutual, OnCycle;
    var nodes, blocks := AllNodes(g, unresolved), order.components;
    forall i, u | 0 <= i < |blocks| && u in blocks[i].members ensures Elements(blocks[i].members) == ClassOf(g, nodes, u) { }
    forall t | t in FlaggedSets(blocks) ensures t in CyclicClasses(g, nodes) {
      var i :| 0 <= i < |blocks| && blocks[i].isRecursive && Elements(blocks[i].members) == t;
      var u := blocks[i].members[0];
      assert u in blocks[i].members;
      assert t == ClassOf(g, nodes, u);
    }
    forall t | t in CyclicClasses(g, nodes) ensures t in FlaggedSets(blocks) {
      var u :| u in nodes && OnCycle(g, u) && t == ClassOf(g, nodes, u);
      var i :| 0 <= i < |blocks| && u in blocks[i].members;
      assert blocks[i].isRecursive;
      assert t == Elements(blocks[i].members);
    }
  }

  lemma {:induction false} DistinctCount<T(!new)>(list: seq<T>)
    requires TarjanSearch.Distinct(list)
    ensures |Elements(list)| == |list|
  {
    if list != [] {
      var init := list[..|list| - 1];
      DistinctCount(init);
      assert list == init + [list[|list| - 1]];
      assert Elements(list) == Elements(init) + {list[|list| - 1]};
    }
  }

  /** The components together hold every node once. */
  lemma MembershipTotal<T(!new)>(g: Adjacency<T>, unresolved: set<T>, order: AnalysisOrder<T>)
    requires IsAnalysisOrder(g, unresolved, order)
    requires forall i :: 0 <= i < |order.components| ==> TarjanSearch.Distinct(order.components[i].members)
    ensures |Flatten(order.components)| == |AllNodes(g, unresolved)|
  {
    hide AllNodes;
    var flat := Flatten(order.components);
    FlattenDistinct(order.components);
    DistinctCount(flat);
    forall v ensures v in flat <==> v in AllNodes(g, unresolved) { FlattenMembers(order.components, v); }
    assert Elements(flat) == AllNodes(g, unresolved);
  }

  // ---------- rankings

  /** Higher degree first, then by address. */
  predicate RanksBefore<T(==)>(leq: (T, T) -> bool, degree: map<T, nat>, a: T, b: T) {
    var da, db := if a in degree then degree[a] else 0, if b in degree then degree[b] else 0;
    da > db || (da == db && leq(a, b))
  }

  lemma RankingIsOrder<T(!new)>(leq: (T, T) -> bool, degree: map<T, nat>)
    requires TotalOrder(leq)
    ensures TotalOrder((a, b) => RanksBefore(leq, degree, a, b))
  {
    var r := (a, b) => RanksBefore(leq, degree, a, b);
    forall a, b, c | r(a, b) && r(b, c) ensures r(a, c) { assert leq(a, b) && leq(b, c) ==> leq(a, c); }
    forall a, b ensures r(a, b) || r(b, a) { assert leq(a, b) || leq(b, a); }
  }

  /** The first entry has the higher degree, or the same and the lesser address. */
  ghost predicate Outranks<T>(leq: (T, T) -> bool, degree: map<T, nat>, a: T, b: T)
    requires a in degree && b in degree
  {
    degree[a] > degree[b] || (degree[a] == degree[b] && leq(a, b))
  }

  /** `top` lists, in ranking order, nodes with a positive degree; it is short only if it lists them all,
      and every node left out ranks after every node listed. */
  ghost predicate IsTop<T(!new)>(leq: (T, T) -> bool, degree: map<T, nat>, n: int, top: seq<FanEntry<T>>) {
    && (forall i :: 0 <= i < |top| ==> top[i].address in degree && degree[top[i].address] == top[i].count > 0)
    && (forall i, j :: 0 <= i < j < |top| ==>
          top[i].address != top[j].address && Outranks(leq, degree, top[i].address, top[j].address))
    && |top| <= (if n > 0 then n else 0)
    && (forall v :: v in degree && degree[v] > 0 ==>
          || (exists i :: 0 <= i < |top| && top[i].address == v)
          || (|top| == (if n > 0 then n else 0) && forall i :: 0 <= i < |top| ==> Outranks(leq, degree, top[i].address, v)))
  }

  method Ranked<T(==, !new)>(leq: (T, T) -> bool, degree: map<T, nat>, n: int) returns (top: seq<FanEntry<T>>)
    requires TotalOrder(leq)
    ensures IsTop(leq, degree, n, top)
  {
    hide TotalOrder, RanksBefore, IsTop;
    top := [];
    if n <= 0 {
      NoTop(leq, degree, n);
      return;
    }
    RankingIsOrder(leq, degree);
    var positive := set v | v in degree && degree[v] > 0;
    var sorted := SortedElements((a, b) => RanksBefore(leq, degree, a, b), positive);
    while |top| < n && |top| < |sorted|
      invariant |top| <= n && |top| <= |sorted|
      invariant forall i :: 0 <= i < |top| ==> sorted[i] in degree && top[i] == FanEntry(sorted[i], degree[sorted[i]])
    {
      assert sorted[|top|] in sorted;
      top := top + [FanEntry(sorted[|top|], degree[sorted[|top|]])];
    }
    FirstAreTop(leq, degree, n, sorted, top);
  }

  lemma NoTop<T(!new)>(leq: (T, T) -> bool, degree: map<T, nat>, n: int)
    requires n <= 0
    ensures IsTop(leq, degree, n, [])
  {
  }

  lemma FirstAreTop<T(!new)>(leq: (T, T) -> bool, degree: map<T, nat>, n: int, sorted: seq<T>, top: seq<FanEntry<T>>)
    requires Ascending((a, b) => RanksBefore(leq, degree, a, b), sorted)
    requires forall v :: v in sorted <==> v in degree && degree[v] > 0
    requires n > 0 && |top| == if n <= |sorted| then n else |sorted|
    requires forall i :: 0 <= i < |top| ==> sorted[i] in degree && top[i] == FanEntry(sorted[i], degree[sorted[i]])
    ensures IsTop(leq, degree, n, top)
  {
    forall a, b | a in degree && b in degree ensures RanksBefore(leq, degree, a, b) <==> Outranks(leq, degree, a, b) { }
    hide RanksBefore, Outranks;
    forall i | 0 <= i < |top| ensures degree[top[i].address] > 0 { assert sorted[i] in sorted; }
    forall v | v in degree && degree[v] > 0
      ensures (exists i :: 0 <= i < |top| && top[i].address == v)
           || (|top| == n && forall i :: 0 <= i < |top| ==> Outranks(leq, degree, top[i].address, v))
    {
      assert v in sorted;
      var j :| 0 <= j < |sorted| && sorted[j] == v;
      if j < |top| { assert top[j].address == v; }
    }
  }

  // ---------- all metrics

  method ComputeCallGraphMetrics<T(==, !new)>(leq: (T, T) -> bool, adjacency: Adjacency<T>, unresolved: set<T>, topN: int)
    returns (m: CallGraphMetrics<T>, ghost order: AnalysisOrder<T>, ghost fanOut: map<T, nat>, ghost fanIn: map<T, nat>)
    requires TotalOrder(leq)
    ensures IsAnalysisOrder(adjacency, unresolved, order)
    ensures Degrees(AllNodes(adjacency, unresolved), EdgeSet(adjacency), fanOut, fanIn)
    ensures m.edgeCount == |EdgeSet(adjacency)|
    ensures m.functionCount == |AllNodes(adjacency, unresolved)| == |Flatten(order.components)|
    ensures m.leafCount == |set v | v in AllNodes(adjacency, unresolved) && fanOut[v] == 0|
    ensures m.rootCount == |set v | v in AllNodes(adjacency, unresolved) && fanIn[v] == 0|
    ensures m.recursiveComponentCount == |CyclicClasses(adjacency, AllNodes(adjacency, unresolved))|
    ensures m.selfRecursiveCount == |set v | v in AllNodes(adjacency, unresolved) && Edge(adjacency, v, v)|
    ensures m.unresolvedCallerCount == |unresolved|
    ensures IsTop(leq, fanIn, topN, m.topFanIn) && IsTop(leq, fanOut, topN, m.topFanOut)
  {
    hide TotalOrder, AllNodes, EdgeSet, Degrees, IsTop, IsAnalysisOrder, CyclicClasses, Ascending;
    var listed := CollectNodes(leq, adjacency, unresolved);
    var nodes := set v | v in listed;
    assert nodes == AllNodes(adjacency, unresolved);
    NodesHaveEdges(adjacency, unresolved);
    var outs, ins, edges := CountDegrees(adjacency, nodes);
    assert outs.Keys == nodes && ins.Keys == nodes by { DegreeKeys(nodes, edges, outs, ins); }
    fanOut, fanIn := outs, ins;
    var plan;
    ghost var rounds;
    plan, rounds := ComputeAnalysisOrder(leq, adjacency, unresolved);
    order := plan;
    var recursive := CountCyclic(adjacency, unresolved, plan);
    forall i | 0 <= i < |order.components| ensures TarjanSearch.Distinct(order.components[i].members) {
      TarjanSearch.AscendingDistinct(leq, order.components[i].members);
    }
    MembershipTotal(adjacency, unresolved, order);
    var selfLoops := set v | v in plan.selfRecursive;
    SelfLoopSet(adjacency, unresolved, plan);
    var topIn := Ranked(leq, ins, topN);
    var topOut := Ranked(leq, outs, topN);
    m := CallGraphMetrics(|nodes|, |edges|, |set v | v in nodes && outs[v] == 0|, |set v | v in nodes && ins[v] == 0|,
                          recursive, |selfLoops|, |unresolved|, topIn, topOut);
  }

  method CountCyclic<T(!new)>(ghost g: Adjacency<T>, ghost unresolved: set<T>, order: AnalysisOrder<T>) returns (n: nat)
    requires IsAnalysisOrder(g, unresolved, order)
    ensures n == |CyclicClasses(g, AllNodes(g, unresolved))|
  {
    n := CountRecursive(order.components);
    FlaggedAreCyclic(g, unresolved, order);
  }

  lemma SelfLoopSet<T(!new)>(g: Adjacency<T>, unresolved: set<T>, order: AnalysisOrder<T>)
    requires IsAnalysisOrder(g, unresolved, order)
    ensures (set v | v in order.selfRecursive) == set v | v in AllNodes(g, unresolved) && Edge(g, v, v)
  {
  }

  lemma DegreeKeys<T(!new)>(nodes: set<T>, edges: set<(T, T)>, fanOut: map<T, nat>, fanIn: map<T, nat>)
    requires Degrees(nodes, edges, fanOut, fanIn)
    ensures fanOut.Keys == nodes && fanIn.Keys == nodes
  {
  }
}
