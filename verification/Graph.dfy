/** Directed graphs given as adjacency maps, with paths, reachability and cycles.

    This is the reference vocabulary against which the iterative graph algorithms are
    specified.  A graph maps a node to the list of its targets; a target may have no
    entry of its own and lists may repeat a target.
 */
module Graph {

  type Adjacency<T> = map<T, seq<T>>

  predicate Edge<T(==)>(g: Adjacency<T>, u: T, v: T) {
    u in g && v in g[u]
  }

  ghost predicate IsPath<T>(g: Adjacency<T>, p: seq<T>) {
    && |p| > 0
    && forall i {:trigger p[i]} :: 0 < i < |p| ==> Edge(g, p[i - 1], p[i])
  }

  /** `p` leads from `u` to `v`; it may be the one-node path. */
  ghost predicate Leads<T>(g: Adjacency<T>, p: seq<T>, u: T, v: T) {
    IsPath(g, p) && p[0] == u && p[|p| - 1] == v
  }

  ghost predicate Reach<T(!new)>(g: Adjacency<T>, u: T, v: T) {
    exists p :: Leads(g, p, u, v)
  }

  ghost predicate Mutual<T(!new)>(g: Adjacency<T>, u: T, v: T) {
    Reach(g, u, v) && Reach(g, v, u)
  }

  /** `u` lies on a directed cycle; a self-loop is a cycle. */
  ghost predicate OnCycle<T(!new)>(g: Adjacency<T>, u: T) {
    exists v :: Edge(g, u, v) && Reach(g, v, u)
  }

  ghost predicate Cyclic<T(!new)>(g: Adjacency<T>) {
    exists u :: OnCycle(g, u)
  }

  /** Every target of an edge has an entry of its own. */
  ghost predicate Closed<T(!new)>(g: Adjacency<T>) {
    forall u, v :: Edge(g, u, v) ==> v in g
  }

  ghost predicate ClosedUnder<T(!new)>(g: Adjacency<T>, s: set<T>) {
    forall u, v :: u in s && Edge(g, u, v) ==> v in s
  }

  /** Every edge strictly decreases the rank. */
  ghost predicate Ranks<T(!new)>(g: Adjacency<T>, rank: map<T, nat>) {
    forall u, v :: Edge(g, u, v) ==> u in rank && v in rank && rank[v] < rank[u]
  }

  lemma ReachRefl<T(!new)>(g: Adjacency<T>, u: T)
    ensures Reach(g, u, u)
  {
    assert Leads(g, [u], u, u);
  }

  lemma ReachEdge<T(!new)>(g: Adjacency<T>, u: T, v: T)
    requires Edge(g, u, v)
    ensures Reach(g, u, v)
  {
    assert Leads(g, [u, v], u, v);
  }

  lemma ReachTrans<T(!new)>(g: Adjacency<T>, u: T, v: T, w: T)
    requires Reach(g, u, v) && Reach(g, v, w)
    ensures Reach(g, u, w)
  {
    var p :| Leads(g, p, u, v);
    var q :| Leads(g, q, v, w);
    var r := p + q[1..];
    forall i | 0 < i < |r| ensures Edge(g, r[i - 1], r[i]) {
      if i >= |p| {
        assert r[i] == q[i - |p| + 1];
        assert r[i - 1] == q[i - |p|];
      }
    }
    assert Leads(g, r, u, w);
  }

  /** A path cannot leave a closed set. */
  lemma {:induction false} ClosedPath<T(!new)>(g: Adjacency<T>, s: set<T>, p: seq<T>, i: nat)
    requires ClosedUnder(g, s) && IsPath(g, p) && p[0] in s && i < |p|
    ensures p[i] in s
  {
    if i > 0 {
      ClosedPath(g, s, p, i - 1);
      assert Edge(g, p[i - 1], p[i]);
    }
  }

  lemma ClosedReach<T(!new)>(g: Adjacency<T>, s: set<T>, u: T, v: T)
    requires ClosedUnder(g, s) && u in s && Reach(g, u, v)
    ensures v in s
  {
    var p :| Leads(g, p, u, v);
    ClosedPath(g, s, p, |p| - 1);
  }

  lemma {:induction false} RankFallsAlongPath<T(!new)>(g: Adjacency<T>, rank: map<T, nat>, p: seq<T>, i: nat)
    requires Ranks(g, rank) && IsPath(g, p) && p[0] in rank && i < |p|
    ensures p[i] in rank && rank[p[i]] <= rank[p[0]]
  {
    if i > 0 {
      RankFallsAlongPath(g, rank, p, i - 1);
      assert Edge(g, p[i - 1], p[i]);
    }
  }

  /** A ranked graph has no cycle. */
  lemma RankedIsAcyclic<T(!new)>(g: Adjacency<T>, rank: map<T, nat>)
    requires Ranks(g, rank)
    ensures !Cyclic(g)
  {
    if Cyclic(g) {
      var u :| OnCycle(g, u);
      var v :| Edge(g, u, v) && Reach(g, v, u);
      var p :| Leads(g, p, v, u);
      RankFallsAlongPath(g, rank, p, |p| - 1);
      assert false;
    }
  }

  /** Dropping self-loops and repeated targets does not change reachability. */
  lemma {:induction false} ReachSubgraph<T(!new)>(g: Adjacency<T>, h: Adjacency<T>, p: seq<T>, i: nat)
    requires forall u, v :: Edge(g, u, v) && u != v ==> Edge(h, u, v)
    requires IsPath(g, p) && i < |p|
    ensures Reach(h, p[0], p[i])
  {
    if i == 0 {
      ReachRefl(h, p[0]);
    } else {
      ReachSubgraph(g, h, p, i - 1);
      assert Edge(g, p[i - 1], p[i]);
      if p[i - 1] != p[i] {
        ReachEdge(h, p[i - 1], p[i]);
        ReachTrans(h, p[0], p[i - 1], p[i]);
      }
    }
  }

  /** Two graphs with the same non-self edges reach the same nodes. */
  lemma ReachSameEdges<T(!new)>(g: Adjacency<T>, h: Adjacency<T>, u: T, v: T)
    requires forall a, b :: a != b ==> (Edge(g, a, b) <==> Edge(h, a, b))
    ensures Reach(g, u, v) <==> Reach(h, u, v)
  {
    if Reach(g, u, v) {
      var p :| Leads(g, p, u, v);
      ReachSubgraph(g, h, p, |p| - 1);
    }
    if Reach(h, u, v) {
      var p :| Leads(h, p, u, v);
      ReachSubgraph(h, g, p, |p| - 1);
    }
  }
}
