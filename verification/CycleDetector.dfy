/** The three-colour depth-first cycle detector of `core/validation.py`. */
module CycleDetector {
  import opened Graph

  datatype Colour = White | Grey | Black

  /** A stack entry is a node to visit, or the marker that closes a visited node. */
  datatype Entry<T> = Entry(node: T, leaving: bool)

  /** `t` is still to be visited, or being visited, above position `p`. */
  ghost predicate Above<T>(stack: seq<Entry<T>>, p: nat, t: T) {
    exists q :: p < q < |stack| && stack[q].node == t
  }

  ghost predicate Tables<T(!new)>(g: Adjacency<T>, colour: map<T, Colour>, stack: seq<Entry<T>>, rank: map<T, nat>) {
    && colour.Keys == g.Keys
    && (forall v :: v in rank <==> v in colour && colour[v] == Black)
    && (forall q :: 0 <= q < |stack| ==> stack[q].node in g)
    && (forall q :: 0 <= q < |stack| && stack[q].leaving ==> colour[stack[q].node] == Grey)
  }

  /** A node is grey exactly while its one marker is on the stack; markers reach all that lies above them. */
  ghost predicate Markers<T(!new)>(g: Adjacency<T>, colour: map<T, Colour>, stack: seq<Entry<T>>) {
    && (forall v :: v in colour && colour[v] == Grey ==> Entry(v, true) in stack)
    && (forall p, q :: 0 <= p < q < |stack| && stack[p].leaving && stack[q].leaving ==> stack[p].node != stack[q].node)
    && (forall p, q :: 0 <= p < q < |stack| && stack[p].leaving ==> Reach(g, stack[p].node, stack[q].node))
  }

  /** No marker has an edge down to a marker, and its other targets are finished or above it. */
  ghost predicate Obligations<T(!new)>(g: Adjacency<T>, stack: seq<Entry<T>>, rank: map<T, nat>) {
    && (forall p, m :: 0 <= m <= p < |stack| && stack[p].leaving && stack[m].leaving ==> !Edge(g, stack[p].node, stack[m].node))
    && (forall p, t :: 0 <= p < |stack| && stack[p].leaving && Edge(g, stack[p].node, t) ==> t in rank || Above(stack, p, t))
  }

  ghost predicate Ranked<T(!new)>(g: Adjacency<T>, rank: map<T, nat>) {
    forall u, t :: u in rank && Edge(g, u, t) ==> t in rank && rank[t] < rank[u]
  }

  ghost predicate Searching<T(!new)>(g: Adjacency<T>, colour: map<T, Colour>, stack: seq<Entry<T>>, rank: map<T, nat>) {
    && Tables(g, colour, stack, rank)
    && Markers(g, colour, stack)
    && Obligations(g, stack, rank)
    && Ranked(g, rank)
  }

  /** The entries pushed for the white ones among `targets`. */
  function ToVisit<T>(colour: map<T, Colour>, targets: seq<T>): (r: seq<Entry<T>>)
    ensures forall e :: e in r ==> e.node in targets && !e.leaving
    ensures forall t :: t in targets && t in colour && colour[t] == White ==> Entry(t, false) in r
  {
    if targets == [] then []
    else
      var last := targets[|targets| - 1];
      var r := ToVisit(colour, targets[..|targets| - 1]);
      assert targets == targets[..|targets| - 1] + [last];
      if last in colour && colour[last] == White then r + [Entry(last, false)] else r
  }

  // ---------- the steps of the search keep the invariant

  /** Popping a marker: every target is finished, so the node can be. */
  lemma CloseNode<T(!new)>(g: Adjacency<T>, colour: map<T, Colour>, stack: seq<Entry<T>>, rank: map<T, nat>, n: nat)
    requires Searching(g, colour, stack, rank) && stack != [] && stack[|stack| - 1].leaving
    requires forall v :: v in rank ==> rank[v] < n
    ensures var v := stack[|stack| - 1].node;
      Searching(g, colour[v := Black], stack[..|stack| - 1], rank[v := n])
  {
    hide Reach, Edge, Tables, Markers, Obligations, Ranked;
    CloseMarkers(g, colour, stack, rank);
    CloseRanked(g, colour, stack, rank, n);
    CloseObligations(g, colour, stack, rank, n);
  }

  lemma CloseMarkers<T(!new)>(g: Adjacency<T>, colour: map<T, Colour>, stack: seq<Entry<T>>, rank: map<T, nat>)
    requires Tables(g, colour, stack, rank) && Markers(g, colour, stack) && stack != [] && stack[|stack| - 1].leaving
    ensures Markers(g, colour[stack[|stack| - 1].node := Black], stack[..|stack| - 1])
  {
    hide Reach, Edge;
    var v, rest := stack[|stack| - 1].node, stack[..|stack| - 1];
    var colour' := colour[v := Black];
    forall w | w in colour' && colour'[w] == Grey ensures Entry(w, true) in rest {
      var m :| 0 <= m < |stack| && stack[m] == Entry(w, true);
      assert rest[m] == Entry(w, true);
    }
  }

  /** All targets of the node are finished, so it may be ranked above them. */
  lemma CloseRanked<T(!new)>(g: Adjacency<T>, colour: map<T, Colour>, stack: seq<Entry<T>>, rank: map<T, nat>, n: nat)
    requires Tables(g, colour, stack, rank) && Markers(g, colour, stack) && Obligations(g, stack, rank) && Ranked(g, rank)
    requires stack != [] && stack[|stack| - 1].leaving && forall v :: v in rank ==> rank[v] < n
    ensures var v := stack[|stack| - 1].node;
      Ranked(g, rank[v := n]) && Tables(g, colour[v := Black], stack[..|stack| - 1], rank[v := n])
  {
    hide Reach, Edge;
    var top := |stack| - 1;
    assert stack[top].node !in rank;
    forall t | Edge(g, stack[top].node, t) ensures t in rank { assert !Above(stack, top, t); }
  }

  lemma CloseObligations<T(!new)>(g: Adjacency<T>, colour: map<T, Colour>, stack: seq<Entry<T>>, rank: map<T, nat>, n: nat)
    requires Obligations(g, stack, rank) && stack != []
    ensures Obligations(g, stack[..|stack| - 1], rank[stack[|stack| - 1].node := n])
  {
    hide Edge;
    var rest, rank' := stack[..|stack| - 1], rank[stack[|stack| - 1].node := n];
    forall p, t | 0 <= p < |rest| && rest[p].leaving && Edge(g, rest[p].node, t) ensures t in rank' || Above(rest, p, t) {
      if t !in rank' {
        assert Above(stack, p, t);
        var q :| p < q < |stack| && stack[q].node == t;
        assert rest[q].node == t;
      }
    }
  }

  /** Popping an entry whose node was visited in the meantime. */
  lemma SkipEntry<T(!new)>(g: Adjacency<T>, colour: map<T, Colour>, stack: seq<Entry<T>>, rank: map<T, nat>)
    requires Searching(g, colour, stack, rank) && stack != [] && !stack[|stack| - 1].leaving
    requires colour[stack[|stack| - 1].node] != White
    ensures Searching(g, colour, stack[..|stack| - 1], rank)
  {
    hide Reach, Edge, Ranked;
    var top := |stack| - 1;
    var rest := stack[..top];
    forall w | w in colour && colour[w] == Grey ensures Entry(w, true) in rest {
      var m :| 0 <= m < |stack| && stack[m] == Entry(w, true);
      assert rest[m] == Entry(w, true);
    }
    forall p, t | 0 <= p < |rest| && rest[p].leaving && Edge(g, rest[p].node, t) ensures t in rank || Above(rest, p, t) {
      if t !in rank {
        assert Above(stack, p, t);
        var q :| p < q < |stack| && stack[q].node == t;
        if q == top {
          var m :| 0 <= m < |stack| && stack[m] == Entry(t, true);
          assert rest[m].node == t;
        } else {
          assert rest[q].node == t;
        }
      }
    }
  }

  /** Visiting a white node none of whose targets is grey. */
  lemma OpenNode<T(!new)>(g: Adjacency<T>, colour: map<T, Colour>, stack: seq<Entry<T>>, rank: map<T, nat>, u: T)
    requires Closed(g) && Searching(g, colour, stack, rank) && stack != []
    requires stack[|stack| - 1] == Entry(u, false) && colour[u] == White
    requires forall t :: t in g[u] ==> t in colour[u := Grey] && colour[u := Grey][t] != Grey
    ensures var colour' := colour[u := Grey];
      Searching(g, colour', stack[..|stack| - 1] + [Entry(u, true)] + ToVisit(colour', g[u]), rank)
  {
    hide Reach, Ranked, Markers, Obligations;
    var n := |stack| - 1;
    var colour' := colour[u := Grey];
    var stack' := stack[..n] + [Entry(u, true)] + ToVisit(colour', g[u]);
    PushTargets(g, colour', stack, u);
    OpenTables(g, colour, stack, colour', stack', rank, u, n);
    OpenMarkers(g, colour, stack, colour', stack', u, n);
    OpenObligations(g, colour, stack, colour', stack', rank, u, n);
  }

  /** `stack'` is `stack` with its top entry turned into a marker and targets pushed above it. */
  ghost predicate Opened<T(!new)>(g: Adjacency<T>, stack: seq<Entry<T>>, stack': seq<Entry<T>>, u: T, n: nat) {
    && |stack| == n + 1 && n < |stack'| && stack[n] == Entry(u, false) && stack'[n] == Entry(u, true)
    && (forall q :: 0 <= q < n ==> stack'[q] == stack[q])
    && (forall q :: n < q < |stack'| ==> !stack'[q].leaving && Edge(g, u, stack'[q].node))
  }

  lemma PushTargets<T(!new)>(g: Adjacency<T>, colour: map<T, Colour>, stack: seq<Entry<T>>, u: T)
    requires stack != [] && stack[|stack| - 1] == Entry(u, false) && u in g
    ensures var n := |stack| - 1; var stack' := stack[..n] + [Entry(u, true)] + ToVisit(colour, g[u]);
      && Opened(g, stack, stack', u, n)
      && forall t :: t in g[u] && t in colour && colour[t] == White ==> Entry(t, false) in stack'[n + 1..]
  {
    var n, pushed := |stack| - 1, ToVisit(colour, g[u]);
    var stack' := stack[..n] + [Entry(u, true)] + pushed;
    assert stack'[n + 1..] == pushed;
    forall q | n < q < |stack'| ensures !stack'[q].leaving && Edge(g, u, stack'[q].node) {
      assert stack'[q] == pushed[q - n - 1];
      assert pushed[q - n - 1] in pushed;
    }
  }

  lemma OpenTables<T(!new)>(g: Adjacency<T>, colour: map<T, Colour>, stack: seq<Entry<T>>,
                            colour': map<T, Colour>, stack': seq<Entry<T>>, rank: map<T, nat>, u: T, n: nat)
    requires Closed(g) && Tables(g, colour, stack, rank) && Opened(g, stack, stack', u, n)
    requires colour' == colour[u := Grey] && u in colour && colour[u] == White
    ensures Tables(g, colour', stack', rank)
  {
  }

  lemma OpenMarkers<T(!new)>(g: Adjacency<T>, colour: map<T, Colour>, stack: seq<Entry<T>>,
                             colour': map<T, Colour>, stack': seq<Entry<T>>, u: T, n: nat)
    requires Markers(g, colour, stack) && Opened(g, stack, stack', u, n)
    requires colour' == colour[u := Grey] && u in colour && colour[u] == White
    requires forall q :: 0 <= q < |stack| && stack[q].leaving ==> stack[q].node in colour && colour[stack[q].node] == Grey
    ensures Markers(g, colour', stack')
  {
    hide Reach, Edge;
    forall w | w in colour' && colour'[w] == Grey ensures Entry(w, true) in stack' {
      if w != u {
        var m :| 0 <= m < |stack| && stack[m] == Entry(w, true);
        assert stack'[m] == Entry(w, true);
      } else {
        assert stack'[n] == Entry(w, true);
      }
    }
    forall p, q | 0 <= p < q < |stack'| && stack'[p].leaving ensures Reach(g, stack'[p].node, stack'[q].node) {
      if p < n { assert Reach(g, stack[p].node, stack[n].node); }
      if q > n {
        ReachEdge(g, u, stack'[q].node);
        if p < n { ReachTrans(g, stack'[p].node, u, stack'[q].node); }
      }
    }
  }

  lemma OpenObligations<T(!new)>(g: Adjacency<T>, colour: map<T, Colour>, stack: seq<Entry<T>>,
                                 colour': map<T, Colour>, stack': seq<Entry<T>>, rank: map<T, nat>, u: T, n: nat)
    requires Tables(g, colour, stack, rank) && Obligations(g, stack, rank) && Opened(g, stack, stack', u, n)
    requires u in g && Closed(g) && colour' == colour[u := Grey] && Tables(g, colour', stack', rank)
    requires forall t :: t in g[u] ==> t in colour' && colour'[t] != Grey
    requires forall t :: t in g[u] && colour'[t] == White ==> Entry(t, false) in stack'[n + 1..]
    ensures Obligations(g, stack', rank)
  {
    hide Reach;
    forall p, t | 0 <= p < |stack'| && stack'[p].leaving && Edge(g, stack'[p].node, t) ensures t in rank || Above(stack', p, t) {
      if p == n {
        if t !in rank {
          var k :| 0 <= k < |stack'[n + 1..]| && stack'[n + 1..][k] == Entry(t, false);
          assert stack'[n + 1 + k].node == t;
        }
      } else if t !in rank {
        assert Above(stack, p, t);
        var q :| p < q < |stack| && stack[q].node == t;
        assert stack'[q].node == t;
      }
    }
  }

  /** An edge to a grey node closes a cycle through the node being visited. */
  lemma GreyTarget<T(!new)>(g: Adjacency<T>, colour: map<T, Colour>, stack: seq<Entry<T>>, u: T, t: T)
    requires Markers(g, colour, stack) && stack != [] && stack[|stack| - 1] == Entry(u, false)
    requires Edge(g, u, t) && (t == u || (t in colour && colour[t] == Grey))
    ensures OnCycle(g, u) && Cyclic(g)
  {
    hide Reach, Edge;
    if t == u {
      ReachRefl(g, u);
    } else {
      var m :| 0 <= m < |stack| && stack[m] == Entry(t, true);
      assert Reach(g, stack[m].node, stack[|stack| - 1].node);
    }
  }

  /** Scans the targets of the popped node `u`: stops at a grey one, else pushes the white ones. */
  method ScanTargets<T(==)>(colour: map<T, Colour>, base: seq<Entry<T>>, u: T, targets: seq<T>)
    returns (found: bool, stack: seq<Entry<T>>)
    requires u in colour && forall t :: t in targets ==> t in colour
    ensures found <==> exists t :: t in targets && colour[t] == Grey
    ensures !found ==> stack == base + [Entry(u, true)] + ToVisit(colour, targets)
  {
    stack := base + [Entry(u, true)];
    for k := 0 to |targets|
      invariant forall t :: t in targets[..k] ==> colour[t] != Grey
      invariant stack == base + [Entry(u, true)] + ToVisit(colour, targets[..k])
    {
      assert targets[..k + 1][..k] == targets[..k];
      if colour[targets[k]] == Grey { return true, stack; }
      if colour[targets[k]] == White { stack := stack + [Entry(targets[k], false)]; }
    }
    assert targets[..|targets|] == targets;
    return false, stack;
  }

  ghost function Whites<T>(colour: map<T, Colour>): set<T> { set v | v in colour && colour[v] == White }

  lemma WhitesShrink<T>(colour: map<T, Colour>, node: T, to: Colour)
    requires node in colour && to != White
    ensures Whites(colour[node := to]) == Whites(colour) - {node}
    ensures node in Whites(colour) <==> colour[node] == White
  {
  }

  lemma SearchKeys<T(!new)>(g: Adjacency<T>, colour: map<T, Colour>, stack: seq<Entry<T>>, rank: map<T, nat>)
    requires Searching(g, colour, stack, rank)
    ensures colour.Keys == g.Keys && Markers(g, colour, stack)
    ensures stack != [] ==> stack[|stack| - 1].node in g && (stack[|stack| - 1].leaving ==> colour[stack[|stack| - 1].node] == Grey)
  {
    hide Obligations, Markers, Ranked;
  }

  /** Runs the detector over the whole graph; an accepted graph gets the rank in which its nodes were closed. */
  method DetectCycle<T(==, !new)>(adjacency: Adjacency<T>) returns (found: bool, ghost rank: map<T, nat>)
    requires Closed(adjacency)
    ensures found <==> Cyclic(adjacency)
    ensures !found ==> Ranks(adjacency, rank)
  {
    hide Searching, Cyclic, Ranks, Markers, Whites;
    var colour := map v | v in adjacency :: White;
    rank := map[];
    ghost var closed := 0;
    var starts := adjacency.Keys;
    Initially(adjacency, colour);
    while starts != {}
      invariant starts <= adjacency.Keys && colour.Keys == adjacency.Keys
      invariant Searching(adjacency, colour, [], rank)
      invariant forall v :: v in rank ==> rank[v] < closed
      invariant forall v :: v in adjacency && v !in starts ==> v in rank
      decreases starts
    {
      var start :| start in starts;
      starts := starts - {start};
      SearchKeys(adjacency, colour, [], rank);
      if colour[start] != White {
        AllClosed(adjacency, colour, rank);
        continue;
      }
      var stack := [Entry(start, false)];
      StartNode(adjacency, colour, rank, start);
      while stack != []
        invariant colour.Keys == adjacency.Keys && Searching(adjacency, colour, stack, rank)
        invariant forall v :: v in rank ==> rank[v] < closed
        invariant forall v :: v in adjacency && v !in starts && v != start ==> v in rank
        invariant colour[start] == White ==> stack == [Entry(start, false)]
        decreases Whites(colour), |stack|
      {
        SearchKeys(adjacency, colour, stack, rank);
        var Entry(node, leaving) := stack[|stack| - 1];
        var base := stack[..|stack| - 1];
        if leaving {
          CloseNode(adjacency, colour, stack, rank, closed);
          WhitesShrink(colour, node, Black);
          rank, closed := rank[node := closed], closed + 1;
          colour := colour[node := Black];
          stack := base;
          continue;
        }
        if colour[node] != White {
          SkipEntry(adjacency, colour, stack, rank);
          stack := base;
          continue;
        }
        ghost var before := colour;
        colour := colour[node := Grey];
        WhitesShrink(before, node, Grey);
        assert forall t :: t in adjacency[node] ==> Edge(adjacency, node, t);
        var pushed;
        found, pushed := ScanTargets(colour, base, node, adjacency[node]);
        if found {
          var t :| t in adjacency[node] && colour[t] == Grey;
          GreyTarget(adjacency, before, stack, node, t);
          return;
        }
        OpenNode(adjacency, before, stack, rank, node);
        stack := pushed;
      }
      AllClosed(adjacency, colour, rank);
    }
    found := false;
    Accepted(adjacency, colour, rank);
  }

  lemma Initially<T(!new)>(g: Adjacency<T>, colour: map<T, Colour>)
    requires colour.Keys == g.Keys && forall v :: v in colour ==> colour[v] == White
    ensures Searching(g, colour, [], map[])
  {
  }

  lemma StartNode<T(!new)>(g: Adjacency<T>, colour: map<T, Colour>, rank: map<T, nat>, start: T)
    requires Searching(g, colour, [], rank) && start in g
    ensures Searching(g, colour, [Entry(start, false)], rank)
  {
  }

  lemma Accepted<T(!new)>(g: Adjacency<T>, colour: map<T, Colour>, rank: map<T, nat>)
    requires Searching(g, colour, [], rank) && forall v :: v in g ==> v in rank
    ensures Ranks(g, rank) && !Cyclic(g)
  {
    hide Cyclic;
    RankedIsAcyclic(g, rank);
  }

  /** With an empty stack no node is grey. */
  lemma AllClosed<T(!new)>(g: Adjacency<T>, colour: map<T, Colour>, rank: map<T, nat>)
    requires Searching(g, colour, [], rank)
    ensures forall v :: v in colour && colour[v] != White ==> v in rank
  {
  }
}
