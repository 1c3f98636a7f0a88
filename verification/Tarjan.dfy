/** Invariant of the iterative strongly-connected-component search.

    A `Dfs` value is the state of the search together with the ghost bookkeeping of its
    proof.  The grey path is the part of the work stack whose nodes are numbered; `spent`
    counts the rounds the work loop has given to a node; `via` names a stack node that
    justifies a lowlink; `block` files each finished node under its component.
 */
module TarjanInvariant {
  import opened Graph

  datatype Dfs<T> = Dfs(
    index: map<T, nat>,
    low: map<T, nat>,
    onStack: set<T>,
    path: seq<T>,
    spent: map<T, nat>,
    via: map<T, T>,
    block: map<T, nat>)
  {
    ghost function Top(): T requires path != [] { path[|path| - 1] }

    /** `x` is on the stack, numbered from the i-th grey node on and before the next one. */
    ghost predicate InSegment(i: int, x: T) {
      && 0 <= i < |path| && x in onStack && x in index && path[i] in index
      && index[path[i]] <= index[x]
      && (i + 1 < |path| ==> path[i + 1] in index && index[x] < index[path[i + 1]])
    }
  }

  /** Shape: who is numbered and where each numbered node is kept. */
  ghost predicate Shape<T(!new)>(g: Adjacency<T>, s: Dfs<T>) {
    && s.low.Keys == s.index.Keys == s.spent.Keys <= g.Keys
    && s.index.Keys == s.onStack + s.block.Keys && s.onStack !! s.block.Keys
    && (forall i :: 0 <= i < |s.path| ==> s.path[i] in s.onStack)
    && (forall i, j :: 0 <= i < j < |s.path| ==> s.index[s.path[i]] < s.index[s.path[j]])
    && (forall x :: x in s.onStack ==> s.path != [] && s.index[s.path[0]] <= s.index[x])
  }

  /** The rounds given to a node determine which of its edges were followed. */
  ghost predicate Progress<T(!new)>(g: Adjacency<T>, s: Dfs<T>, pending: set<T>)
    requires Shape(g, s)
  {
    && (forall x :: x in s.index ==> s.spent[x] <= |g[x]| + 1)
    && (forall i :: 0 <= i < |s.path| ==> s.spent[s.path[i]] <= |g[s.path[i]]|)
    && (forall i, x :: s.InSegment(i, x) && x != s.path[i] ==> s.spent[x] == |g[x]| + 1)
    && (forall x :: x in s.block ==> s.spent[x] == |g[x]| + 1)
    && (forall x, j :: x in s.onStack && 0 <= j < |g[x]| && j < s.spent[x] ==> g[x][j] in s.index.Keys + pending)
  }

  /** An older stack node reaches every younger one; a segment reaches back to its grey node. */
  ghost predicate Connected<T(!new)>(g: Adjacency<T>, s: Dfs<T>)
    requires Shape(g, s)
  {
    && (forall x, y :: x in s.onStack && y in s.onStack && s.index[x] <= s.index[y] ==> Reach(g, x, y))
    && (forall i, x :: s.InSegment(i, x) ==> Reach(g, x, s.path[i]))
  }

  /** The lowlink of a grey node is the number of a stack node it reaches. */
  ghost predicate LowSound<T(!new)>(g: Adjacency<T>, s: Dfs<T>)
    requires Shape(g, s)
  {
    forall i {:trigger s.path[i]} :: 0 <= i < |s.path| ==>
      var v := s.path[i];
      && s.low[v] <= s.index[v]
      && v in s.via && s.via[v] in s.onStack && s.index[s.via[v]] == s.low[v] && Reach(g, v, s.via[v])
  }

  /** No followed edge out of a grey node's segment undercuts that node's lowlink. */
  ghost predicate LowComplete<T(!new)>(g: Adjacency<T>, s: Dfs<T>)
    requires Shape(g, s)
  {
    forall i, x, j :: s.InSegment(i, x) && 0 <= j < |g[x]| && j < s.spent[x] && g[x][j] in s.onStack ==>
      s.low[s.path[i]] <= s.index[g[x][j]]
  }

  /** Finished blocks are whole mutual-reachability classes, numbered callees first. */
  ghost predicate Blocks<T(!new)>(g: Adjacency<T>, block: map<T, nat>) {
    && (forall u, v :: u in block ==> (Mutual(g, u, v) <==> v in block && block[u] == block[v]))
    && (forall u, v :: u in block && Edge(g, u, v) ==> v in block && block[v] <= block[u])
  }

  ghost predicate Core<T(!new)>(g: Adjacency<T>, s: Dfs<T>, pending: set<T>) {
    && Shape(g, s)
    && Progress(g, s, pending)
    && Connected(g, s)
    && LowSound(g, s)
    && LowComplete(g, s)
    && Blocks(g, s.block)
  }

  /** All tables have an entry for `v`, and it is on the stack. */
  ghost predicate Tracked<T(!new)>(g: Adjacency<T>, s: Dfs<T>, v: T) {
    v in g && v in s.index && v in s.low && v in s.spent && v in s.via && v in s.onStack
  }

  lemma CoreKeys<T(!new)>(g: Adjacency<T>, s: Dfs<T>, pending: set<T>)
    requires Core(g, s, pending)
    ensures s.low.Keys == s.index.Keys == s.spent.Keys <= g.Keys && s.onStack <= s.index.Keys
    ensures forall x :: x in s.spent ==> s.spent[x] <= |g[x]| + 1
    ensures s.path == [] ==> s.onStack == {} && s.block.Keys == s.index.Keys && forall x :: x in s.spent ==> s.spent[x] == |g[x]| + 1
    ensures Blocks(g, s.block)
  {
  }

  lemma TopTracked<T(!new)>(g: Adjacency<T>, s: Dfs<T>)
    requires Core(g, s, {}) && s.path != []
    ensures Tracked(g, s, s.Top()) && s.spent[s.Top()] <= |g[s.Top()]| && s.low[s.Top()] <= s.index[s.Top()]
    ensures forall i :: 0 <= i < |s.path| - 1 ==> s.path[i] != s.Top()
  {
  }

  lemma PathDistinct<T(!new)>(g: Adjacency<T>, s: Dfs<T>)
    requires Core(g, s, {})
    ensures forall i, j :: 0 <= i < j < |s.path| ==> s.path[i] != s.path[j]
  {
    hide Progress, Connected, LowSound, LowComplete, Blocks;
  }

  /** Nothing is numbered yet. */
  lemma StartCore<T(!new)>(g: Adjacency<T>)
    ensures Core(g, Dfs(map[], map[], {}, [], map[], map[], map[]), {})
  {
  }

  /** With no grey node left, any node may be taken up next. */
  lemma RootCore<T(!new)>(g: Adjacency<T>, s: Dfs<T>, root: T)
    requires Core(g, s, {}) && s.path == []
    ensures Core(g, s, {root})
  {
  }

  // ---------- numbering a node and putting it on both stacks

  function Visit<T>(s: Dfs<T>, v: T, counter: nat): Dfs<T> {
    s.(index := s.index[v := counter], low := s.low[v := counter], onStack := s.onStack + {v},
       path := s.path + [v], spent := s.spent[v := 0], via := s.via[v := v])
  }

  ghost predicate CanVisit<T(!new)>(g: Adjacency<T>, s: Dfs<T>, v: T, counter: nat) {
    && Shape(g, s) && v in g && v !in s.index
    && (forall u :: u in s.index ==> s.index[u] < counter)
    && (s.path != [] ==> Edge(g, s.Top(), v))
  }

  lemma VisitShape<T(!new)>(g: Adjacency<T>, s: Dfs<T>, v: T, counter: nat)
    requires CanVisit(g, s, v, counter)
    ensures Shape(g, Visit(s, v, counter))
    ensures forall i, x :: Visit(s, v, counter).InSegment(i, x) ==>
      (i == |s.path| && x == v) || (i < |s.path| && x != v && s.InSegment(i, x))
  {
    hide Reach;
    var t := Visit(s, v, counter);
    assert forall i :: 0 <= i < |s.path| ==> t.path[i] == s.path[i];
  }

  lemma VisitConnected<T(!new)>(g: Adjacency<T>, s: Dfs<T>, v: T, counter: nat)
    requires CanVisit(g, s, v, counter) && Connected(g, s)
    requires Shape(g, Visit(s, v, counter))
    ensures Connected(g, Visit(s, v, counter))
  {
    ReachRefl(g, v);
    VisitShape(g, s, v, counter);
    forall x | x in s.onStack ensures Reach(g, x, v) {
      var top := s.Top();
      assert s.index[x] > s.index[top] ==> s.InSegment(|s.path| - 1, x);
      assert Reach(g, x, top);
      ReachEdge(g, top, v);
      ReachTrans(g, x, top, v);
    }
  }

  lemma VisitProgress<T(!new)>(g: Adjacency<T>, s: Dfs<T>, v: T, counter: nat)
    requires CanVisit(g, s, v, counter) && Progress(g, s, {v})
    requires Shape(g, Visit(s, v, counter))
    ensures Progress(g, Visit(s, v, counter), {})
  {
    hide Reach;
    VisitShape(g, s, v, counter);
    var t := Visit(s, v, counter);
    assert forall i :: 0 <= i < |s.path| ==> t.path[i] == s.path[i];
  }

  lemma VisitLow<T(!new)>(g: Adjacency<T>, s: Dfs<T>, v: T, counter: nat)
    requires CanVisit(g, s, v, counter) && LowSound(g, s) && LowComplete(g, s)
    requires Shape(g, Visit(s, v, counter))
    ensures LowSound(g, Visit(s, v, counter)) && LowComplete(g, Visit(s, v, counter))
  {
    hide Reach;
    VisitShape(g, s, v, counter);
    ReachRefl(g, v);
    var t := Visit(s, v, counter);
    assert forall i :: 0 <= i < |s.path| ==> t.path[i] == s.path[i];
  }

  lemma VisitCore<T(!new)>(g: Adjacency<T>, s: Dfs<T>, v: T, counter: nat)
    requires Core(g, s, {v}) && v in g && v !in s.index
    requires forall u :: u in s.index ==> s.index[u] < counter
    requires s.path != [] ==> Edge(g, s.Top(), v)
    ensures Core(g, Visit(s, v, counter), {})
  {
    VisitShape(g, s, v, counter);
    VisitProgress(g, s, v, counter);
    VisitConnected(g, s, v, counter);
    VisitLow(g, s, v, counter);
  }

  // ---------- following the next edge of the youngest grey node

  function Advance<T>(s: Dfs<T>, v: T, low: nat, via: T): Dfs<T>
    requires v in s.spent
  {
    s.(low := s.low[v := low], via := s.via[v := via], spent := s.spent[v := s.spent[v] + 1])
  }

  /** The next edge of the youngest grey node leads to `child`. */
  ghost predicate NextEdge<T(!new)>(g: Adjacency<T>, s: Dfs<T>, child: T) {
    && s.path != [] && Shape(g, s)
    && s.spent[s.Top()] < |g[s.Top()]| && g[s.Top()][s.spent[s.Top()]] == child
  }

  lemma AdvanceSegments<T(!new)>(g: Adjacency<T>, s: Dfs<T>, low: nat, via: T)
    requires Shape(g, s) && s.path != []
    ensures var t := Advance(s, s.Top(), low, via);
      && t.path == s.path && Shape(g, t)
      && forall i, x :: t.InSegment(i, x) <==> s.InSegment(i, x)
  {
  }

  lemma AdvanceSpent<T(!new)>(g: Adjacency<T>, s: Dfs<T>, child: T, low: nat, via: T)
    requires NextEdge(g, s, child) && Progress(g, s, {})
    requires Shape(g, Advance(s, s.Top(), low, via))
    ensures var t := Advance(s, s.Top(), low, via);
      forall i, x :: t.InSegment(i, x) && x != t.path[i] ==> t.spent[x] == |g[x]| + 1
  {
    AdvanceSegments(g, s, low, via);
    var v := s.Top();
    var t := Advance(s, v, low, via);
    forall i, x | t.InSegment(i, x) && x != t.path[i] ensures t.spent[x] == |g[x]| + 1 {
      assert s.InSegment(i, x);
      assert s.InSegment(|s.path| - 1, v);
    }
  }

  lemma AdvanceFollowed<T(!new)>(g: Adjacency<T>, s: Dfs<T>, child: T, pending: set<T>, low: nat, via: T)
    requires NextEdge(g, s, child) && Progress(g, s, {}) && child in s.index.Keys + pending
    requires Shape(g, Advance(s, s.Top(), low, via))
    ensures var t := Advance(s, s.Top(), low, via);
      forall x, j :: x in t.onStack && 0 <= j < |g[x]| && j < t.spent[x] ==> g[x][j] in t.index.Keys + pending
  {
    var t := Advance(s, s.Top(), low, via);
    forall x, j | x in t.onStack && 0 <= j < |g[x]| && j < t.spent[x] ensures g[x][j] in t.index.Keys + pending {
      if j < s.spent[x] { assert g[x][j] in s.index.Keys; }
    }
  }

  lemma AdvanceProgress<T(!new)>(g: Adjacency<T>, s: Dfs<T>, child: T, pending: set<T>, low: nat, via: T)
    requires NextEdge(g, s, child) && Progress(g, s, {}) && child in s.index.Keys + pending
    requires Shape(g, Advance(s, s.Top(), low, via))
    ensures Progress(g, Advance(s, s.Top(), low, via), pending)
  {
    AdvanceSpent(g, s, child, low, via);
    AdvanceFollowed(g, s, child, pending, low, via);
  }

  lemma AdvanceLow<T(!new)>(g: Adjacency<T>, s: Dfs<T>, child: T, low: nat, via: T)
    requires NextEdge(g, s, child) && LowComplete(g, s) && low <= s.low[s.Top()]
    requires child in s.onStack ==> low <= s.index[child]
    requires Shape(g, Advance(s, s.Top(), low, via))
    ensures LowComplete(g, Advance(s, s.Top(), low, via))
  {
    hide Reach;
    AdvanceSegments(g, s, low, via);
    var v := s.Top();
    var t := Advance(s, v, low, via);
    forall i, x, j | t.InSegment(i, x) && 0 <= j < |g[x]| && j < t.spent[x] && g[x][j] in t.onStack
      ensures t.low[t.path[i]] <= t.index[g[x][j]]
    {
      assert s.InSegment(i, x);
      if x == v && j == s.spent[v] { assert i == |s.path| - 1; }
    }
  }

  lemma AdvanceLowSound<T(!new)>(g: Adjacency<T>, s: Dfs<T>, low: nat, via: T)
    requires Shape(g, s) && s.path != [] && LowSound(g, s)
    requires low <= s.low[s.Top()] && via in s.onStack && s.index[via] == low && Reach(g, s.Top(), via)
    requires Shape(g, Advance(s, s.Top(), low, via))
    ensures LowSound(g, Advance(s, s.Top(), low, via))
  {
    hide Reach;
  }

  /** The lowlink takes the child's number into account when the child is on the stack. */
  lemma AdvanceCore<T(!new)>(g: Adjacency<T>, s: Dfs<T>, child: T, pending: set<T>, low: nat, via: T)
    requires Core(g, s, {}) && s.path != [] && Tracked(g, s, s.Top())
    requires s.spent[s.Top()] < |g[s.Top()]| && g[s.Top()][s.spent[s.Top()]] == child
    requires child in s.index.Keys + pending && (child in s.onStack ==> child in s.index)
    requires if child in s.onStack && s.index[child] < s.low[s.Top()]
             then low == s.index[child] && via == child
             else low == s.low[s.Top()] && via == s.via[s.Top()]
    ensures Core(g, Advance(s, s.Top(), low, via), pending)
  {
    ReachEdge(g, s.Top(), child);
    AdvanceSegments(g, s, low, via);
    AdvanceProgress(g, s, child, pending, low, via);
    AdvanceLow(g, s, child, low, via);
    AdvanceLowSound(g, s, low, via);
  }

  // ---------- leaving a grey node that stays on the stack

  /** The youngest grey node has followed all its edges. */
  ghost predicate Exhausted<T(!new)>(g: Adjacency<T>, s: Dfs<T>) {
    Shape(g, s) && s.path != [] && s.spent[s.Top()] == |g[s.Top()]|
  }

  function Retreat<T>(s: Dfs<T>, v: T, parent: T): Dfs<T>
    requires s.path != [] && v in s.spent && v in s.low && parent in s.low && v in s.via && parent in s.via
  {
    var lower := s.low[v] < s.low[parent];
    s.(path := s.path[..|s.path| - 1], spent := s.spent[v := s.spent[v] + 1],
       low := s.low[parent := if lower then s.low[v] else s.low[parent]],
       via := s.via[parent := if lower then s.via[v] else s.via[parent]])
  }

  /** A lowlink below the node's own number means there is a parent, and the node reaches it back. */
  lemma OlderGrey<T(!new)>(g: Adjacency<T>, s: Dfs<T>)
    requires Core(g, s, {}) && s.path != [] && s.low[s.Top()] < s.index[s.Top()]
    ensures |s.path| >= 2 && Reach(g, s.Top(), s.path[|s.path| - 2])
  {
    var v := s.Top();
    var w := s.via[v];
    assert |s.path| >= 2;
    var parent := s.path[|s.path| - 2];
    assert s.index[w] > s.index[parent] ==> s.InSegment(|s.path| - 2, w);
    assert Reach(g, w, parent);
    ReachTrans(g, v, w, parent);
  }

  lemma RetreatSegments<T(!new)>(g: Adjacency<T>, s: Dfs<T>)
    requires Exhausted(g, s) && |s.path| >= 2 && s.Top() in s.via && s.path[|s.path| - 2] in s.via
    ensures var k := |s.path| - 1; var t := Retreat(s, s.path[k], s.path[k - 1]);
      && Shape(g, t)
      && forall i, x :: t.InSegment(i, x) ==> s.InSegment(i, x) || (i == k - 1 && s.InSegment(k, x))
  {
  }

  lemma RetreatSpent<T(!new)>(g: Adjacency<T>, s: Dfs<T>)
    requires Exhausted(g, s) && Progress(g, s, {}) && |s.path| >= 2
    requires s.Top() in s.via && s.path[|s.path| - 2] in s.via
    requires Shape(g, Retreat(s, s.Top(), s.path[|s.path| - 2]))
    ensures var t := Retreat(s, s.Top(), s.path[|s.path| - 2]);
      forall i, x :: t.InSegment(i, x) && x != t.path[i] ==> t.spent[x] == |g[x]| + 1
  {
    hide Reach;
    RetreatSegments(g, s);
    var t := Retreat(s, s.Top(), s.path[|s.path| - 2]);
    forall i, x | t.InSegment(i, x) && x != t.path[i] ensures t.spent[x] == |g[x]| + 1 {
      assert s.InSegment(i, x) || s.InSegment(|s.path| - 1, x);
    }
  }

  lemma RetreatProgress<T(!new)>(g: Adjacency<T>, s: Dfs<T>)
    requires Exhausted(g, s) && Progress(g, s, {}) && |s.path| >= 2
    requires s.Top() in s.via && s.path[|s.path| - 2] in s.via
    requires Shape(g, Retreat(s, s.Top(), s.path[|s.path| - 2]))
    ensures Progress(g, Retreat(s, s.Top(), s.path[|s.path| - 2]), {})
  {
    hide Reach;
    RetreatSpent(g, s);
    var v := s.Top();
    var t := Retreat(s, v, s.path[|s.path| - 2]);
    assert forall i :: 0 <= i < |t.path| ==> t.path[i] == s.path[i] != v;
  }

  lemma RetreatConnected<T(!new)>(g: Adjacency<T>, s: Dfs<T>)
    requires Exhausted(g, s) && Connected(g, s) && |s.path| >= 2 && Reach(g, s.Top(), s.path[|s.path| - 2])
    requires s.Top() in s.via && s.path[|s.path| - 2] in s.via
    requires Shape(g, Retreat(s, s.Top(), s.path[|s.path| - 2]))
    ensures Connected(g, Retreat(s, s.Top(), s.path[|s.path| - 2]))
  {
    RetreatSegments(g, s);
    var v, parent := s.Top(), s.path[|s.path| - 2];
    var t := Retreat(s, v, parent);
    forall i, x | t.InSegment(i, x) ensures Reach(g, x, t.path[i]) {
      if !s.InSegment(i, x) { ReachTrans(g, x, v, parent); }
    }
  }

  lemma RetreatLowSound<T(!new)>(g: Adjacency<T>, s: Dfs<T>)
    requires Exhausted(g, s) && |s.path| >= 2 && Connected(g, s) && LowSound(g, s)
    requires Shape(g, Retreat(s, s.Top(), s.path[|s.path| - 2]))
    ensures LowSound(g, Retreat(s, s.Top(), s.path[|s.path| - 2]))
  {
    hide Reach;
    var v, parent := s.Top(), s.path[|s.path| - 2];
    var t := Retreat(s, v, parent);
    ReachTrans(g, parent, v, s.via[v]);
    assert forall i :: 0 <= i < |t.path| ==> t.path[i] == s.path[i];
  }

  lemma RetreatLowComplete<T(!new)>(g: Adjacency<T>, s: Dfs<T>)
    requires Exhausted(g, s) && |s.path| >= 2 && LowComplete(g, s)
    requires s.Top() in s.via && s.path[|s.path| - 2] in s.via
    requires Shape(g, Retreat(s, s.Top(), s.path[|s.path| - 2]))
    ensures LowComplete(g, Retreat(s, s.Top(), s.path[|s.path| - 2]))
  {
    hide Reach;
    RetreatSegments(g, s);
    var k := |s.path| - 1;
    var t := Retreat(s, s.path[k], s.path[k - 1]);
    forall i, x, j | t.InSegment(i, x) && 0 <= j < |g[x]| && j < t.spent[x] && g[x][j] in t.onStack
      ensures t.low[t.path[i]] <= t.index[g[x][j]]
    {
      assert j < s.spent[x];
      if s.InSegment(i, x) {
        assert t.low[t.path[i]] <= s.low[s.path[i]];
      } else {
        assert s.low[s.path[k]] <= s.index[g[x][j]];
      }
    }
  }

  lemma RetreatCore<T(!new)>(g: Adjacency<T>, s: Dfs<T>)
    requires Core(g, s, {}) && s.path != [] && Tracked(g, s, s.Top())
    requires s.spent[s.Top()] == |g[s.Top()]| && s.low[s.Top()] < s.index[s.Top()]
    ensures |s.path| >= 2 && Tracked(g, s, s.path[|s.path| - 2])
    ensures Core(g, Retreat(s, s.Top(), s.path[|s.path| - 2]), {})
  {
    OlderGrey(g, s);
    RetreatSegments(g, s);
    RetreatProgress(g, s);
    RetreatConnected(g, s);
    RetreatLowSound(g, s);
    RetreatLowComplete(g, s);
  }

  // ---------- popping the youngest segment as one block

  function Under<T>(members: set<T>, n: nat): map<T, nat> {
    map x | x in members :: n
  }

  function Emit<T>(s: Dfs<T>, v: T, segment: set<T>, n: nat): Dfs<T>
    requires s.path != [] && v in s.spent
  {
    s.(onStack := s.onStack - segment, path := s.path[..|s.path| - 1], spent := s.spent[v := s.spent[v] + 1],
       block := s.block + Under(segment, n))
  }

  /** The youngest grey node reaches nothing older; `segment` is its part of the stack. */
  ghost predicate Heads<T(!new)>(g: Adjacency<T>, s: Dfs<T>, segment: set<T>, n: nat) {
    && Exhausted(g, s)
    && s.low[s.Top()] == s.index[s.Top()]
    && (forall x :: x in segment <==> x in s.onStack && s.index[s.Top()] <= s.index[x])
    && (forall x :: x in s.block ==> s.block[x] < n)
  }

  /** Every edge out of the segment stays inside it or enters a finished block. */
  lemma SegmentClosed<T(!new)>(g: Adjacency<T>, s: Dfs<T>, segment: set<T>, n: nat, x: T, y: T)
    requires Heads(g, s, segment, n) && Progress(g, s, {}) && LowComplete(g, s) && x in segment && Edge(g, x, y)
    ensures y in segment || y in s.block
  {
    assert s.InSegment(|s.path| - 1, x);
    var j :| 0 <= j < |g[x]| && g[x][j] == y;
    assert j < s.spent[x];
  }

  /** The segment is exactly one mutual-reachability class. */
  lemma SegmentIsClass<T(!new)>(g: Adjacency<T>, s: Dfs<T>, segment: set<T>, n: nat, x: T, y: T)
    requires Heads(g, s, segment, n) && Core(g, s, {}) && x in segment
    ensures y in segment <==> Mutual(g, x, y)
  {
    var v := s.Top();
    assert s.InSegment(|s.path| - 1, x);
    if y in segment {
      assert s.InSegment(|s.path| - 1, y);
      ReachTrans(g, x, v, y);
      ReachTrans(g, y, v, x);
    }
    if Mutual(g, x, y) {
      forall a, b | a in segment + s.block.Keys && Edge(g, a, b) ensures b in segment + s.block.Keys {
        if a in segment { SegmentClosed(g, s, segment, n, a, b); }
      }
      ClosedReach(g, segment + s.block.Keys, x, y);
      if y in s.block {
        ClosedReach(g, s.block.Keys, y, x);
      }
    }
  }

  lemma EmitShape<T(!new)>(g: Adjacency<T>, s: Dfs<T>, segment: set<T>, n: nat)
    requires Heads(g, s, segment, n)
    ensures var t := Emit(s, s.Top(), segment, n);
      && Shape(g, t)
      && forall i, x :: t.InSegment(i, x) ==> s.InSegment(i, x)
  {
  }

  lemma EmitBlocks<T(!new)>(g: Adjacency<T>, s: Dfs<T>, segment: set<T>, n: nat)
    requires Heads(g, s, segment, n) && Core(g, s, {})
    ensures Blocks(g, Emit(s, s.Top(), segment, n).block)
  {
    var block := Emit(s, s.Top(), segment, n).block;
    forall u, v | u in block ensures Mutual(g, u, v) <==> v in block && block[u] == block[v] {
      if u in segment { SegmentIsClass(g, s, segment, n, u, v); }
    }
    forall u, v | u in block && Edge(g, u, v) ensures v in block && block[v] <= block[u] {
      if u in segment { SegmentClosed(g, s, segment, n, u, v); }
    }
  }

  lemma EmitSpent<T(!new)>(g: Adjacency<T>, s: Dfs<T>, segment: set<T>, n: nat)
    requires Heads(g, s, segment, n) && Progress(g, s, {}) && Shape(g, Emit(s, s.Top(), segment, n))
    ensures var t := Emit(s, s.Top(), segment, n); forall x :: x in t.block ==> t.spent[x] == |g[x]| + 1
  {
    hide Reach;
    var t := Emit(s, s.Top(), segment, n);
    forall x | x in t.block ensures t.spent[x] == |g[x]| + 1 {
      if x in segment { assert s.InSegment(|s.path| - 1, x); }
    }
  }

  lemma EmitProgress<T(!new)>(g: Adjacency<T>, s: Dfs<T>, segment: set<T>, n: nat)
    requires Heads(g, s, segment, n) && Progress(g, s, {}) && Shape(g, Emit(s, s.Top(), segment, n))
    ensures Progress(g, Emit(s, s.Top(), segment, n), {})
  {
    hide Reach;
    EmitShape(g, s, segment, n);
    EmitSpent(g, s, segment, n);
    var t := Emit(s, s.Top(), segment, n);
    assert forall i :: 0 <= i < |t.path| ==> t.path[i] == s.path[i];
  }

  lemma EmitLow<T(!new)>(g: Adjacency<T>, s: Dfs<T>, segment: set<T>, n: nat)
    requires Heads(g, s, segment, n) && LowSound(g, s) && LowComplete(g, s) && Shape(g, Emit(s, s.Top(), segment, n))
    ensures LowSound(g, Emit(s, s.Top(), segment, n)) && LowComplete(g, Emit(s, s.Top(), segment, n))
  {
    EmitShape(g, s, segment, n);
    var t := Emit(s, s.Top(), segment, n);
    assert forall i :: 0 <= i < |t.path| ==> t.path[i] == s.path[i];
  }

  lemma EmitCore<T(!new)>(g: Adjacency<T>, s: Dfs<T>, segment: set<T>, n: nat)
    requires Core(g, s, {}) && s.path != [] && Tracked(g, s, s.Top())
    requires s.spent[s.Top()] == |g[s.Top()]| && s.low[s.Top()] == s.index[s.Top()]
    requires forall x :: x in segment <==> x in s.onStack && x in s.index && s.index[s.Top()] <= s.index[x]
    requires forall x :: x in s.block ==> s.block[x] < n
    ensures Core(g, Emit(s, s.Top(), segment, n), {})
    ensures |s.path| >= 2 ==> Tracked(g, s, s.path[|s.path| - 2]) && s.low[s.path[|s.path| - 2]] <= s.low[s.Top()]
    ensures segment !! s.block.Keys
  {
    hide Reach, Progress, LowComplete, Blocks;
    EmitShape(g, s, segment, n);
    EmitBlocks(g, s, segment, n);
    EmitProgress(g, s, segment, n);
    EmitLow(g, s, segment, n);
  }
}
