/** The iterative strongly-connected-component search of the call-graph core. */
module TarjanSearch {
  import opened Graph
  import opened Ordering
  import opened TarjanInvariant

  /** The blocks partition the nodes of `g` into mutual-reachability classes, callees before callers. */
  ghost predicate LeafFirstClasses<T(!new)>(g: Adjacency<T>, sccs: seq<seq<T>>) {
    && (forall v :: v in g ==> exists i :: 0 <= i < |sccs| && v in sccs[i])
    && (forall i, v :: 0 <= i < |sccs| && v in sccs[i] ==> v in g)
    && (forall i :: 0 <= i < |sccs| ==> sccs[i] != [])
    && (forall i, u, v :: 0 <= i < |sccs| && u in sccs[i] ==> (v in sccs[i] <==> Mutual(g, u, v)))
    && (forall i, j, v :: 0 <= i < |sccs| && 0 <= j < |sccs| && v in sccs[i] && v in sccs[j] ==> i == j)
    && (forall i, j, u, v :: 0 <= i < |sccs| && 0 <= j < |sccs| && u in sccs[i] && v in sccs[j] && Edge(g, u, v)
          ==> j <= i)
  }

  /** Each emitted list holds exactly the nodes filed under its position. */
  ghost predicate Filed<T(!new)>(sccs: seq<seq<T>>, block: map<T, nat>) {
    && (forall v :: v in block ==> block[v] < |sccs|)
    && (forall i, v :: 0 <= i < |sccs| ==> (v in sccs[i] <==> v in block && block[v] == i))
    && (forall i :: 0 <= i < |sccs| ==> sccs[i] != [])
  }

  lemma FiledClasses<T(!new)>(g: Adjacency<T>, sccs: seq<seq<T>>, block: map<T, nat>)
    requires Filed(sccs, block) && Blocks(g, block) && block.Keys == g.Keys
    ensures LeafFirstClasses(g, sccs)
  {
    hide Mutual, Edge;
    forall v | v in g ensures exists i :: 0 <= i < |sccs| && v in sccs[i] {
      assert v in sccs[block[v]];
    }
    forall i, j, v | 0 <= i < |sccs| && 0 <= j < |sccs| && v in sccs[i] && v in sccs[j] ensures i == j {
      assert v in block;
    }
  }

  lemma FileBlock<T(!new)>(sccs: seq<seq<T>>, block: map<T, nat>, members: set<T>, list: seq<T>)
    requires Filed(sccs, block) && members !! block.Keys && members != {} && Lists(list, members)
    ensures Filed(sccs + [list], block + Under(members, |sccs|))
  {
    var x :| x in members;
    assert x in list;
  }

  lemma FiledBound<T(!new)>(sccs: seq<seq<T>>, block: map<T, nat>)
    requires Filed(sccs, block)
    ensures forall x :: x in block ==> block[x] < |sccs|
  {
  }

  // ---------- counting rounds

  ghost function Rounds<T>(nodes: seq<T>, spent: map<T, nat>): nat {
    if nodes == [] then 0
    else (if nodes[0] in spent then spent[nodes[0]] else 0) + Rounds(nodes[1..], spent)
  }

  /** One round for each node and one for each listed edge. */
  ghost function FullRounds<T>(nodes: seq<T>, g: Adjacency<T>): nat
    requires forall v :: v in nodes ==> v in g
  {
    if nodes == [] then 0 else |g[nodes[0]]| + 1 + FullRounds(nodes[1..], g)
  }

  ghost predicate Distinct<T>(nodes: seq<T>) {
    forall i, j :: 0 <= i < j < |nodes| ==> nodes[i] != nodes[j]
  }

  lemma {:induction false} RoundsStep<T(!new)>(nodes: seq<T>, spent: map<T, nat>, v: T, more: nat)
    requires Distinct(nodes)
    ensures Rounds(nodes, spent[v := more]) ==
            Rounds(nodes, spent) + if v in nodes then more - (if v in spent then spent[v] else 0) else 0
  {
    if nodes != [] {
      RoundsStep(nodes[1..], spent, v, more);
      assert nodes == [nodes[0]] + nodes[1..];
    }
  }

  lemma {:induction false} RoundsBound<T(!new)>(nodes: seq<T>, g: Adjacency<T>, spent: map<T, nat>)
    requires forall v :: v in nodes ==> v in g
    requires forall v :: v in nodes && v in spent ==> spent[v] <= |g[v]| + 1
    ensures Rounds(nodes, spent) <= FullRounds(nodes, g)
    ensures (forall v :: v in nodes ==> v in spent && spent[v] == |g[v]| + 1) ==> Rounds(nodes, spent) == FullRounds(nodes, g)
  {
    if nodes != [] {
      RoundsBound(nodes[1..], g, spent);
    }
  }

  // ---------- the search

  /** The stack holds its nodes oldest first. */
  ghost predicate Stacked<T(!new)>(stack: seq<T>, onStack: set<T>, index: map<T, nat>) {
    && (forall x :: x in stack <==> x in onStack)
    && (forall x :: x in stack ==> x in index)
    && (forall p, q :: 0 <= p < q < |stack| ==> index[stack[p]] < index[stack[q]])
  }

  /** The variables of the search. */
  datatype Search<T> = Search(
    index: map<T, nat>,
    low: map<T, nat>,
    onStack: set<T>,
    stack: seq<T>,
    sccs: seq<seq<T>>,
    counter: nat,
    work: seq<(T, nat)>)

  /** The lower part of the work stack is the grey path with its edge counters. */
  ghost predicate OnPath<T(!new)>(s: Dfs<T>, work: seq<(T, nat)>) {
    && |s.path| <= |work|
    && (forall i :: 0 <= i < |s.path| ==> s.path[i] in s.spent && work[i] == (s.path[i], s.spent[s.path[i]]))
    && (forall i :: 0 <= i < |s.path| - 1 ==> s.spent[s.path[i]] >= 1)
  }

  /** Apart from the work stack, the variables agree with the ghost state `s`. */
  ghost predicate Agrees<T(!new)>(leq: (T, T) -> bool, v: Search<T>, s: Dfs<T>) {
    && v.index == s.index && v.low == s.low && v.onStack == s.onStack
    && Stacked(v.stack, v.onStack, v.index)
    && Filed(v.sccs, s.block)
    && (forall x :: x in v.index ==> v.index[x] < v.counter)
    && (forall i :: 0 <= i < |v.sccs| ==> Ascending(leq, v.sccs[i]))
  }

  /** The node on top of the work stack is numbered. */
  ghost predicate Entered<T(!new)>(leq: (T, T) -> bool, g: Adjacency<T>, v: Search<T>, s: Dfs<T>) {
    Core(g, s, {}) && Agrees(leq, v, s) && OnPath(s, v.work) && s.path != [] && |v.work| == |s.path|
  }

  /** The node on top of the work stack is pending: it waits for its first round. */
  ghost predicate Fresh<T(!new)>(leq: (T, T) -> bool, g: Adjacency<T>, v: Search<T>, s: Dfs<T>) {
    && Agrees(leq, v, s) && OnPath(s, v.work) && |v.work| == |s.path| + 1
    && var (c, i) := v.work[|s.path|];
    && i == 0 && c in g && c !in s.index && Core(g, s, {c})
    && (s.path != [] ==> s.spent[s.Top()] >= 1 && Edge(g, s.Top(), c))
  }

  /** The state between two rounds. */
  ghost predicate Between<T(!new)>(leq: (T, T) -> bool, g: Adjacency<T>, v: Search<T>, s: Dfs<T>) {
    || Fresh(leq, g, v, s)
    || (Entered(leq, g, v, s) && s.spent[s.Top()] >= 1)
    || (Core(g, s, {}) && Agrees(leq, v, s) && s.path == [] && v.work == [])
  }

  /** Pops the stack down to and including `node`. */
  method PopComponent<T(==, !new)>(stack: seq<T>, onStack: set<T>, node: T, ghost index: map<T, nat>)
    returns (rest: seq<T>, left: set<T>, component: seq<T>)
    requires Stacked(stack, onStack, index) && node in onStack
    ensures Stacked(rest, left, index)
    ensures left == onStack - (set x | x in component)
    ensures forall x :: x in component <==> x in onStack && index[node] <= index[x]
  {
    rest, left, component := stack, onStack, [];
    while true
      invariant Stacked(rest, left, index) && node in rest
      invariant forall x :: x in onStack <==> x in left || x in component
      invariant forall x, y :: x in component && y in left ==> index[y] < index[x]
      decreases |rest|
    {
      var member := rest[|rest| - 1];
      rest, left, component := rest[..|rest| - 1], left - {member}, component + [member];
      if member == node { break; }
    }
    assert forall x :: x in component ==> index[node] <= index[x];
    assert forall x :: x in left ==> index[x] < index[node];
  }

  function Min(a: nat, b: nat): nat { if a <= b then a else b }

  lemma PushStacked<T(!new)>(stack: seq<T>, onStack: set<T>, index: map<T, nat>, node: T, counter: nat)
    requires Stacked(stack, onStack, index) && node !in index && forall x :: x in index ==> index[x] < counter
    ensures Stacked(stack + [node], onStack + {node}, index[node := counter])
  {
  }

  lemma PushOnPath<T(!new)>(s: Dfs<T>, work: seq<(T, nat)>, node: T, counter: nat)
    requires OnPath(s, work) && node !in s.spent && |work| == |s.path| + 1 && work[|s.path|] == (node, 0)
    requires s.path != [] && s.Top() in s.spent ==> s.spent[s.Top()] >= 1
    ensures OnPath(Visit(s, node, counter), work)
  {
  }

  /** First round of a node: it gets its number and joins the stack. */
  method Enter<T(==, !new)>(leq: (T, T) -> bool, ghost g: Adjacency<T>, v: Search<T>, ghost s: Dfs<T>)
    returns (v': Search<T>, ghost s': Dfs<T>)
    requires Fresh(leq, g, v, s)
    ensures Entered(leq, g, v', s')
    ensures v'.work == v.work && v'.index.Keys == v.index.Keys + {v.work[|v.work| - 1].0}
    ensures s' == Visit(s, v.work[|v.work| - 1].0, v.counter)
  {
    hide Core, Filed, Ascending, Stacked, OnPath;
    var node := v.work[|v.work| - 1].0;
    v' := v.(index := v.index[node := v.counter], low := v.low[node := v.counter], counter := v.counter + 1,
             stack := v.stack + [node], onStack := v.onStack + {node});
    CoreKeys(g, s, {node});
    VisitCore(g, s, node, v.counter);
    PushStacked(v.stack, v.onStack, v.index, node, v.counter);
    PushOnPath(s, v.work, node, v.counter);
    s' := Visit(s, node, v.counter);
  }

  /** A round that follows one edge of the node on top. */
  method Follow<T(==, !new)>(leq: (T, T) -> bool, g: Adjacency<T>, v: Search<T>, ghost s: Dfs<T>)
    returns (v': Search<T>, ghost s': Dfs<T>)
    requires Closed(g) && Entered(leq, g, v, s) && v.work[|v.work| - 1].1 < |g[s.Top()]|
    ensures Between(leq, g, v', s') && v'.work != []
    ensures v'.index == v.index && s'.spent == s.spent[s.Top() := s.spent[s.Top()] + 1]
  {
    hide Core, OnPath;
    assert Agrees(leq, v, s);
    CoreKeys(g, s, {});
    TopTracked(g, s);
    EnteredKeys(leq, g, v, s);
    PathDistinct(g, s);
    var (node, i) := v.work[|v.work| - 1];
    v' := v.(work := v.work[|v.work| - 1 := (node, i + 1)]);
    var child := g[node][i];
    assert Edge(g, node, child);
    ghost var pending, via := {}, s.via[node];
    if child !in v.index {
      v' := v'.(work := v'.work + [(child, 0)]);
      pending := {child};
    } else if child in v.onStack {
      if v.index[child] < v.low[node] { via := child; }
      v' := v'.(low := v.low[node := Min(v.low[node], v.index[child])]);
    }
    AdvanceCore(g, s, child, pending, v'.low[node], via);
    s' := Advance(s, node, v'.low[node], via);
    StepAgrees(leq, v, s, v', v'.low[node], via);
    hide Agrees;
    StepOnPath(s, v.work, v'.work, v'.low[node], via);
  }

  lemma StepAgrees<T(!new)>(leq: (T, T) -> bool, v: Search<T>, s: Dfs<T>, v': Search<T>, low: nat, via: T)
    requires Agrees(leq, v, s) && s.path != [] && s.Top() in s.spent
    requires v' == v.(work := v'.work, low := v'.low) && v'.low == v.low[s.Top() := low]
    ensures Agrees(leq, v', Advance(s, s.Top(), low, via))
  {
    hide Stacked, Filed, Ascending;
  }

  lemma StepOnPath<T(!new)>(s: Dfs<T>, work: seq<(T, nat)>, work': seq<(T, nat)>, low: nat, via: T)
    requires OnPath(s, work) && |work| == |s.path| > 0 && s.Top() in s.spent
    requires forall i, j :: 0 <= i < j < |s.path| ==> s.path[i] != s.path[j]
    requires |work'| >= |work| && work'[..|work|] == work[|work| - 1 := (s.Top(), s.spent[s.Top()] + 1)]
    ensures OnPath(Advance(s, s.Top(), low, via), work')
  {
    var t := Advance(s, s.Top(), low, via);
    forall i | 0 <= i < |t.path| ensures t.path[i] in t.spent && work'[i] == (t.path[i], t.spent[t.path[i]]) {
      assert work'[i] == work'[..|work|][i];
    }
  }

  /** Pops the component headed by the node on top of the work stack and files it. */
  method EmitComponent<T(==, !new)>(leq: (T, T) -> bool, ghost g: Adjacency<T>, v: Search<T>, ghost s: Dfs<T>)
    returns (v': Search<T>, ghost s': Dfs<T>)
    requires TotalOrder(leq) && Entered(leq, g, v, s)
    requires Tracked(g, s, s.Top()) && s.spent[s.Top()] == |g[s.Top()]| && s.low[s.Top()] == s.index[s.Top()]
    ensures Core(g, s', {}) && Agrees(leq, v', s') && v'.work == v.work
    ensures s'.path == s.path[..|s.path| - 1] && s'.spent == s.spent[s.Top() := s.spent[s.Top()] + 1]
    ensures s'.low == s.low && s'.index == s.index
    ensures |s.path| >= 2 ==> Tracked(g, s, s.path[|s.path| - 2]) && s.low[s.path[|s.path| - 2]] <= s.low[s.Top()]
  {
    hide Core, Filed, Stacked, Ascending, TotalOrder;
    CoreKeys(g, s, {});
    FiledBound(v.sccs, s.block);
    ghost var node := s.Top();
    var stack, onStack, component := PopComponent(v.stack, v.onStack, v.work[|v.work| - 1].0, v.index);
    var members := set x | x in component;
    var block := SortedElements(leq, members);
    v' := v.(stack := stack, onStack := onStack, sccs := v.sccs + [block]);
    EmitCore(g, s, members, |v.sccs|);
    assert node in members;
    FileBlock(v.sccs, s.block, members, block);
    s' := Emit(s, node, members, |v.sccs|);
  }

  /** The last round of a node: its component is popped if it heads one. */
  method Leave<T(==, !new)>(leq: (T, T) -> bool, ghost g: Adjacency<T>, v: Search<T>, ghost s: Dfs<T>)
    returns (v': Search<T>, ghost s': Dfs<T>)
    requires TotalOrder(leq) && Entered(leq, g, v, s) && v.work[|v.work| - 1].1 == |g[s.Top()]|
    ensures Between(leq, g, v', s')
    ensures v'.index == v.index && s'.spent == s.spent[s.Top() := s.spent[s.Top()] + 1]
  {
    hide Core, Filed, Stacked, Ascending, TotalOrder;
    CoreKeys(g, s, {});
    TopTracked(g, s);
    var node := v.work[|v.work| - 1].0;
    if v.low[node] == v.index[node] {
      v', s' := EmitComponent(leq, g, v, s);
    } else {
      RetreatCore(g, s);
      v', s' := v, Retreat(s, node, s.path[|s.path| - 2]);
    }
    v' := v'.(work := v.work[..|v.work| - 1]);
    if v'.work != [] {
      var parent := v'.work[|v'.work| - 1].0;
      v' := v'.(low := v.low[parent := Min(v.low[parent], v.low[node])]);
    }
    assert v'.low == s'.low;
    assert OnPath(s', v'.work);
  }

  /** One round of the work loop; it is spent on the node on top of the work stack. */
  method Round<T(==, !new)>(leq: (T, T) -> bool, g: Adjacency<T>, v: Search<T>, ghost s: Dfs<T>)
    returns (v': Search<T>, ghost s': Dfs<T>)
    requires TotalOrder(leq) && Closed(g) && Between(leq, g, v, s) && v.work != []
    ensures Between(leq, g, v', s')
    ensures var (node, i) := v.work[|v.work| - 1];
      && node in g && s'.spent == s.spent[node := i + 1]
      && (if i == 0 then node !in s.spent else node in s.spent && s.spent[node] == i)
    ensures v'.index.Keys == v.index.Keys + {v.work[|v.work| - 1].0}
  {
    hide Core, Agrees, OnPath, Between, Fresh, Entered, TotalOrder, Closed;
    var (node, i) := v.work[|v.work| - 1];
    BetweenCases(leq, g, v, s);
    if i == 0 {
      FreshKeys(leq, g, v, s);
      v', s' := Enter(leq, g, v, s);
    } else {
      v', s' := v, s;
    }
    EnteredKeys(leq, g, v', s');
    if i < |g[node]| {
      v', s' := Follow(leq, g, v', s');
    } else {
      v', s' := Leave(leq, g, v', s');
    }
  }

  lemma BetweenCases<T(!new)>(leq: (T, T) -> bool, g: Adjacency<T>, v: Search<T>, s: Dfs<T>)
    requires Between(leq, g, v, s) && v.work != []
    ensures if v.work[|v.work| - 1].1 == 0 then Fresh(leq, g, v, s) else Entered(leq, g, v, s)
  {
    hide Core, Agrees;
  }

  lemma FreshKeys<T(!new)>(leq: (T, T) -> bool, g: Adjacency<T>, v: Search<T>, s: Dfs<T>)
    requires Fresh(leq, g, v, s)
    ensures v.work[|v.work| - 1].0 in g && v.work[|v.work| - 1].0 !in s.spent
  {
    hide Core;
    CoreKeys(g, s, {v.work[|s.path|].0});
  }

  lemma EnteredKeys<T(!new)>(leq: (T, T) -> bool, g: Adjacency<T>, v: Search<T>, s: Dfs<T>)
    requires Entered(leq, g, v, s)
    ensures var (node, i) := v.work[|v.work| - 1];
      node == s.Top() && node in g && i <= |g[node]| && node in s.spent && s.spent[node] == i && node in v.index
  {
    hide Core;
    TopTracked(g, s);
  }

  lemma BetweenKeys<T(!new)>(leq: (T, T) -> bool, g: Adjacency<T>, v: Search<T>, s: Dfs<T>)
    requires Between(leq, g, v, s)
    ensures s.spent.Keys <= g.Keys && forall x :: x in s.spent ==> s.spent[x] <= |g[x]| + 1
  {
    hide Core;
    if Fresh(leq, g, v, s) {
      CoreKeys(g, s, {v.work[|s.path|].0});
    } else {
      CoreKeys(g, s, {});
    }
  }

  /** An unnumbered node may be put on the empty work stack. */
  lemma TakeUp<T(!new)>(leq: (T, T) -> bool, g: Adjacency<T>, v: Search<T>, s: Dfs<T>, root: T)
    requires Between(leq, g, v, s) && v.work == [] && root in g && root !in v.index
    ensures Between(leq, g, v.(work := [(root, 0)]), s)
  {
    hide Core;
    RootCore(g, s, root);
  }

  lemma Finished<T(!new)>(leq: (T, T) -> bool, g: Adjacency<T>, v: Search<T>, s: Dfs<T>)
    requires Between(leq, g, v, s) && v.work == [] && g.Keys <= v.index.Keys
    ensures LeafFirstClasses(g, v.sccs)
    ensures forall i :: 0 <= i < |v.sccs| ==> Ascending(leq, v.sccs[i])
    ensures forall x :: x in g ==> x in s.spent && s.spent[x] == |g[x]| + 1
  {
    hide Core, Blocks, LeafFirstClasses, Stacked;
    CoreKeys(g, s, {});
    FiledClasses(g, v.sccs, s.block);
  }

  /** The nodes whose entry on the work stack has been taken up from its start, once each. */
  ghost predicate Opened<T(!new)>(entered: seq<T>, spent: map<T, nat>) {
    Distinct(entered) && Lists(entered, spent.Keys)
  }

  lemma NothingOpened<T(!new)>()
    ensures Opened<T>([], map[])
  {
  }

  lemma OpenedMore<T(!new)>(entered: seq<T>, spent: map<T, nat>, node: T, more: nat)
    requires Opened(entered, spent)
    ensures Opened(if node in spent then entered else entered + [node], spent[node := more])
  {
  }

  lemma OpenedAll<T(!new)>(entered: seq<T>, spent: map<T, nat>, g: Adjacency<T>)
    requires Opened(entered, spent) && spent.Keys <= g.Keys && forall x :: x in g ==> x in spent
    ensures Distinct(entered) && Lists(entered, g.Keys)
  {
  }

  /** The search over all roots. Each node is pushed as a fresh entry, and so entered, exactly once. */
  method TarjanSccs<T(==, !new)>(leq: (T, T) -> bool, nodes: seq<T>, succ: Adjacency<T>)
    returns (sccs: seq<seq<T>>, ghost rounds: nat, ghost entered: seq<T>)
    requires TotalOrder(leq) && Ascending(leq, nodes) && Lists(nodes, succ.Keys) && Closed(succ)
    ensures LeafFirstClasses(succ, sccs)
    ensures forall i :: 0 <= i < |sccs| ==> Ascending(leq, sccs[i])
    ensures rounds == FullRounds(nodes, succ)
    ensures Distinct(entered) && Lists(entered, succ.Keys)
  {
    hide Between, LeafFirstClasses, TotalOrder, Ascending, Distinct, Opened;
    var v: Search<T> := Search(map[], map[], {}, [], [], 0, []);
    ghost var s: Dfs<T> := Dfs(map[], map[], {}, [], map[], map[], map[]);
    Start(leq, succ);
    assert Distinct(nodes) by { AscendingDistinct(leq, nodes); }
    rounds, entered := 0, [];
    RoundsEmpty(nodes);
    NothingOpened<T>();
    for r := 0 to |nodes|
      invariant Between(leq, succ, v, s) && v.work == []
      invariant forall i :: 0 <= i < r ==> nodes[i] in v.index
      invariant rounds == Rounds(nodes, s.spent) && Opened(entered, s.spent)
    {
      if nodes[r] in v.index { continue; }
      TakeUp(leq, succ, v, s, nodes[r]);
      v := v.(work := [(nodes[r], 0)]);
      BetweenKeys(leq, succ, v, s);
      RoundsBound(nodes, succ, s.spent);
      while v.work != []
        invariant Between(leq, succ, v, s)
        invariant forall i :: 0 <= i < r ==> nodes[i] in v.index
        invariant nodes[r] in v.index || (v.work != [] && v.work[|v.work| - 1].0 == nodes[r])
        invariant rounds == Rounds(nodes, s.spent) <= FullRounds(nodes, succ) && Opened(entered, s.spent)
        decreases FullRounds(nodes, succ) - rounds
      {
        RoundsStep(nodes, s.spent, v.work[|v.work| - 1].0, v.work[|v.work| - 1].1 + 1);
        ghost var (node, next) := v.work[|v.work| - 1];
        OpenedMore(entered, s.spent, node, next + 1);
        v, s := Round(leq, succ, v, s);
        if next == 0 { entered := entered + [node]; }
        rounds := rounds + 1;
        BetweenKeys(leq, succ, v, s);
        RoundsBound(nodes, succ, s.spent);
      }
    }
    sccs := v.sccs;
    Finished(leq, succ, v, s);
    BetweenKeys(leq, succ, v, s);
    OpenedAll(entered, s.spent, succ);
    RoundsBound(nodes, succ, s.spent);
  }

  lemma AscendingDistinct<T>(leq: (T, T) -> bool, nodes: seq<T>)
    requires Ascending(leq, nodes)
    ensures Distinct(nodes)
  {
  }

  lemma Start<T(!new)>(leq: (T, T) -> bool, g: Adjacency<T>)
    ensures Between(leq, g, Search(map[], map[], {}, [], [], 0, []), Dfs(map[], map[], {}, [], map[], map[], map[]))
  {
    hide Core;
    StartCore(g);
  }

  lemma {:induction false} RoundsEmpty<T>(nodes: seq<T>)
    ensures Rounds(nodes, map[]) == 0
  {
    if nodes != [] { RoundsEmpty(nodes[1..]); }
  }
}
