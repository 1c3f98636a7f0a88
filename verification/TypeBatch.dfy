/** Validation of a batch of composite types (`core/validation.py`). */
module TypeBatch {
  import opened Graph
  import opened Ordering
  import opened CycleDetector
  import opened CallGraph
  import opened Wrappers

  datatype TypeRef = TypeRef(base: Option<string>, named: Option<string>, pointerLevels: int, arrayLen: Option<int>)
  datatype FieldSpec = FieldSpec(name: string, typ: TypeRef, offset: Option<int>)
  datatype Kind = Struct | Union
  datatype CompositeSpec = CompositeSpec(name: string, kind: Kind, fields: seq<FieldSpec>)

  /** The identifier and single-field allow-lists, which look at one value at a time. */
  datatype Checks = Checks(nameOk: string -> bool, fieldOk: FieldSpec -> bool)

  datatype Verdict = Valid | Validation | LimitExceeded

  const MAX_FIELDS := 256
  const MAX_TYPES_PER_BATCH := 64

  // ---------- the by-value graph

  /** The field embeds the type by value; an array of it still does, a pointer to it does not. */
  predicate Embeds(f: FieldSpec, target: string) {
    f.typ.named == Some(target) && f.typ.pointerLevels == 0
  }

  function Names(types: seq<CompositeSpec>): set<string> {
    set i | 0 <= i < |types| :: types[i].name
  }

  function TargetsOf(fields: seq<FieldSpec>, names: set<string>): seq<string> {
    if fields == [] then []
    else
      var targets := TargetsOf(fields[..|fields| - 1], names);
      var ref := fields[|fields| - 1].typ;
      if ref.named.Some? && ref.named.value in names && ref.pointerLevels == 0 && ref.named.value !in targets
      then targets + [ref.named.value] else targets
  }

  /** One entry per name; of several composites with one name the last is kept. */
  function ByValueGraph(types: seq<CompositeSpec>, names: set<string>): Adjacency<string> {
    if types == [] then map[]
    else
      var last := types[|types| - 1];
      ByValueGraph(types[..|types| - 1], names)[last.name := TargetsOf(last.fields, names)]
  }

  /** A batch member embeds another batch member by value. */
  ghost predicate InBatchEdge(types: seq<CompositeSpec>, a: string, b: string) {
    && b in Names(types)
    && exists i, k :: 0 <= i < |types| && 0 <= k < |types[i].fields| && types[i].name == a
         && types[i].fields[k].typ.named == Some(b) && types[i].fields[k].typ.pointerLevels == 0
  }

  ghost predicate UniqueNames(types: seq<CompositeSpec>) {
    forall i, j :: 0 <= i < j < |types| ==> types[i].name != types[j].name
  }

  lemma {:induction false} TargetsMeaning(fields: seq<FieldSpec>, names: set<string>, b: string)
    ensures b in TargetsOf(fields, names) <==> b in names && exists k :: 0 <= k < |fields| && Embeds(fields[k], b)
  {
    if fields != [] {
      var init := fields[..|fields| - 1];
      TargetsMeaning(init, names, b);
      assert forall k :: 0 <= k < |init| ==> init[k] == fields[k];
      assert b in TargetsOf(fields, names) <==> b in TargetsOf(init, names) || (b in names && Embeds(fields[|fields| - 1], b));
    }
  }

  lemma {:induction false} GraphEntries(types: seq<CompositeSpec>, names: set<string>)
    requires UniqueNames(types)
    ensures forall a :: a in ByValueGraph(types, names) <==> a in Names(types)
    ensures forall i :: 0 <= i < |types| ==>
      types[i].name in ByValueGraph(types, names) && ByValueGraph(types, names)[types[i].name] == TargetsOf(types[i].fields, names)
  {
    if types != [] {
      var init := types[..|types| - 1];
      GraphEntries(init, names);
      assert forall i :: 0 <= i < |init| ==> init[i] == types[i];
    }
  }

  /** The graph the detector walks has exactly the in-batch by-value edges. */
  lemma GraphMeaning(types: seq<CompositeSpec>, a: string, b: string)
    requires UniqueNames(types)
    ensures Edge(ByValueGraph(types, Names(types)), a, b) <==> InBatchEdge(types, a, b)
  {
    var names := Names(types);
    GraphEntries(types, names);
    if a in names {
      var i :| 0 <= i < |types| && types[i].name == a;
      TargetsMeaning(types[i].fields, names, b);
    }
  }

  lemma {:induction false} GraphClosed(types: seq<CompositeSpec>, names: set<string>, u: string, v: string)
    requires Edge(ByValueGraph(types, names), u, v)
    ensures v in names
  {
    var last := types[|types| - 1];
    if u == last.name {
      TargetsMeaning(last.fields, names, v);
    } else {
      GraphClosed(types[..|types| - 1], names, u, v);
    }
  }

  lemma {:induction false} GraphKeys(types: seq<CompositeSpec>, names: set<string>)
    ensures ByValueGraph(types, names).Keys == Names(types)
  {
    if types != [] {
      var init := types[..|types| - 1];
      GraphKeys(init, names);
      assert Names(types) == Names(init) + {types[|types| - 1].name} by {
        assert forall i :: 0 <= i < |init| ==> init[i] == types[i];
        assert forall a :: a in Names(init) ==> exists i :: 0 <= i < |types| && types[i].name == a;
      }
    }
  }

  /** A batch whose members only point at each other has no by-value edge, so no by-value cycle. */
  lemma PointersNeverCycle(types: seq<CompositeSpec>)
    requires UniqueNames(types)
    requires forall i, k, b ::
      (0 <= i < |types| && 0 <= k < |types[i].fields| && b in Names(types) && types[i].fields[k].typ.named == Some(b))
      ==> types[i].fields[k].typ.pointerLevels >= 1
    ensures !Cyclic(ByValueGraph(types, Names(types)))
  {
    if u :| OnCycle(ByValueGraph(types, Names(types)), u) {
      var v :| Edge(ByValueGraph(types, Names(types)), u, v);
      GraphMeaning(types, u, v);
      assert false;
    }
  }

  // ---------- building the graph and detecting a cycle

  method BuildTargets(fields: seq<FieldSpec>, names: set<string>) returns (targets: seq<string>)
    ensures targets == TargetsOf(fields, names)
  {
    targets := [];
    for k := 0 to |fields|
      invariant targets == TargetsOf(fields[..k], names)
    {
      assert fields[..k + 1][..k] == fields[..k];
      var ref := fields[k].typ;
      if ref.named.Some? && ref.named.value in names && ref.pointerLevels == 0 && ref.named.value !in targets {
        targets := targets + [ref.named.value];
      }
    }
    assert fields[..|fields|] == fields;
  }

  method DetectByValueCycle(types: seq<CompositeSpec>) returns (found: bool, ghost rank: map<string, nat>)
    ensures found <==> Cyclic(ByValueGraph(types, Names(types)))
    ensures !found ==> Ranks(ByValueGraph(types, Names(types)), rank)
  {
    var names := Names(types);
    var adjacency: Adjacency<string> := map[];
    for i := 0 to |types|
      invariant adjacency == ByValueGraph(types[..i], names)
    {
      assert types[..i + 1][..i] == types[..i];
      var targets := BuildTargets(types[i].fields, names);
      adjacency := adjacency[types[i].name := targets];
    }
    assert types[..|types|] == types;
    GraphKeys(types, names);
    forall u, v | Edge(adjacency, u, v) ensures v in adjacency { GraphClosed(types, names, u, v); }
    found, rank := DetectCycle(adjacency);
  }

  // ---------- the batch validator

  ghost predicate GoodFields(checks: Checks, spec: CompositeSpec, n: nat)
    requires n <= |spec.fields|
  {
    && (forall k :: 0 <= k < n ==>
          && checks.fieldOk(spec.fields[k])
          && !Embeds(spec.fields[k], spec.name)
          && (spec.kind == Union ==> spec.fields[k].offset == None))
    && (forall j, k :: 0 <= j < k < n ==> spec.fields[j].name != spec.fields[k].name)
  }

  ghost predicate GoodComposite(checks: Checks, spec: CompositeSpec) {
    && checks.nameOk(spec.name)
    && 1 <= |spec.fields| <= MAX_FIELDS
    && GoodFields(checks, spec, |spec.fields|)
  }

  ghost predicate GoodBatch(checks: Checks, types: seq<CompositeSpec>) {
    && 1 <= |types| <= MAX_TYPES_PER_BATCH
    && (forall i :: 0 <= i < |types| ==> GoodComposite(checks, types[i]))
    && UniqueNames(types)
    && !Cyclic(ByValueGraph(types, Names(types)))
  }

  method ValidateComposite(checks: Checks, spec: CompositeSpec) returns (verdict: Verdict)
    ensures verdict == Valid <==> GoodComposite(checks, spec)
    ensures verdict == LimitExceeded <==> checks.nameOk(spec.name) && |spec.fields| > MAX_FIELDS
  {
    if !checks.nameOk(spec.name) { return Validation; }
    if |spec.fields| < 1 { return Validation; }
    if |spec.fields| > MAX_FIELDS { return LimitExceeded; }
    var seen: set<string> := {};
    for k := 0 to |spec.fields|
      invariant GoodFields(checks, spec, k)
      invariant forall a :: a in seen <==> exists j :: 0 <= j < k && spec.fields[j].name == a
    {
      var f := spec.fields[k];
      if !checks.fieldOk(f) { return Validation; }
      if f.name in seen { return Validation; }
      seen := seen + {f.name};
      if f.typ.named == Some(spec.name) && f.typ.pointerLevels == 0 { return Validation; }
      if spec.kind == Union && f.offset != None { return Validation; }
    }
    return Valid;
  }

  /** The first composite that is rejected is rejected for its field count. */
  ghost predicate TooManyFieldsFirst(checks: Checks, types: seq<CompositeSpec>) {
    exists i :: 0 <= i < |types|
      && (forall j :: 0 <= j < i ==> GoodComposite(checks, types[j])) && UniqueNames(types[..i])
      && checks.nameOk(types[i].name) && |types[i].fields| > MAX_FIELDS
  }

  method ValidateTypesBatch(checks: Checks, types: seq<CompositeSpec>) returns (verdict: Verdict, ghost rank: map<string, nat>)
    ensures verdict == Valid <==> GoodBatch(checks, types)
    ensures verdict == Valid ==> Ranks(ByValueGraph(types, Names(types)), rank)
    ensures verdict == LimitExceeded <==>
      |types| > MAX_TYPES_PER_BATCH || (|types| >= 1 && TooManyFieldsFirst(checks, types))
  {
    hide GoodComposite, Cyclic, Ranks;
    rank := map[];
    if |types| < 1 { return Validation, rank; }
    if |types| > MAX_TYPES_PER_BATCH { return LimitExceeded, rank; }
    var seen: set<string> := {};
    for i := 0 to |types|
      invariant forall j :: 0 <= j < i ==> GoodComposite(checks, types[j])
      invariant UniqueNames(types[..i])
      invariant forall a :: a in seen <==> exists j :: 0 <= j < i && types[j].name == a
    {
      var spec := types[i];
      verdict := ValidateComposite(checks, spec);
      if verdict != Valid {
        FirstRejected(checks, types, i, verdict);
        return;
      }
      if spec.name in seen {
        RepeatedName(checks, types, i);
        return Validation, rank;
      }
      seen := seen + {spec.name};
    }
    assert types[..|types|] == types;
    NoneTooMany(checks, types);
    var found;
    found, rank := DetectByValueCycle(types);
    return if found then Validation else Valid, rank;
  }

  lemma NoneTooMany(checks: Checks, types: seq<CompositeSpec>)
    requires forall j :: 0 <= j < |types| ==> GoodComposite(checks, types[j])
    ensures !TooManyFieldsFirst(checks, types)
  {
  }

  lemma FirstRejected(checks: Checks, types: seq<CompositeSpec>, i: nat, verdict: Verdict)
    requires i < |types| && forall j :: 0 <= j < i ==> GoodComposite(checks, types[j])
    requires UniqueNames(types[..i]) && !GoodComposite(checks, types[i])
    requires verdict == LimitExceeded <==> checks.nameOk(types[i].name) && |types[i].fields| > MAX_FIELDS
    ensures verdict == LimitExceeded <==> TooManyFieldsFirst(checks, types)
  {
  }

  lemma RepeatedName(checks: Checks, types: seq<CompositeSpec>, i: nat)
    requires i < |types| && forall j :: 0 <= j <= i ==> GoodComposite(checks, types[j])
    requires exists j :: 0 <= j < i && types[j].name == types[i].name
    ensures !TooManyFieldsFirst(checks, types) && !UniqueNames(types)
  {
    var j :| 0 <= j < i && types[j].name == types[i].name;
    forall k | i < k <= |types| ensures !UniqueNames(types[..k]) {
      assert types[..k][j].name == types[..k][i].name;
    }
  }

  /** Both iterative algorithms, run on the same by-value graph, give the same answer. */
  method CrossCheck(leq: (string, string) -> bool, types: seq<CompositeSpec>)
    returns (found: bool, order: AnalysisOrder<string>)
    requires TotalOrder(leq)
    ensures IsAnalysisOrder(ByValueGraph(types, Names(types)), {}, order)
    ensures found <==> exists i :: 0 <= i < |order.components| && order.components[i].isRecursive
  {
    hide IsAnalysisOrder, Cyclic;
    ghost var rank, rounds;
    found, rank := DetectByValueCycle(types);
    order, rounds := ComputeAnalysisOrder(leq, ByValueGraph(types, Names(types)), {});
    RecursiveIffCyclic(ByValueGraph(types, Names(types)), {}, order);
  }

  // ---------- layouts over an accepted batch

  /** A rule that gives a composite's size from the sizes of its by-value members. */
  type SizeRule<!T> = (T, seq<nat>) -> nat

  /** `size` satisfies the rule at every node. */
  ghost predicate Solves<T(!new)>(g: Adjacency<T>, rule: SizeRule<T>, size: map<T, nat>) {
    && size.Keys == g.Keys
    && forall u :: u in g ==>
         && (forall i :: 0 <= i < |g[u]| ==> g[u][i] in size)
         && size[u] == rule(u, seq(|g[u]|, i requires 0 <= i < |g[u]| => size[g[u][i]]))
  }

  /** The size of one composite, computed along the rank. */
  ghost function Layout<T(!new)>(g: Adjacency<T>, rank: map<T, nat>, rule: SizeRule<T>, u: T): nat
    requires Ranks(g, rank) && Closed(g) && u in g
    decreases if u in rank then rank[u] else 0
  {
    rule(u, seq(|g[u]|, i requires 0 <= i < |g[u]| =>
      assert Edge(g, u, g[u][i]);
      Layout(g, rank, rule, g[u][i])))
  }

  /** Over a ranked graph every size rule has a solution. */
  lemma LayoutExists<T(!new)>(g: Adjacency<T>, rank: map<T, nat>, rule: SizeRule<T>)
    requires Ranks(g, rank) && Closed(g)
    ensures Solves(g, rule, map u | u in g :: Layout(g, rank, rule, u))
  {
    var size := map u | u in g :: Layout(g, rank, rule, u);
    forall u | u in g
      ensures forall i :: 0 <= i < |g[u]| ==> g[u][i] in size
      ensures size[u] == rule(u, seq(|g[u]|, i requires 0 <= i < |g[u]| => size[g[u][i]]))
    {
      assert forall i :: 0 <= i < |g[u]| ==> Edge(g, u, g[u][i]);
      assert seq(|g[u]|, i requires 0 <= i < |g[u]| => size[g[u][i]])
          == seq(|g[u]|, i requires 0 <= i < |g[u]| => Layout(g, rank, rule, g[u][i]));
    }
  }

  /** That solution is the only one. */
  lemma {:induction false} LayoutUnique<T(!new)>(g: Adjacency<T>, rank: map<T, nat>, rule: SizeRule<T>, size: map<T, nat>, u: T)
    requires Ranks(g, rank) && Closed(g) && Solves(g, rule, size) && u in g
    ensures size[u] == Layout(g, rank, rule, u)
    decreases if u in rank then rank[u] else 0
  {
    forall i | 0 <= i < |g[u]| ensures size[g[u][i]] == Layout(g, rank, rule, g[u][i]) {
      assert Edge(g, u, g[u][i]);
      LayoutUnique(g, rank, rule, size, g[u][i]);
    }
    assert seq(|g[u]|, i requires 0 <= i < |g[u]| => size[g[u][i]])
        == seq(|g[u]|, i requires 0 <= i < |g[u]| => Layout(g, rank, rule, g[u][i]));
  }

  function Largest(sizes: seq<nat>): (r: nat)
    ensures forall i :: 0 <= i < |sizes| ==> sizes[i] <= r
  {
    if sizes == [] then 0
    else
      var r := Largest(sizes[..|sizes| - 1]);
      if r < sizes[|sizes| - 1] then sizes[|sizes| - 1] else r
  }

  /** A composite that is larger than each of its by-value members. */
  function NestingDepth<T>(u: T, sizes: seq<nat>): nat { Largest(sizes) + 1 }

  /** Sizes that grow with nesting exist only when there is no by-value cycle. */
  lemma LayoutNeedsAcyclic<T(!new)>(g: Adjacency<T>, size: map<T, nat>)
    requires Solves(g, NestingDepth, size)
    ensures !Cyclic(g)
  {
    forall u, v | Edge(g, u, v) ensures u in size && v in size && size[v] < size[u] {
      var i :| 0 <= i < |g[u]| && g[u][i] == v;
      var sizes := seq(|g[u]|, i requires 0 <= i < |g[u]| => size[g[u][i]]);
      assert sizes[i] == size[v];
    }
    RankedIsAcyclic(g, size);
  }
}
