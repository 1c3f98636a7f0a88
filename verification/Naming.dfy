/** The leaf-first naming walk (`naming/loop.py`). */
module Naming {
  import opened Graph
  import opened Ordering
  import opened CallGraph
  import TarjanSearch
  import opened TranslationUnit
  import opened Wrappers

  /** What is known of one function: its present name, its direct callees, and two flags. */
  datatype Context<T> = Context(name: string, isExternal: bool, callees: seq<T>, hasUnresolvedCalls: bool)

  datatype Proposal = Proposal(newName: string, newC: string)

  /** A namer may answer differently each time it is asked: its first argument counts the calls. */
  type Namer<!T> = (nat, Context<T>, map<T, string>) -> Proposal

  datatype Note<T> = MissingContext(address: T) | UnresolvedCalls(address: T) | NamingTruncated | OrderTruncated

  /** A question put to the namer: for which function, with which callee names. */
  datatype Call<T> = Call(address: T, calleeNames: map<T, string>)

  /** The variables of the walk, with the log of the questions asked. */
  datatype Walk<T> = Walk(
    names: map<T, string>,
    results: seq<FunctionNaming<T>>,
    notes: seq<Note<T>>,
    truncated: bool,
    calls: seq<Call<T>>)

  function CalleeNames<T>(names: map<T, string>, callees: seq<T>): map<T, string> {
    map c | c in callees && c in names :: names[c]
  }

  /** Processing one function. */
  function Process<T>(contexts: map<T, Context<T>>, namer: Namer<T>, maxFunctions: int, w: Walk<T>, address: T): Walk<T> {
    if address !in contexts then w.(notes := w.notes + [MissingContext(address)])
    else
      var ctx := contexts[address];
      if ctx.isExternal then
        w.(names := w.names[address := ctx.name],
           results := w.results + [FunctionNaming(address, ctx.name, ctx.name, true, false, None)])
      else if |w.calls| >= maxFunctions then w.(truncated := true)
      else
        var known := CalleeNames(w.names, ctx.callees);
        var p := namer(|w.calls|, ctx, known);
        w.(names := w.names[address := p.newName],
           results := w.results + [FunctionNaming(address, ctx.name, p.newName, false, true, Some(p.newC))],
           notes := if ctx.hasUnresolvedCalls then w.notes + [UnresolvedCalls(address)] else w.notes,
           calls := w.calls + [Call(address, known)])
  }

  function Run<T>(contexts: map<T, Context<T>>, namer: Namer<T>, maxFunctions: int, addresses: seq<T>): Walk<T> {
    if addresses == [] then Walk(map[], [], [], false, [])
    else
      var last := |addresses| - 1;
      Process(contexts, namer, maxFunctions, Run(contexts, namer, maxFunctions, addresses[..last]), addresses[last])
  }

  lemma RunMore<T>(contexts: map<T, Context<T>>, namer: Namer<T>, maxFunctions: int, addresses: seq<T>, a: T)
    ensures Run(contexts, namer, maxFunctions, addresses + [a]) == Process(contexts, namer, maxFunctions, Run(contexts, namer, maxFunctions, addresses), a)
  {
    assert (addresses + [a])[..|addresses|] == addresses;
  }

  lemma NothingRun<T>(contexts: map<T, Context<T>>, namer: Namer<T>, maxFunctions: int)
    ensures Run(contexts, namer, maxFunctions, []) == Walk(map[], [], [], false, [])
  {
  }

  /** The nested loops over components and members do what `Run` says. */
  method Orchestrate<T(==, !new)>(order: AnalysisOrder<T>, orderTruncated: bool, contexts: map<T, Context<T>>,
                            namer: Namer<T>, maxFunctions: int)
    returns (functions: seq<FunctionNaming<T>>, translationUnit: string, notes: seq<Note<T>>, names: map<T, string>,
             ghost calls: seq<Call<T>>, ghost unit: Layout)
    ensures LaidOut(translationUnit, functions, unit.ext, unit.bodies, unit.at)
    ensures Answers(contexts, namer, calls, unit.bodies)
    ensures NotesTell(order, orderTruncated, contexts, maxFunctions, notes, calls)
    ensures calls == Run(contexts, namer, maxFunctions, Flatten(order.components)).calls
    ensures var w := Run(contexts, namer, maxFunctions, Flatten(order.components));
      && functions == w.results && names == w.names
      && notes == w.notes + (if w.truncated then [NamingTruncated] else []) + (if orderTruncated then [OrderTruncated] else [])
  {
    hide Run, LaidOut, Answers, NotesTell, Bodies, Assemble;
    names, functions, notes, calls := map[], [], [], [];
    NothingRun(contexts, namer, maxFunctions);
    var inferredCount, truncated := 0, false;
    for i := 0 to |order.components|
      invariant inferredCount == |calls|
      invariant Walk(names, functions, notes, truncated, calls) == Run(contexts, namer, maxFunctions, Flatten(order.components[..i]))
    {
      assert order.components[..i + 1][..i] == order.components[..i];
      var members := order.components[i].members;
      ghost var before := Flatten(order.components[..i]);
      assert before + members[..0] == before;
      for k := 0 to |members|
        invariant inferredCount == |calls|
        invariant Walk(names, functions, notes, truncated, calls) == Run(contexts, namer, maxFunctions, before + members[..k])
      {
        var address := members[k];
        assert before + members[..k + 1] == before + members[..k] + [address];
        RunMore(contexts, namer, maxFunctions, before + members[..k], address);
        if address !in contexts {
          notes := notes + [MissingContext(address)];
          continue;
        }
        var ctx := contexts[address];
        if ctx.isExternal {
          names := names[address := ctx.name];
          functions := functions + [FunctionNaming(address, ctx.name, ctx.name, true, false, None)];
          continue;
        }
        if inferredCount >= maxFunctions {
          truncated := true;
          continue;
        }
        var known := map c | c in ctx.callees && c in names :: names[c];
        assert known == CalleeNames(names, ctx.callees);
        var proposed := namer(inferredCount, ctx, known);
        names := names[address := proposed.newName];
        functions := functions + [FunctionNaming(address, ctx.name, proposed.newName, false, true, Some(proposed.newC))];
        inferredCount := inferredCount + 1;
        calls := calls + [Call(address, known)];
        if ctx.hasUnresolvedCalls { notes := notes + [UnresolvedCalls(address)]; }
      }
      assert members[..|members|] == members;
    }
    assert order.components[..|order.components|] == order.components;
    if truncated { notes := notes + [NamingTruncated]; }
    if orderTruncated { notes := notes + [OrderTruncated]; }
    translationUnit := Assemble(functions);
    var ext, at := AssembleLaidOut(functions);
    unit := Layout(ext, Bodies(functions), at);
    BodiesAreAnswers(contexts, namer, maxFunctions, Flatten(order.components));
    FinalNotes(order, orderTruncated, contexts, namer, maxFunctions, notes);
  }

  /** Where the externals and the bodies stand in a translation unit, and the bodies. */
  datatype Layout = Layout(ext: map<nat, nat>, bodies: seq<string>, at: seq<nat>)

  /** The bodies are the namer's answers, one per call, in the order of the calls. */
  ghost predicate Answers<T(!new)>(contexts: map<T, Context<T>>, namer: Namer<T>, calls: seq<Call<T>>, bodies: seq<string>) {
    && |bodies| == |calls|
    && forall n :: 0 <= n < |calls| ==>
         calls[n].address in contexts && bodies[n] == namer(n, contexts[calls[n].address], calls[n].calleeNames).newC
  }

  /** The notes name exactly the planned functions without context and the named ones with unresolved calls, and tell
      exactly the two truncations. */
  ghost predicate NotesTell<T(!new)>(order: AnalysisOrder<T>, orderTruncated: bool, contexts: map<T, Context<T>>, maxFunctions: int,
                                     notes: seq<Note<T>>, calls: seq<Call<T>>)
  {
    && (forall a :: MissingContext(a) in notes <==> a in Flatten(order.components) && a !in contexts)
    && (forall a :: UnresolvedCalls(a) in notes <==>
          a in contexts && contexts[a].hasUnresolvedCalls && exists n :: 0 <= n < |calls| && calls[n].address == a)
    && (NamingTruncated in notes <==> Inferable(contexts, Flatten(order.components)) > if maxFunctions > 0 then maxFunctions else 0)
    && (OrderTruncated in notes <==> orderTruncated)
  }

  // ---------- the translation unit and the notes

  /** The bodies of the translation unit are the namer's answers, one per call, in the order of the calls. */
  lemma {:induction false} BodiesAreAnswers<T(!new)>(contexts: map<T, Context<T>>, namer: Namer<T>, maxFunctions: int, addresses: seq<T>)
    ensures var w := Run(contexts, namer, maxFunctions, addresses); Answers(contexts, namer, w.calls, Bodies(w.results))
  {
    hide Process;
    if addresses != [] {
      var last := |addresses| - 1;
      BodiesAreAnswers(contexts, namer, maxFunctions, addresses[..last]);
      BodiesStep(contexts, namer, maxFunctions, Run(contexts, namer, maxFunctions, addresses[..last]), addresses[last]);
    }
  }

  lemma BodiesStep<T(!new)>(contexts: map<T, Context<T>>, namer: Namer<T>, maxFunctions: int, w: Walk<T>, a: T)
    ensures var w' := Process(contexts, namer, maxFunctions, w, a);
      if |w'.calls| == |w.calls| then w'.calls == w.calls && Bodies(w'.results) == Bodies(w.results)
      else
        && |w'.calls| == |w.calls| + 1 && w'.calls[..|w.calls|] == w.calls
        && var call := w'.calls[|w.calls|];
           call.address in contexts && Bodies(w'.results) == Bodies(w.results) + [namer(|w.calls|, contexts[call.address], call.calleeNames).newC]
  {
    hide CalleeNames;
    var w' := Process(contexts, namer, maxFunctions, w, a);
    if w'.results != w.results { assert w'.results[..|w.results|] == w.results; }
  }

  lemma {:induction false} NotesOfWalk<T(!new)>(contexts: map<T, Context<T>>, namer: Namer<T>, maxFunctions: int, addresses: seq<T>, a: T)
    ensures var w := Run(contexts, namer, maxFunctions, addresses);
      && (MissingContext(a) in w.notes <==> a in addresses && a !in contexts)
      && (UnresolvedCalls(a) in w.notes <==>
            a in contexts && contexts[a].hasUnresolvedCalls && exists n :: 0 <= n < |w.calls| && w.calls[n].address == a)
      && NamingTruncated !in w.notes && OrderTruncated !in w.notes
  {
    hide CalleeNames, Process;
    if addresses != [] {
      var last := |addresses| - 1;
      assert addresses == addresses[..last] + [addresses[last]];
      NotesOfWalk(contexts, namer, maxFunctions, addresses[..last], a);
      NotesStep(contexts, namer, maxFunctions, Run(contexts, namer, maxFunctions, addresses[..last]), addresses[last], a);
    }
  }

  lemma NotesStep<T(!new)>(contexts: map<T, Context<T>>, namer: Namer<T>, maxFunctions: int, w: Walk<T>, b: T, a: T)
    ensures var w' := Process(contexts, namer, maxFunctions, w, b); var called := |w'.calls| > |w.calls|;
      && (MissingContext(a) in w'.notes <==> MissingContext(a) in w.notes || (a == b && a !in contexts))
      && (UnresolvedCalls(a) in w'.notes <==> UnresolvedCalls(a) in w.notes || (a == b && called && b in contexts && contexts[b].hasUnresolvedCalls))
      && ((exists n :: 0 <= n < |w'.calls| && w'.calls[n].address == a) <==> (exists n :: 0 <= n < |w.calls| && w.calls[n].address == a) || (a == b && called))
      && (NamingTruncated in w'.notes <==> NamingTruncated in w.notes) && (OrderTruncated in w'.notes <==> OrderTruncated in w.notes)
  {
    hide CalleeNames;
    var w' := Process(contexts, namer, maxFunctions, w, b);
    assert forall n :: 0 <= n < |w.calls| ==> w'.calls[n] == w.calls[n];
    if |w'.calls| > |w.calls| { assert w'.calls[|w.calls|].address == b; }
  }

  lemma FinalNotes<T(!new)>(order: AnalysisOrder<T>, orderTruncated: bool, contexts: map<T, Context<T>>, namer: Namer<T>, maxFunctions: int,
                            notes: seq<Note<T>>)
    requires var w := Run(contexts, namer, maxFunctions, Flatten(order.components));
      notes == w.notes + (if w.truncated then [NamingTruncated] else []) + (if orderTruncated then [OrderTruncated] else [])
    ensures NotesTell(order, orderTruncated, contexts, maxFunctions, notes, Run(contexts, namer, maxFunctions, Flatten(order.components)).calls)
  {
    hide Run, Flatten, Inferable;
    var w := Run(contexts, namer, maxFunctions, Flatten(order.components));
    TruncatedIffOverCap(contexts, namer, maxFunctions, Flatten(order.components));
    forall a
      ensures MissingContext(a) in notes <==> MissingContext(a) in w.notes
      ensures UnresolvedCalls(a) in notes <==> UnresolvedCalls(a) in w.notes
    {
    }
    forall a { NotesOfWalk(contexts, namer, maxFunctions, Flatten(order.components), a); }
    assert NamingTruncated in notes <==> w.truncated by { NoTruncationNotes(contexts, namer, maxFunctions, Flatten(order.components)); }
    assert OrderTruncated in notes <==> orderTruncated by { NoTruncationNotes(contexts, namer, maxFunctions, Flatten(order.components)); }
  }

  lemma {:induction false} NoTruncationNotes<T(!new)>(contexts: map<T, Context<T>>, namer: Namer<T>, maxFunctions: int, addresses: seq<T>)
    ensures var w := Run(contexts, namer, maxFunctions, addresses); NamingTruncated !in w.notes && OrderTruncated !in w.notes
  {
    hide CalleeNames;
    if addresses != [] { NoTruncationNotes(contexts, namer, maxFunctions, addresses[..|addresses| - 1]); }
  }

  // ---------- what a walk keeps

  ghost predicate Complete<T(!new)>(contexts: map<T, Context<T>>, addresses: seq<T>) {
    forall a :: a in addresses ==> a in contexts
  }

  /** Truncation is never taken back. */
  lemma {:induction false} TruncationSticks<T(!new)>(contexts: map<T, Context<T>>, namer: Namer<T>, maxFunctions: int, addresses: seq<T>, p: nat)
    requires p <= |addresses| && !Run(contexts, namer, maxFunctions, addresses).truncated
    ensures !Run(contexts, namer, maxFunctions, addresses[..p]).truncated
  {
    if p == |addresses| {
      assert addresses[..p] == addresses;
    } else {
      var init := addresses[..|addresses| - 1];
      assert init[..p] == addresses[..p];
      TruncationSticks(contexts, namer, maxFunctions, init, p);
    }
  }

  /** With all contexts at hand and no truncation, exactly the processed functions have a name. */
  lemma {:induction false} AllNamed<T(!new)>(contexts: map<T, Context<T>>, namer: Namer<T>, maxFunctions: int, addresses: seq<T>)
    requires Complete(contexts, addresses) && !Run(contexts, namer, maxFunctions, addresses).truncated
    ensures forall a :: a in Run(contexts, namer, maxFunctions, addresses).names <==> a in addresses
  {
    if addresses != [] {
      var init := addresses[..|addresses| - 1];
      assert addresses == init + [addresses[|addresses| - 1]];
      TruncationSticks(contexts, namer, maxFunctions, addresses, |addresses| - 1);
      AllNamed(contexts, namer, maxFunctions, init);
    }
  }

  /** When no address occurs twice, what a function is called is settled at its turn: it has a name at the end if and
      only if it had one then, and the same. */
  lemma {:induction false} NamesSettled<T(!new)>(contexts: map<T, Context<T>>, namer: Namer<T>, maxFunctions: int,
                                                 addresses: seq<T>, p: nat, a: T)
    requires TarjanSearch.Distinct(addresses) && p <= |addresses| && a in addresses[..p]
    ensures var now, end := Run(contexts, namer, maxFunctions, addresses[..p]).names, Run(contexts, namer, maxFunctions, addresses).names;
      (a in end <==> a in now) && (a in now ==> end[a] == now[a])
  {
    if p == |addresses| {
      assert addresses[..p] == addresses;
    } else {
      var init := addresses[..|addresses| - 1];
      assert init[..p] == addresses[..p];
      NamesSettled(contexts, namer, maxFunctions, init, p, a);
      assert a != addresses[|addresses| - 1];
    }
  }

  /** Each question was asked when its function's turn came, with the names given up to then. */
  lemma {:induction false} CallMoment<T(!new)>(contexts: map<T, Context<T>>, namer: Namer<T>, maxFunctions: int, addresses: seq<T>, n: nat)
    returns (p: nat)
    requires n < |Run(contexts, namer, maxFunctions, addresses).calls|
    ensures p < |addresses| && addresses[p] == Run(contexts, namer, maxFunctions, addresses).calls[n].address
    ensures addresses[p] in contexts
    ensures Run(contexts, namer, maxFunctions, addresses).calls[n].calleeNames
         == CalleeNames(Run(contexts, namer, maxFunctions, addresses[..p]).names, contexts[addresses[p]].callees)
    ensures var given, names := Run(contexts, namer, maxFunctions, addresses).calls[n].calleeNames, Run(contexts, namer, maxFunctions, addresses[..p]).names;
      forall c :: (c in given <==> c in contexts[addresses[p]].callees && c in names) && (c in given ==> given[c] == names[c])
  {
    hide Process;
    var init := addresses[..|addresses| - 1];
    if n < |Run(contexts, namer, maxFunctions, init).calls| {
      p := CallMoment(contexts, namer, maxFunctions, init, n);
      OldCall(contexts, namer, maxFunctions, Run(contexts, namer, maxFunctions, init), addresses[|addresses| - 1], n);
      assert init[..p] == addresses[..p];
    } else {
      p := |addresses| - 1;
      LastCall(contexts, namer, maxFunctions, Run(contexts, namer, maxFunctions, init), addresses[p], n);
    }
  }

  lemma OldCall<T(!new)>(contexts: map<T, Context<T>>, namer: Namer<T>, maxFunctions: int, w: Walk<T>, a: T, n: nat)
    requires n < |w.calls|
    ensures n < |Process(contexts, namer, maxFunctions, w, a).calls| && Process(contexts, namer, maxFunctions, w, a).calls[n] == w.calls[n]
  {
    hide CalleeNames;
  }

  lemma LastCall<T(!new)>(contexts: map<T, Context<T>>, namer: Namer<T>, maxFunctions: int, w: Walk<T>, a: T, n: nat)
    requires |w.calls| <= n < |Process(contexts, namer, maxFunctions, w, a).calls|
    ensures a in contexts && Process(contexts, namer, maxFunctions, w, a).calls[n] == Call(a, CalleeNames(w.names, contexts[a].callees))
  {
    hide CalleeNames;
  }

  /** The n-th answer of the namer is the name its function ends up with. */
  lemma AnswersAreKept<T(!new)>(contexts: map<T, Context<T>>, namer: Namer<T>, maxFunctions: int, addresses: seq<T>, n: nat)
    requires TarjanSearch.Distinct(addresses) && n < |Run(contexts, namer, maxFunctions, addresses).calls|
    ensures var w := Run(contexts, namer, maxFunctions, addresses); var call := w.calls[n];
      call.address in contexts && call.address in w.names
      && w.names[call.address] == namer(n, contexts[call.address], call.calleeNames).newName
  {
    var w := Run(contexts, namer, maxFunctions, addresses);
    var init := addresses[..|addresses| - 1];
    var before := Run(contexts, namer, maxFunctions, init);
    if n < |before.calls| {
      AnswersAreKept(contexts, namer, maxFunctions, init, n);
      var p := CallMoment(contexts, namer, maxFunctions, init, n);
      assert before.calls[n].address == init[p] != addresses[|addresses| - 1];
    }
  }

  /** What is recorded of a function: its own name before, the name it was given, and where that came from. */
  ghost predicate Recorded<T(!new)>(contexts: map<T, Context<T>>, w: Walk<T>, a: T, r: FunctionNaming<T>) {
    && a in contexts && a in w.names
    && r.address == a && r.originalName == contexts[a].name && r.assignedName == w.names[a]
    && r.isExternal == contexts[a].isExternal && r.inferred == !r.isExternal && (r.renamedC.Some? <==> r.inferred)
    && (r.isExternal ==> r.assignedName == r.originalName)
  }

  ghost predicate HasRecord<T(!new)>(contexts: map<T, Context<T>>, w: Walk<T>, a: T) {
    exists p :: 0 <= p < |w.results| && Recorded(contexts, w, a, w.results[p])
  }

  /** With any contexts and any cap: every record is right, and exactly the functions with a name have one. */
  lemma {:induction false} RecordsExact<T(!new)>(contexts: map<T, Context<T>>, namer: Namer<T>, maxFunctions: int, addresses: seq<T>)
    requires TarjanSearch.Distinct(addresses)
    ensures var w := Run(contexts, namer, maxFunctions, addresses);
      && (forall p :: 0 <= p < |w.results| ==> Recorded(contexts, w, w.results[p].address, w.results[p]))
      && (forall a :: a in w.names <==> HasRecord(contexts, w, a))
      && (forall a :: a in w.names ==> a in addresses)
  {
    if addresses != [] {
      var last := |addresses| - 1;
      assert addresses == addresses[..last] + [addresses[last]];
      RecordsExact(contexts, namer, maxFunctions, addresses[..last]);
      hide TarjanSearch.Distinct, Run, Process, Recorded, HasRecord;
      assert addresses[last] !in addresses[..last] by { FreshLast(addresses); }
      RecordsStep(contexts, namer, maxFunctions, Run(contexts, namer, maxFunctions, addresses[..last]), addresses[last]);
      RunLast(contexts, namer, maxFunctions, addresses);
    }
  }

  lemma FreshLast<T>(addresses: seq<T>)
    requires addresses != [] && TarjanSearch.Distinct(addresses)
    ensures addresses[|addresses| - 1] !in addresses[..|addresses| - 1]
  {
  }

  lemma RunLast<T>(contexts: map<T, Context<T>>, namer: Namer<T>, maxFunctions: int, addresses: seq<T>)
    requires addresses != []
    ensures var last := |addresses| - 1;
      Run(contexts, namer, maxFunctions, addresses) == Process(contexts, namer, maxFunctions, Run(contexts, namer, maxFunctions, addresses[..last]), addresses[last])
  {
    hide Process;
  }

  lemma RecordsStep<T(!new)>(contexts: map<T, Context<T>>, namer: Namer<T>, maxFunctions: int, w: Walk<T>, b: T)
    requires forall p :: 0 <= p < |w.results| ==> Recorded(contexts, w, w.results[p].address, w.results[p])
    requires (forall a :: a in w.names <==> HasRecord(contexts, w, a)) && b !in w.names
    ensures var w' := Process(contexts, namer, maxFunctions, w, b);
      && (forall p :: 0 <= p < |w'.results| ==> Recorded(contexts, w', w'.results[p].address, w'.results[p]))
      && (forall a :: a in w'.names <==> HasRecord(contexts, w', a))
      && (forall a :: a in w'.names ==> a in w.names || a == b)
  {
    hide CalleeNames;
    var w' := Process(contexts, namer, maxFunctions, w, b);
    forall p | 0 <= p < |w'.results| ensures Recorded(contexts, w', w'.results[p].address, w'.results[p]) {
      if p < |w.results| { assert Recorded(contexts, w, w.results[p].address, w.results[p]); }
    }
    forall a ensures a in w'.names <==> HasRecord(contexts, w', a) {
      if a in w.names {
        var p :| 0 <= p < |w.results| && Recorded(contexts, w, a, w.results[p]);
        assert Recorded(contexts, w', a, w'.results[p]);
      } else if a == b && a in w'.names {
        assert Recorded(contexts, w', a, w'.results[|w.results|]);
      }
    }
  }

  lemma {:induction false} ResultsFollowPlan<T(!new)>(contexts: map<T, Context<T>>, namer: Namer<T>, maxFunctions: int, addresses: seq<T>)
    requires Complete(contexts, addresses) && !Run(contexts, namer, maxFunctions, addresses).truncated
    ensures var w := Run(contexts, namer, maxFunctions, addresses);
      |w.results| == |addresses| && forall p :: 0 <= p < |addresses| ==> w.results[p].address == addresses[p]
  {
    hide CalleeNames;
    if addresses != [] {
      var last := |addresses| - 1;
      assert addresses == addresses[..last] + [addresses[last]];
      TruncationSticks(contexts, namer, maxFunctions, addresses, last);
      ResultsFollowPlan(contexts, namer, maxFunctions, addresses[..last]);
    }
  }

  /** With all contexts at hand and no truncation every function is recorded once, in the order of the plan. */
  lemma EveryFunctionRecorded<T(!new)>(contexts: map<T, Context<T>>, namer: Namer<T>, maxFunctions: int, addresses: seq<T>)
    requires TarjanSearch.Distinct(addresses) && Complete(contexts, addresses)
    requires !Run(contexts, namer, maxFunctions, addresses).truncated
    ensures var w := Run(contexts, namer, maxFunctions, addresses);
      |w.results| == |addresses| && forall p :: 0 <= p < |addresses| ==> Recorded(contexts, w, addresses[p], w.results[p])
  {
    hide Run, Recorded;
    RecordsExact(contexts, namer, maxFunctions, addresses);
    ResultsFollowPlan(contexts, namer, maxFunctions, addresses);
  }

  // ---------- the order of a flattened plan

  /** Everything in an earlier component comes before any occurrence of a later member. */
  lemma {:induction false} EarlierComponentFirst<T(!new)>(blocks: seq<Component<T>>, p: nat, i: nat, j: nat, c: T)
    requires p < |Flatten(blocks)| && j < i < |blocks| && Flatten(blocks)[p] in blocks[i].members && c in blocks[j].members
    requires forall i, j, v :: 0 <= i < |blocks| && 0 <= j < |blocks| && v in blocks[i].members && v in blocks[j].members ==> i == j
    ensures c in Flatten(blocks)[..p]
  {
    var last := |blocks| - 1;
    var init := blocks[..last];
    var flat := Flatten(init);
    assert forall i :: 0 <= i < |init| ==> init[i] == blocks[i];
    FlattenMembers(init, Flatten(blocks)[p]);
    if p < |flat| {
      EarlierComponentFirst(init, p, i, j, c);
      assert Flatten(blocks)[..p] == flat[..p];
    } else {
      assert Flatten(blocks)[p] in blocks[last].members;
      FlattenMembers(init, c);
      assert c in flat;
      assert flat == Flatten(blocks)[..p][..|flat|];
    }
  }

  // ---------- when the cap bites

  /** How many of the listed functions need a name from the namer. */
  function Inferable<T>(contexts: map<T, Context<T>>, addresses: seq<T>): nat {
    if addresses == [] then 0
    else
      var a := addresses[|addresses| - 1];
      Inferable(contexts, addresses[..|addresses| - 1]) + if a in contexts && !contexts[a].isExternal then 1 else 0
  }

  /** The walk is truncated exactly when more functions need a name than the cap allows. */
  lemma {:induction false} TruncatedIffOverCap<T(!new)>(contexts: map<T, Context<T>>, namer: Namer<T>, maxFunctions: int, addresses: seq<T>)
    ensures Run(contexts, namer, maxFunctions, addresses).truncated <==>
            Inferable(contexts, addresses) > if maxFunctions > 0 then maxFunctions else 0
    ensures maxFunctions >= Inferable(contexts, addresses) ==>
            |Run(contexts, namer, maxFunctions, addresses).calls| == Inferable(contexts, addresses)
    ensures maxFunctions < Inferable(contexts, addresses) ==>
            |Run(contexts, namer, maxFunctions, addresses).calls| == if maxFunctions > 0 then maxFunctions else 0
  {
    if addresses != [] {
      TruncatedIffOverCap(contexts, namer, maxFunctions, addresses[..|addresses| - 1]);
    }
  }

  // ---------- the theorem across both files

  /** A plan of the call graph whose member lists do not repeat. */
  ghost predicate Planned<T(!new)>(g: Adjacency<T>, unresolved: set<T>, order: AnalysisOrder<T>) {
    && IsAnalysisOrder(g, unresolved, order)
    && (forall i :: 0 <= i < |order.components| ==> TarjanSearch.Distinct(order.components[i].members))
  }

  /** Such a plan, with a context for every node. */
  ghost predicate Prepared<T(!new)>(g: Adjacency<T>, unresolved: set<T>, order: AnalysisOrder<T>, contexts: map<T, Context<T>>) {
    Planned(g, unresolved, order) && forall v :: v in AllNodes(g, unresolved) ==> v in contexts
  }

  /** In the flattened plan a callee outside the function's own recursion class comes before the function. */
  lemma CalleeComesFirst<T(!new)>(g: Adjacency<T>, unresolved: set<T>, order: AnalysisOrder<T>, p: nat, c: T)
    requires Planned(g, unresolved, order) && p < |Flatten(order.components)|
    requires var a := Flatten(order.components)[p]; Edge(g, a, c) && !Mutual(g, a, c)
    ensures c in Flatten(order.components)[..p]
  {
    hide Mutual, Edge;
    var blocks := order.components;
    var a := Flatten(blocks)[p];
    FlattenMembers(blocks, a);
    var i :| 0 <= i < |blocks| && a in blocks[i].members;
    NodesHaveEdges(g, unresolved);
    var j :| 0 <= j < |blocks| && c in blocks[j].members;
    assert j < i;
    EarlierComponentFirst(blocks, p, i, j, c);
  }

  /** Whatever the namer answers, whatever contexts are missing and wherever the cap bites: for every function the namer
      is asked about and every callee outside the function's own recursion class, the namer is given a name for the
      callee if and only if the callee ends up with one, and it is the final one. */
  lemma NamerSeesFinalNames<T(!new)>(g: Adjacency<T>, unresolved: set<T>, order: AnalysisOrder<T>,
                                     contexts: map<T, Context<T>>, namer: Namer<T>, maxFunctions: int, n: nat, c: T)
    requires Planned(g, unresolved, order)
    requires n < |Run(contexts, namer, maxFunctions, Flatten(order.components)).calls|
    requires var a := Run(contexts, namer, maxFunctions, Flatten(order.components)).calls[n].address;
      a in contexts && c in contexts[a].callees && Edge(g, a, c) && !Mutual(g, a, c)
    ensures var w := Run(contexts, namer, maxFunctions, Flatten(order.components));
      (c in w.calls[n].calleeNames <==> c in w.names) && (c in w.names ==> w.calls[n].calleeNames[c] == w.names[c])
  {
    hide Mutual, Edge, Run, IsAnalysisOrder;
    var flat := Flatten(order.components);
    var p := CallMoment(contexts, namer, maxFunctions, flat, n);
    PlanDistinct(g, unresolved, order);
    CalleeComesFirst(g, unresolved, order, p, c);
    NamesSettled(contexts, namer, maxFunctions, flat, p, c);
  }

  lemma PlanDistinct<T(!new)>(g: Adjacency<T>, unresolved: set<T>, order: AnalysisOrder<T>)
    requires Planned(g, unresolved, order)
    ensures TarjanSearch.Distinct(Flatten(order.components))
  {
    hide Classes, CalleesFirst, RecursionFlagged;
    FlattenDistinct(order.components);
  }

  /** With nothing cut off, every node of the call graph gets a name and a record of its own. */
  lemma EveryNodeNamed<T(!new)>(g: Adjacency<T>, unresolved: set<T>, order: AnalysisOrder<T>,
                                contexts: map<T, Context<T>>, namer: Namer<T>, maxFunctions: int)
    requires Prepared(g, unresolved, order, contexts)
    requires !Run(contexts, namer, maxFunctions, Flatten(order.components)).truncated
    ensures var w := Run(contexts, namer, maxFunctions, Flatten(order.components));
      && w.names.Keys == AllNodes(g, unresolved)
      && (forall v :: v in AllNodes(g, unresolved) ==> HasRecord(contexts, w, v))
      && (forall p :: 0 <= p < |w.results| ==> w.results[p].address in AllNodes(g, unresolved))
      && (forall p, q :: 0 <= p < q < |w.results| ==> w.results[p].address != w.results[q].address)
  {
    hide Run, Recorded, HasRecord, AllNodes, IsAnalysisOrder, TarjanSearch.Distinct, Flatten;
    var flat := Flatten(order.components);
    PlanLists(g, unresolved, order);
    PlanDistinct(g, unresolved, order);
    AllNamed(contexts, namer, maxFunctions, flat);
    EveryFunctionRecorded(contexts, namer, maxFunctions, flat);
    EachRecordedOnce(contexts, Run(contexts, namer, maxFunctions, flat), flat);
  }

  lemma PlanLists<T(!new)>(g: Adjacency<T>, unresolved: set<T>, order: AnalysisOrder<T>)
    requires Planned(g, unresolved, order)
    ensures forall v :: v in Flatten(order.components) <==> v in AllNodes(g, unresolved)
  {
    hide AllNodes, Flatten, Classes, CalleesFirst, RecursionFlagged;
    forall v ensures v in Flatten(order.components) <==> v in AllNodes(g, unresolved) { FlattenMembers(order.components, v); }
  }

  lemma EachRecordedOnce<T(!new)>(contexts: map<T, Context<T>>, w: Walk<T>, addresses: seq<T>)
    requires TarjanSearch.Distinct(addresses) && |w.results| == |addresses|
    requires forall p :: 0 <= p < |addresses| ==> Recorded(contexts, w, addresses[p], w.results[p])
    ensures forall v :: v in addresses ==> HasRecord(contexts, w, v)
    ensures forall p :: 0 <= p < |w.results| ==> w.results[p].address in addresses
    ensures forall p, q :: 0 <= p < q < |w.results| ==> w.results[p].address != w.results[q].address
  {
    forall p | 0 <= p < |addresses| ensures w.results[p].address == addresses[p] && HasRecord(contexts, w, addresses[p]) {
      assert Recorded(contexts, w, addresses[p], w.results[p]);
    }
    hide Recorded, HasRecord;
  }

  /** With nothing missing and nothing cut off, the final name of every such callee is at hand. */
  lemma EveryCalleeAtHand<T(!new)>(g: Adjacency<T>, unresolved: set<T>, order: AnalysisOrder<T>,
                                   contexts: map<T, Context<T>>, namer: Namer<T>, maxFunctions: int, n: nat, c: T)
    requires Prepared(g, unresolved, order, contexts)
    requires !Run(contexts, namer, maxFunctions, Flatten(order.components)).truncated
    requires n < |Run(contexts, namer, maxFunctions, Flatten(order.components)).calls|
    requires var a := Run(contexts, namer, maxFunctions, Flatten(order.components)).calls[n].address;
      a in contexts && c in contexts[a].callees && Edge(g, a, c) && !Mutual(g, a, c)
    ensures var w := Run(contexts, namer, maxFunctions, Flatten(order.components));
      c in w.calls[n].calleeNames && c in w.names && w.calls[n].calleeNames[c] == w.names[c]
  {
    hide Mutual, Edge, Run, IsAnalysisOrder, AllNodes, Recorded;
    NamerSeesFinalNames(g, unresolved, order, contexts, namer, maxFunctions, n, c);
    EveryNodeNamed(g, unresolved, order, contexts, namer, maxFunctions);
    NodesHaveEdges(g, unresolved);
  }

  /** Every namer call was given the final name of each callee outside the function's own recursion class, if that has
      one at the end, and no name otherwise. */
  ghost predicate WellInformed<T(!new)>(g: Adjacency<T>, contexts: map<T, Context<T>>, names: map<T, string>, calls: seq<Call<T>>) {
    forall n, c ::
      0 <= n < |calls| && calls[n].address in contexts && c in contexts[calls[n].address].callees
      && Edge(g, calls[n].address, c) && !Mutual(g, calls[n].address, c)
      ==> (c in calls[n].calleeNames <==> c in names) && (c in names ==> calls[n].calleeNames[c] == names[c])
  }

  lemma EveryCallInformed<T(!new)>(g: Adjacency<T>, unresolved: set<T>, order: AnalysisOrder<T>,
                                   contexts: map<T, Context<T>>, namer: Namer<T>, maxFunctions: int)
    requires Planned(g, unresolved, order)
    ensures var w := Run(contexts, namer, maxFunctions, Flatten(order.components)); WellInformed(g, contexts, w.names, w.calls)
  {
    hide Run, Planned, Mutual, Edge;
    var w := Run(contexts, namer, maxFunctions, Flatten(order.components));
    forall n, c | 0 <= n < |w.calls| && w.calls[n].address in contexts && c in contexts[w.calls[n].address].callees
                  && Edge(g, w.calls[n].address, c) && !Mutual(g, w.calls[n].address, c)
      ensures (c in w.calls[n].calleeNames <==> c in w.names) && (c in w.names ==> w.calls[n].calleeNames[c] == w.names[c])
    {
      NamerSeesFinalNames(g, unresolved, order, contexts, namer, maxFunctions, n, c);
    }
  }

  /** The whole pipeline: order the call graph, then walk it. */
  method NameCallGraph<T(==, !new)>(leq: (T, T) -> bool, adjacency: Adjacency<T>, unresolved: set<T>,
                                    contexts: map<T, Context<T>>, namer: Namer<T>, maxFunctions: int)
    returns (functions: seq<FunctionNaming<T>>, translationUnit: string, notes: seq<Note<T>>, names: map<T, string>,
             ghost calls: seq<Call<T>>, ghost unit: Layout, ghost order: AnalysisOrder<T>)
    requires TotalOrder(leq)
    ensures IsAnalysisOrder(adjacency, unresolved, order)
    ensures var w := Run(contexts, namer, maxFunctions, Flatten(order.components));
      functions == w.results && names == w.names && calls == w.calls
    ensures WellInformed(adjacency, contexts, names, calls)
    ensures LaidOut(translationUnit, functions, unit.ext, unit.bodies, unit.at) && Answers(contexts, namer, calls, unit.bodies)
    ensures NotesTell(order, false, contexts, maxFunctions, notes, calls)
    ensures NamingTruncated !in notes && (forall v :: v in AllNodes(adjacency, unresolved) ==> v in contexts) ==>
      names.Keys == AllNodes(adjacency, unresolved)
  {
    hide TotalOrder, IsAnalysisOrder, WellInformed, LaidOut, Answers, NotesTell, Run, Recorded, Ascending, AllNodes;
    ghost var rounds;
    var plan;
    plan, rounds := ComputeAnalysisOrder(leq, adjacency, unresolved);
    order := plan;
    functions, translationUnit, notes, names, calls, unit := Orchestrate(plan, false, contexts, namer, maxFunctions);
    forall i | 0 <= i < |order.components| ensures TarjanSearch.Distinct(order.components[i].members) {
      TarjanSearch.AscendingDistinct(leq, order.components[i].members);
    }
    EveryCallInformed(adjacency, unresolved, order, contexts, namer, maxFunctions);
    if NamingTruncated !in notes && forall v :: v in AllNodes(adjacency, unresolved) ==> v in contexts {
      assert !Run(contexts, namer, maxFunctions, Flatten(order.components)).truncated;
      EveryNodeNamed(adjacency, unresolved, order, contexts, namer, maxFunctions);
    }
  }
}
