# Vivarium core, verified

This project models the parts of Vivarium that decide what a client sees and in which order, and proves
them correct for all inputs and all runs.

* **Streaming jobs** (`StreamJob`, `StreamingJobs`, `StreamEffects`, `StreamRuns`, `JobManager`). A job pulls from a producer
  into a bounded buffer, numbers chunks without gaps, pauses under backpressure and keeps a bounded replay
  window. The mutable job is a class whose methods are proved against value-level functions; theorems over
  whole runs are about those functions. The manager is a class for its table sections, and a state machine in
  which table sections and job sections of all threads interleave.
* **Graph algorithms** (`Graph`, `Ordering`, `TarjanInvariant`, `TarjanSearch`, `CallGraph`, `CycleDetector`,
  `TypeBatch`, `Naming`, `TranslationUnit`, `Metrics`, `Multidecode`). The iterative component search is proved to return the
  mutual-reachability classes, callees first; the three-colour detector to find exactly the cyclic graphs. The
  two are shown to agree, the naming walk is proved on top of the order of the first, the layout of composite
  types on top of the acceptance of the second.
* **Wire protocol** (`Framing`, `Messages`, `Heartbeat`, `Dispatch`, `ServeEffects`; `Wrappers` holds shared types). Length-prefixed frames over a socket that
  splits its bytes at will, JSON-RPC 2.0 messages (sections 4, 4.1 and 5 of the JSON-RPC 2.0 Specification),
  and the worker's serve loop with any backend and any inbound bytes.
* **cpio newc archives** (`Cpio`). A printer is the specification and the parser is proved to undo it.

`dafny verify dfyconfig.toml` checks everything.

## Modelling choices

* Node ids are any type with a total order given as a parameter, since the program only compares them. Session
  ids and job handles are opaque numbers; a new handle is assumed unused.
* A producer is a finite list of items followed by an end, a safe envelope or another exception. The size of a
  chunk is the sum of the lengths of its four text fields.
* Each lock section is one atomic step. Whether a caller may use a session is a boolean on each step.
* The namer is any function of the call number, the context and the callee names.
* The checks of single names and fields that `validate_composite` calls are parameters.
* JSON text is an abstract pair of encoder and decoder; where a result needs it, the messages at hand are assumed to be
  read back from their text, which for every list of messages some codec does (`CodecExists`). The set of known RPC methods is a parameter.
* A backend is any finite strategy that emits and polls and branches on the answers and exceptions it gets. Readiness of the socket,
  how `recv` splits the bytes, which sends fail and after how many bytes are arbitrary. Its results are JSON values.
* Python's integer reading of a hex field (signs, underscores, surrounding spaces) and its slices with negative
  bounds are modelled as they are.

## Where the code does less than its comments say

* `start_job` promises one active job per session, but `cancel` clears the slot without comparing handles
  (src/vivarium/jobs/streaming.py:938). `TwoLiveJobs` is a run that breaks the promise. `OneLiveIff` says exactly which
  steps break it, a start accepted beside a live job that lost its slot, and `SlotKeptIff` exactly which steps make a
  live job lose its slot.
* The comment at src/vivarium/jobs/streaming.py:747-754 bounds the stored jobs by one per session. `StoredGrows` shows that
  cancelled jobs accumulate, `StoredKeptIff` says exactly when a start keeps the bound.
* `_u32_hex` documents eight ASCII hex digits (src/vivarium/core/cpio.py:79-94), the integer reading accepts more.
  `StrictFieldIff` says for which fields the documentation holds. A negative size is accepted (`NegativeSizeAccepted`)
  and breaks the layout; `SpansIff` gives the exact condition on the input.
* The progress emitter swallows a failed send (worker/dispatch.py:818-822). If the send failed part-way, the response
  that follows can be lost to the peer (`TornAnswerLost`). For a write torn
  inside its body `TornInBodyIff` says exactly what the peer reads. `PeerHears` gives a condition under which it reads
  everything; outside these cases the converse depends on the JSON text that happens to follow the torn bytes.

## Model

| member | source | states |
|---|---|---|
| `StreamingJobs.StreamingJob.constructor` | src/vivarium/jobs/streaming.py:318-372 | a new job is running, has produced nothing and holds empty buffer and window |
| `StreamingJobs.StreamingJob.Pump` | src/vivarium/jobs/streaming.py:425-487 | the mutable pull loop computes the specified job: pull while neither bound is reached, then pause, end or fail |
| `StreamingJobs.StreamingJob.RetainForReplay` | src/vivarium/jobs/streaming.py:518-529 | the window update on the mutable job is the specified append-and-evict |
| `StreamingJobs.StreamingJob.DeliverOne` | src/vivarium/jobs/streaming.py:508-512 | one round hands out exactly the front chunk and leaves the rest of the buffer |
| `StreamingJobs.StreamingJob.Drain` | src/vivarium/jobs/streaming.py:489-516 | the batch is the longest prefix of the buffer within the limit, and the job afterwards is the specified one |
| `StreamingJobs.StreamingJob.Lookback` | src/vivarium/jobs/streaming.py:536-566 | the read-only scan returns the specified chunks of the window and changes nothing |
| `StreamingJobs.StreamingJob.Cancel` | src/vivarium/jobs/streaming.py:568-589 | the new state is the specified cancel: a no-op on a job the client sees as finished, otherwise cancelled and emptied |
| `StreamingJobs.StreamingJob.ReportStatus` | src/vivarium/jobs/streaming.py:635-650 | the reply is the specified snapshot and the job is unchanged |
| `StreamingJobs.StreamingJob.Fetch` | src/vivarium/jobs/streaming.py:833-889 | reply and new state of a fetch are the specified ones; a refused fetch and a resume leave the job as it was, a forward fetch moves the cursor by the chunks returned |
| `StreamJob.PumpInv` | src/vivarium/jobs/streaming.py:425-487 | pumping keeps the whole job invariant: exact byte counters, contiguous numbering, bounded buffer, honest end |
| `StreamJob.PumpPausesWhenFull` | src/vivarium/jobs/streaming.py:434-487 | a pump that does not end the job leaves it paused and with one of its bounds reached |
| `StreamJob.EvictKeeps` | src/vivarium/jobs/streaming.py:522-529 | eviction keeps the longest suffix that meets both caps, or the newest chunk alone, with its exact byte count |
| `StreamJob.DeliverInv` | src/vivarium/jobs/streaming.py:507-512 | delivering a chunk keeps the job invariant, moves the cursor by one and takes the front of the buffer |
| `StreamJob.DeliverLoopInv` | src/vivarium/jobs/streaming.py:506-516 | a drain moves the cursor by exactly the number of chunks handed out and keeps the invariant |
| `StreamJob.FetchInv` | src/vivarium/jobs/streaming.py:844-889 | every fetch, accepted or rejected, keeps the job invariant |
| `StreamRuns.ReachableInv` | src/vivarium/jobs/streaming.py:418-529 | in every state reached by any sequence of pumps, fetches, status calls and cancels: byte counters are the exact sums, the buffer is within its chunk cap and within its byte cap but for its last chunk, the window is the contiguous range ending at the cursor and meets both caps or has length one |
| `StreamRuns.FetchExact` | src/vivarium/jobs/streaming.py:844-889 | a fetch is rejected exactly for a bad limit or a cursor outside the retained range; otherwise it returns the producer items from that cursor on, tagged with their numbers, reports done or error only at the end of the producer, and shows the error only then |
| `StreamRuns.ResumeExact` | src/vivarium/jobs/streaming.py:852-873 | a resume returns the retained items from the cursor asked for, as many as limit and cursor allow, and never reports an end before it has caught up |
| `StreamRuns.ForwardExact` | src/vivarium/jobs/streaming.py:874-889 | a forward fetch returns exactly the next items, and reports an end only when every item was delivered |
| `StreamRuns.TooOldIffOverCaps` | src/vivarium/jobs/streaming.py:524-566 | a resume cursor is refused as too old if and only if it lies more than one chunk back and the delivered chunks since it exceed one of the two replay caps |
| `StreamRuns.StatusHonest` | src/vivarium/jobs/streaming.py:635-650 | produced equals delivered plus buffered unless cancelled; a final state means nothing is buffered and everything was produced; the error appears with the error state and only with it |
| `StreamRuns.ClientsHoldPrefixes` | src/vivarium/jobs/streaming.py:787-889 | over every interleaving of any number of clients that thread their own cursor with fetches, status calls and cancels by others, each client holds a gap-free, unreordered prefix of the producer |
| `StreamRuns.ReportsDoneInTime` | src/vivarium/jobs/streaming.py:425-516 | with positive buffer bounds and no cancel, the forward fetch that brings their number to max(1, n) reports the end, with the cursor at n, whatever else is interleaved |
| `StreamRuns.NotDoneEarly` | src/vivarium/jobs/streaming.py:852-889 | that count cannot be improved: one-chunk fetches fewer than n never show an end |
| `StreamRuns.TerminalStable` | src/vivarium/jobs/streaming.py:376-383 | internal terminality, produced count and error survive every operation, which is what a read without the job lock relies on |
| `StreamRuns.EffectiveAbsorbing` | src/vivarium/jobs/streaming.py:386-402 | a terminal state shown to clients never changes, and no operation changes such a job at all |
| `StreamRuns.TerminalStaysOverRuns` | src/vivarium/jobs/streaming.py:375-402 | both hold over every continuation |
| `StreamRuns.CancelTakesEffect` | src/vivarium/jobs/streaming.py:568-589 | cancelling any job a client does not see as finished, also one whose producer ended with a buffered tail, leaves it cancelled and empty for ever |
| `StreamEffects.PumpExact` | src/vivarium/jobs/streaming.py:418-487 | items are pulled exactly as long as both bounds leave room beyond the cursor; then the job is paused, or has met the end of its producer with the state and error of that end; a terminal job is left alone |
| `StreamEffects.ForwardEffect` | src/vivarium/jobs/streaming.py:874-889 | a forward fetch returns exactly the next items up to limit and production, moves the cursor past them, fills the buffer again and shows the state, end and error of the job as it is then |
| `StreamEffects.ResumeLeavesJob` | src/vivarium/jobs/streaming.py:845-873 | a refused fetch and a resume change nothing in the job |
| `StreamEffects.ResumeShows` | src/vivarium/jobs/streaming.py:857-873 | a resume returns exactly the items asked for up to limit and cursor, and shows the state of the job only once it has caught up |
| `StreamEffects.RefusedExactly` | src/vivarium/jobs/streaming.py:833-851 | which of the three refusals a fetch meets, each exactly when |
| `StreamEffects.ShownState` | src/vivarium/jobs/streaming.py:386-402 | a client is shown the state of the job, but a finished producer only when everything produced was handed out |
| `StreamEffects.StatusExact` | src/vivarium/jobs/streaming.py:635-650 | the status tells the shown state, the true counts and the error with the error state, and changes nothing |
| `StreamEffects.CancelExact` | src/vivarium/jobs/streaming.py:581-589 | which jobs a cancel leaves alone, and every field of the others afterwards |
| `StreamEffects.BytesExact` | src/vivarium/jobs/streaming.py:278-279 | a chunk counts with the lengths of its four text fields |
| `JobManager.Manager.constructor` | src/vivarium/jobs/streaming.py:679-701 | both tables start empty |
| `JobManager.Manager.Start` | src/vivarium/jobs/streaming.py:736-769 | the start is refused exactly when the slot names a stored job that is not terminal; otherwise the superseded job leaves the table, the new one is stored and in the slot, and every other entry stays |
| `JobManager.Manager.Find` | src/vivarium/jobs/streaming.py:1032-1039 | a job is found exactly when it is stored and bound to the session named |
| `JobManager.Manager.ReleaseSlot` | src/vivarium/jobs/streaming.py:933-938 | cancel clears the slot of the session, whichever job the slot named, and keeps every stored job |
| `JobManager.Manager.Discard` | src/vivarium/jobs/streaming.py:990-993 | exactly the jobs bound to the session leave the tables and are handed back for cancelling |
| `JobManager.NextTables` | src/vivarium/jobs/streaming.py:736-774 | each table or job section of any thread keeps: every slot names a stored job of its own session that is not being cancelled |
| `JobManager.ReachableTables` | src/vivarium/jobs/streaming.py:662-1039 | that, and the job invariant of every job, in every reachable state of all threads together |
| `JobManager.StartExact` | src/vivarium/jobs/streaming.py:736-774 | a start is accepted exactly when the session check passes and the slot is free or names a job gone or terminal; the tables, the new job and its due pump afterwards |
| `JobManager.DeniedLeavesWorld` | src/vivarium/jobs/streaming.py:1032-1039 | without the session check, or for a job not stored for the session, nothing changes |
| `JobManager.AskExact` | src/vivarium/jobs/streaming.py:838-844 | an authorized fetch or status makes its section due and changes no table |
| `JobManager.CancelFreesSlot` | src/vivarium/jobs/streaming.py:933-940 | an authorized cancel frees the slot, keeps every stored job and makes the cancel section due |
| `JobManager.DiscardExact` | src/vivarium/jobs/streaming.py:990-1000 | a discard frees the slot, drops exactly the jobs of the session and makes one cancel due at each |
| `JobManager.SectionExact` | src/vivarium/jobs/streaming.py:838-889 | a due section runs once, on its own job alone |
| `JobManager.Isolation` | src/vivarium/jobs/streaming.py:1032-1039 | a section run for one session leaves slot, stored jobs, job states and pending sections of every other session as they were |
| `JobManager.SlotKeptIff` | src/vivarium/jobs/streaming.py:933-941 | a step keeps "every live stored job is in its slot or has its own cancel pending" if and only if it is not a cancel naming a handle other than the live one in the slot |
| `JobManager.OneLiveJob` | src/vivarium/jobs/streaming.py:736-769 | in runs with no such cancel every live job is placed so, and a session has at most one live job that is not being cancelled |
| `JobManager.OneLiveIff` | src/vivarium/jobs/streaming.py:739-769 | from a state with at most one live uncancelled job per session, a step keeps that if and only if it is not a start accepted while a live job of the session is neither in the slot nor being cancelled |
| `JobManager.OneLiveThroughoutIff` | src/vivarium/jobs/streaming.py:736-769 | a run keeps the promise of one active job per session throughout if and only if none of its starts is accepted beside a live uncancelled job of its session |
| `JobManager.TwoLiveJobs` | src/vivarium/jobs/streaming.py:933-938 | the promise fails: for every producer that fills the buffer, a run of one session ends with two live paused jobs, all sections having run |
| `JobManager.StoredKeptIff` | src/vivarium/jobs/streaming.py:741-769 | an accepted start keeps at most one stored job per session if and only if the slot names every job the session has stored |
| `JobManager.StoredGrows` | src/vivarium/jobs/streaming.py:747-754 | the commented bound of one stored job per session is not an invariant: n rounds of start and cancel leave n stored jobs, for every n |
| `Ordering.SortedElements` | src/vivarium/core/callgraph.py:108 | sorting a set lists exactly its elements, once each, ascending |
| `Ordering.ListingUnique` | src/vivarium/core/callgraph.py:108 | an ascending listing is determined by its elements, so the order of set iteration does not show |
| `TarjanInvariant.VisitCore` | src/vivarium/core/callgraph.py:173-178 | opening a node keeps the lowlink, on-stack, connectedness and settled-class invariants |
| `TarjanInvariant.AdvanceCore` | src/vivarium/core/callgraph.py:181-188 | following one successor keeps them, whether the child is fresh, on the stack or settled |
| `TarjanInvariant.OlderGrey` | src/vivarium/core/callgraph.py:191-203 | a node whose lowlink is below its index reaches its parent on the path, so it is no root |
| `TarjanInvariant.RetreatCore` | src/vivarium/core/callgraph.py:200-203 | leaving such a node and lowering the parent keeps the invariants |
| `TarjanInvariant.SegmentClosed` | src/vivarium/core/callgraph.py:190-199 | edges out of a finished segment stay inside it or lead to classes already emitted |
| `TarjanInvariant.SegmentIsClass` | src/vivarium/core/callgraph.py:190-199 | when lowlink equals index, the stack from the node up is exactly a mutual-reachability class |
| `TarjanInvariant.EmitCore` | src/vivarium/core/callgraph.py:190-203 | emitting it keeps the invariants, and the later lowering of the parent changes nothing |
| `TarjanSearch.PopComponent` | src/vivarium/core/callgraph.py:192-198 | the pop loop takes exactly the stack nodes with index at least that of the root |
| `TarjanSearch.Enter` | src/vivarium/core/callgraph.py:172-178 | the entry step on index, lowlink, stack and counter refines the abstract visit |
| `TarjanSearch.Follow` | src/vivarium/core/callgraph.py:180-188 | the successor step keeps the loop invariant and spends exactly one successor of the top node |
| `TarjanSearch.EmitComponent` | src/vivarium/core/callgraph.py:190-199 | the component step files a sorted class and keeps the loop invariant |
| `TarjanSearch.Leave` | src/vivarium/core/callgraph.py:190-203 | the closing step, with or without a component, keeps the loop invariant |
| `TarjanSearch.Round` | src/vivarium/core/callgraph.py:171-203 | every iteration keeps the loop invariant, and an iteration starting at successor 0 meets a node never met before |
| `TarjanSearch.RoundsStep` | src/vivarium/core/callgraph.py:171-188 | an iteration adds exactly one to the rounds spent over all nodes |
| `TarjanSearch.RoundsBound` | src/vivarium/core/callgraph.py:171-203 | the rounds never exceed one per node and successor, and reach that when every node is closed |
| `TarjanSearch.TarjanSccs` | src/vivarium/core/callgraph.py:143-204 | the result partitions the nodes into exactly the mutual-reachability classes, callees first, each sorted; rounds are one per node plus one per edge; each node is opened once |
| `CallGraph.CollectNodes` | src/vivarium/core/callgraph.py:89-108 | callers, callees and unresolved nodes, once each, ascending |
| `CallGraph.Normalize` | src/vivarium/core/callgraph.py:111-139 | the successor lists hold exactly the distinct proper edges, ascending, and the self-loops are exactly the self-edges |
| `CallGraph.ComputeAnalysisOrder` | src/vivarium/core/callgraph.py:207-250 | for every adjacency: a partition of all nodes into mutual-reachability classes of the raw graph, no callee in a later component, recursion flagged exactly on cycles, both reported lists sorted without repetition, in |nodes| + |distinct proper edges| rounds |
| `CallGraph.OrderFromClasses` | src/vivarium/core/callgraph.py:236-250 | dropping self-loops and duplicate edges changes neither classes nor order |
| `CallGraph.FlagMeansCycle` | src/vivarium/core/callgraph.py:241-250 | the flag of a component holds if and only if its members lie on a cycle, self-loops included |
| `CallGraph.RecursiveIffCyclic` | src/vivarium/core/callgraph.py:236-250 | some component is flagged if and only if the graph has a directed cycle |
| `CallGraph.RoundsAreNodesAndEdges` | src/vivarium/core/callgraph.py:166-203 | the rounds of the search equal nodes plus distinct non-self edges of the raw adjacency |
| `CallGraph.FlattenDistinct` | src/vivarium/core/callgraph.py:236-250 | the components read in a row name no node twice |
| `CycleDetector.CloseNode` | src/vivarium/core/validation.py:728-731 | the post-visit marker turns a node black with a rank above all its targets |
| `CycleDetector.SkipEntry` | src/vivarium/core/validation.py:732-733 | skipping a node already seen loses no target still owed |
| `CycleDetector.OpenNode` | src/vivarium/core/validation.py:734-740 | greying a white node and pushing its white targets keeps the search invariant |
| `CycleDetector.GreyTarget` | src/vivarium/core/validation.py:736-738 | an edge to a grey node closes a directed cycle |
| `CycleDetector.ScanTargets` | src/vivarium/core/validation.py:735-740 | the scan stops exactly at a grey target, otherwise it pushes the marker and the white targets in order |
| `CycleDetector.DetectCycle` | src/vivarium/core/validation.py:719-740 | the detector rejects if and only if there is a directed cycle; an acceptance comes with a topological rank |
| `TypeBatch.BuildTargets` | src/vivarium/core/validation.py:705-716 | the targets of a composite are the first occurrences of its by-value in-batch names, in field order |
| `TypeBatch.GraphMeaning` | src/vivarium/core/validation.py:701-717 | an edge stands exactly for a by-value member naming a composite of the batch |
| `TypeBatch.PointersNeverCycle` | src/vivarium/core/validation.py:706-717 | a batch whose in-batch references are all pointers has no cycle, however they refer to each other |
| `TypeBatch.DetectByValueCycle` | src/vivarium/core/validation.py:675-740 | rejection if and only if the by-value graph of the batch is cyclic; a rank otherwise |
| `TypeBatch.ValidateComposite` | src/vivarium/core/validation.py:648-671 | accepted if and only if name, member count, member checks, unique members, no by-value self, no offset in a union; the limit error exactly for too many members |
| `TypeBatch.ValidateTypesBatch` | src/vivarium/core/validation.py:762-780 | accepted if and only if size, every composite, unique names and no by-value cycle; which of the two errors is raised is decided by the first offence |
| `TypeBatch.CrossCheck` | src/vivarium/core/validation.py:701-740 | the three-colour detector and the component search agree: one rejects exactly when the other flags a recursive component |
| `TypeBatch.LayoutExists` | src/vivarium/core/validation.py:688-691 | for every rule that computes a size from the sizes of the members, an accepted batch has a solution |
| `TypeBatch.LayoutUnique` | src/vivarium/core/validation.py:688-691 | and only one |
| `TypeBatch.LayoutNeedsAcyclic` | src/vivarium/core/validation.py:688-691 | conversely, a batch with finite nesting sizes has no by-value cycle |
| `Naming.Orchestrate` | src/vivarium/naming/loop.py:109-174 | results and names of the nested loops are those of the walk; the translation unit holds the header, the declarations of the externals in order, then the namer's answers in order of the calls, at stated positions; the notes name exactly the functions without context, those with unresolved calls, and the two truncations |
| `TranslationUnit.AssembleLaidOut` | src/vivarium/naming/loop.py:177-196 | the assembled text is laid out so: header first, one line per external in order, a blank line before each body, bodies in order, a newline at the end |
| `Naming.BodiesAreAnswers` | src/vivarium/naming/loop.py:148-159 | the bodies are the C texts the namer answered, one per call, in the order of the calls |
| `Naming.NotesOfWalk` | src/vivarium/naming/loop.py:117-163 | a function is noted as missing exactly when it is planned without context, and as partial exactly when it was named with unresolved calls |
| `Naming.NamesSettled` | src/vivarium/naming/loop.py:115-160 | what a function is called is settled at its turn: it has a name at the end if and only if it had one then, and the same |
| `Naming.AllNamed` | src/vivarium/naming/loop.py:115-160 | with complete contexts and no truncation exactly the planned functions get names |
| `Naming.CallMoment` | src/vivarium/naming/loop.py:143-148 | each namer call is given the names assigned by the addresses before it, restricted to its callees |
| `Naming.AnswersAreKept` | src/vivarium/naming/loop.py:148-159 | the name proposed by each call is the final name of its function |
| `Naming.RecordsExact` | src/vivarium/naming/loop.py:115-160 | with any contexts and any cap: every record is right, and exactly the functions with a name have one |
| `Naming.EveryFunctionRecorded` | src/vivarium/naming/loop.py:115-160 | with complete contexts and no truncation: one record per function, in plan order |
| `Naming.TruncatedIffOverCap` | src/vivarium/naming/loop.py:139-141 | truncation happens if and only if more functions need inferring than the cap; the number of calls is the smaller of both |
| `Naming.EarlierComponentFirst` | src/vivarium/naming/loop.py:115-116 | members of an earlier component come before members of a later one |
| `Naming.CalleeComesFirst` | src/vivarium/naming/loop.py:115-116 | in a leaf-first plan read in a row, a callee outside the function's own class comes before the function |
| `Naming.NamerSeesFinalNames` | src/vivarium/naming/loop.py:115-160 | on a leaf-first order, with any contexts and any cap: for every call and every callee in the call graph outside the function's own class, the namer is given a name if and only if the callee ends up with one, and it is the final one |
| `Naming.EveryCallInformed` | src/vivarium/naming/loop.py:143-148 | that holds for every call of the walk at once |
| `Naming.EveryNodeNamed` | src/vivarium/naming/loop.py:115-160 | with complete contexts and no truncation every node of the call graph gets a name and exactly one record, and nothing else does |
| `Naming.EveryCalleeAtHand` | src/vivarium/naming/loop.py:143-148 | then the namer receives the final name of every callee outside the function's own class |
| `Naming.NameCallGraph` | src/vivarium/naming/loop.py:90-174 | the same end to end, from raw adjacency through component search to the naming walk, its translation unit and its notes |
| `Metrics.AddEdge` | src/vivarium/core/metrics.py:126-131 | counting one new edge keeps both degree maps exact and both sums equal to the edge count |
| `Metrics.CountDegrees` | src/vivarium/core/metrics.py:121-131 | fan-out and fan-in are the numbers of distinct edges at each node; each sums to the distinct edge count |
| `Metrics.CountRecursive` | src/vivarium/core/metrics.py:134 | the count of flagged components is the size of the set of their member sets |
| `Metrics.FlaggedAreCyclic` | src/vivarium/core/metrics.py:133-134 | the flagged components are exactly the mutual-reachability classes that lie on a cycle |
| `Metrics.MembershipTotal` | src/vivarium/core/metrics.py:137 | the total component membership is the number of nodes |
| `Metrics.Ranked` | src/vivarium/core/metrics.py:78-91 | the hotspots are the nodes that come first by degree descending then id ascending, as many as asked for, and any node left out ranks behind all of them |
| `Metrics.ComputeCallGraphMetrics` | src/vivarium/core/metrics.py:94-146 | every reported count equals its definition on the graph, including the number of cyclic classes |
| `Multidecode.WithinMeaning` | src/vivarium/core/multidecode.py:98-110 | the layered set is exactly what a path of bounded length reaches |
| `Multidecode.WithinStable` | src/vivarium/core/multidecode.py:101 | once a layer adds nothing, no deeper layer does, so stopping on an empty frontier loses nothing |
| `Multidecode.ExpandRound` | src/vivarium/core/multidecode.py:102-108 | one round adds exactly the sources of the frontier, and the next frontier is what is new |
| `Multidecode.ExpandValueFeeders` | src/vivarium/core/multidecode.py:74-110 | the result is exactly the keys reachable from the stored values by at most max_depth link edges, for every edge map |
| `Multidecode.RunFound` | src/vivarium/core/multidecode.py:138-145 | scanning over a maximal run keeps the listing exact up to its end |
| `Multidecode.ReportedExact` | src/vivarium/core/multidecode.py:142-143 | a run counts exactly when it is long enough and the earlier bytes end before it does or differ somewhere in it |
| `Multidecode.ExtractChangedStrings` | src/vivarium/core/multidecode.py:135-148 | the result lists, in offset order, exactly the maximal printable runs long enough and changed, up to the point where the cap was reached or the end |
| `Framing.PrefixRoundTrip` | src/vivarium/ghidra/rpc_framing.py:198-225 | the four-byte big-endian prefix of a length reads back as that length |
| `Framing.CompleteFramesMeaning` | src/vivarium/ghidra/rpc_framing.py:183-201 | the frames counted complete in a cut are those that end before it |
| `Framing.CodecExists` | src/vivarium/ghidra/rpc_framing.py:183-246 | for every list of messages some codec reads each of them back, so the hypothesis of the round trips can be met |
| `Framing.StreamRoundTrip` | worker/dispatch.py:759-777 | reading the concatenated frames of any messages that fit and that the codec reads back yields exactly those messages |
| `Framing.CutStream` | worker/dispatch.py:735-777 | a stream of such messages cut anywhere yields exactly the complete frames before the cut, then the error of a closed peer |
| `Framing.ReadOneExact` | worker/dispatch.py:759-777 | one read, case by case: short input, length over the cap, body that does not load to an object, message |
| `Framing.EncodeExact` | src/vivarium/ghidra/rpc_framing.py:183-201 | a message is framed exactly when its text is within the cap and the range of the prefix |
| `Framing.TookStream` | worker/dispatch.py:759-777 | however many reads are made of such a stream, they give its messages in order, then the error of a closed peer, and leave exactly the frames not read |
| `Framing.TookDecodes` | worker/dispatch.py:759-777 | reads that succeed give a prefix of what the whole input decodes to, and the rest decodes to the remainder |
| `Framing.ReadFrame` | worker/dispatch.py:759-777 | result and bytes consumed depend on the byte stream alone, not on its fragmentation; a declared length over the cap is refused with only the prefix taken |
| `Framing.ReadUntilFailure` | worker/dispatch.py:735-777 | repeated reading to the first failure gives what the whole stream decodes to, whatever the fragmentation |
| `Framing.PeerReads` | src/vivarium/ghidra/rpc_framing.py:183-246 | when nothing was written after a torn write, the peer reads exactly the messages that were written whole, in order |
| `Framing.WireIsStreamIff` | worker/dispatch.py:975-977 | the bytes sent are the frames of the whole messages if and only if no write was torn |
| `Framing.TornSwallows` | worker/dispatch.py:818-822 | otherwise a later frame can be lost: bytes that follow a write torn inside its body and fit in the rest of that body are never read as frames |
| `Framing.TornInBodyIff` | worker/dispatch.py:818-822 | after such a write the peer reads exactly what was whole before it; that is all that was whole if and only if nothing after it was |
| `Framing.RecvExact` | worker/dispatch.py:735-756 | for every way the socket splits its bytes: the exact bytes asked for, or an error exactly when the input is too short |
| `Heartbeat.Elapsed` | worker/dispatch.py:810-811 | k spaced emissions on, at least k intervals have passed |
| `Heartbeat.RateBound` | worker/dispatch.py:805-823 | of any spaced emission times at most 1 + floor((t1 - t0) / interval) lie between t0 and t1 |
| `Dispatch.ServedRate` | worker/dispatch.py:805-823 | for every backend, clock and pattern of send failures, the progress frames that went out whole are as many as the recorded times, and these keep the rate bound |
| `Dispatch.EveryTrailOk` | worker/dispatch.py:780-918 | along every run of every backend: each notification is one the reader accepts under the id of the request and no other, progress is spaced, and the poll has said yes exactly when its last read was a cancel for the request and none before was |
| `Dispatch.LatchStays` | worker/dispatch.py:893-895 | once the poll has said yes it stays yes and reads no more |
| `Dispatch.OnlyCancelsIff` | worker/dispatch.py:906-918 | the frames taken by the polls of a call are all well-formed cancels if and only if no poll of it raised on reading |
| `Dispatch.UncaughtEndsCall` | worker/dispatch.py:906-918 | a backend that catches no exception of its poll takes well-formed cancels only, up to a read that ends its call with that exception |
| `Dispatch.UncaughtTrace` | worker/dispatch.py:942-981 | so in every trace of such a backend only the last read of a block can be anything else, and then the block has no response or the transport broke |
| `Dispatch.SendProgress` | worker/dispatch.py:807-823 | a write is tried only when due, valid and within the cap; whatever part of it goes out, the last emission time moves only if all did, and no failure reaches the caller |
| `Dispatch.SendChunk` | worker/dispatch.py:848-854 | the chunk goes out whole, or the caller learns which of the three failures occurred |
| `Dispatch.PollCancel` | worker/dispatch.py:893-918 | a latched poll says yes without touching the socket; otherwise no when nothing is there, a framing error when the select fails, and else the answer or exception of the one frame read |
| `Dispatch.RunBackend` | worker/dispatch.py:514-550 | for every backend, also one that catches exceptions of its tools: it ends at a leaf of its strategy along the recorded answers; the bytes sent are those of its notifications and the reads those of its poll, in order |
| `Dispatch.HandleRequest` | worker/dispatch.py:632-699 | the one answer the request calls for: refusal, control answer, result or error, an OSError under the name of its class; an exception exactly when the backend ends in a wire violation |
| `Dispatch.ServedBlockOk` | worker/dispatch.py:632-699 | notifications of the request's id, then at most one response, which echoes the id (null if there was none) and which the reader accepts |
| `Dispatch.ServeConnection` | worker/dispatch.py:923-981 | for every backend, inbound stream and failure of sends: the bytes written are those of a sequence of blocks in reading order, every block but the last with its one whole response; the last is complete or cut for a stated reason, and then the connection closes; all reads made, by main loop and polls, are accounted for in order |
| `Dispatch.PeerHears` | worker/dispatch.py:923-981 | when nothing was written after a torn write, the peer reads exactly the whole notifications and responses of the blocks, in order |
| `Dispatch.TornAnswerLost` | worker/dispatch.py:812-823 | a served trace in which the peer loses its response: progress torn inside its body and swallowed, then a whole response that fits in what the body lacks |
| `ServeEffects.ProgressStep` | worker/dispatch.py:807-823 | a progress request goes out exactly when it is valid, fits and comes at least a quarter of a second after the last whole one; the backend goes on in every case |
| `ServeEffects.ChunkStep` | worker/dispatch.py:848-854 | a chunk goes out exactly when it is valid and fits; the backend takes the branch of what happened |
| `ServeEffects.PollStep` | worker/dispatch.py:893-918 | each outcome of a poll leads to its own branch: latched, nothing there, failed select, each failed read, cancel for this id, cancel for another, any other frame |
| `ServeEffects.NoToolStep` | worker/dispatch.py:529-550 | a tool that was not handed over writes and reads nothing |
| `ServeEffects.ToolsOnlyForMethod` | worker/dispatch.py:532-550 | in every trace a block has chunks or poll reads only for `start_decompile_stream`, and progress only for an `analyze` with `progress` literally true |
| `ServeEffects.FirstChunkOut` | worker/dispatch.py:539-548 | conversely the first valid chunk of a backend called for `start_decompile_stream` stands first in its block |
| `ServeEffects.FirstProgressOut` | worker/dispatch.py:532-538 | and so does the first valid progress of one called for an `analyze` that asks for it |
| `ServeEffects.FirstPollLooks` | worker/dispatch.py:539-548 | and its first poll looks at the socket |
| `ServeEffects.RefusedAnswers` | worker/dispatch.py:654-668 | a request is refused with the code of its first fault and a control method answered, both without the backend |
| `ServeEffects.ReachedAnswers` | worker/dispatch.py:669-699 | a request that reaches the backend is answered as the backend ended: result, own error with its detail, or internal error under the name of the exception |
| `ServeEffects.ClosedUnanswered` | worker/dispatch.py:955-977 | the connection closes without an answer exactly when the call ended in a wire violation or the answer does not fit |
| `ServeEffects.CancelExact` | src/vivarium/ghidra/rpc_framing.py:521-578 | the parser takes exactly a `$/cancel` notification with an id |
| `ServeEffects.ProgressExact` | src/vivarium/ghidra/rpc_framing.py:315-373 | the reader takes exactly a progress notification for the expected id with a valid percent and phase |
| `ServeEffects.ChunkExact` | src/vivarium/ghidra/rpc_framing.py:425-487 | the reader takes exactly a chunk notification for the expected id with a number that is not negative, the one kind and an object |
| `ServeEffects.ResponseExact` | src/vivarium/ghidra/rpc_framing.py:263-293 | the reader of responses, case by case: malformed, error, result |
| `ServeEffects.ErrorExact` | worker/dispatch.py:604-629 | an error response holds code and message as given, the slug of the code, and the detail if there is one |
| `ServeEffects.ParsedErrorExact` | src/vivarium/ghidra/rpc_framing.py:597-624 | what the reader makes of an error: the members it holds, shortened to their caps, and defaults for missing and wrong ones |
| `Cpio.ParseNewcEntries` | src/vivarium/core/cpio.py:107-182 | the loop computes the specified members for every input, in at most max_entries + 1 rounds |
| `Cpio.AcceptedReadOff` | src/vivarium/core/cpio.py:133-182 | of every accepted input: the members stand one after the other, each under one of the two magics with a name size of 1 to 4096, and name, mode, file types, size and offset are those of its header; a trailer ends them |
| `Cpio.ReadOffAccepted` | src/vivarium/core/cpio.py:133-182 | conversely, an input in which such members and a trailer stand is accepted with exactly these members |
| `Cpio.SliceExact` | src/vivarium/core/cpio.py:136-155 | a slice, case by case, with negative bounds counted from the end |
| `Cpio.FieldExact` | src/vivarium/core/cpio.py:79-94 | a field is read exactly when it is white space, optional sign, optional 0x, hex digits with single underscores, white space; then as that number |
| `Cpio.StrictField` | src/vivarium/core/cpio.py:79-94 | on eight hex digits the lax integer reading is the plain one, below 2^32 |
| `Cpio.SpelledMember` | src/vivarium/core/cpio.py:134-179 | the parser undoes the spelling of one member at any aligned place in any surroundings, for every spelling of its fields |
| `Cpio.SpellingExists` | src/vivarium/core/cpio.py:59-76 | every NUL-free name within the cap, mode and data have a well-formed spelling |
| `Cpio.PrintParse` | src/vivarium/core/cpio.py:107-182 | for every list of well-formed members (strict hex fields of either case, any padding and any bytes in the fields not read) and trailer: the archive parses to exactly the members up to the entry cap and is refused beyond it, whatever follows |
| `Cpio.DataAtOffset` | src/vivarium/core/cpio.py:152-179 | name, mode, size and the two file types are those written, and data_offset points at the data |
| `Cpio.NoTrailerNoArchive` | src/vivarium/core/cpio.py:134-135 | well-formed members without a trailer are refused |
| `Cpio.SpansFrom` | src/vivarium/core/cpio.py:133-182 | from any aligned place on, members without negative lengths lie in bounds, aligned, ascending and disjoint |
| `Cpio.StrictSpans` | src/vivarium/core/cpio.py:133-182 | for every accepted input with strict hex length fields, headers, names and data lie in bounds, 4-aligned, ascending and disjoint |
| `Cpio.StrictFieldIff` | src/vivarium/core/cpio.py:79-94 | eight bytes without white space, sign, underscore or x are accepted if and only if they are hex digits, as documented |
| `Cpio.SpansIff` | src/vivarium/core/cpio.py:133-182 | an accepted input has that layout if and only if, walking the input from header to header, each file size field reads at least 0 and each name size field at least 1 |
| `Cpio.NegativeSizeAccepted` | src/vivarium/core/cpio.py:79-94 | the layout is not promised without it: an archive with a file size field spelling -1 is accepted |

## Left out

- Container launching, sandbox runners, dashboards, configuration and authorization: subprocess, user-interface and lookup code.
- The scanners built on regular expressions, hashing and entropy: they rest on library behaviour.
- lz4legacy, uimage, androidboot, debuglink, stackstring and graph export: they would only add easier members than the cpio parser.
- `drain_producer` and `reap_cancelled` (src/vivarium/jobs/streaming.py:591-613, 953-977): teardown of a producer whose job is already cancelled.
- The `truncated` flag, elapsed time, ETA and owner tag of a job: copied through or floating point.
- `best_decoded_run`, `select_decode_ops` and `assemble_stage_chain` (src/vivarium/core/multidecode.py): small independent helpers.
- The wording of notes and the JSON encoding itself.
- `build_request` and `build_cancel` (src/vivarium/ghidra/rpc_framing.py:249-260, 581-594): inbound messages are arbitrary, so their builders are not needed.
- StreamingJobs.StreamingJob.ReportStatus: leaves out the clock fields and the truncated flag.
- StreamRuns.ReportsDoneInTime: says that an end is reported, done or error as the producer ended; wall-clock time is not modelled.
- Dispatch.PollCancel: blocking is not modelled; a frame that never completes is an input that ends.
- TypeBatch.ValidateComposite: the allow-lists of single names and field types are parameters.
- Cpio.ParseNewcEntries: names stay raw bytes; their UTF-8 decoding with replacement is not modelled.
