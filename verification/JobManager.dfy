/** The job manager of `jobs/streaming.py`: two tables under one lock, jobs under their own.

    A client call is a section under the table lock followed by a section under one job's
    lock.  `World` puts the sections of all threads side by side: `flight` holds the job
    sections that are still to run.
 */
module JobManager {
  import opened Wrappers
  import opened StreamJob
  import StreamRuns
  import opened StreamingJobs

  /** Session ids and job handles are opaque tokens, compared for equality only; a new handle is unused. */
  type Session = nat
  type Handle = nat

  /** `_jobs`, as the session each stored job is bound to, and `_active_by_session`. */
  datatype Tables = Tables(owner: map<Handle, Session>, active: map<Session, Handle>)

  predicate Blocked(t: Tables, s: Session, slotTerminal: bool) {
    s in t.active && t.active[s] in t.owner && !slotTerminal
  }

  /** Starting drops the finished job in the session's slot and puts the new one there. */
  function StartTables(t: Tables, s: Session, h: Handle): Tables {
    var owner := if s in t.active then t.owner - {t.active[s]} else t.owner;
    Tables(owner[h := s], t.active[s := h])
  }

  predicate Bound(t: Tables, s: Session, h: Handle) { h in t.owner && t.owner[h] == s }

  function CancelTables(t: Tables, s: Session): Tables { t.(active := t.active - {s}) }

  function DiscardTables(t: Tables, s: Session): Tables {
    Tables(map h | h in t.owner && t.owner[h] != s :: t.owner[h], t.active - {s})
  }

  // ---------- the table sections, on the mutable manager

  /** The session each stored job is bound to. */
  ghost function Owners(jobs: map<Handle, StreamingJob>): map<Handle, Session> { map h | h in jobs :: jobs[h].sessionId }

  lemma OwnersReplace(jobs: map<Handle, StreamingJob>, gone: set<Handle>, h: Handle, job: StreamingJob)
    ensures Owners((jobs - gone)[h := job]) == (Owners(jobs) - gone)[h := job.sessionId]
    ensures Owners(jobs - gone) == Owners(jobs) - gone
  {
  }

  class Manager {
    var jobs: map<Handle, StreamingJob>
    var active: map<Session, Handle>
    const limits: Limits

    constructor (limits: Limits)
      ensures View() == Tables(map[], map[]) && this.limits == limits
    {
      this.limits := limits;
      jobs, active := map[], map[];
    }

    ghost function View(): Tables
      reads this
    {
      Tables(Owners(jobs), active)
    }

    /** The table section of `start_job`, for a session the caller owns. */
    method Start(s: Session, producer: Producer, h: Handle) returns (job: Option<StreamingJob>)
      requires h !in jobs
      modifies this
      ensures job.None? <==> old(s in active && active[s] in jobs && !jobs[active[s]].View().IsTerminal())
      ensures job.None? ==> jobs == old(jobs) && active == old(active)
      ensures job.Some? ==> View() == StartTables(old(View()), s, h)
      ensures job.Some? ==> jobs == (if s in old(active) then old(jobs) - {old(active)[s]} else old(jobs))[h := job.value]
      ensures job.Some? ==> active == old(active)[s := h]
      ensures job.Some? ==> fresh(job.value) && job.value.View() == NewJob(producer, limits)
    {
      hide NewJob, Owners;
      ghost var superseded: set<Handle> := {};
      if s in active {
        var existing := active[s];
        if existing in jobs && !TerminalState(jobs[existing].state) { return None; }
        superseded := {existing};
        active := active - {s};
        jobs := jobs - {existing};
      }
      var created := new StreamingJob(s, producer, limits);
      jobs := jobs[h := created];
      active := active[s := h];
      job := Some(created);
      OwnersReplace(old(jobs), superseded, h, created);
      assert jobs == (old(jobs) - superseded)[h := created];
      assert active == old(active)[s := h];
      assert superseded == {} ==> Owners(old(jobs)) - superseded == Owners(old(jobs));
    }

    /** `_authorized_job`, once the session check has passed. */
    method Find(s: Session, h: Handle) returns (job: Option<StreamingJob>)
      ensures job.Some? <==> Bound(View(), s, h)
      ensures job.Some? ==> job.value == jobs[h]
    {
      if h !in jobs || jobs[h].sessionId != s { return None; }
      return Some(jobs[h]);
    }

    /** The table section of `cancel`. */
    method ReleaseSlot(s: Session, h: Handle) returns (job: Option<StreamingJob>)
      modifies this
      ensures job.Some? <==> Bound(old(View()), s, h)
      ensures View() == if job.Some? then CancelTables(old(View()), s) else old(View())
      ensures active == if job.Some? then old(active) - {s} else old(active)
      ensures jobs == old(jobs) && (job.Some? ==> job.value == jobs[h])
    {
      job := Find(s, h);
      if job.None? { return; }
      active := active - {s};
    }

    /** The table section of `discard_session`; the jobs returned are then cancelled one by one. */
    method Discard(s: Session) returns (doomed: map<Handle, StreamingJob>)
      modifies this
      ensures View() == DiscardTables(old(View()), s)
      ensures forall h: Handle :: h in doomed <==> Bound(old(View()), s, h)
      ensures forall h: Handle :: h in doomed ==> h in old(jobs) && doomed[h] == old(jobs)[h]
      ensures jobs == old(jobs) - doomed.Keys && active == old(active) - {s}
    {
      active := active - {s};
      doomed := map h | h in jobs && jobs[h].sessionId == s :: jobs[h];
      jobs := jobs - doomed.Keys;
      assert View() == DiscardTables(old(View()), s);
    }
  }

  // ---------- all threads together

  /** A job section that is still to run. */
  datatype Flight = Due(handle: Handle, op: StreamRuns.Op)

  datatype World = World(
    tables: Tables,
    heap: map<Handle, Job>,
    bound: map<Handle, Session>,
    flight: multiset<Flight>)

  /** The table sections, with the outcome of the session check, and the running of a job section. */
  datatype Step =
    | StartStep(session: Session, allowed: bool, handle: Handle, producer: Producer)
    | AskStep(session: Session, handle: Handle, allowed: bool, op: StreamRuns.Op)
    | CancelStep(session: Session, handle: Handle, allowed: bool)
    | DiscardStep(session: Session)
    | SectionStep(due: Flight)

  predicate SlotTerminal(w: World, s: Session) {
    s in w.tables.active && w.tables.active[s] in w.heap && w.heap[w.tables.active[s]].IsTerminal()
  }

  predicate Starts(w: World, e: Step) {
    e.StartStep? && e.allowed && e.handle !in w.heap && !Blocked(w.tables, e.session, SlotTerminal(w, e.session))
  }

  predicate Cancels(w: World, e: Step) {
    e.CancelStep? && e.allowed && Bound(w.tables, e.session, e.handle)
  }

  /** One cancel section for every job bound to the session. */
  function CancelAll(t: Tables, s: Session): multiset<Flight> {
    multiset(set h | h in t.owner && t.owner[h] == s :: Due(h, StreamRuns.CancelOp))
  }

  function Next(limits: Limits, w: World, e: Step): World {
    match e
    case StartStep(s, allowed, h, producer) =>
      if !Starts(w, e) then w
      else World(StartTables(w.tables, s, h), w.heap[h := NewJob(producer, limits)], w.bound[h := s],
                 w.flight + multiset{Due(h, StreamRuns.PumpOp)})
    case AskStep(s, h, allowed, op) =>
      if !allowed || !Bound(w.tables, s, h) || !(op.FetchOp? || op.StatusOp?) then w
      else w.(flight := w.flight + multiset{Due(h, op)})
    case CancelStep(s, h, allowed) =>
      if !Cancels(w, e) then w
      else w.(tables := CancelTables(w.tables, s), flight := w.flight + multiset{Due(h, StreamRuns.CancelOp)})
    case DiscardStep(s) =>
      w.(tables := DiscardTables(w.tables, s), flight := w.flight + CancelAll(w.tables, s))
    case SectionStep(due) =>
      if due !in w.flight || due.handle !in w.heap then w
      else w.(heap := w.heap[due.handle := StreamRuns.Step(w.heap[due.handle], due.op)], flight := w.flight - multiset{due})
  }

  const EMPTY := World(Tables(map[], map[]), map[], map[], multiset{})

  function Run(limits: Limits, steps: seq<Step>): World {
    if steps == [] then EMPTY else Next(limits, Run(limits, steps[..|steps| - 1]), steps[|steps| - 1])
  }

  predicate CancelDue(w: World, h: Handle) { Due(h, StreamRuns.CancelOp) in w.flight }

  /** Every slot names a stored job of its own session, one that is not being cancelled. */
  ghost predicate TablesInv(w: World) {
    && w.heap.Keys == w.bound.Keys
    && (forall h: Handle :: h in w.tables.owner ==> h in w.bound && w.bound[h] == w.tables.owner[h])
    && (forall s :: s in w.tables.active ==> Bound(w.tables, s, w.tables.active[s]) && !CancelDue(w, w.tables.active[s]))
    && (forall d :: d in w.flight ==> d.handle in w.heap)
    && (forall h: Handle :: h in w.heap ==> Inv(w.heap[h]))
  }

  lemma StartShape(limits: Limits, w: World, e: Step)
    requires Starts(w, e)
    ensures Next(limits, w, e) == World(StartTables(w.tables, e.session, e.handle), w.heap[e.handle := NewJob(e.producer, limits)],
                                        w.bound[e.handle := e.session], w.flight + multiset{Due(e.handle, StreamRuns.PumpOp)})
    ensures e.StartStep? && e.handle !in w.heap
  {
    hide NewJob, StartTables;
  }

  lemma StartKeepsSlots(limits: Limits, w: World, e: Step, s: Session)
    requires TablesInv(w) && Starts(w, e) && s in Next(limits, w, e).tables.active
    ensures var w' := Next(limits, w, e); Bound(w'.tables, s, w'.tables.active[s]) && !CancelDue(w', w'.tables.active[s])
  {
    hide Inv, StreamRuns.Step, NewJob;
    if s == e.session {
      assert !CancelDue(w, e.handle);
    } else {
      assert Bound(w.tables, s, w.tables.active[s]);
    }
  }

  lemma StartKeepsTables(limits: Limits, w: World, e: Step)
    requires TablesInv(w) && e.StartStep?
    ensures TablesInv(Next(limits, w, e))
  {
    hide Inv, NewJob, Bound;
    if Starts(w, e) {
      NewJobInv(e.producer, limits);
      var w' := Next(limits, w, e);
      StartShape(limits, w, e);
      forall s | s in w'.tables.active ensures Bound(w'.tables, s, w'.tables.active[s]) && !CancelDue(w', w'.tables.active[s]) {
        StartKeepsSlots(limits, w, e, s);
      }
      hide Next, Starts, CancelDue;
      assert forall d :: d in w'.flight ==> d in w.flight || d == Due(e.handle, StreamRuns.PumpOp);
    }
  }

  lemma AskKeepsTables(limits: Limits, w: World, e: Step)
    requires TablesInv(w) && e.AskStep?
    ensures TablesInv(Next(limits, w, e))
  {
    hide Inv, StreamRuns.Step;
    assert forall d :: d in Next(limits, w, e).flight ==> d in w.flight || (d.handle in w.heap && d.op != StreamRuns.CancelOp);
  }

  lemma CancelKeepsTables(limits: Limits, w: World, e: Step)
    requires TablesInv(w) && e.CancelStep?
    ensures TablesInv(Next(limits, w, e))
  {
    hide Inv, StreamRuns.Step;
    var w' := Next(limits, w, e);
    if Cancels(w, e) {
      assert forall d :: d in w'.flight ==> d in w.flight || d == Due(e.handle, StreamRuns.CancelOp);
      forall s | s in w'.tables.active ensures Bound(w'.tables, s, w'.tables.active[s]) && !CancelDue(w', w'.tables.active[s]) {
        assert Bound(w.tables, s, w.tables.active[s]);
      }
    }
  }

  lemma CancelAllMeaning(t: Tables, s: Session, d: Flight)
    ensures d in CancelAll(t, s) <==> d.op == StreamRuns.CancelOp && Bound(t, s, d.handle)
  {
  }

  lemma DiscardKeepsTables(limits: Limits, w: World, e: Step)
    requires TablesInv(w) && e.DiscardStep?
    ensures TablesInv(Next(limits, w, e))
  {
    hide Inv, StreamRuns.Step, CancelAll;
    var w' := Next(limits, w, e);
    forall d | d in w'.flight ensures d in w.flight || (d.op == StreamRuns.CancelOp && Bound(w.tables, e.session, d.handle)) {
      if d !in w.flight { CancelAllMeaning(w.tables, e.session, d); }
    }
    forall s | s in w'.tables.active ensures Bound(w'.tables, s, w'.tables.active[s]) && !CancelDue(w', w'.tables.active[s]) {
      assert Bound(w.tables, s, w.tables.active[s]);
    }
  }

  lemma SectionKeepsTables(limits: Limits, w: World, e: Step)
    requires TablesInv(w) && e.SectionStep?
    ensures TablesInv(Next(limits, w, e))
  {
    hide Inv, StreamRuns.Step;
    if e.due in w.flight { StreamRuns.StepInv(w.heap[e.due.handle], e.due.op); }
    assert forall d :: d in Next(limits, w, e).flight ==> d in w.flight;
  }

  lemma NextTables(limits: Limits, w: World, e: Step)
    requires TablesInv(w)
    ensures TablesInv(Next(limits, w, e))
  {
    hide TablesInv, Next;
    match e
    case StartStep(_, _, _, _) => StartKeepsTables(limits, w, e);
    case AskStep(_, _, _, _) => AskKeepsTables(limits, w, e);
    case CancelStep(_, _, _) => CancelKeepsTables(limits, w, e);
    case DiscardStep(_) => DiscardKeepsTables(limits, w, e);
    case SectionStep(_) => SectionKeepsTables(limits, w, e);
  }

  lemma {:induction false} ReachableTables(limits: Limits, steps: seq<Step>)
    ensures TablesInv(Run(limits, steps))
  {
    if steps != [] {
      ReachableTables(limits, steps[..|steps| - 1]);
      NextTables(limits, Run(limits, steps[..|steps| - 1]), steps[|steps| - 1]);
    }
  }

  // ---------- what the table sections do, said without the functions that compute it

  /** A start is accepted if and only if the session check passed and the session's slot is free or names a job that is
      gone or terminal; then the superseded job is dropped, the new one is stored, in the slot, and due its first pump. */
  lemma StartExact(limits: Limits, w: World, s: Session, allowed: bool, h: Handle, p: Producer)
    requires TablesInv(w) && h !in w.heap
    ensures var w' := Next(limits, w, StartStep(s, allowed, h, p));
      if !allowed || (s in w.tables.active && w.tables.active[s] in w.tables.owner
                      && w.heap[w.tables.active[s]].state in {Running, Paused}) then w' == w
      else
        && (forall k: Handle :: k in w'.tables.owner <==>
              k == h || (k in w.tables.owner && !(s in w.tables.active && w.tables.active[s] == k)))
        && (forall k: Handle :: k in w'.tables.owner ==> w'.tables.owner[k] == if k == h then s else w.tables.owner[k])
        && w'.tables.active == w.tables.active[s := h]
        && w'.heap.Keys == w.heap.Keys + {h} && (forall k: Handle :: k in w.heap ==> w'.heap[k] == w.heap[k])
        && w'.heap[h].state == Running && w'.heap[h].cursor == w'.heap[h].nextSeq == 0 && w'.heap[h].producer == p && w'.heap[h].limits == limits
        && w'.flight == w.flight + multiset{Due(h, StreamRuns.PumpOp)}
  {
    hide Inv, StreamRuns.Step;
    assert s in w.tables.active ==> Bound(w.tables, s, w.tables.active[s]);
  }

  /** Without the session check, or for a job that is not stored for the session, nothing changes. */
  lemma DeniedLeavesWorld(limits: Limits, w: World, s: Session, h: Handle, allowed: bool, op: StreamRuns.Op)
    requires !allowed || h !in w.tables.owner || w.tables.owner[h] != s
    ensures Next(limits, w, AskStep(s, h, allowed, op)) == w
    ensures Next(limits, w, CancelStep(s, h, allowed)) == w
  {
  }

  /** An authorized fetch or status is due at its job and changes no table. */
  lemma AskExact(limits: Limits, w: World, s: Session, h: Handle, op: StreamRuns.Op)
    requires h in w.tables.owner && w.tables.owner[h] == s && (op.FetchOp? || op.StatusOp?)
    ensures Next(limits, w, AskStep(s, h, true, op)) == w.(flight := w.flight + multiset{Due(h, op)})
  {
  }

  /** An authorized cancel frees the slot of the session, whichever job it named, and its section is due at the job. */
  lemma CancelFreesSlot(limits: Limits, w: World, s: Session, h: Handle)
    requires h in w.tables.owner && w.tables.owner[h] == s
    ensures var w' := Next(limits, w, CancelStep(s, h, true));
      && s !in w'.tables.active && (forall t :: t != s ==> (t in w'.tables.active <==> t in w.tables.active))
      && (forall t :: t in w'.tables.active ==> w'.tables.active[t] == w.tables.active[t])
      && w'.tables.owner == w.tables.owner && w'.heap == w.heap && w'.flight == w.flight + multiset{Due(h, StreamRuns.CancelOp)}
  {
  }

  /** Discarding a session frees its slot, drops exactly its stored jobs, and makes a cancel due at each of them. */
  lemma DiscardExact(limits: Limits, w: World, s: Session)
    ensures var w' := Next(limits, w, DiscardStep(s));
      && s !in w'.tables.active && (forall t :: t != s ==> (t in w'.tables.active <==> t in w.tables.active))
      && (forall t :: t in w'.tables.active ==> w'.tables.active[t] == w.tables.active[t])
      && (forall h: Handle :: h in w'.tables.owner <==> h in w.tables.owner && w.tables.owner[h] != s)
      && (forall h: Handle :: h in w'.tables.owner ==> w'.tables.owner[h] == w.tables.owner[h])
      && w'.heap == w.heap
      && (forall h: Handle :: h in w.tables.owner && w.tables.owner[h] == s ==> CancelDue(w', h))
      && (forall d: Flight :: w'.flight[d] == w.flight[d]
            + if d.op.CancelOp? && d.handle in w.tables.owner && w.tables.owner[d.handle] == s then 1 else 0)
  {
    hide CancelAll;
    var w' := Next(limits, w, DiscardStep(s));
    forall d: Flight
      ensures w'.flight[d] == w.flight[d] + if d.op.CancelOp? && d.handle in w.tables.owner && w.tables.owner[d.handle] == s then 1 else 0
    {
      CancelAllCount(w.tables, s, d);
    }
    forall h: Handle | h in w.tables.owner && w.tables.owner[h] == s ensures CancelDue(w', h) {
      CancelAllCount(w.tables, s, Due(h, StreamRuns.CancelOp));
    }
  }

  lemma CancelAllCount(t: Tables, s: Session, d: Flight)
    ensures CancelAll(t, s)[d] == if d.op.CancelOp? && d.handle in t.owner && t.owner[d.handle] == s then 1 else 0
  {
    var doomed := set h | h in t.owner && t.owner[h] == s :: Due(h, StreamRuns.CancelOp);
    assert CancelAll(t, s) == multiset(doomed);
  }

  /** A due section runs once, on its own job. */
  lemma SectionExact(limits: Limits, w: World, d: Flight)
    requires TablesInv(w)
    ensures var w' := Next(limits, w, SectionStep(d));
      if d in w.flight then
        && w' == w.(heap := w'.heap, flight := w.flight - multiset{d}) && w'.heap.Keys == w.heap.Keys
        && forall h: Handle :: h in w.heap ==> w'.heap[h] == if h == d.handle then StreamRuns.Step(w.heap[h], d.op) else w.heap[h]
      else w' == w
  {
    hide Inv, StreamRuns.Step;
  }

  // ---------- isolation between sessions

  /** The session a step acts for. */
  function ActsFor(w: World, e: Step): Option<Session> {
    match e
    case StartStep(s, _, _, _) => Some(s)
    case AskStep(s, _, _, _) => Some(s)
    case CancelStep(s, _, _) => Some(s)
    case DiscardStep(s) => Some(s)
    case SectionStep(due) => if due.handle in w.bound then Some(w.bound[due.handle]) else None
  }

  /** `w'` shows session `other` the same slot, the same stored jobs in the same state, and the same sections to come. */
  ghost predicate SameFor(w: World, w': World, other: Session) {
    && (other in w.tables.active <==> other in w'.tables.active)
    && (other in w.tables.active ==> w.tables.active[other] == w'.tables.active[other])
    && (forall h: Handle :: Bound(w.tables, other, h) <==> Bound(w'.tables, other, h))
    && (forall h: Handle :: h in w.bound && w.bound[h] == other ==> h in w.heap && h in w'.heap && w.heap[h] == w'.heap[h])
    && (forall d: Flight :: d.handle in w.bound && w.bound[d.handle] == other ==> w.flight[d] == w'.flight[d])
  }

  lemma StartIsolated(limits: Limits, w: World, e: Step, other: Session)
    requires TablesInv(w) && e.StartStep? && e.session != other
    ensures SameFor(w, Next(limits, w, e), other)
  {
    hide Inv, StreamRuns.Step, NewJob;
    if Starts(w, e) {
      var w' := Next(limits, w, e);
      StartShape(limits, w, e);
      hide Next, Starts, CancelDue;
      assert e.session in w.tables.active ==> Bound(w.tables, e.session, w.tables.active[e.session]);
      assert forall h: Handle :: Bound(w.tables, other, h) <==> Bound(w'.tables, other, h);
    }
  }

  lemma AskIsolated(limits: Limits, w: World, e: Step, other: Session)
    requires TablesInv(w) && e.AskStep? && e.session != other
    ensures SameFor(w, Next(limits, w, e), other)
  {
    hide Inv, StreamRuns.Step;
    assert Bound(w.tables, e.session, e.handle) ==> w.bound[e.handle] == e.session;
    assert Next(limits, w, e).tables == w.tables && Next(limits, w, e).heap == w.heap;
  }

  lemma CancelIsolated(limits: Limits, w: World, e: Step, other: Session)
    requires TablesInv(w) && e.CancelStep? && e.session != other
    ensures SameFor(w, Next(limits, w, e), other)
  {
    hide Inv, StreamRuns.Step;
    assert Bound(w.tables, e.session, e.handle) ==> w.bound[e.handle] == e.session;
    assert Next(limits, w, e).tables.owner == w.tables.owner && Next(limits, w, e).heap == w.heap;
  }

  lemma DiscardIsolated(limits: Limits, w: World, e: Step, other: Session)
    requires TablesInv(w) && e.DiscardStep? && e.session != other
    ensures SameFor(w, Next(limits, w, e), other)
  {
    hide Inv, StreamRuns.Step;
    forall d: Flight | d.handle in w.bound && w.bound[d.handle] == other ensures d !in CancelAll(w.tables, e.session) { }
  }

  lemma SectionIsolated(limits: Limits, w: World, e: Step, other: Session)
    requires TablesInv(w) && e.SectionStep? && (e.due.handle in w.bound ==> w.bound[e.due.handle] != other)
    ensures SameFor(w, Next(limits, w, e), other)
  {
    hide Inv, StreamRuns.Step;
  }

  /** A step for one session touches nothing of another session. */
  lemma Isolation(limits: Limits, w: World, e: Step, other: Session)
    requires TablesInv(w) && ActsFor(w, e) != Some(other)
    ensures SameFor(w, Next(limits, w, e), other)
  {
    hide TablesInv, Next, SameFor;
    match e
    case StartStep(_, _, _, _) => StartIsolated(limits, w, e, other);
    case AskStep(_, _, _, _) => AskIsolated(limits, w, e, other);
    case CancelStep(_, _, _) => CancelIsolated(limits, w, e, other);
    case DiscardStep(_) => DiscardIsolated(limits, w, e, other);
    case SectionStep(_) => SectionIsolated(limits, w, e, other);
  }

  // ---------- one live job per session

  ghost predicate Live(w: World, h: Handle) {
    h in w.tables.owner && h in w.heap && !w.heap[h].IsTerminal()
  }

  /** The job is in the slot of its session, or its own cancel is under way. */
  ghost predicate Placed(w: World, h: Handle) {
    h in w.tables.owner && ((w.tables.owner[h] in w.tables.active && w.tables.active[w.tables.owner[h]] == h) || CancelDue(w, h))
  }

  /** Every live job is in its session's slot, or its own cancel is under way. */
  ghost predicate LiveInSlot(w: World) {
    forall h: Handle :: Live(w, h) ==> Placed(w, h)
  }

  /** The step is an accepted cancel of a job other than the live one in the slot. */
  ghost predicate CancelsSuperseded(w: World, e: Step) {
    && Cancels(w, e)
    && e.session in w.tables.active
    && w.tables.active[e.session] != e.handle
    && Live(w, w.tables.active[e.session])
  }

  /** A step keeps the live jobs in their slots if and only if it does not cancel a superseded handle. */
  lemma SlotKeptIff(limits: Limits, w: World, e: Step)
    requires TablesInv(w) && LiveInSlot(w)
    ensures LiveInSlot(Next(limits, w, e)) <==> !CancelsSuperseded(w, e)
  {
    hide Inv, StreamRuns.Step;
    if CancelsSuperseded(w, e) {
      var h := w.tables.active[e.session];
      assert Live(Next(limits, w, e), h);
    } else {
      SlotKept(limits, w, e);
    }
  }

  /** A job that is live after the step was live before it, or has just been started. */
  lemma LiveBefore(limits: Limits, w: World, e: Step, h: Handle)
    requires TablesInv(w) && Live(Next(limits, w, e), h)
    ensures Live(w, h) || (Starts(w, e) && e.handle == h)
    ensures Live(w, h) ==> w.tables.owner[h] == Next(limits, w, e).tables.owner[h]
    ensures e.SectionStep? && e.due in w.flight && e.due.handle == h ==> e.due.op != StreamRuns.CancelOp
  {
    hide Inv, StreamRuns.Step;
    if e.SectionStep? && e.due in w.flight && e.due.handle == h { SectionLive(w.heap[h], e.due.op); }
  }

  lemma StartPlaces(limits: Limits, w: World, e: Step, h: Handle)
    requires TablesInv(w) && Starts(w, e) && (e.handle == h || (Live(w, h) && Placed(w, h)))
    ensures Placed(Next(limits, w, e), h)
  {
    hide Inv, NewJob, StreamRuns.Step;
    StartShape(limits, w, e);
    hide Next;
  }

  lemma OtherPlaces(limits: Limits, w: World, e: Step, h: Handle)
    requires TablesInv(w) && !e.StartStep? && !CancelsSuperseded(w, e) && Live(w, h) && Placed(w, h)
    requires h in Next(limits, w, e).tables.owner
    requires e.SectionStep? && e.due in w.flight && e.due.handle == h ==> e.due.op != StreamRuns.CancelOp
    ensures Placed(Next(limits, w, e), h)
  {
    hide Inv, StreamRuns.Step;
  }

  lemma SlotKeptFor(limits: Limits, w: World, e: Step, h: Handle)
    requires TablesInv(w) && LiveInSlot(w) && !CancelsSuperseded(w, e) && Live(Next(limits, w, e), h)
    ensures Placed(Next(limits, w, e), h)
  {
    LiveBefore(limits, w, e, h);
    if Live(w, h) { SlotOf(w, h); }
    if Starts(w, e) {
      StartPlaces(limits, w, e, h);
    } else if !e.StartStep? {
      assert h in Next(limits, w, e).tables.owner;
      hide Next, TablesInv, LiveInSlot, CancelsSuperseded, Placed;
      OtherPlaces(limits, w, e, h);
    }
  }

  lemma SlotOf(w: World, h: Handle)
    requires LiveInSlot(w) && Live(w, h)
    ensures Placed(w, h)
  {
  }

  lemma SlotKept(limits: Limits, w: World, e: Step)
    requires TablesInv(w) && LiveInSlot(w) && !CancelsSuperseded(w, e)
    ensures LiveInSlot(Next(limits, w, e))
  {
    var w' := Next(limits, w, e);
    forall h: Handle | Live(w', h) ensures Placed(w', h) { SlotKeptFor(limits, w, e, h); }
    hide Next, TablesInv, Live, Placed;
  }

  /** A section that leaves a job live was not its cancel, and found it live. */
  lemma SectionLive(j: Job, op: StreamRuns.Op)
    requires !StreamRuns.Step(j, op).IsTerminal()
    ensures !j.IsTerminal() && op != StreamRuns.CancelOp
  {
    if j.IsTerminal() { StreamRuns.TerminalStable(j, op); }
  }

  /** In runs that never cancel a superseded handle, a session has at most one live job that is not being cancelled. */
  lemma {:induction false} OneLiveJob(limits: Limits, steps: seq<Step>)
    requires forall i :: 0 <= i < |steps| ==> !CancelsSuperseded(Run(limits, steps[..i]), steps[i])
    ensures LiveInSlot(Run(limits, steps)) && AtMostOneLive(Run(limits, steps))
  {
    if steps != [] {
      var init := steps[..|steps| - 1];
      assert forall i :: 0 <= i < |init| ==> steps[..i] == init[..i];
      OneLiveJob(limits, init);
      ReachableTables(limits, init);
      SlotKept(limits, Run(limits, init), steps[|steps| - 1]);
    }
  }

  /** The step is an accepted start beside a live job of the session that is not being cancelled. */
  ghost predicate StartsBeside(w: World, e: Step) {
    Starts(w, e) && exists h: Handle :: Bound(w.tables, e.session, h) && Live(w, h) && !CancelDue(w, h)
  }

  /** A run keeps one live job per session throughout if and only if none of its starts is accepted beside one. */
  lemma {:induction false} OneLiveThroughoutIff(limits: Limits, steps: seq<Step>)
    ensures (forall n :: 0 <= n <= |steps| ==> AtMostOneLive(Run(limits, steps[..n]))) <==>
            (forall i :: 0 <= i < |steps| ==> !StartsBeside(Run(limits, steps[..i]), steps[i]))
  {
    hide Next, StartsBeside, TablesInv, AtMostOneLive, Run;
    if steps == [] {
      NoneLive(limits);
    } else {
      var m := |steps| - 1;
      var init, e := steps[..m], steps[m];
      assert steps == init + [e] && steps[..|steps|] == steps && init[..m] == init;
      OneLiveThroughoutIff(limits, init);
      assert forall n :: 0 <= n <= m ==> init[..n] == steps[..n];
      ReachableTables(limits, init);
      RunMore(limits, init, e);
      if AtMostOneLive(Run(limits, init)) { NotBesideIff(limits, Run(limits, init), e); }
    }
  }

  lemma NotBesideIff(limits: Limits, w: World, e: Step)
    requires TablesInv(w) && AtMostOneLive(w)
    ensures AtMostOneLive(Next(limits, w, e)) <==> !StartsBeside(w, e)
  {
    hide Next, TablesInv, AtMostOneLive, Starts, Bound, Live, CancelDue;
    OneLiveIff(limits, w, e);
  }

  lemma NoneLive(limits: Limits)
    ensures AtMostOneLive(Run(limits, []))
  {
  }

  /** A session has at most one live job that is not being cancelled. */
  ghost predicate AtMostOneLive(w: World) {
    forall h: Handle, k: Handle ::
      Live(w, h) && Live(w, k) && w.tables.owner[h] == w.tables.owner[k] && !CancelDue(w, h) && !CancelDue(w, k) ==> h == k
  }

  /** A step keeps one live job per session if and only if it is not a start accepted while a live job of the session
      that is not being cancelled has lost its slot. */
  lemma OneLiveIff(limits: Limits, w: World, e: Step)
    requires TablesInv(w) && AtMostOneLive(w)
    ensures AtMostOneLive(Next(limits, w, e)) <==>
      (Starts(w, e) ==> forall h: Handle :: Bound(w.tables, e.session, h) && Live(w, h) ==> CancelDue(w, h))
  {
    var w' := Next(limits, w, e);
    forall h: Handle | Live(w', h) && !CancelDue(w', h)
      ensures (Live(w, h) && !CancelDue(w, h) && w.tables.owner[h] == w'.tables.owner[h])
           || (Starts(w, e) && h == e.handle && w'.tables.owner[h] == e.session)
    {
      OutOfReach(limits, w, e, h);
    }
    if Starts(w, e) {
      StartedIsLive(limits, w, e);
      forall h: Handle | Bound(w.tables, e.session, h) && Live(w, h) && !CancelDue(w, h)
        ensures h != e.handle && Live(w', h) && w'.tables.owner[h] == e.session && !CancelDue(w', h)
      {
        StartLeavesLive(limits, w, e, h);
      }
    }
    hide Next, Live, TablesInv, CancelDue;
  }

  lemma OutOfReach(limits: Limits, w: World, e: Step, h: Handle)
    requires TablesInv(w) && Live(Next(limits, w, e), h) && !CancelDue(Next(limits, w, e), h)
    ensures (Live(w, h) && !CancelDue(w, h) && w.tables.owner[h] == Next(limits, w, e).tables.owner[h])
         || (Starts(w, e) && h == e.handle && Next(limits, w, e).tables.owner[h] == e.session)
  {
    LiveBefore(limits, w, e, h);
    hide Inv, StreamRuns.Step, NewJob;
  }

  lemma StartedIsLive(limits: Limits, w: World, e: Step)
    requires TablesInv(w) && Starts(w, e)
    ensures var w' := Next(limits, w, e); Live(w', e.handle) && w'.tables.owner[e.handle] == e.session && !CancelDue(w', e.handle)
  {
    hide Inv, StreamRuns.Step;
    assert !CancelDue(w, e.handle);
  }

  lemma StartLeavesLive(limits: Limits, w: World, e: Step, h: Handle)
    requires TablesInv(w) && Starts(w, e) && Bound(w.tables, e.session, h) && Live(w, h) && !CancelDue(w, h)
    ensures var w' := Next(limits, w, e); h != e.handle && Live(w', h) && w'.tables.owner[h] == e.session && !CancelDue(w', h)
  {
    hide Inv, StreamRuns.Step, NewJob;
  }

  /** A run that breaks the promise, on settled jobs: cancelling an already cancelled job frees the slot of its
      successor, and a third job starts beside the second. Every section has run; both jobs are paused on a full
      buffer. */
  lemma TwoLiveJobs(limits: Limits, p: Producer, s: Session)
    requires |p.items| >= limits.bufferChunks
    ensures var w := Run(limits, Launch(s, p, 0) + Stop(s, 0) + Launch(s, p, 1) + Stop(s, 0) + Launch(s, p, 2));
      && Live(w, 1) && Live(w, 2) && w.tables.owner[1] == w.tables.owner[2] == s && w.flight == multiset{}
      && w.heap[1].state == w.heap[2].state == Paused
  {
    hide Next, NewJob, Run, Pump, Cancel;
    var first := Launch(s, p, 0);
    var second := first + Stop(s, 0);
    var third := second + Launch(s, p, 1);
    var fourth := third + Stop(s, 0);
    PumpPauses(p, limits);
    assert [] + first == first;
    RunMore(limits, [], StartStep(s, true, 0, p));
    Launched(limits, [], s, p, 0);
    Stopped(limits, first, s, 0);
    Launched(limits, second, s, p, 1);
    Stopped(limits, third, s, 0);
    Launched(limits, fourth, s, p, 2);
  }

  /** A start and its first pump. */
  function Launch(s: Session, p: Producer, h: Handle): seq<Step> { [StartStep(s, true, h, p), SectionStep(Due(h, StreamRuns.PumpOp))] }

  /** A cancel and its section. */
  function Stop(s: Session, h: Handle): seq<Step> { [CancelStep(s, h, true), SectionStep(Due(h, StreamRuns.CancelOp))] }

  lemma PumpPauses(p: Producer, limits: Limits)
    requires |p.items| >= limits.bufferChunks
    ensures Pump(NewJob(p, limits)).state == Paused
  {
    PumpLoopPauses(NewJob(p, limits));
  }

  lemma {:induction false} PumpLoopPauses(j: Job)
    requires j.pulled == |j.buffer| && |j.producer.items| >= j.limits.bufferChunks
    ensures PumpLoop(j).state == Paused
    decreases |j.producer.items| - j.pulled
  {
    if !j.BufferFull() { PumpLoopPauses(Pull(j)); }
  }

  lemma RunMore(limits: Limits, steps: seq<Step>, e: Step)
    ensures Run(limits, steps + [e]) == Next(limits, Run(limits, steps), e) && Run(limits, []) == EMPTY
  {
    hide Next;
    assert (steps + [e])[..|steps|] == steps;
  }

  lemma Launched(limits: Limits, steps: seq<Step>, s: Session, p: Producer, h: Handle)
    requires var w := Run(limits, steps); s !in w.tables.active && h !in w.heap && w.flight == multiset{}
    ensures var w, w' := Run(limits, steps), Run(limits, steps + Launch(s, p, h));
      && w'.tables == Tables(w.tables.owner[h := s], w.tables.active[s := h])
      && w'.heap == w.heap[h := Pump(NewJob(p, limits))] && w'.flight == multiset{}
  {
    hide Run, NewJob, Pump;
    var a, b := Launch(s, p, h)[0], Launch(s, p, h)[1];
    var w := Run(limits, steps);
    RunMore(limits, steps, a);
    RunMore(limits, steps + [a], b);
    assert steps + [a] + [b] == steps + Launch(s, p, h);
    StartEffect(limits, w, s, p, h);
    SectionEffect(limits, Next(limits, w, a), Due(h, StreamRuns.PumpOp));
  }

  lemma Stopped(limits: Limits, steps: seq<Step>, s: Session, h: Handle)
    requires var w := Run(limits, steps); Bound(w.tables, s, h) && h in w.heap && w.flight == multiset{}
    ensures var w, w' := Run(limits, steps), Run(limits, steps + Stop(s, h));
      && w'.tables == Tables(w.tables.owner, w.tables.active - {s})
      && w'.heap == w.heap[h := Cancel(w.heap[h])] && w'.flight == multiset{}
  {
    hide Run, Cancel;
    var a, b := Stop(s, h)[0], Stop(s, h)[1];
    var w := Run(limits, steps);
    RunMore(limits, steps, a);
    RunMore(limits, steps + [a], b);
    assert steps + [a] + [b] == steps + Stop(s, h);
    CancelEffect(limits, w, s, h);
    SectionEffect(limits, Next(limits, w, a), Due(h, StreamRuns.CancelOp));
  }

  lemma SectionEffect(limits: Limits, w: World, due: Flight)
    requires w.flight == multiset{due} && due.handle in w.heap
    ensures var w' := Next(limits, w, SectionStep(due));
      w'.tables == w.tables && w'.heap == w.heap[due.handle := StreamRuns.Step(w.heap[due.handle], due.op)] && w'.flight == multiset{}
  {
    hide StreamRuns.Step;
  }

  lemma StartEffect(limits: Limits, w: World, s: Session, p: Producer, h: Handle)
    requires s !in w.tables.active && h !in w.heap
    ensures var w' := Next(limits, w, StartStep(s, true, h, p));
      && w'.tables == Tables(w.tables.owner[h := s], w.tables.active[s := h])
      && w'.heap == w.heap[h := NewJob(p, limits)] && w'.flight == w.flight + multiset{Due(h, StreamRuns.PumpOp)}
  {
  }

  lemma CancelEffect(limits: Limits, w: World, s: Session, h: Handle)
    requires Bound(w.tables, s, h)
    ensures var w' := Next(limits, w, CancelStep(s, h, true));
      && w'.tables == Tables(w.tables.owner, w.tables.active - {s})
      && w'.heap == w.heap && w'.flight == w.flight + multiset{Due(h, StreamRuns.CancelOp)}
  {
  }

  // ---------- how many jobs stay stored

  ghost predicate OneStored(w: World) {
    forall h: Handle, k: Handle :: h in w.tables.owner && k in w.tables.owner && w.tables.owner[h] == w.tables.owner[k] ==> h == k
  }

  /** An accepted start keeps at most one stored job per session exactly when the session's slot names every
      job it has stored. */
  lemma StoredKeptIff(limits: Limits, w: World, e: Step)
    requires TablesInv(w) && OneStored(w) && Starts(w, e)
    ensures OneStored(Next(limits, w, e)) <==>
      forall h: Handle :: Bound(w.tables, e.session, h) ==> e.session in w.tables.active && w.tables.active[e.session] == h
  {
    hide Inv, StreamRuns.Step;
    var w' := Next(limits, w, e);
    if OneStored(w') {
      forall h | Bound(w.tables, e.session, h) ensures e.session in w.tables.active && w.tables.active[e.session] == h {
        assert h != e.handle && e.handle in w'.tables.owner;
        assert h in w'.tables.owner || (e.session in w.tables.active && w.tables.active[e.session] == h);
      }
    }
    if forall h: Handle :: Bound(w.tables, e.session, h) ==> e.session in w.tables.active && w.tables.active[e.session] == h {
      forall h | h in w'.tables.owner && h != e.handle ensures h in w.tables.owner && w'.tables.owner[h] == w.tables.owner[h] != e.session {
        assert w.tables.owner[h] == e.session ==> Bound(w.tables, e.session, h);
      }
    }
  }

  /** `n` rounds of starting a stream and cancelling it. */
  function Rounds(s: Session, p: Producer, n: nat): seq<Step> {
    if n == 0 then [] else Rounds(s, p, n - 1) + [StartStep(s, true, n - 1, p), CancelStep(s, n - 1, true)]
  }

  /** Jobs 0 to n - 1 are stored, all bound to the session, whose slot is free. */
  ghost predicate LeftBehind(w: World, s: Session, n: nat) {
    && w.tables.active == map[] && |w.tables.owner| == n
    && (forall h :: h in w.heap ==> h < n)
    && (forall h :: h in w.tables.owner <==> 0 <= h < n)
    && (forall h :: h in w.tables.owner ==> w.tables.owner[h] == s)
  }

  lemma OneMoreLeft(limits: Limits, w: World, s: Session, p: Producer, n: nat)
    requires LeftBehind(w, s, n)
    ensures LeftBehind(Next(limits, Next(limits, w, StartStep(s, true, n, p)), CancelStep(s, n, true)), s, n + 1)
  {
    hide Next, NewJob;
    StartEffect(limits, w, s, p, n);
    var w1 := Next(limits, w, StartStep(s, true, n, p));
    CancelEffect(limits, w1, s, n);
    assert n !in w.tables.owner;
  }

  lemma NoneLeft(limits: Limits, s: Session)
    ensures LeftBehind(Run(limits, []), s, 0)
  {
  }

  /** The table of stored jobs is not bounded by the sessions: one session can leave any number behind. */
  lemma {:induction false} StoredGrows(limits: Limits, s: Session, p: Producer, n: nat)
    ensures LeftBehind(Run(limits, Rounds(s, p, n)), s, n)
  {
    hide LeftBehind, Next, Run;
    if n == 0 {
      NoneLeft(limits, s);
    } else {
      var before := Rounds(s, p, n - 1);
      var a, c := StartStep(s, true, n - 1, p), CancelStep(s, n - 1, true);
      StoredGrows(limits, s, p, n - 1);
      OneMoreLeft(limits, Run(limits, before), s, p, n - 1);
      RunMore(limits, before, a);
      RunMore(limits, before + [a], c);
      assert before + [a] + [c] == Rounds(s, p, n);
    }
  }
}
