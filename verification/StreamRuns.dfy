/** Whole runs of one streaming job under any interleaving of clients. */
module StreamRuns {
  import opened Wrappers
  import opened StreamJob

  /** The lock sections a job can see, in any order and from any number of threads. */
  datatype Op = PumpOp | FetchOp(cursor: Option<nat>, limit: int) | StatusOp | CancelOp

  function Step(j: Job, op: Op): Job {
    match op
    case PumpOp => Pump(j)
    case FetchOp(cursor, limit) => AfterFetch(j, cursor, limit)
    case StatusOp => j
    case CancelOp => Cancel(j)
  }

  function Run(j: Job, ops: seq<Op>): Job {
    if ops == [] then j else Step(Run(j, ops[..|ops| - 1]), ops[|ops| - 1])
  }

  lemma StepInv(j: Job, op: Op)
    requires Inv(j)
    ensures Inv(Step(j, op))
  {
    hide Inv;
    match op
    case PumpOp => PumpInv(j);
    case FetchOp(cursor, limit) => FetchInv(j, cursor, limit);
    case StatusOp =>
    case CancelOp => CancelInv(j);
  }

  /** In every reachable state the counters are exact, the windows are contiguous and within their caps. */
  lemma {:induction false} ReachableInv(producer: Producer, limits: Limits, ops: seq<Op>)
    ensures Inv(Run(NewJob(producer, limits), ops)) && Run(NewJob(producer, limits), ops).producer == producer
  {
    NewJobInv(producer, limits);
    if ops != [] {
      var init := ops[..|ops| - 1];
      ReachableInv(producer, limits, init);
      StepInv(Run(NewJob(producer, limits), init), ops[|ops| - 1]);
      StepKeeps(Run(NewJob(producer, limits), init), ops[|ops| - 1]);
    }
  }

  // ---------- what a step leaves alone

  lemma {:induction false} PumpKeeps(j: Job)
    ensures var k := PumpLoop(j); k.producer == j.producer && k.limits == j.limits && k.cursor == j.cursor && k.replay == j.replay
    ensures |PumpLoop(j).buffer| >= |j.buffer|
    ensures PumpLoop(j).state != Cancelled && PumpLoop(j).state != Running
    decreases |j.producer.items| - j.pulled
  {
    if !j.BufferFull() && j.pulled < |j.producer.items| { PumpKeeps(Pull(j)); }
  }

  lemma {:induction false} DeliverKeeps(j: Job, n: nat)
    ensures var k := DeliverLoop(j, n); k.producer == j.producer && k.limits == j.limits && k.state == j.state && k.error == j.error && k.nextSeq == j.nextSeq && k.pulled == j.pulled
    ensures j.buffer == [] ==> DeliverLoop(j, n) == j
    decreases n
  {
    if j.buffer != [] && n > 0 { DeliverKeeps(Deliver(j), n - 1); }
  }

  lemma StepKeeps(j: Job, op: Op)
    ensures Step(j, op).producer == j.producer && Step(j, op).limits == j.limits
  {
    PumpKeeps(j);
    if op.FetchOp? && op.limit >= 1 {
      DeliverKeeps(j, op.limit);
      PumpKeeps(Drain(j, op.limit));
    }
  }

  // ---------- terminality

  /** Internal terminality is never lost, and after it nothing is produced and the error does not change. */
  lemma TerminalStable(j: Job, op: Op)
    requires j.IsTerminal()
    ensures Step(j, op).IsTerminal()
    ensures Step(j, op).nextSeq == j.nextSeq && Step(j, op).error == j.error
  {
    if op.FetchOp? && op.limit >= 1 { DeliverKeeps(j, op.limit); }
  }

  /** A terminal state, once shown to clients, is the state shown ever after. */
  lemma EffectiveAbsorbing(j: Job, op: Op)
    requires j.EffectiveDone()
    ensures Step(j, op).EffectiveDone() && Step(j, op).EffectiveState() == j.EffectiveState()
    ensures Inv(j) ==> Step(j, op) == j
  {
    if op.FetchOp? && op.limit >= 1 {
      DeliverKeeps(j, op.limit);
    }
  }

  lemma {:induction false} TerminalStaysOverRuns(j: Job, ops: seq<Op>)
    requires j.IsTerminal()
    ensures Run(j, ops).IsTerminal() && Run(j, ops).nextSeq == j.nextSeq && Run(j, ops).error == j.error
    ensures j.EffectiveDone() ==> Run(j, ops).EffectiveState() == j.EffectiveState()
  {
    if ops != [] {
      var init := ops[..|ops| - 1];
      TerminalStaysOverRuns(j, init);
      TerminalStable(Run(j, init), ops[|ops| - 1]);
      if j.EffectiveDone() { EffectiveAbsorbing(Run(j, init), ops[|ops| - 1]); }
    }
  }

  /** Cancelling a job that is not effectively done, even one whose producer has finished, empties it for good. */
  lemma {:induction false} CancelTakesEffect(j: Job, ops: seq<Op>)
    requires Inv(j) && !j.EffectiveDone()
    ensures var k := Run(Cancel(j), ops); k.EffectiveState() == Cancelled && k.buffer == [] && k.replay == [] && k.bufferedBytes == 0 && k.replayBytes == 0
  {
    CancelInv(j);
    CancelledStays(Cancel(j), ops);
  }

  lemma {:induction false} CancelledStays(j: Job, ops: seq<Op>)
    requires Inv(j) && j.state == Cancelled
    ensures Run(j, ops) == j
  {
    if ops != [] {
      var init := ops[..|ops| - 1];
      CancelledStays(j, init);
      EffectiveAbsorbing(j, ops[|ops| - 1]);
    }
  }

  // ---------- one fetch

  /** The oldest chunk a client may still ask for. */
  lemma FloorMeaning(j: Job)
    requires Inv(j)
    ensures j.ReplayFloor() == j.cursor - |j.replay|
  {
  }

  /** Replaying a contiguous window skips what is older than asked and takes the next `n` in order. */
  lemma {:induction false} ReplayedMeaning(p: Producer, window: seq<Chunk>, from: int, at: int, n: nat)
    requires Tagged(p, window, at) && from <= at + |window|
    ensures var r := Replayed(window, from, n); var skip := if from <= at then 0 else from - at;
      |r| == (if n <= |window| - skip then n else |window| - skip) && r == window[skip..skip + |r|]
    decreases |window|
  {
    if window != [] && n > 0 {
      assert window[0] == Chunk(at, p.items[at]);
      TaggedDrop(p, window, at, 1);
      ReplayedMeaning(p, window[1..], from, at + 1, if at < from then n else n - 1);
    }
  }

  lemma TaggedSlice(p: Producer, cs: seq<Chunk>, from: int, a: nat, b: nat)
    requires Tagged(p, cs, from) && a <= b <= |cs|
    ensures Tagged(p, cs[a..b], from + a)
  {
  }

  /** What a successful answer from number `c` on must look like. */
  ghost predicate ExactAnswer(p: Producer, c: nat, limit: nat, r: FetchResult) {
    && r.Fetched?
    && |r.chunks| <= limit && Tagged(p, r.chunks, c) && r.cursor == c + |r.chunks|
    && (r.done <==> TerminalState(r.state))
    && (r.state == Done ==> r.cursor == |p.items| && p.ending == Exhausted)
    && (r.state == Error ==> r.cursor == |p.items| && r.error == Reason(p) && r.error.Some?)
    && (r.error.Some? ==> r.state == Error)
  }

  lemma ReplaySlice(j: Job, c: nat, limit: nat)
    requires Inv(j) && j.ReplayFloor() <= c < j.cursor && limit >= 1
    ensures var r := Replayed(j.replay, c, limit);
      |r| == (if limit <= j.cursor - c then limit else j.cursor - c) && Tagged(j.producer, r, c) && r[|r| - 1].seqNo == c + |r| - 1
  {
    hide Bounded, Honest, Counters, Replayed;
    FloorMeaning(j);
    var at := j.cursor - |j.replay|;
    ReplayedMeaning(j.producer, j.replay, c, at, limit);
    var r := Replayed(j.replay, c, limit);
    TaggedSlice(j.producer, j.replay, at, c - at, c - at + |r|);
    LastTag(j.producer, r, c);
  }

  lemma ResumeExact(j: Job, c: nat, limit: nat)
    requires Inv(j) && c < j.cursor && j.ReplayFloor() <= c && limit >= 1
    ensures ExactAnswer(j.producer, c, limit, Resume(j, c, limit))
    ensures |Resume(j, c, limit).chunks| == (if limit <= j.cursor - c then limit else j.cursor - c) && Resume(j, c, limit).cursor <= j.cursor
  {
    hide Tagged, Inv, Replayed;
    ReplaySlice(j, c, limit);
    if j.EffectiveDone() && j.state != Cancelled { EndIsHonest(j); }
  }

  lemma LastTag(p: Producer, cs: seq<Chunk>, from: int)
    requires Tagged(p, cs, from) && cs != []
    ensures cs[|cs| - 1].seqNo == from + |cs| - 1
  {
  }

  lemma ForwardShape(j: Job, limit: nat)
    requires Inv(j)
    ensures var k := Forward(j, limit); var m := if limit <= |j.buffer| then limit else |j.buffer|;
      && Inv(k) && k.producer == j.producer && k.cursor == j.cursor + m && |Batch(j, limit)| == m
      && (j.state == Cancelled ==> k.state == Cancelled)
  {
    hide Inv, DeliverLoop, PumpLoop;
    DeliverLoopInv(j, limit);
    DrainInv(j, limit);
    PumpInv(Drain(j, limit));
    PumpKeeps(Drain(j, limit));
  }

  lemma EndIsHonest(j: Job)
    requires Inv(j) && j.EffectiveDone() && j.state != Cancelled
    ensures j.cursor == |j.producer.items|
    ensures j.state == Done ==> j.producer.ending == Exhausted
    ensures j.state == Error ==> j.error == Reason(j.producer) && j.error.Some?
  {
  }

  lemma ForwardExact(j: Job, limit: nat)
    requires Inv(j)
    ensures ExactAnswer(j.producer, j.cursor, limit, ForwardResult(j, limit))
    ensures |ForwardResult(j, limit).chunks| == if limit <= |j.buffer| then limit else |j.buffer|
  {
    CursorBound(j);
    hide Bounded, Tagged, Forward, Honest, Counters;
    ForwardShape(j, limit);
    var k := Forward(j, limit);
    if k.EffectiveDone() && k.state != Cancelled { EndIsHonest(k); }
    if j.state != Cancelled {
      TaggedSlice(j.producer, j.buffer, j.cursor, 0, |Batch(j, limit)|);
    } else {
      NothingTagged(j.producer, j.cursor);
    }
  }

  lemma NothingTagged(p: Producer, c: nat)
    requires c <= |p.items|
    ensures Tagged(p, [], c)
  {
  }

  /** A fetch is refused in exactly three cases; otherwise it returns the producer's items from the asked
      number on, and reports an end only when the last item has been handed out. */
  lemma FetchExact(j: Job, cursor: Option<nat>, limit: int)
    requires Inv(j)
    ensures FetchReply(j, cursor, limit).Rejected? <==>
      || limit < 1 || limit > MAX_FETCH_BATCH
      || (cursor.Some? && (cursor.value > j.cursor || cursor.value < j.cursor - |j.replay|))
    ensures FetchReply(j, cursor, limit).Fetched? ==>
      ExactAnswer(j.producer, if cursor.Some? then cursor.value else j.cursor, limit, FetchReply(j, cursor, limit))
  {
    hide Inv, ExactAnswer;
    FloorMeaning(j);
    if 1 <= limit <= MAX_FETCH_BATCH {
      if cursor.Some? && cursor.value < j.cursor {
        if j.ReplayFloor() <= cursor.value { ResumeExact(j, cursor.value, limit); }
      } else if cursor.None? || cursor.value == j.cursor {
        ForwardExact(j, limit);
      }
    }
  }

  /** A resume of a job that was not cancelled is refused as too old exactly when the chunks asked for are more
      than one and break one of the two replay caps: nothing the caps allow to keep is ever lost. */
  lemma TooOldIffOverCaps(j: Job, c: nat, limit: int)
    requires Inv(j) && j.state != Cancelled && c < j.cursor && 1 <= limit <= MAX_FETCH_BATCH
    ensures FetchReply(j, Some(c), limit) == Rejected(CursorTooOld) <==>
      j.cursor - c > 1 && (j.cursor - c > j.limits.replayChunks || Bytes(Chunks(j.producer, c, j.cursor)) > j.limits.replayBytes)
  {
    hide Bytes, Tagged;
    FloorMeaning(j);
    var start := j.cursor - |j.replay|;
    if c < start {
      ChunksFront(j.producer, c, start - 1, j.cursor);
    } else {
      TaggedIsChunks(j.producer, j.replay, start);
      ChunksFront(j.producer, start, c, j.cursor);
    }
  }

  lemma {:induction false} ChunksFront(p: Producer, a: nat, m: nat, b: nat)
    requires a <= m <= b <= |p.items|
    ensures Bytes(Chunks(p, a, b)) >= Bytes(Chunks(p, m, b))
    decreases m - a
  {
    hide Bytes, Size;
    if a < m {
      var cs := Chunks(p, a, b);
      BytesFront(cs);
      assert cs[1..] == Chunks(p, a + 1, b);
      ChunksFront(p, a + 1, m, b);
    }
  }

  /** A status never shows an end or an error before everything produced has been handed out. */
  lemma StatusHonest(j: Job)
    requires Inv(j)
    ensures var r := StatusReply(j);
      && (r.state != Cancelled ==> r.produced == r.cursor + r.buffered)
      && (r.state == Done || r.state == Error ==> r.buffered == 0 && r.cursor == r.produced == |j.producer.items|)
      && (r.error.Some? <==> r.state == Error) && (r.error.Some? ==> r.error == Reason(j.producer))
  {
    if j.EffectiveDone() && j.state != Cancelled { EndIsHonest(j); }
  }

  // ---------- clients that thread their own cursor

  datatype Client = Client(cursor: nat, held: seq<Item>)

  /** The shared job and the clients that have pulled from it. */
  datatype World = World(job: Job, clients: map<nat, Client>)

  /** A cursor-threading pull by one client, or any lock section by anyone. */
  datatype Event = PullBy(client: nat, limit: int) | Anyone(op: Op)

  function ClientOf(w: World, id: nat): Client { if id in w.clients then w.clients[id] else Client(0, []) }

  function Items(cs: seq<Chunk>): (r: seq<Item>)
    ensures |r| == |cs|
  {
    seq(|cs|, i requires 0 <= i < |cs| => cs[i].item)
  }

  function Receive(c: Client, r: FetchResult): Client {
    if r.Rejected? then c else Client(r.cursor, c.held + Items(r.chunks))
  }

  function Happen(w: World, e: Event): World {
    match e
    case PullBy(id, limit) =>
      var c := ClientOf(w, id);
      World(AfterFetch(w.job, Some(c.cursor), limit), w.clients[id := Receive(c, FetchReply(w.job, Some(c.cursor), limit))])
    case Anyone(op) => w.(job := Step(w.job, op))
  }

  function History(w: World, events: seq<Event>): World {
    if events == [] then w else Happen(History(w, events[..|events| - 1]), events[|events| - 1])
  }

  ghost predicate HoldsPrefix(p: Producer, c: Client, upTo: nat) {
    c.cursor <= upTo && c.cursor <= |p.items| && c.held == p.items[..c.cursor]
  }

  ghost predicate WorldInv(p: Producer, w: World) {
    && Inv(w.job) && w.job.producer == p
    && forall id :: id in w.clients ==> HoldsPrefix(p, w.clients[id], w.job.cursor)
  }

  lemma CursorNeverFalls(j: Job, op: Op)
    requires Inv(j)
    ensures Step(j, op).cursor >= j.cursor
  {
    PumpKeeps(j);
    if op.FetchOp? && op.limit >= 1 {
      DeliverLoopInv(j, op.limit);
      PumpKeeps(Drain(j, op.limit));
    }
  }

  lemma ItemsOfTagged(p: Producer, cs: seq<Chunk>, from: int)
    requires Tagged(p, cs, from)
    ensures Items(cs) == p.items[from..from + |cs|]
  {
  }

  /** The cursor handed out never runs ahead of the job's. */
  lemma ReplyCursor(j: Job, cursor: Option<nat>, limit: int)
    requires Inv(j) && FetchReply(j, cursor, limit).Fetched?
    ensures FetchReply(j, cursor, limit).cursor <= AfterFetch(j, cursor, limit).cursor
  {
    hide Inv, ExactAnswer, Forward, Replayed;
    if cursor.Some? && cursor.value < j.cursor { ResumeExact(j, cursor.value, limit); }
  }

  lemma ReceiveKeepsPrefix(j: Job, c: Client, limit: int)
    requires Inv(j) && HoldsPrefix(j.producer, c, j.cursor)
    ensures HoldsPrefix(j.producer, Receive(c, FetchReply(j, Some(c.cursor), limit)), AfterFetch(j, Some(c.cursor), limit).cursor)
  {
    hide Inv, Tagged, FetchReply, AfterFetch, Items;
    var r := FetchReply(j, Some(c.cursor), limit);
    FetchExact(j, Some(c.cursor), limit);
    assert AfterFetch(j, Some(c.cursor), limit).cursor >= j.cursor by { CursorNeverFalls(j, FetchOp(Some(c.cursor), limit)); }
    if r.Fetched? {
      ReplyCursor(j, Some(c.cursor), limit);
      TaggedBound(j.producer, r.chunks, c.cursor);
      ItemsOfTagged(j.producer, r.chunks, c.cursor);
    }
  }

  lemma TaggedBound(p: Producer, cs: seq<Chunk>, from: int)
    requires Tagged(p, cs, from)
    ensures from + |cs| <= |p.items|
  {
  }

  lemma HappenKeeps(p: Producer, w: World, e: Event)
    requires WorldInv(p, w)
    ensures WorldInv(p, Happen(w, e))
  {
    hide Inv;
    var op := match e case PullBy(id, limit) => FetchOp(Some(ClientOf(w, id).cursor), limit) case Anyone(op) => op;
    StepInv(w.job, op);
    StepKeeps(w.job, op);
    CursorNeverFalls(w.job, op);
    if e.PullBy? { ReceiveKeepsPrefix(w.job, ClientOf(w, e.client), e.limit); }
  }

  /** Whatever the interleaving, every client that threads its own cursor holds a gap-free, unreordered
      prefix of the producer, as long as its cursor says. */
  lemma {:induction false} ClientsHoldPrefixes(producer: Producer, limits: Limits, events: seq<Event>)
    ensures WorldInv(producer, History(World(NewJob(producer, limits), map[]), events))
  {
    if events == [] {
      NewJobInv(producer, limits);
    } else {
      var init := events[..|events| - 1];
      ClientsHoldPrefixes(producer, limits, init);
      HappenKeeps(producer, History(World(NewJob(producer, limits), map[]), init), events[|events| - 1]);
    }
  }

  // ---------- progress

  predicate ForwardFetch(j: Job, op: Op) {
    op.FetchOp? && 1 <= op.limit <= MAX_FETCH_BATCH && (op.cursor == None || op.cursor == Some(j.cursor))
  }

  /** How many of the operations were forward fetches when their turn came. */
  function ForwardCount(j: Job, ops: seq<Op>): nat {
    if ops == [] then 0
    else
      var init := ops[..|ops| - 1];
      ForwardCount(j, init) + if ForwardFetch(Run(j, init), ops[|ops| - 1]) then 1 else 0
  }

  /** An empty buffer means the end was seen: the producer is never left waiting with room to spare. */
  ghost predicate Pumped(j: Job) { j.buffer == [] ==> j.IsTerminal() }

  lemma {:induction false} PumpLoopFills(j: Job)
    requires j.limits.bufferChunks > 0 && j.limits.bufferBytes > 0
    requires j.buffer == [] ==> j.bufferedBytes == 0
    ensures Pumped(PumpLoop(j))
    decreases |j.producer.items| - j.pulled
  {
    if !j.BufferFull() && j.pulled < |j.producer.items| { PumpLoopFills(Pull(j)); }
  }

  lemma ForwardPumped(j: Job, limit: nat)
    requires Inv(j) && Pumped(j) && limit >= 1
    requires j.limits.bufferChunks > 0 && j.limits.bufferBytes > 0
    ensures Pumped(Forward(j, limit))
    ensures j.buffer != [] ==> Forward(j, limit).cursor > j.cursor
    ensures j.state != Cancelled ==> Forward(j, limit).state != Cancelled
  {
    hide Inv, DeliverLoop, PumpLoop;
    DeliverLoopInv(j, limit);
    ForwardShape(j, limit);
    var d := Drain(j, limit);
    PumpKeeps(d);
    assert d.buffer == [] ==> d.bufferedBytes == 0 by {
      DrainInv(j, limit);
      if d.buffer == [] { EmptyBytes(d); }
    }
    PumpLoopFills(d);
  }

  lemma EmptyBytes(j: Job)
    requires Inv(j) && j.buffer == []
    ensures j.bufferedBytes == 0
  {
  }

  lemma StepPumped(j: Job, op: Op)
    requires Inv(j) && Pumped(j) && op != CancelOp
    requires j.limits.bufferChunks > 0 && j.limits.bufferBytes > 0
    ensures Pumped(Step(j, op))
    ensures ForwardFetch(j, op) && j.buffer != [] ==> Step(j, op).cursor > j.cursor
    ensures j.state != Cancelled ==> Step(j, op).state != Cancelled
  {
    hide Inv, PumpLoop, Forward;
    if op == PumpOp {
      if j.buffer == [] { EmptyBytes(j); }
      PumpLoopFills(j);
      PumpKeeps(j);
    }
    if op.FetchOp? && op.limit >= 1 { ForwardPumped(j, op.limit); }
  }

  ghost predicate Underway(j: Job, count: nat) {
    && Inv(j) && Pumped(j) && j.state != Cancelled && j.limits.bufferChunks > 0 && j.limits.bufferBytes > 0
    && (j.cursor >= count || j.cursor == |j.producer.items|)
  }

  lemma UnderwayStep(j: Job, count: nat, op: Op)
    requires Underway(j, count) && op != CancelOp
    ensures Underway(Step(j, op), count + if ForwardFetch(j, op) then 1 else 0)
  {
    StepInv(j, op);
    StepKeeps(j, op);
    StepPumped(j, op);
    CursorNeverFalls(j, op);
    CursorBound(Step(j, op));
    if j.buffer == [] { NothingLeft(j); }
    hide Inv, Step;
  }

  lemma CursorBound(j: Job)
    requires Inv(j)
    ensures j.cursor <= |j.producer.items|
  {
  }

  lemma NothingLeft(j: Job)
    requires Inv(j) && Pumped(j) && j.state != Cancelled && j.buffer == []
    ensures j.cursor == |j.producer.items|
  {
  }

  lemma {:induction false} UnderwayRuns(j: Job, ops: seq<Op>)
    requires Underway(j, 0) && CancelOp !in ops
    ensures Underway(Run(j, ops), ForwardCount(j, ops))
    ensures Run(j, ops).producer == j.producer
  {
    if ops != [] {
      var init := ops[..|ops| - 1];
      UnderwayRuns(j, init);
      UnderwayStep(Run(j, init), ForwardCount(j, init), ops[|ops| - 1]);
      StepKeeps(Run(j, init), ops[|ops| - 1]);
    }
  }

  /** A started, uncancelled job with positive buffer limits is reported finished by the forward fetch that
      is number max(1, n) or later, for n items, whatever else goes on between. */
  lemma ReportsDoneInTime(producer: Producer, limits: Limits, ops: seq<Op>, last: Op)
    requires limits.bufferChunks > 0 && limits.bufferBytes > 0
    requires CancelOp !in ops
    requires var j := Run(Pump(NewJob(producer, limits)), ops);
      ForwardFetch(j, last) && ForwardCount(Pump(NewJob(producer, limits)), ops) + 1 >= |producer.items|
    ensures var j := Run(Pump(NewJob(producer, limits)), ops);
      FetchReply(j, last.cursor, last.limit).done && FetchReply(j, last.cursor, last.limit).cursor == |producer.items|
  {
    hide Underway, Step, AfterFetch, Forward;
    var start := Pump(NewJob(producer, limits));
    StartUnderway(producer, limits);
    UnderwayRuns(start, ops);
    var j := Run(start, ops);
    UnderwayStep(j, ForwardCount(start, ops), last);
    StepKeeps(j, last);
    StepIsForward(j, last);
    UnderwayEnd(Forward(j, last.limit), ForwardCount(start, ops) + 1);
  }

  lemma StartUnderway(producer: Producer, limits: Limits)
    requires limits.bufferChunks > 0 && limits.bufferBytes > 0
    ensures Underway(Pump(NewJob(producer, limits)), 0) && Pump(NewJob(producer, limits)).producer == producer
  {
    hide Inv;
    NewJobInv(producer, limits);
    PumpInv(NewJob(producer, limits));
    PumpLoopFills(NewJob(producer, limits));
    PumpKeeps(NewJob(producer, limits));
  }

  lemma StepIsForward(j: Job, op: Op)
    requires ForwardFetch(j, op)
    ensures Step(j, op) == Forward(j, op.limit) && FetchReply(j, op.cursor, op.limit) == ForwardResult(j, op.limit)
  {
    hide Forward;
  }

  /** As many forward fetches as there are items bring the job to its end. */
  lemma UnderwayEnd(j: Job, count: nat)
    requires Underway(j, count) && count >= |j.producer.items|
    ensures j.EffectiveDone() && j.cursor == |j.producer.items|
  {
    hide Tagged, Bounded, Honest;
  }

  /** The bound is exact: pulling one chunk at a time, the end is not shown before the n-th fetch. */
  lemma {:induction false} NotDoneEarly(producer: Producer, limits: Limits, ops: seq<Op>)
    requires |ops| < |producer.items| && forall i :: 0 <= i < |ops| ==> ops[i] == FetchOp(None, 1)
    ensures var j := Run(Pump(NewJob(producer, limits)), ops); !j.EffectiveDone() && j.cursor <= |ops| && Inv(j) && j.producer == producer
  {
    hide Inv;
    var start := Pump(NewJob(producer, limits));
    if ops == [] {
      NewJobInv(producer, limits);
      PumpInv(NewJob(producer, limits));
      PumpKeeps(NewJob(producer, limits));
      BehindIsNotDone(start);
    } else {
      var init := ops[..|ops| - 1];
      NotDoneEarly(producer, limits, init);
      var j := Run(start, init);
      StepInv(j, ops[|ops| - 1]);
      StepKeeps(j, ops[|ops| - 1]);
      DeliverLoopInv(j, 1);
      PumpKeeps(Drain(j, 1));
      StepPaused(j);
      BehindIsNotDone(Step(j, ops[|ops| - 1]));
    }
  }

  /** A job that was not cancelled is not shown as finished before its cursor has reached the end. */
  lemma BehindIsNotDone(j: Job)
    requires Inv(j) && j.state != Cancelled && j.cursor < |j.producer.items|
    ensures !j.EffectiveDone()
  {
  }

  lemma StepPaused(j: Job)
    requires j.state != Cancelled
    ensures Step(j, FetchOp(None, 1)).state != Cancelled
  {
    DeliverKeeps(j, 1);
    PumpKeeps(Drain(j, 1));
  }
}
