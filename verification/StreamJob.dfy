/** One streaming job as a value: what each lock section of `_StreamingJob` computes
    (`jobs/streaming.py`).

    A producer is a finite list of items followed by exhaustion or by an error.  The
    functions below are the specification of the class `StreamingJobs.StreamingJob`.
 */
module StreamJob {
  import opened Wrappers

  /** A decompiled function: the four text fields that make up its size. */
  datatype Item = Item(name: string, cCode: string, signature: string, address: string)

  datatype Envelope = Worker(kind: string, detail: string) | ProducerFault

  datatype Ending = Exhausted | RaisesEnvelope(envelope: Envelope) | RaisesOther

  datatype Producer = Producer(items: seq<Item>, ending: Ending)

  datatype Limits = Limits(bufferChunks: int, bufferBytes: int, replayChunks: int, replayBytes: int)

  datatype JobState = Running | Paused | Done | Error | Cancelled

  datatype Chunk = Chunk(seqNo: nat, item: Item)

  predicate TerminalState(s: JobState) { s == Done || s == Error || s == Cancelled }

  function Size(c: Chunk): nat {
    |c.item.name| + |c.item.cCode| + |c.item.signature| + |c.item.address|
  }

  function Bytes(cs: seq<Chunk>): nat {
    if cs == [] then 0 else Bytes(cs[..|cs| - 1]) + Size(cs[|cs| - 1])
  }

  datatype Job = Job(
    producer: Producer,
    limits: Limits,
    pulled: nat,
    buffer: seq<Chunk>,
    bufferedBytes: int,
    replay: seq<Chunk>,
    replayBytes: int,
    nextSeq: nat,
    cursor: nat,
    state: JobState,
    error: Option<Envelope>)
  {
    predicate IsTerminal() { TerminalState(state) }

    /** What a client is shown: a finished producer still counts as running while chunks are buffered. */
    function EffectiveState(): JobState {
      if buffer != [] && (state == Done || state == Error) then Running else state
    }

    predicate EffectiveDone() { TerminalState(EffectiveState()) }

    predicate BufferFull() {
      |buffer| >= limits.bufferChunks || bufferedBytes >= limits.bufferBytes
    }

    function ReplayFloor(): nat { if replay != [] then replay[0].seqNo else cursor }
  }

  function NewJob(producer: Producer, limits: Limits): Job {
    Job(producer, limits, 0, [], 0, [], 0, 0, 0, Running, None)
  }

  // ---------- pump

  /** One item moves from the producer to the buffer. */
  function Pull(j: Job): Job
    requires j.pulled < |j.producer.items|
  {
    var c := Chunk(j.nextSeq, j.producer.items[j.pulled]);
    j.(pulled := j.pulled + 1, nextSeq := j.nextSeq + 1, buffer := j.buffer + [c],
       bufferedBytes := j.bufferedBytes + Size(c))
  }

  function Finish(j: Job): Job {
    match j.producer.ending
    case Exhausted => j.(state := Done)
    case RaisesEnvelope(e) => j.(state := Error, error := Some(e))
    case RaisesOther => j.(state := Error, error := Some(ProducerFault))
  }

  function PumpLoop(j: Job): Job
    decreases |j.producer.items| - j.pulled
  {
    if j.BufferFull() then j.(state := Paused)
    else if j.pulled < |j.producer.items| then PumpLoop(Pull(j))
    else Finish(j)
  }

  function Pump(j: Job): Job { if j.IsTerminal() then j else PumpLoop(j) }

  // ---------- drain

  function Evict(limits: Limits, window: seq<Chunk>, bytes: int): (seq<Chunk>, int) {
    if |window| > 1 && (|window| > limits.replayChunks || bytes > limits.replayBytes)
    then Evict(limits, window[1..], bytes - Size(window[0]))
    else (window, bytes)
  }

  function Retain(j: Job, c: Chunk): Job {
    var (window, bytes) := Evict(j.limits, j.replay + [c], j.replayBytes + Size(c));
    j.(replay := window, replayBytes := bytes)
  }

  /** One chunk moves from the buffer to the client and into the replay window. */
  function Deliver(j: Job): Job
    requires j.buffer != []
  {
    var c := j.buffer[0];
    Retain(j.(buffer := j.buffer[1..], bufferedBytes := j.bufferedBytes - Size(c), cursor := c.seqNo + 1), c)
  }

  function DeliverLoop(j: Job, n: nat): Job
    decreases n
  {
    if j.buffer == [] || n == 0 then j else DeliverLoop(Deliver(j), n - 1)
  }

  function Unpause(j: Job): Job { if j.state == Paused then j.(state := Running) else j }

  function Drain(j: Job, n: nat): Job { Unpause(DeliverLoop(j, n)) }

  function Batch(j: Job, n: nat): seq<Chunk> { if n <= |j.buffer| then j.buffer[..n] else j.buffer }

  // ---------- replay and cancel

  /** The first `n` chunks of the window whose number is at least `from`. */
  function Replayed(window: seq<Chunk>, from: int, n: nat): seq<Chunk> {
    if window == [] || n == 0 then []
    else if window[0].seqNo < from then Replayed(window[1..], from, n)
    else [window[0]] + Replayed(window[1..], from, n - 1)
  }

  function Cancel(j: Job): Job {
    if j.EffectiveDone() then j
    else j.(state := Cancelled, buffer := [], bufferedBytes := 0, replay := [], replayBytes := 0)
  }

  // ---------- fetch

  const MAX_FETCH_BATCH := 256

  datatype Rejection = BadLimit | CursorAhead | CursorTooOld

  datatype FetchResult =
    | Rejected(why: Rejection)
    | Fetched(chunks: seq<Chunk>, cursor: nat, state: JobState, done: bool, error: Option<Envelope>)

  function ErrorIf(j: Job, shown: bool): Option<Envelope> {
    if shown && j.EffectiveState() == Error then j.error else None
  }

  /** The read-only path: the client asks again for chunks already delivered. */
  function Resume(j: Job, from: nat, limit: nat): FetchResult
    requires from < j.cursor
  {
    if from < j.ReplayFloor() then Rejected(CursorTooOld)
    else
      var chunks := Replayed(j.replay, from, limit);
      var next := if chunks != [] then chunks[|chunks| - 1].seqNo + 1 else from;
      var caughtUp := next >= j.cursor;
      Fetched(chunks, next, if caughtUp then j.EffectiveState() else Running, j.EffectiveDone() && caughtUp, ErrorIf(j, caughtUp))
  }

  function Forward(j: Job, limit: nat): Job { Pump(Drain(j, limit)) }

  function ForwardResult(j: Job, limit: nat): FetchResult {
    var after := Forward(j, limit);
    Fetched(Batch(j, limit), after.cursor, after.EffectiveState(), after.EffectiveDone(), ErrorIf(after, true))
  }

  /** What the job section of a fetch does to the job. */
  function AfterFetch(j: Job, cursor: Option<nat>, limit: int): Job {
    if limit < 1 || limit > MAX_FETCH_BATCH || (cursor.Some? && cursor.value != j.cursor) then j else Forward(j, limit)
  }

  /** What it returns. */
  function FetchReply(j: Job, cursor: Option<nat>, limit: int): FetchResult {
    if limit < 1 || limit > MAX_FETCH_BATCH then Rejected(BadLimit)
    else if cursor.Some? && cursor.value > j.cursor then Rejected(CursorAhead)
    else if cursor.Some? && cursor.value < j.cursor then Resume(j, cursor.value, limit)
    else ForwardResult(j, limit)
  }

  // ---------- status

  datatype Status = Status(state: JobState, produced: nat, buffered: nat, cursor: nat, error: Option<Envelope>)

  function StatusReply(j: Job): Status {
    Status(j.EffectiveState(), j.nextSeq, |j.buffer|, j.cursor, ErrorIf(j, true))
  }

  // ---------- the invariant of a job

  /** `cs` are the producer's items from number `from` on, each tagged with its own number. */
  ghost predicate Tagged(p: Producer, cs: seq<Chunk>, from: int) {
    && 0 <= from && from + |cs| <= |p.items|
    && forall i :: 0 <= i < |cs| ==> cs[i] == Chunk(from + i, p.items[from + i])
  }

  /** The chunks of the items from number `a` up to number `b`. */
  ghost function Chunks(p: Producer, a: nat, b: nat): seq<Chunk>
    requires a <= b <= |p.items|
  {
    seq(b - a, i requires 0 <= i < b - a => Chunk(a + i, p.items[a + i]))
  }

  ghost predicate Counters(j: Job) {
    && j.pulled == j.nextSeq <= |j.producer.items|
    && j.cursor <= j.nextSeq
    && j.bufferedBytes == Bytes(j.buffer)
    && j.replayBytes == Bytes(j.replay)
  }

  /** Buffer and replay window lie on either side of the cursor, without gap or overlap. */
  ghost predicate Contiguous(j: Job) {
    if j.state == Cancelled then j.buffer == [] && j.replay == []
    else
      && Tagged(j.producer, j.buffer, j.cursor) && j.cursor + |j.buffer| == j.nextSeq
      && Tagged(j.producer, j.replay, j.cursor - |j.replay|)
      && (j.cursor > 0 ==> j.replay != [])
  }

  /** The buffer is over its byte cap by its last chunk at most; the replay window meets both caps or is one chunk. */
  ghost predicate Bounded(j: Job) {
    && (j.buffer != [] ==> |j.buffer| <= j.limits.bufferChunks)
    && (j.buffer != [] ==> Bytes(j.buffer[..|j.buffer| - 1]) < j.limits.bufferBytes)
    && (|j.replay| <= 1 || (|j.replay| <= j.limits.replayChunks && Bytes(j.replay) <= j.limits.replayBytes))
  }

  /** The window is as long as it may be: one chunk more would break one of its caps. */
  ghost predicate Generous(j: Job) {
    j.state != Cancelled && |j.replay| < j.cursor <= |j.producer.items| ==>
      || |j.replay| + 1 > j.limits.replayChunks
      || Bytes(Chunks(j.producer, j.cursor - |j.replay| - 1, j.cursor)) > j.limits.replayBytes
  }

  ghost predicate Honest(j: Job) {
    && (j.state == Done ==> j.nextSeq == |j.producer.items| && j.producer.ending == Exhausted)
    && (j.state == Error ==> j.nextSeq == |j.producer.items| && j.producer.ending != Exhausted && j.error == Reason(j.producer))
  }

  ghost function Reason(p: Producer): Option<Envelope> {
    match p.ending
    case Exhausted => None
    case RaisesEnvelope(e) => Some(e)
    case RaisesOther => Some(ProducerFault)
  }

  ghost predicate Inv(j: Job) {
    Counters(j) && Contiguous(j) && Bounded(j) && Generous(j) && Honest(j)
  }

  lemma NewJobInv(producer: Producer, limits: Limits)
    ensures Inv(NewJob(producer, limits))
  {
  }

  lemma TaggedAppend(p: Producer, cs: seq<Chunk>, from: int, c: Chunk)
    requires Tagged(p, cs, from) && from + |cs| < |p.items| && c == Chunk(from + |cs|, p.items[from + |cs|])
    ensures Tagged(p, cs + [c], from)
  {
  }

  lemma TaggedDrop(p: Producer, cs: seq<Chunk>, from: int, n: nat)
    requires Tagged(p, cs, from) && n <= |cs|
    ensures Tagged(p, cs[n..], from + n)
  {
  }

  lemma PullInv(j: Job)
    requires Inv(j) && !j.IsTerminal() && !j.BufferFull() && j.pulled < |j.producer.items|
    ensures Inv(Pull(j))
  {
    hide Tagged;
    var k := Pull(j);
    TaggedAppend(j.producer, j.buffer, j.cursor, k.buffer[|j.buffer|]);
    assert k.buffer[..|k.buffer| - 1] == j.buffer;
  }

  lemma {:induction false} PumpLoopInv(j: Job)
    requires Inv(j) && !j.IsTerminal()
    ensures Inv(PumpLoop(j))
    decreases |j.producer.items| - j.pulled
  {
    hide Tagged, Bytes;
    if !j.BufferFull() && j.pulled < |j.producer.items| {
      PullInv(j);
      PumpLoopInv(Pull(j));
    }
  }

  /** The producer is held back only by a full buffer. */
  lemma {:induction false} PumpPausesWhenFull(j: Job)
    ensures !Pump(j).IsTerminal() ==> Pump(j).state == Paused && Pump(j).BufferFull()
  {
    if !j.IsTerminal() { PumpLoopFull(j); }
  }

  lemma {:induction false} PumpLoopFull(j: Job)
    requires !j.IsTerminal()
    ensures !PumpLoop(j).IsTerminal() ==> PumpLoop(j).state == Paused && PumpLoop(j).BufferFull()
    decreases |j.producer.items| - j.pulled
  {
    if !j.BufferFull() && j.pulled < |j.producer.items| { PumpLoopFull(Pull(j)); }
  }

  lemma PumpInv(j: Job)
    requires Inv(j)
    ensures Inv(Pump(j))
  {
    if !j.IsTerminal() { PumpLoopInv(j); }
  }

  lemma {:induction false} BytesFront(cs: seq<Chunk>)
    requires cs != []
    ensures Bytes(cs) == Size(cs[0]) + Bytes(cs[1..])
  {
    if |cs| > 1 {
      var init := cs[..|cs| - 1];
      BytesFront(init);
      assert init[1..] == cs[1..][..|cs[1..]| - 1];
    }
  }

  lemma BytesSnoc(cs: seq<Chunk>, c: Chunk)
    ensures Bytes(cs + [c]) == Bytes(cs) + Size(c)
  {
    assert (cs + [c])[..|cs|] == cs;
  }

  /** `kept` is the longest non-empty suffix of `window` that meets both caps, or its last chunk. */
  ghost predicate Trimmed(limits: Limits, window: seq<Chunk>, kept: seq<Chunk>, bytes: int) {
    && 1 <= |kept| <= |window| && kept == window[|window| - |kept|..] && bytes == Bytes(kept)
    && (|kept| == 1 || (|kept| <= limits.replayChunks && bytes <= limits.replayBytes))
    && (|kept| < |window| ==>
          |kept| + 1 > limits.replayChunks || Bytes(window[|window| - |kept| - 1..]) > limits.replayBytes)
  }

  /** Eviction drops the oldest chunks and stops as soon as both caps are met. */
  lemma {:induction false} EvictKeeps(limits: Limits, window: seq<Chunk>, bytes: int)
    requires window != [] && bytes == Bytes(window)
    ensures var (kept, left) := Evict(limits, window, bytes); Trimmed(limits, window, kept, left)
  {
    hide Bytes, Size;
    if |window| > 1 && (|window| > limits.replayChunks || bytes > limits.replayBytes) {
      var rest := window[1..];
      BytesFront(window);
      EvictKeeps(limits, rest, bytes - Size(window[0]));
      var n := |Evict(limits, rest, bytes - Size(window[0])).0|;
      assert rest[|rest| - n..] == window[|window| - n..];
      if n < |rest| {
        assert rest[|rest| - n - 1..] == window[|window| - n - 1..];
      } else {
        assert window[|window| - n - 1..] == window;
      }
    } else {
      assert window[|window| - |window|..] == window;
    }
  }

  lemma DeliverBytes(cs: seq<Chunk>)
    requires cs != []
    ensures Bytes(cs[1..]) == Bytes(cs) - Size(cs[0])
    ensures |cs| > 1 ==> Bytes(cs[1..][..|cs| - 2]) <= Bytes(cs[..|cs| - 1])
  {
    hide Bytes, Size;
    BytesFront(cs);
    if |cs| > 1 {
      var init := cs[..|cs| - 1];
      assert cs[1..][..|cs| - 2] == init[1..];
      BytesFront(init);
    }
  }

  /** What a delivery changes: the window keeps a suffix of itself and the chunk. */
  lemma DeliverFields(j: Job)
    requires j.buffer != []
    ensures var k, c := Deliver(j), j.buffer[0];
      && k == j.(buffer := j.buffer[1..], bufferedBytes := j.bufferedBytes - Size(c), cursor := c.seqNo + 1,
                 replay := k.replay, replayBytes := k.replayBytes)
      && (k.replay, k.replayBytes) == Evict(j.limits, j.replay + [c], j.replayBytes + Size(c))
  {
    hide Evict, Size;
  }

  lemma DeliverTrims(j: Job)
    requires j.buffer != [] && j.replayBytes == Bytes(j.replay)
    ensures var k := Deliver(j); Trimmed(j.limits, j.replay + [j.buffer[0]], k.replay, k.replayBytes)
  {
    hide Evict, Bytes, Size, Deliver, Trimmed;
    DeliverFields(j);
    BytesSnoc(j.replay, j.buffer[0]);
    EvictKeeps(j.limits, j.replay + [j.buffer[0]], j.replayBytes + Size(j.buffer[0]));
  }

  /** The kept window is still the tagged range that ends at the new cursor. */
  lemma DeliverWindow(j: Job, w: seq<Chunk>, k: Job)
    requires j.buffer != [] && Tagged(j.producer, j.buffer, j.cursor)
    requires Tagged(j.producer, j.replay, j.cursor - |j.replay|)
    requires w == j.replay + [j.buffer[0]] && Trimmed(j.limits, w, k.replay, k.replayBytes)
    ensures Tagged(j.producer, w, j.cursor - |j.replay|) && |j.replay| <= j.cursor
    ensures Tagged(j.producer, k.replay, j.cursor + 1 - |k.replay|)
    ensures 1 <= |k.replay| <= |w| && k.replayBytes == Bytes(k.replay)
    ensures |k.replay| == 1 || (|k.replay| <= j.limits.replayChunks && k.replayBytes <= j.limits.replayBytes)
  {
    hide Tagged, Bytes;
    FirstTag(j.producer, j.buffer, j.cursor);
    TaggedAppend(j.producer, j.replay, j.cursor - |j.replay|, j.buffer[0]);
    FirstTag(j.producer, w, j.cursor - |j.replay|);
    TaggedDrop(j.producer, w, j.cursor - |j.replay|, |w| - |k.replay|);
  }

  lemma DeliverInv(j: Job)
    requires Inv(j) && j.buffer != []
    ensures Inv(Deliver(j)) && Deliver(j).cursor == j.cursor + 1 && Deliver(j).buffer == j.buffer[1..]
  {
    hide Tagged, Deliver, Size, Bytes, Generous, Trimmed;
    var w, k := j.replay + [j.buffer[0]], Deliver(j);
    FirstTag(j.producer, j.buffer, j.cursor);
    DeliverFields(j);
    DeliverTrims(j);
    DeliverBytes(j.buffer);
    TaggedDrop(j.producer, j.buffer, j.cursor, 1);
    DeliverWindow(j, w, k);
    DeliverGenerous(j, k, w);
  }

  lemma DeliverGenerous(j: Job, k: Job, w: seq<Chunk>)
    requires Generous(j) && j.state != Cancelled && |w| == |j.replay| + 1 && |j.replay| <= j.cursor < |j.producer.items|
    requires Tagged(j.producer, w, j.cursor - |j.replay|)
    requires k.producer == j.producer && k.limits == j.limits && k.cursor == j.cursor + 1
    requires Trimmed(j.limits, w, k.replay, k.replayBytes)
    ensures Generous(k)
  {
    hide Tagged, Bytes, Chunks;
    var p, n := j.producer, |k.replay|;
    if n < |w| {
      TaggedDrop(p, w, j.cursor - |j.replay|, |w| - n - 1);
      TaggedIsChunks(p, w[|w| - n - 1..], j.cursor - n);
    } else if n < k.cursor {
      ChunksMore(p, j.cursor - n, j.cursor);
    }
  }

  lemma TaggedIsChunks(p: Producer, cs: seq<Chunk>, from: int)
    ensures Tagged(p, cs, from) ==> cs == Chunks(p, from, from + |cs|)
  {
  }

  lemma ChunksMore(p: Producer, a: nat, b: nat)
    requires a <= b < |p.items|
    ensures Bytes(Chunks(p, a, b + 1)) >= Bytes(Chunks(p, a, b))
  {
    hide Bytes;
    assert Chunks(p, a, b + 1) == Chunks(p, a, b) + [Chunk(b, p.items[b])];
    BytesSnoc(Chunks(p, a, b), Chunk(b, p.items[b]));
  }

  lemma FirstTag(p: Producer, cs: seq<Chunk>, from: int)
    requires Tagged(p, cs, from) && cs != []
    ensures 0 <= from < |p.items| && cs[0] == Chunk(from, p.items[from])
  {
  }

  lemma {:induction false} DeliverLoopInv(j: Job, n: nat)
    requires Inv(j)
    ensures var k := DeliverLoop(j, n); var m := if n <= |j.buffer| then n else |j.buffer|;
      && Inv(k) && k.cursor == j.cursor + m && k.buffer == j.buffer[m..]
      && k.state == j.state && k.error == j.error && k.nextSeq == j.nextSeq
      && k.producer == j.producer && k.limits == j.limits
    decreases n
  {
    hide Inv;
    if j.buffer != [] && n > 0 {
      DeliverInv(j);
      DeliverLoopInv(Deliver(j), n - 1);
    }
  }

  lemma DrainInv(j: Job, n: nat)
    requires Inv(j)
    ensures Inv(Drain(j, n))
  {
    hide DeliverLoop, Inv;
    DeliverLoopInv(j, n);
    UnpauseInv(DeliverLoop(j, n));
  }

  lemma UnpauseInv(j: Job)
    requires Inv(j)
    ensures Inv(Unpause(j))
  {
    hide Tagged, Bytes;
  }

  lemma CancelInv(j: Job)
    requires Inv(j)
    ensures Inv(Cancel(j))
  {
  }

  lemma FetchInv(j: Job, cursor: Option<nat>, limit: int)
    requires Inv(j)
    ensures Inv(AfterFetch(j, cursor, limit))
  {
    if 1 <= limit <= MAX_FETCH_BATCH {
      DrainInv(j, limit);
      PumpInv(Drain(j, limit));
    }
  }
}
