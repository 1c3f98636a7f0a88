/** What each lock section of a streaming job does, said field by field and without the functions that compute it. */
module StreamEffects {
  import opened Wrappers
  import opened StreamJob
  import opened StreamRuns

  /** A chunk counts with the lengths of its four texts. */
  lemma BytesExact(cs: seq<Chunk>, n: nat, item: Item)
    ensures Bytes([]) == 0
    ensures Bytes(cs + [Chunk(n, item)]) == Bytes(cs) + |item.name| + |item.cCode| + |item.signature| + |item.address|
  {
    BytesSnoc(cs, Chunk(n, item));
  }

  // ---------- filling the buffer

  /** With the items up to number `n` produced, both buffer bounds leave room for one more. */
  ghost predicate Room(j: Job, n: nat)
    requires j.cursor <= n <= |j.producer.items|
  {
    n - j.cursor < j.limits.bufferChunks && Bytes(Chunks(j.producer, j.cursor, n)) < j.limits.bufferBytes
  }

  /** The producer met its end. */
  ghost predicate Ended(j: Job, k: Job) {
    match j.producer.ending
    case Exhausted => k.state == Done && k.error == j.error
    case RaisesEnvelope(e) => k.state == Error && k.error == Some(e)
    case RaisesOther => k.state == Error && k.error == Some(ProducerFault)
  }

  /** From `j` on, items were pulled as long as there was room beyond the cursor of `k`: then the job is paused, or the
      producer met its end. A job that has ended pulls nothing. */
  ghost predicate Filled(j: Job, k: Job) {
    && k.producer == j.producer && k.limits == j.limits
    && k.cursor <= j.nextSeq <= k.nextSeq <= |j.producer.items|
    && if j.state == Done || j.state == Error || j.state == Cancelled then k.nextSeq == j.nextSeq && k.state == j.state && k.error == j.error
       else
         && (forall n :: j.nextSeq <= n < k.nextSeq ==> Room(k, n))
         && if Room(k, k.nextSeq) then k.nextSeq == |j.producer.items| && Ended(j, k) else k.state == Paused && k.error == j.error
  }

  lemma RoomMeaning(j: Job)
    requires Inv(j) && !j.IsTerminal()
    ensures Room(j, j.nextSeq) <==> !j.BufferFull()
  {
    hide Bytes, Bounded, Generous, Honest, Tagged;
    TaggedIsChunks(j.producer, j.buffer, j.cursor);
    assert |Chunks(j.producer, j.cursor, j.nextSeq)| == |j.buffer|;
  }

  lemma {:induction false} FilledByLoop(j: Job)
    requires Inv(j) && !j.IsTerminal()
    ensures Filled(j, PumpLoop(j)) && PumpLoop(j).cursor == j.cursor
    decreases |j.producer.items| - j.pulled
  {
    PumpKeeps(j);
    RoomMeaning(j);
    CountersHold(j);
    hide Inv, Bytes, Chunks;
    if !j.BufferFull() && j.pulled < |j.producer.items| {
      PullInv(j);
      FilledByLoop(Pull(j));
      FilledFromPulled(j, PumpLoop(j));
    }
  }

  lemma FilledFromPulled(j: Job, k: Job)
    requires j.pulled == j.nextSeq < |j.producer.items| && j.cursor <= j.nextSeq && !j.IsTerminal()
    requires Room(j, j.nextSeq) && Filled(Pull(j), k) && k.cursor == j.cursor
    ensures Filled(j, k)
  {
    hide Bytes, Chunks;
    assert Room(k, j.nextSeq);
  }

  lemma CountersHold(j: Job)
    requires Inv(j)
    ensures j.pulled == j.nextSeq <= |j.producer.items| && j.cursor <= j.nextSeq
  {
  }

  /** A pump keeps what was handed out and fills the buffer. */
  lemma PumpExact(j: Job)
    requires Inv(j)
    ensures var k := Step(j, PumpOp);
      Filled(j, k) && k.cursor == j.cursor && k.replay == j.replay && (j.state == Done || j.state == Error || j.state == Cancelled ==> k == j)
  {
    hide Inv, Filled, PumpLoop;
    CountersHold(j);
    if j.IsTerminal() {
      FilledAlready(j);
    } else {
      FilledByLoop(j);
      PumpKeeps(j);
    }
  }

  lemma FilledAlready(j: Job)
    requires Inv(j) && j.IsTerminal()
    ensures Filled(j, j)
  {
  }

  // ---------- what a client is shown

  /** The state shown for a job: its own, but an end only when everything produced has been handed out. */
  ghost predicate Shows(j: Job, s: JobState) {
    && (s == Paused <==> j.state == Paused)
    && (s == Cancelled <==> j.state == Cancelled)
    && (s == Done <==> j.state == Done && j.cursor == j.nextSeq)
    && (s == Error <==> j.state == Error && j.cursor == j.nextSeq)
  }

  lemma ShownState(j: Job)
    requires Inv(j)
    ensures Shows(j, j.EffectiveState())
  {
  }

  /** A status tells the shown state and the true counts, and the error with the error state. */
  lemma StatusExact(j: Job)
    requires Inv(j)
    ensures var r := StatusReply(j);
      && Shows(j, r.state) && r.produced == j.nextSeq && r.cursor == j.cursor
      && r.buffered == (if j.state == Cancelled then 0 else j.nextSeq - j.cursor)
      && r.error == (if r.state == Error then j.error else None)
      && Step(j, StatusOp) == j
  {
    hide Generous, Bounded, Honest;
  }

  // ---------- fetches

  /** Why a fetch is refused, case by case. */
  lemma RefusedExactly(j: Job, cursor: Option<nat>, limit: int)
    requires Inv(j)
    ensures FetchReply(j, cursor, limit) == Rejected(BadLimit) <==> limit < 1 || limit > 256
    ensures FetchReply(j, cursor, limit) == Rejected(CursorAhead) <==> 1 <= limit <= 256 && cursor.Some? && cursor.value > j.cursor
    ensures FetchReply(j, cursor, limit) == Rejected(CursorTooOld) <==> 1 <= limit <= 256 && cursor.Some? && cursor.value < j.cursor - |j.replay|
  {
    hide Inv, Replayed, Forward;
    FloorMeaning(j);
  }

  /** A refused fetch and a resume leave the job as it is: forward cursor and buffer untouched, nothing pulled. */
  lemma ResumeLeavesJob(j: Job, cursor: Option<nat>, limit: int)
    requires Inv(j)
    requires FetchReply(j, cursor, limit).Rejected? || (cursor.Some? && cursor.value < j.cursor)
    ensures Step(j, FetchOp(cursor, limit)) == j
  {
    hide Inv, Replayed, Forward;
  }

  /** A resume shows the state only once it has caught up. */
  lemma ResumeShows(j: Job, c: nat, limit: int)
    requires Inv(j) && c < j.cursor && FetchReply(j, Some(c), limit).Fetched?
    ensures var r := FetchReply(j, Some(c), limit);
      && r.chunks == Chunks(j.producer, c, if c + limit <= j.cursor then c + limit else j.cursor) && r.cursor == c + |r.chunks|
      && (if r.cursor == j.cursor then Shows(j, r.state) else r.state == Running)
      && (r.done <==> r.state == Done || r.state == Error || r.state == Cancelled)
      && r.error == (if r.state == Error then j.error else None)
  {
    hide Inv, Replayed;
    RefusedExactly(j, Some(c), limit);
    FloorMeaning(j);
    ResumeExact(j, c, limit);
    ShownState(j);
    CursorInItems(j);
    TaggedIsChunks(j.producer, Resume(j, c, limit).chunks, c);
  }

  lemma CursorInItems(j: Job)
    requires Inv(j)
    ensures j.cursor <= |j.producer.items|
  {
  }

  /** A forward fetch hands out the next items, moves the cursor past them, fills the buffer, and shows the job as it is
      then. */
  lemma ForwardEffect(j: Job, cursor: Option<nat>, limit: int)
    requires Inv(j) && 1 <= limit <= 256 && (cursor == None || cursor == Some(j.cursor))
    ensures var r, k := FetchReply(j, cursor, limit), Step(j, FetchOp(cursor, limit));
      var m := if j.state == Cancelled then 0 else if limit <= j.nextSeq - j.cursor then limit else j.nextSeq - j.cursor;
      && r.Fetched? && j.cursor + m <= |j.producer.items|
      && r.chunks == Chunks(j.producer, j.cursor, j.cursor + m)
      && k.cursor == r.cursor == j.cursor + m
      && Filled(j, k) && Inv(k)
      && Shows(k, r.state) && (r.done <==> r.state == Done || r.state == Error || r.state == Cancelled)
      && r.error == (if r.state == Error then k.error else None)
  {
    CountersHold(j);
    BufferCounts(j);
    var k := Forward(j, limit);
    ForwardShape(j, limit);
    ForwardExact(j, limit);
    TaggedIsChunks(j.producer, ForwardResult(j, limit).chunks, j.cursor);
    ForwardFills(j, limit);
    ShownState(k);
    hide Inv, Filled, Forward, Batch, Tagged;
  }

  lemma BufferCounts(j: Job)
    requires Inv(j)
    ensures |j.buffer| == if j.state == Cancelled then 0 else j.nextSeq - j.cursor
  {
  }

  lemma ForwardFills(j: Job, limit: nat)
    requires Inv(j)
    ensures Filled(j, Forward(j, limit))
  {
    hide Inv, Filled, DeliverLoop, PumpLoop;
    var mid := Drain(j, limit);
    DeliverLoopInv(j, limit);
    DrainInv(j, limit);
    PumpExact(mid);
    FilledFromDrained(j, mid, Forward(j, limit));
  }

  lemma FilledFromDrained(j: Job, mid: Job, k: Job)
    requires Filled(mid, k) && mid.producer == j.producer && mid.limits == j.limits && mid.nextSeq == j.nextSeq && mid.error == j.error
    requires mid.state == if j.state == Paused then Running else j.state
    ensures Filled(j, k)
  {
    hide Room;
  }

  // ---------- cancel

  /** A cancel does nothing to a job shown as ended; any other it empties and marks, and keeps its counts. */
  lemma CancelExact(j: Job)
    requires Inv(j)
    ensures var k := Step(j, CancelOp);
      if j.state == Cancelled || ((j.state == Done || j.state == Error) && j.cursor == j.nextSeq) then k == j
      else
        && k.state == Cancelled && k.buffer == [] && k.replay == [] && k.bufferedBytes == 0 && k.replayBytes == 0
        && k.cursor == j.cursor && k.nextSeq == j.nextSeq && k.pulled == j.pulled
        && k.producer == j.producer && k.limits == j.limits && k.error == j.error
  {
    hide Generous, Bounded, Honest;
  }
}
