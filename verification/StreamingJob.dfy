/** The mutable job of `jobs/streaming.py`; each method is one lock section, proved against
    the value-level functions of `StreamJob`.
 */
module StreamingJobs {
  import opened Wrappers
  import opened StreamJob
  import StreamEffects

  lemma DeliverLoopStep(j: Job, n: nat)
    requires j.buffer != [] && n > 0
    ensures DeliverLoop(j, n) == DeliverLoop(Deliver(j), n - 1)
  {
    hide Deliver;
  }

  lemma DeliverLoopEnd(j: Job, n: nat)
    requires j.buffer == [] || n == 0
    ensures DeliverLoop(j, n) == j
  {
  }

  lemma BatchIsTaken(before: Job, out: seq<Chunk>, rest: seq<Chunk>, n: nat)
    requires out + rest == before.buffer && |out| <= n && (rest == [] || |out| == n)
    ensures out == Batch(before, n)
  {
    assert out == before.buffer[..|out|];
  }

  class StreamingJob {
    const sessionId: nat
    const producer: Producer
    const limits: Limits
    var pulled: nat
    var buffer: seq<Chunk>
    var bufferedBytes: int
    var replay: seq<Chunk>
    var replayBytes: int
    var nextSeq: nat
    var cursor: nat
    var state: JobState
    var error: Option<Envelope>

    /** The job's present value. */
    function View(): Job
      reads this
    {
      Job(producer, limits, pulled, buffer, bufferedBytes, replay, replayBytes, nextSeq, cursor, state, error)
    }

    constructor (sessionId: nat, producer: Producer, limits: Limits)
      ensures this.sessionId == sessionId && View() == NewJob(producer, limits)
      ensures state == Running && error == None && pulled == nextSeq == cursor == 0
      ensures buffer == [] && replay == [] && bufferedBytes == replayBytes == 0
    {
      this.sessionId := sessionId;
      this.producer, this.limits := producer, limits;
      pulled, nextSeq, cursor := 0, 0, 0;
      buffer, bufferedBytes, replay, replayBytes := [], 0, [], 0;
      state, error := Running, None;
    }

    method Pump()
      modifies this
      ensures View() == StreamJob.Pump(old(View()))
    {
      if TerminalState(state) { return; }
      while |buffer| < limits.bufferChunks && bufferedBytes < limits.bufferBytes
        invariant !View().IsTerminal()
        invariant PumpLoop(View()) == PumpLoop(old(View()))
        decreases |producer.items| - pulled
      {
        if pulled >= |producer.items| {
          match producer.ending {
            case Exhausted => state := Done;
            case RaisesEnvelope(e) => state, error := Error, Some(e);
            case RaisesOther => state, error := Error, Some(ProducerFault);
          }
          return;
        }
        var item := producer.items[pulled];
        pulled := pulled + 1;
        var chunk := Chunk(nextSeq, item);
        nextSeq := nextSeq + 1;
        buffer := buffer + [chunk];
        bufferedBytes := bufferedBytes + Size(chunk);
      }
      state := Paused;
    }

    method RetainForReplay(chunk: Chunk)
      modifies this
      ensures View() == Retain(old(View()), chunk)
    {
      replay := replay + [chunk];
      replayBytes := replayBytes + Size(chunk);
      ghost var window, bytes := replay, replayBytes;
      while |replay| > 1 && (|replay| > limits.replayChunks || replayBytes > limits.replayBytes)
        invariant Evict(limits, replay, replayBytes) == Evict(limits, window, bytes)
        invariant View() == old(View()).(replay := replay, replayBytes := replayBytes)
        decreases |replay|
      {
        var evicted := replay[0];
        replay := replay[1..];
        replayBytes := replayBytes - Size(evicted);
      }
    }

    /** One round of the drain loop. */
    method DeliverOne() returns (chunk: Chunk)
      requires buffer != []
      modifies this
      ensures View() == Deliver(old(View()))
      ensures chunk == old(buffer)[0] && buffer == old(buffer)[1..]
    {
      hide Evict;
      chunk := buffer[0];
      buffer := buffer[1..];
      bufferedBytes := bufferedBytes - Size(chunk);
      cursor := chunk.seqNo + 1;
      RetainForReplay(chunk);
    }

    method Drain(maxChunks: nat) returns (out: seq<Chunk>)
      modifies this
      ensures View() == StreamJob.Drain(old(View()), maxChunks)
      ensures out == Batch(old(View()), maxChunks)
    {
      hide Deliver, DeliverLoop, Batch;
      out := [];
      while buffer != [] && |out| < maxChunks
        invariant |out| <= maxChunks && out + buffer == old(buffer)
        invariant DeliverLoop(View(), maxChunks - |out|) == DeliverLoop(old(View()), maxChunks)
        decreases |buffer|
      {
        DeliverLoopStep(View(), maxChunks - |out|);
        var chunk := DeliverOne();
        out := out + [chunk];
      }
      DeliverLoopEnd(View(), maxChunks - |out|);
      BatchIsTaken(old(View()), out, buffer, maxChunks);
      if state == Paused { state := Running; }
    }

    /** Reads the window only; the caller has checked that `from` lies in it. */
    method Lookback(from: int, maxChunks: nat) returns (out: seq<Chunk>)
      ensures out == Replayed(replay, from, maxChunks)
    {
      out := [];
      var i := 0;
      while i < |replay|
        invariant 0 <= i <= |replay| && |out| <= maxChunks
        invariant out + Replayed(replay[i..], from, maxChunks - |out|) == Replayed(replay, from, maxChunks)
      {
        if replay[i].seqNo < from {
          i := i + 1;
          continue;
        }
        if |out| >= maxChunks { break; }
        out := out + [replay[i]];
        i := i + 1;
      }
    }

    method Cancel()
      modifies this
      ensures View() == StreamJob.Cancel(old(View()))
    {
      if View().EffectiveDone() { return; }
      state := Cancelled;
      buffer, bufferedBytes := [], 0;
      replay, replayBytes := [], 0;
    }

    method ReportStatus() returns (r: Status)
      ensures r == StatusReply(View())
    {
      var effective := View().EffectiveState();
      r := Status(effective, nextSeq, |buffer|, cursor, if effective == Error then error else None);
    }

    /** The job section of a fetch, its limit check included. */
    method Fetch(from: Option<nat>, limit: int) returns (r: FetchResult)
      modifies this
      ensures View() == AfterFetch(old(View()), from, limit)
      ensures r == FetchReply(old(View()), from, limit)
      ensures r.Rejected? || (from.Some? && from.value < old(cursor)) ==> View() == old(View())
      ensures r.Fetched? && (from.None? || from.value == old(cursor)) && Inv(old(View())) ==> cursor == old(cursor) + |r.chunks|
    {
      if limit < 1 || limit > MAX_FETCH_BATCH { return Rejected(BadLimit); }
      if from.Some? && from.value > cursor { return Rejected(CursorAhead); }
      if from.Some? && from.value < cursor {
        if from.value < View().ReplayFloor() { return Rejected(CursorTooOld); }
        var replayed := Lookback(from.value, limit);
        var next := if replayed != [] then replayed[|replayed| - 1].seqNo + 1 else from.value;
        var caughtUp := next >= cursor;
        return Fetched(replayed, next, if caughtUp then View().EffectiveState() else Running,
                       View().EffectiveDone() && caughtUp,
                       if caughtUp && View().EffectiveState() == Error then error else None);
      }
      ghost var before := View();
      var chunks := Drain(limit);
      Pump();
      if Inv(before) { StreamEffects.ForwardEffect(before, from, limit); }
      hide Inv;
      var effective := View().EffectiveState();
      return Fetched(chunks, cursor, effective, View().EffectiveDone(), if effective == Error then error else None);
    }
  }
}
