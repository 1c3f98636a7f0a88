/** The worker's serve loop (`worker/dispatch.py`).

    A backend is any finite strategy: a tree whose nodes emit progress, emit chunks or poll
    for a cancel, branching on what came back, exceptions included, and whose leaves return or raise.
 */
module Dispatch {
  import opened Wrappers
  import opened Framing
  import opened Messages
  import Heartbeat

  /** What the loop treats as a violation of the wire protocol. */
  type Violation = f: Failure | f != OsError witness FramingError

  /** An exception leaving the backend; an OSError is one of the others, under the name of its own class. */
  datatype Exc = WorkerExc(code: int, message: string, detail: Option<string>) | Wire(failure: Violation) | OtherExc(className: string)

  /** The branches named after a failure are taken when the backend catches it; a backend that does not has
      the raising leaf there. */
  datatype Behaviour =
    | Return(result: Message)
    | Raise(exc: Exc)
    | EmitProgress(now: real, percent: Option<int>, phase: string, next: Behaviour)
    | EmitChunk(seqNo: int, kind: string, payload: Message, sent: Behaviour, invalid: Behaviour, tooLarge: Behaviour, broken: Behaviour)
    | Poll(cancelled: Behaviour, goOn: Behaviour, onFraming: Behaviour, onProtocol: Behaviour, onEof: Behaviour, onOs: Behaviour)

  /** What the backend does for the n-th call, with this method and these params; `None` if it lacks the method. */
  type Backend = (nat, string, Message) -> Option<Behaviour>

  /** The tools handed to a call. */
  datatype Mode = Plain | WithProgress | Streaming

  predicate Ended(b: Behaviour) { b.Return? || b.Raise? }

  // ---------- what a backend is answered, and where that leads it

  /** What the cancel poll found. */
  datatype Look = Latched | SelectFailed | Nothing | Got(read: Result<Message, Failure>)

  /** The answer to one request of the backend: a missing tool, nothing tried, a write, or a poll. */
  datatype Reaction = NoTool | Held | Wrote(bytes: seq<Byte>) | Polled(look: Look)

  /** What a call is made with. */
  datatype Setting = Setting(codec: Codec, cap: int, mode: Mode, id: string)

  /** Where the backend has got to; the notifications written for it and the times of the progress that went
      out; the reads of its poll, and whether that has said yes. */
  datatype Trail = Trail(
    at: Option<Behaviour>,
    notes: seq<Write>,
    times: seq<real>,
    taken: seq<Result<Message, Failure>>,
    latched: bool)

  /** The note can be built and fits a frame. */
  predicate Sendable(c: Setting, note: Option<Message>) { note.Some? && Fits(c.codec, note.value, c.cap) }

  /** What the poll answers to the backend, an exception included. */
  function PollAnswer(id: string, look: Look): Result<bool, Failure> {
    match look
    case Latched => Ok(true)
    case SelectFailed => Err(FramingError)
    case Nothing => Ok(false)
    case Got(Err(f)) => Err(f)
    case Got(Ok(m)) => match ParseCancel(m) case Ok(target) => Ok(target == id) case Err(_) => Err(ProtocolError)
  }

  function ReadsOf(look: Look): seq<Result<Message, Failure>> { if look.Got? then [look.read] else [] }

  function PollBranch(b: Behaviour, answer: Result<bool, Failure>): Behaviour
    requires b.Poll?
  {
    match answer
    case Ok(yes) => if yes then b.cancelled else b.goOn
    case Err(FramingError) => b.onFraming
    case Err(ProtocolError) => b.onProtocol
    case Err(EofError) => b.onEof
    case Err(OsError) => b.onOs
  }

  /** How a trail goes on: which answers a request can get, and where each leads. */
  function Advance(c: Setting, t: Trail, r: Reaction): Trail {
    if t.at.None? then t
    else
      match t.at.value
      case EmitProgress(now, percent, phase, next) =>
        var note := BuildProgress(c.id, percent, phase);
        if c.mode != WithProgress then t.(at := if r == NoTool then Some(next) else None)
        else if !Sendable(c, note) || !Heartbeat.Due(Heartbeat.LastOf(t.times), now) then t.(at := if r == Held then Some(next) else None)
        else if r.Wrote? && r.bytes <= FrameOf(c.codec, note.value) then
          t.(at := Some(next), notes := t.notes + [Write(note.value, r.bytes)],
             times := if r.bytes == FrameOf(c.codec, note.value) then t.times + [now] else t.times)
        else t.(at := None)
      case EmitChunk(seqNo, kind, payload, sent, invalid, tooLarge, broken) =>
        var note := BuildChunk(c.id, seqNo, kind, payload);
        if c.mode != Streaming then t.(at := if r == NoTool then Some(sent) else None)
        else if note.None? then t.(at := if r == Held then Some(invalid) else None)
        else if !Sendable(c, note) then t.(at := if r == Held then Some(tooLarge) else None)
        else if r.Wrote? && r.bytes <= FrameOf(c.codec, note.value) then
          t.(at := Some(if r.bytes == FrameOf(c.codec, note.value) then sent else broken),
             notes := t.notes + [Write(note.value, r.bytes)])
        else t.(at := None)
      case Poll(_, goOn, _, _, _, _) =>
        if c.mode != Streaming then t.(at := if r == NoTool then Some(goOn) else None)
        else if r.Polled? && (r.look == Latched <==> t.latched) then
          var answer := PollAnswer(c.id, r.look);
          t.(at := Some(PollBranch(t.at.value, answer)), taken := t.taken + ReadsOf(r.look), latched := answer == Ok(true))
        else t.(at := None)
      case Return(_) => t.(at := None)
      case Raise(_) => t.(at := None)
  }

  function Along(c: Setting, start: Behaviour, rs: seq<Reaction>): Trail {
    if rs == [] then Trail(Some(start), [], [], [], false)
    else Advance(c, Along(c, start, rs[..|rs| - 1]), rs[|rs| - 1])
  }

  lemma AlongMore(c: Setting, start: Behaviour, rs: seq<Reaction>, r: Reaction)
    ensures Along(c, start, rs + [r]) == Advance(c, Along(c, start, rs), r)
  {
    hide Advance;
    assert (rs + [r])[..|rs|] == rs;
  }

  // ---------- what holds of every trail

  /** A notification that the reader accepts under this id, and under no other. */
  ghost predicate NoteFor(n: Message, id: string) {
    && (IsProgress(n) || IsChunk(n))
    && (forall other :: (if IsProgress(n) then ParseProgress(n, other).Ok? else ParseChunk(n, other).Ok?) <==> other == id)
  }

  /** The read took a well-formed cancel. */
  predicate WellFormedCancel(read: Result<Message, Failure>) { read.Ok? && ParseCancel(read.value).Ok? }

  /** The read took a well-formed cancel for this id. */
  predicate CancelFor(read: Result<Message, Failure>, id: string) { read.Ok? && ParseCancel(read.value) == Ok(id) }

  ghost predicate NotesOk(c: Setting, notes: seq<Write>) {
    forall i :: 0 <= i < |notes| ==> Attempt(c.codec, c.cap, notes[i]) && NoteFor(notes[i].message, c.id)
  }

  /** The poll has said yes if and only if its last read was a cancel for this call, and it read none before. */
  ghost predicate ReadsOk(taken: seq<Result<Message, Failure>>, id: string, latched: bool) {
    && (forall k :: 0 <= k < |taken| - 1 ==> !CancelFor(taken[k], id))
    && (latched <==> taken != [] && CancelFor(taken[|taken| - 1], id))
  }

  /** How many progress frames went out whole. */
  function WholeProgress(codec: Codec, notes: seq<Write>): nat {
    if notes == [] then 0
    else
      var w := notes[|notes| - 1];
      WholeProgress(codec, notes[..|notes| - 1]) + if IsProgress(w.message) && Whole(codec, w) then 1 else 0
  }

  ghost predicate TrailOk(c: Setting, t: Trail) {
    && NotesOk(c, t.notes)
    && |t.times| == WholeProgress(c.codec, t.notes)
    && Heartbeat.Spaced(t.times)
    && ReadsOk(t.taken, c.id, t.latched)
  }

  lemma ProgressIsNote(id: string, percent: Option<int>, phase: string)
    ensures BuildProgress(id, percent, phase).Some? ==> NoteFor(BuildProgress(id, percent, phase).value, id) && IsProgress(BuildProgress(id, percent, phase).value)
  {
    hide BuildProgress, ParseProgress, ParseChunk;
    forall other { ProgressRoundTrip(id, percent, phase, other); }
  }

  lemma ChunkIsNote(id: string, seqNo: int, kind: string, payload: Message)
    ensures BuildChunk(id, seqNo, kind, payload).Some? ==> NoteFor(BuildChunk(id, seqNo, kind, payload).value, id) && !IsProgress(BuildChunk(id, seqNo, kind, payload).value)
  {
    hide BuildChunk, ParseProgress, ParseChunk;
    if BuildChunk(id, seqNo, kind, payload).Some? { KindsExclusive(BuildChunk(id, seqNo, kind, payload).value, id); }
    forall other { ChunkRoundTrip(id, seqNo, kind, payload, other); }
  }

  lemma OneMoreNote(codec: Codec, notes: seq<Write>, w: Write)
    ensures WholeProgress(codec, notes + [w]) == WholeProgress(codec, notes) + if IsProgress(w.message) && Whole(codec, w) then 1 else 0
  {
    hide Whole;
    assert (notes + [w])[..|notes|] == notes;
  }

  lemma ReadsMore(taken: seq<Result<Message, Failure>>, id: string, latched: bool, look: Look)
    requires ReadsOk(taken, id, latched) && (look == Latched <==> latched)
    ensures ReadsOk(taken + ReadsOf(look), id, PollAnswer(id, look) == Ok(true))
  {
    hide ParseCancel;
    if look.Got? {
      assert PollAnswer(id, look) == Ok(true) <==> CancelFor(look.read, id);
    } else {
      assert taken + [] == taken;
    }
  }

  lemma AdvanceOk(c: Setting, t: Trail, r: Reaction)
    requires TrailOk(c, t)
    ensures TrailOk(c, Advance(c, t, r))
  {
    hide NoteFor, IsProgress, BuildProgress, BuildChunk, ReadsOk, Heartbeat.Spaced, Heartbeat.Due, FrameOf, PollAnswer, WholeProgress;
    if t.at.Some? {
      match t.at.value
      case EmitProgress(now, percent, phase, _) =>
        ProgressIsNote(c.id, percent, phase);
        if r.Wrote? && BuildProgress(c.id, percent, phase).Some? {
          OneMoreNote(c.codec, t.notes, Write(BuildProgress(c.id, percent, phase).value, r.bytes));
        }
        if Heartbeat.Due(Heartbeat.LastOf(t.times), now) { Heartbeat.SpacedMore(t.times, now); }
      case EmitChunk(seqNo, kind, payload, _, _, _, _) =>
        ChunkIsNote(c.id, seqNo, kind, payload);
        if r.Wrote? && BuildChunk(c.id, seqNo, kind, payload).Some? {
          OneMoreNote(c.codec, t.notes, Write(BuildChunk(c.id, seqNo, kind, payload).value, r.bytes));
        }
      case Poll(_, _, _, _, _, _) => if r.Polled? && (r.look == Latched <==> t.latched) { ReadsMore(t.taken, c.id, t.latched, r.look); }
      case _ =>
    }
  }

  /** Whatever the backend asks for and whatever it is answered: its notifications carry the id of its request,
      its progress is spaced, and its poll stops reading at the first cancel for it. */
  lemma {:induction false} EveryTrailOk(c: Setting, start: Behaviour, rs: seq<Reaction>)
    ensures TrailOk(c, Along(c, start, rs))
    decreases |rs|
  {
    hide TrailOk, Advance;
    if rs == [] {
      NothingYet(c, start);
    } else {
      EveryTrailOk(c, start, rs[..|rs| - 1]);
      AdvanceOk(c, Along(c, start, rs[..|rs| - 1]), rs[|rs| - 1]);
    }
  }

  lemma NothingYet(c: Setting, start: Behaviour)
    ensures TrailOk(c, Trail(Some(start), [], [], [], false))
  {
  }

  /** Once the poll has said yes it keeps saying yes, and reads no more. */
  lemma {:induction false} LatchStays(c: Setting, start: Behaviour, rs: seq<Reaction>, n: nat)
    requires n <= |rs| && Along(c, start, rs[..n]).latched
    ensures Along(c, start, rs).latched && Along(c, start, rs).taken == Along(c, start, rs[..n]).taken
    decreases |rs|
  {
    if n == |rs| {
      assert rs[..n] == rs;
    } else {
      assert rs[..|rs| - 1][..n] == rs[..n];
      LatchStays(c, start, rs[..|rs| - 1], n);
      LatchHolds(c, Along(c, start, rs[..|rs| - 1]), rs[|rs| - 1]);
    }
  }

  lemma LatchHolds(c: Setting, t: Trail, r: Reaction)
    requires t.latched
    ensures Advance(c, t, r).latched && Advance(c, t, r).taken == t.taken
    ensures t.at.Some? && t.at.value.Poll? && c.mode == Streaming && Advance(c, t, r).at.Some? ==>
      Advance(c, t, r).at.value == t.at.value.cancelled
  {
    hide BuildProgress, BuildChunk, FrameOf, Sendable;
  }

  /** Some poll of the call raised because of what it read. */
  ghost predicate PollRaised(c: Setting, rs: seq<Reaction>) {
    exists i :: 0 <= i < |rs| && rs[i].Polled? && rs[i].look.Got? && PollAnswer(c.id, rs[i].look).Err?
  }

  /** All frames a call takes are well-formed cancels if and only if no poll of it raised on reading. */
  lemma {:induction false} OnlyCancelsIff(c: Setting, start: Behaviour, rs: seq<Reaction>)
    requires Along(c, start, rs).at.Some?
    ensures (forall k :: 0 <= k < |Along(c, start, rs).taken| ==> WellFormedCancel(Along(c, start, rs).taken[k])) <==> !PollRaised(c, rs)
    decreases |rs|
  {
    hide Advance, PollAnswer, WellFormedCancel, PollRaised;
    NonePolled(c);
    if rs != [] {
      var init, r := rs[..|rs| - 1], rs[|rs| - 1];
      var t, t' := Along(c, start, init), Along(c, start, rs);
      ReadsGrow(c, t, r);
      OnlyCancelsIff(c, start, init);
      PollRaisedMore(c, init, r);
      assert rs == init + [r];
      assert forall k :: 0 <= k < |t.taken| ==> t'.taken[k] == t.taken[k];
      if r.Polled? && r.look.Got? { assert t'.taken[|t.taken|] == r.look.read; }
    }
  }

  lemma ReadsGrow(c: Setting, t: Trail, r: Reaction)
    requires Advance(c, t, r).at.Some?
    ensures t.at.Some? && Advance(c, t, r).taken == t.taken + if r.Polled? then ReadsOf(r.look) else []
    ensures r.Polled? && r.look.Got? ==> (PollAnswer(c.id, r.look).Ok? <==> WellFormedCancel(r.look.read))
  {
    hide BuildProgress, BuildChunk, FrameOf, Sendable, ParseCancel;
  }

  lemma NonePolled(c: Setting)
    ensures !PollRaised(c, [])
  {
  }

  lemma PollRaisedMore(c: Setting, rs: seq<Reaction>, r: Reaction)
    ensures PollRaised(c, rs + [r]) <==> PollRaised(c, rs) || (r.Polled? && r.look.Got? && PollAnswer(c.id, r.look).Err?)
  {
    hide PollAnswer;
    if i :| 0 <= i < |rs| && rs[i].Polled? && rs[i].look.Got? && PollAnswer(c.id, rs[i].look).Err? {
      assert (rs + [r])[i] == rs[i];
    }
    if r.Polled? && r.look.Got? && PollAnswer(c.id, r.look).Err? {
      assert (rs + [r])[|rs|] == r;
    }
  }

  /** The leaf raises the failure: a violation as it is, an OSError under the name of its class. */
  predicate Uncaught(f: Failure, leaf: Behaviour) {
    leaf.Raise? && if f == OsError then leaf.exc.OtherExc? else leaf.exc == Wire(f)
  }

  /** The backend catches no exception of its poll. */
  predicate CatchesNone(b: Behaviour) {
    match b
    case EmitProgress(_, _, _, next) => CatchesNone(next)
    case EmitChunk(_, _, _, sent, invalid, tooLarge, broken) =>
      CatchesNone(sent) && CatchesNone(invalid) && CatchesNone(tooLarge) && CatchesNone(broken)
    case Poll(cancelled, goOn, onFraming, onProtocol, onEof, onOs) =>
      && CatchesNone(cancelled) && CatchesNone(goOn)
      && Uncaught(FramingError, onFraming) && Uncaught(ProtocolError, onProtocol) && Uncaught(EofError, onEof) && Uncaught(OsError, onOs)
    case _ => true
  }

  /** Such a backend takes nothing but well-formed cancels, up to a read that ends its call with the exception. */
  lemma {:induction false} UncaughtEndsCall(c: Setting, start: Behaviour, rs: seq<Reaction>)
    requires CatchesNone(start) && Along(c, start, rs).at.Some?
    ensures var t := Along(c, start, rs);
      && CatchesNone(t.at.value)
      && (forall k :: 0 <= k < |t.taken| - 1 ==> WellFormedCancel(t.taken[k]))
      && (t.taken != [] && !WellFormedCancel(t.taken[|t.taken| - 1]) ==>
            Uncaught(PollAnswer(c.id, Got(t.taken[|t.taken| - 1])).error, t.at.value))
    decreases |rs|
  {
    hide Advance, PollAnswer, WellFormedCancel, CatchesNone;
    if rs != [] {
      var t, r := Along(c, start, rs[..|rs| - 1]), rs[|rs| - 1];
      ReadsGrow(c, t, r);
      UncaughtEndsCall(c, start, rs[..|rs| - 1]);
      UncaughtStep(c, t, r);
    }
  }

  lemma UncaughtStep(c: Setting, t: Trail, r: Reaction)
    requires t.at.Some? && CatchesNone(t.at.value) && Advance(c, t, r).at.Some?
    ensures !Ended(t.at.value) && CatchesNone(Advance(c, t, r).at.value)
    ensures r.Polled? && PollAnswer(c.id, r.look).Err? ==> Uncaught(PollAnswer(c.id, r.look).error, Advance(c, t, r).at.value)
  {
    hide BuildProgress, BuildChunk, FrameOf, Sendable, PollAnswer;
  }

  // ---------- the tools of a call

  method SendProgress(conn: Conn, c: Setting, now: real, percent: Option<int>, phase: string, last: Option<real>)
    returns (last': Option<real>, ghost r: Reaction)
    modifies conn`outbox
    ensures var note := BuildProgress(c.id, percent, phase);
      if !Sendable(c, note) || !Heartbeat.Due(last, now) then r == Held && last' == last && conn.outbox == old(conn.outbox)
      else
        && r.Wrote? && r.bytes <= FrameOf(c.codec, note.value) && conn.outbox == old(conn.outbox) + r.bytes
        && last' == if r.bytes == FrameOf(c.codec, note.value) then Some(now) else last
  {
    last', r := last, Held;
    if !Heartbeat.Due(last, now) { return; }
    var note := BuildProgress(c.id, percent, phase);
    if note.None? { return; }
    var frame := EncodeFrame(c.codec, note.value, c.cap);
    if frame.Err? { return; }
    var ok;
    ghost var part;
    ok, part := conn.SendAll(frame.value);
    r := Wrote(part);
    if !ok { return; }
    last' := Some(now);
  }

  datatype ChunkOutcome = Delivered | Invalid | TooLarge | Broken

  method SendChunk(conn: Conn, c: Setting, seqNo: int, kind: string, payload: Message)
    returns (outcome: ChunkOutcome, ghost r: Reaction)
    modifies conn`outbox
    ensures var note := BuildChunk(c.id, seqNo, kind, payload);
      if !Sendable(c, note) then r == Held && conn.outbox == old(conn.outbox) && outcome == if note.None? then Invalid else TooLarge
      else
        && r.Wrote? && r.bytes <= FrameOf(c.codec, note.value) && conn.outbox == old(conn.outbox) + r.bytes
        && outcome == if r.bytes == FrameOf(c.codec, note.value) then Delivered else Broken
  {
    r := Held;
    var note := BuildChunk(c.id, seqNo, kind, payload);
    if note.None? { return Invalid, r; }
    var frame := EncodeFrame(c.codec, note.value, c.cap);
    if frame.Err? { return TooLarge, r; }
    var ok;
    ghost var part;
    ok, part := conn.SendAll(frame.value);
    return if ok then Delivered else Broken, Wrote(part);
  }

  /** One consultation of the cancel poll. Once it has said yes it says yes without touching the socket;
      otherwise it takes at most one frame. */
  method PollCancel(conn: Conn, codec: Codec, cap: int, id: string, latched: bool)
    returns (r: Result<bool, Failure>, ghost look: Look)
    modifies conn`inbox
    ensures r == PollAnswer(id, look) && (look == Latched <==> latched)
    ensures latched ==> r == Ok(true) && conn.inbox == old(conn.inbox)
    ensures !latched ==>
      match look
      case Got(read) => (r.Ok? <==> WellFormedCancel(read)) && (r == Ok(true) <==> CancelFor(read, id)) && (read.Err? ==> r == Err(read.error))
      case _ => r == (if look == Nothing then Ok(false) else Err(FramingError)) && conn.inbox == old(conn.inbox)
    ensures Took(codec, cap, conn.Gone(), old(conn.inbox), ReadsOf(look), conn.inbox)
  {
    hide Took, ReadOne;
    TookNothing(codec, cap, conn.Gone(), conn.inbox);
    if latched { return Ok(true), Latched; }
    var selectFails, readable := *, *;
    if selectFails { return Err(FramingError), SelectFailed; }
    if !readable { return Ok(false), Nothing; }
    ghost var input := conn.inbox;
    var frame := ReadFrame(conn, codec, cap);
    look := Got(frame);
    TookOne(codec, cap, conn.Gone(), input, [], input, frame, |input| - |conn.inbox|);
    assert [] + [frame] == ReadsOf(look);
    if frame.Err? { return Err(frame.error), look; }
    KindsExclusive(frame.value, id);
    if !IsCancel(frame.value) { return Err(ProtocolError), look; }
    var target := ParseCancel(frame.value);
    if target.Err? { return Err(ProtocolError), look; }
    return Ok(target.value == id), look;
  }

  // ---------- running the backend

  function ChunkBranch(b: Behaviour, how: ChunkOutcome): Behaviour
    requires b.EmitChunk?
  {
    match how case Delivered => b.sent case Invalid => b.invalid case TooLarge => b.tooLarge case Broken => b.broken
  }

  /** Without the tool the backend goes on as if the request had gone through. */
  function WithoutTool(b: Behaviour): Behaviour {
    match b case EmitProgress(_, _, _, next) => next case EmitChunk(_, _, _, sent, _, _, _) => sent
    case Poll(_, goOn, _, _, _, _) => goOn case _ => b
  }

  predicate HasTool(mode: Mode, b: Behaviour) {
    (b.EmitProgress? && mode == WithProgress) || ((b.EmitChunk? || b.Poll?) && mode == Streaming)
  }

  lemma AdvanceNoTool(c: Setting, t: Trail)
    requires t.at.Some? && !Ended(t.at.value) && !HasTool(c.mode, t.at.value)
    ensures Advance(c, t, NoTool) == t.(at := Some(WithoutTool(t.at.value)))
  {
    hide BuildProgress, BuildChunk, FrameOf, Sendable;
  }

  /** What the step adds to the notes, and so to the wire. */
  function NotesBy(c: Setting, t: Trail, r: Reaction): seq<Write> {
    if !r.Wrote? || t.at.None? then []
    else
      match t.at.value
      case EmitProgress(_, percent, phase, _) =>
        var note := BuildProgress(c.id, percent, phase); if note.Some? then [Write(note.value, r.bytes)] else []
      case EmitChunk(seqNo, kind, payload, _, _, _, _) =>
        var note := BuildChunk(c.id, seqNo, kind, payload); if note.Some? then [Write(note.value, r.bytes)] else []
      case _ => []
  }

  lemma AdvanceProgress(c: Setting, t: Trail, r: Reaction, last': Option<real>)
    requires t.at.Some? && t.at.value.EmitProgress? && c.mode == WithProgress
    requires var note := BuildProgress(c.id, t.at.value.percent, t.at.value.phase); var last := Heartbeat.LastOf(t.times);
      if !Sendable(c, note) || !Heartbeat.Due(last, t.at.value.now) then r == Held && last' == last
      else
        && r.Wrote? && r.bytes <= FrameOf(c.codec, note.value)
        && last' == if r.bytes == FrameOf(c.codec, note.value) then Some(t.at.value.now) else last
    ensures var t' := Advance(c, t, r);
      && t'.at == Some(t.at.value.next) && t'.notes == t.notes + NotesBy(c, t, r) && Heartbeat.LastOf(t'.times) == last'
      && t'.taken == t.taken && t'.latched == t.latched
  {
    hide BuildProgress, BuildChunk, FrameOf, Heartbeat.Due;
  }

  lemma AdvanceChunk(c: Setting, t: Trail, r: Reaction, how: ChunkOutcome)
    requires t.at.Some? && t.at.value.EmitChunk? && c.mode == Streaming
    requires var note := BuildChunk(c.id, t.at.value.seqNo, t.at.value.kind, t.at.value.payload);
      if !Sendable(c, note) then r == Held && how == if note.None? then Invalid else TooLarge
      else r.Wrote? && r.bytes <= FrameOf(c.codec, note.value) && how == if r.bytes == FrameOf(c.codec, note.value) then Delivered else Broken
    ensures Advance(c, t, r) == t.(at := Some(ChunkBranch(t.at.value, how)), notes := t.notes + NotesBy(c, t, r))
  {
    hide BuildProgress, BuildChunk, FrameOf, Heartbeat.Due;
    assert t.notes + [] == t.notes;
  }

  lemma AdvancePoll(c: Setting, t: Trail, look: Look)
    requires t.at.Some? && t.at.value.Poll? && c.mode == Streaming && (look == Latched <==> t.latched)
    ensures Advance(c, t, Polled(look))
         == t.(at := Some(PollBranch(t.at.value, PollAnswer(c.id, look))), taken := t.taken + ReadsOf(look),
               latched := PollAnswer(c.id, look) == Ok(true))
  {
    hide PollAnswer;
  }

  /** The bytes a step put on the wire. */
  function BytesBy(r: Reaction): seq<Byte> { if r.Wrote? then r.bytes else [] }

  lemma WireStep(codec: Codec, notes: seq<Write>, more: seq<Write>, bytes: seq<Byte>, before: seq<Byte>, now: seq<Byte>)
    requires WireOf(more) == bytes && now == before + WireOf(notes) + bytes
    ensures now == before + WireOf(notes + more)
  {
    hide WireOf;
    WritesMore(codec, notes, more);
  }

  /** Runs one call of the backend with its tools, recording its answers. */
  method RunBackend(conn: Conn, c: Setting, start: Behaviour)
    returns (leaf: Behaviour, ghost trail: Trail, ghost rs: seq<Reaction>)
    modifies conn`inbox, conn`outbox
    ensures trail == Along(c, start, rs) && trail.at == Some(leaf) && Ended(leaf)
    ensures conn.outbox == old(conn.outbox) + WireOf(trail.notes)
    ensures Took(c.codec, c.cap, conn.Gone(), old(conn.inbox), trail.taken, conn.inbox)
  {
    hide Took, BuildProgress, BuildChunk, FrameOf, Advance, Along, PollAnswer, WireOf, NotesBy;
    hide Heartbeat.Due, Heartbeat.LastOf;
    var b, latched, last := start, false, None;
    rs, trail := [], Trail(Some(start), [], [], [], false);
    NoReactions(c, start);
    TookNothing(c.codec, c.cap, conn.Gone(), conn.inbox);
    while !Ended(b)
      invariant trail == Along(c, start, rs) && trail.at == Some(b)
      invariant latched == trail.latched && last == Heartbeat.LastOf(trail.times)
      invariant conn.outbox == old(conn.outbox) + WireOf(trail.notes)
      invariant Took(c.codec, c.cap, conn.Gone(), old(conn.inbox), trail.taken, conn.inbox)
      decreases b
    {
      ghost var r, input := NoTool, conn.inbox;
      if !HasTool(c.mode, b) {
        AdvanceNoTool(c, trail);
        b := WithoutTool(b);
      } else if b.EmitProgress? {
        last, r := SendProgress(conn, c, b.now, b.percent, b.phase, last);
        NoteWritten(c, trail, r);
        AdvanceProgress(c, trail, r, last);
        WireStep(c.codec, trail.notes, NotesBy(c, trail, r), BytesBy(r), old(conn.outbox), conn.outbox);
        b := b.next;
      } else if b.EmitChunk? {
        var how;
        how, r := SendChunk(conn, c, b.seqNo, b.kind, b.payload);
        NoteWritten(c, trail, r);
        AdvanceChunk(c, trail, r, how);
        WireStep(c.codec, trail.notes, NotesBy(c, trail, r), BytesBy(r), old(conn.outbox), conn.outbox);
        b := ChunkBranch(b, how);
      } else {
        ghost var look;
        var answer;
        answer, look := PollCancel(conn, c.codec, c.cap, c.id, latched);
        r := Polled(look);
        TookMore(c.codec, c.cap, conn.Gone(), old(conn.inbox), trail.taken, input, ReadsOf(look), conn.inbox);
        AdvancePoll(c, trail, look);
        latched := answer == Ok(true);
        b := PollBranch(b, answer);
      }
      AlongMore(c, start, rs, r);
      trail := Advance(c, trail, r);
      rs := rs + [r];
    }
    leaf := b;
  }

  lemma NoReactions(c: Setting, start: Behaviour)
    ensures Along(c, start, []) == Trail(Some(start), [], [], [], false)
    ensures WireOf([]) == [] && Heartbeat.LastOf([]) == None
  {
  }

  lemma NoteWritten(c: Setting, t: Trail, r: Reaction)
    requires t.at.Some? && (t.at.value.EmitProgress? || t.at.value.EmitChunk?)
    requires t.at.value.EmitProgress? && r.Wrote? ==> BuildProgress(c.id, t.at.value.percent, t.at.value.phase).Some?
    requires t.at.value.EmitChunk? && r.Wrote? ==> BuildChunk(c.id, t.at.value.seqNo, t.at.value.kind, t.at.value.payload).Some?
    ensures WireOf(NotesBy(c, t, r)) == BytesBy(r)
  {
    hide BuildProgress, BuildChunk, WireOf;
    if r.Wrote? { WireOne(NotesBy(c, t, r)[0]); } else { WireNone(); }
  }

  lemma WireOne(w: Write)
    ensures WireOf([w]) == w.bytes
  {
    assert [w][1..] == [] && w.bytes + [] == w.bytes;
  }

  lemma WireNone()
    ensures WireOf([]) == []
  {
  }

  // ---------- one request

  function IdOf(obj: Message): Json { Get(obj, "id") }

  function ParamsOf(obj: Message): Json { if "params" in obj then obj["params"] else Obj(map[]) }

  /** The answer to a request that never reaches the backend or a control method. */
  function Refusal(methods: set<string>, obj: Message): Option<Message> {
    if Get(obj, "jsonrpc") != Str("2.0") || !IdOf(obj).Str? then Some(BuildError(IdOf(obj), CODE_INVALID_REQUEST, "invalid request envelope", None))
    else if !Get(obj, "method").Str? || Get(obj, "method").s !in methods then Some(BuildError(IdOf(obj), CODE_METHOD_NOT_FOUND, "unknown method", None))
    else if !ParamsOf(obj).Obj? then Some(BuildError(IdOf(obj), CODE_INVALID_PARAMS, "params must be an object", None))
    else None
  }

  function ModeOf(method_: string, params: Message): Mode {
    if method_ == "analyze" && Get(params, "progress") == Bool(true) then WithProgress
    else if method_ == "start_decompile_stream" then Streaming
    else Plain
  }

  /** An exception is turned into an error response, except a wire violation, which closes the connection. */
  function AnswerExc(id: Json, exc: Exc): Result<Message, Failure> {
    match exc
    case WorkerExc(code, message, detail) => Ok(BuildError(id, code, message, detail))
    case Wire(f) => Err(f)
    case OtherExc(name) => Ok(BuildError(id, CODE_INTERNAL, "internal worker error", Some(name + ": unhandled worker exception")))
  }

  /** Version, the request's id (null if it had none), and exactly one of result and error; the reader accepts it
      under that id. */
  predicate AnswerTo(r: Message, request: Message) {
    && Get(r, "jsonrpc") == Str("2.0")
    && "id" in r && r["id"] == Get(request, "id")
    && ("result" in r) != ("error" in r)
    && (IdOf(request).Str? ==> ParseResponse(r, IdOf(request).s) != Err(Malformed))
  }

  lemma BuiltAnswers(request: Message, result: Message, code: int, message: string, detail: Option<string>)
    ensures AnswerTo(BuildResponse(IdOf(request), result), request)
    ensures AnswerTo(BuildError(IdOf(request), code, message, detail), request)
  {
    hide ParseResponse;
    if IdOf(request).Str? {
      ResponseRoundTrip(IdOf(request).s, result, IdOf(request).s);
      ErrorRoundTrip(IdOf(request).s, code, message, detail);
    }
  }

  lemma RefusalAnswers(methods: set<string>, obj: Message)
    requires Refusal(methods, obj).Some?
    ensures AnswerTo(Refusal(methods, obj).value, obj)
  {
    hide AnswerTo, BuildError;
    BuiltAnswers(obj, map[], CODE_INVALID_REQUEST, "invalid request envelope", None);
    BuiltAnswers(obj, map[], CODE_METHOD_NOT_FOUND, "unknown method", None);
    BuiltAnswers(obj, map[], CODE_INVALID_PARAMS, "params must be an object", None);
  }

  lemma ExcAnswers(obj: Message, exc: Exc)
    ensures AnswerExc(IdOf(obj), exc).Ok? ==> AnswerTo(AnswerExc(IdOf(obj), exc).value, obj)
    ensures AnswerExc(IdOf(obj), exc).Err? <==> exc.Wire?
  {
    hide AnswerTo, BuildError;
    match exc
    case WorkerExc(code, message, detail) => BuiltAnswers(obj, map[], code, message, detail);
    case Wire(_) =>
    case OtherExc(name) => BuiltAnswers(obj, map[], CODE_INTERNAL, "internal worker error", Some(name + ": unhandled worker exception"));
  }

  /** What a request leads to: an answer at once, or a call of the backend. */
  datatype Call = Settled(answer: Message) | Runs(mode: Mode, id: string, start: Behaviour)

  function CallOf(methods: set<string>, backend: Backend, n: nat, obj: Message): Call {
    var refusal := Refusal(methods, obj);
    if refusal.Some? then Settled(refusal.value)
    else
      var name, params := Get(obj, "method").s, ParamsOf(obj).members;
      if name == "ping" || name == "shutdown" then Settled(BuildResponse(IdOf(obj), map["ok" := Bool(true)]))
      else
        match backend(n, name, params)
        case None => Settled(BuildError(IdOf(obj), CODE_METHOD_NOT_FOUND, "method not implemented", None))
        case Some(start) => Runs(ModeOf(name, params), IdOf(obj).s, start)
  }

  /** The answer of a call that has ended. */
  function AnswerLeaf(id: Json, leaf: Behaviour): Result<Message, Failure>
    requires Ended(leaf)
  {
    match leaf case Return(result) => Ok(BuildResponse(id, result)) case Raise(exc) => AnswerExc(id, exc)
  }

  // ---------- the trace of a connection

  /** One request read by the main loop, and all that was written and read on its behalf. */
  datatype Block = Block(
    request: Message,
    reactions: seq<Reaction>,
    notes: seq<Write>,
    taken: seq<Result<Message, Failure>>,
    response: Option<Write>)

  predicate Answered(codec: Codec, b: Block) { b.response.Some? && Whole(codec, b.response.value) }

  /** The block is a run of its call: notes and reads are those of the backend's own strategy, followed along the
      recorded answers to an end. */
  ghost predicate RunOf(codec: Codec, cap: int, call: Call, b: Block) {
    match call
    case Settled(_) => b.reactions == [] && b.notes == [] && b.taken == []
    case Runs(mode, id, start) =>
      var t := Along(Setting(codec, cap, mode, id), start, b.reactions);
      t.at.Some? && Ended(t.at.value) && t.notes == b.notes && t.taken == b.taken
  }

  /** The one answer the block calls for; an error when the connection is to be closed instead. */
  ghost function AnswerOf(codec: Codec, cap: int, call: Call, b: Block): Result<Message, Failure>
    requires RunOf(codec, cap, call, b)
  {
    match call
    case Settled(answer) => Ok(answer)
    case Runs(mode, id, start) => AnswerLeaf(Str(id), Along(Setting(codec, cap, mode, id), start, b.reactions).at.value)
  }

  ghost predicate Served(codec: Codec, cap: int, call: Call, b: Block) {
    && RunOf(codec, cap, call, b)
    && (b.response.Some? ==>
          && AnswerOf(codec, cap, call, b) == Ok(b.response.value.message)
          && Attempt(codec, cap, b.response.value))
  }

  /** Notes carry the request's id, the poll reads no further than the first cancel for it, and the response echoes it. */
  ghost predicate BlockOk(codec: Codec, cap: int, b: Block) {
    && (b.notes != [] || b.taken != [] ==> Get(b.request, "id").Str?)
    && (forall i :: 0 <= i < |b.notes| ==> Attempt(codec, cap, b.notes[i]) && NoteFor(b.notes[i].message, Get(b.request, "id").s))
    && (forall k :: 0 <= k < |b.taken| - 1 ==> !CancelFor(b.taken[k], Get(b.request, "id").s))
    && (b.response.Some? ==> Attempt(codec, cap, b.response.value) && AnswerTo(b.response.value.message, b.request))
  }

  lemma LeafAnswers(obj: Message, leaf: Behaviour)
    requires Ended(leaf)
    ensures AnswerLeaf(IdOf(obj), leaf).Ok? ==> AnswerTo(AnswerLeaf(IdOf(obj), leaf).value, obj)
  {
    hide AnswerTo, BuildError, BuildResponse;
    match leaf
    case Return(result) => BuiltAnswers(obj, result, 0, "", None);
    case Raise(exc) => ExcAnswers(obj, exc);
  }

  lemma SettledAnswers(methods: set<string>, backend: Backend, n: nat, obj: Message)
    ensures var call := CallOf(methods, backend, n, obj);
      if call.Settled? then AnswerTo(call.answer, obj) else IdOf(obj) == Str(call.id)
  {
    hide AnswerTo, BuildError, BuildResponse;
    if Refusal(methods, obj).Some? {
      RefusalAnswers(methods, obj);
    } else {
      BuiltAnswers(obj, map["ok" := Bool(true)], CODE_METHOD_NOT_FOUND, "method not implemented", None);
    }
  }

  /** For every backend and every run of it: notifications of this id, then at most one response, to this id. */
  lemma ServedBlockOk(codec: Codec, cap: int, methods: set<string>, backend: Backend, n: nat, b: Block)
    requires Served(codec, cap, CallOf(methods, backend, n, b.request), b)
    ensures BlockOk(codec, cap, b)
  {
    hide CallOf, AnswerTo, NoteFor, ParseCancel, Along, AnswerLeaf, Attempt;
    SettledAnswers(methods, backend, n, b.request);
    match CallOf(methods, backend, n, b.request)
    case Settled(_) =>
    case Runs(mode, id, start) =>
      var c := Setting(codec, cap, mode, id);
      EveryTrailOk(c, start, b.reactions);
      LeafAnswers(b.request, Along(c, start, b.reactions).at.value);
  }

  /** The progress frames of every served call keep the rate: each that went out whole has its time, and of these times
      no more lie between two clock readings than the interval allows. */
  lemma ServedRate(codec: Codec, cap: int, mode: Mode, id: string, start: Behaviour, b: Block, t0: real, t1: real)
    requires RunOf(codec, cap, Runs(mode, id, start), b) && t0 <= t1
    ensures var times := Along(Setting(codec, cap, mode, id), start, b.reactions).times;
      && |times| == WholeProgress(codec, b.notes)
      && Heartbeat.CountIn(times, t0, t1) <= 1 + ((t1 - t0) / Heartbeat.MIN_INTERVAL).Floor
  {
    hide NotesOk, ReadsOk, Along;
    EveryTrailOk(Setting(codec, cap, mode, id), start, b.reactions);
    Heartbeat.RateBound(Along(Setting(codec, cap, mode, id), start, b.reactions).times, t0, t1);
  }

  method HandleRequest(conn: Conn, codec: Codec, cap: int, methods: set<string>, backend: Backend, n: nat, obj: Message)
    returns (r: Result<Message, Failure>, ghost b: Block)
    modifies conn`inbox, conn`outbox
    ensures b.request == obj && b.response == None
    ensures Served(codec, cap, CallOf(methods, backend, n, obj), b)
    ensures r == AnswerOf(codec, cap, CallOf(methods, backend, n, obj), b)
    ensures conn.outbox == old(conn.outbox) + WireOf(b.notes)
    ensures Took(codec, cap, conn.Gone(), old(conn.inbox), b.taken, conn.inbox)
  {
    hide Took, BuildError, BuildResponse, Along, Attempt, WireOf;
    TookNothing(codec, cap, conn.Gone(), conn.inbox);
    b := Block(obj, [], [], [], None);
    WireNone();
    var id := IdOf(obj);
    var refusal := Refusal(methods, obj);
    if refusal.Some? { return Ok(refusal.value), b; }
    var name, params := Get(obj, "method").s, ParamsOf(obj).members;
    if name == "ping" || name == "shutdown" { return Ok(BuildResponse(id, map["ok" := Bool(true)])), b; }
    var behaviour := backend(n, name, params);
    if behaviour.None? { return Ok(BuildError(id, CODE_METHOD_NOT_FOUND, "method not implemented", None)), b; }
    var leaf;
    ghost var trail, rs;
    leaf, trail, rs := RunBackend(conn, Setting(codec, cap, ModeOf(name, params), id.s), behaviour.value);
    r := AnswerLeaf(id, leaf);
    b := Block(obj, rs, trail.notes, trail.taken, None);
  }

  // ---------- the loop

  /** Only the last block may lack its response or be cut inside it, and only it may be a shutdown. */
  ghost predicate TraceOk(codec: Codec, cap: int, methods: set<string>, backend: Backend, blocks: seq<Block>) {
    && (forall i :: 0 <= i < |blocks| ==> BlockOk(codec, cap, blocks[i]) && Served(codec, cap, CallOf(methods, backend, i, blocks[i].request), blocks[i]))
    && (forall i :: 0 <= i < |blocks| - 1 ==> Answered(codec, blocks[i]) && Get(blocks[i].request, "method") != Str("shutdown"))
  }

  function WritesOf(b: Block): seq<Write> { b.notes + if b.response.Some? then [b.response.value] else [] }

  /** All writes, in order. */
  function AllWrites(blocks: seq<Block>): seq<Write> {
    if blocks == [] then [] else AllWrites(blocks[..|blocks| - 1]) + WritesOf(blocks[|blocks| - 1])
  }

  /** All reads, in order: each request, then the reads of its poll. */
  function AllReads(blocks: seq<Block>): seq<Result<Message, Failure>> {
    if blocks == [] then []
    else AllReads(blocks[..|blocks| - 1]) + [Ok(blocks[|blocks| - 1].request)] + blocks[|blocks| - 1].taken
  }

  lemma {:induction false} BlocksMore(blocks: seq<Block>, b: Block)
    ensures AllWrites(blocks + [b]) == AllWrites(blocks) + WritesOf(b)
    ensures AllReads(blocks + [b]) == AllReads(blocks) + [Ok(b.request)] + b.taken
  {
    assert (blocks + [b])[..|blocks|] == blocks;
  }

  lemma NoBlocks()
    ensures AllWrites([]) == [] && AllReads([]) == [] && WireOf([]) == []
  {
  }

  /** Why the loop returned. */
  datatype Ending = InputEnded(failure: Failure) | ShutDown | CallViolated | AnswerTooLarge | SendFailed

  /** The ending and the last block agree. */
  ghost predicate EndsWell(codec: Codec, cap: int, methods: set<string>, backend: Backend, blocks: seq<Block>, end: Ending)
    requires TraceOk(codec, cap, methods, backend, blocks)
  {
    var n := |blocks| - 1;
    if end.InputEnded? then n >= 0 ==> Answered(codec, blocks[n]) && Get(blocks[n].request, "method") != Str("shutdown")
    else
      && n >= 0
      && var b := blocks[n]; var answer := AnswerOf(codec, cap, CallOf(methods, backend, n, b.request), b);
      match end
      case ShutDown => Answered(codec, b) && Get(b.request, "method") == Str("shutdown")
      case CallViolated => b.response.None? && answer.Err?
      case AnswerTooLarge => b.response.None? && answer.Ok? && !Fits(codec, answer.value, cap)
      case SendFailed => b.response.Some? && !Whole(codec, b.response.value)
      case _ => true
  }

  lemma WireMore(codec: Codec, before: seq<Byte>, blocks: seq<Block>, b: Block, mid: seq<Byte>, now: seq<Byte>)
    requires mid == before + WireOf(AllWrites(blocks)) && now == mid + WireOf(WritesOf(b))
    ensures now == before + WireOf(AllWrites(blocks + [b]))
  {
    hide WireOf, AllWrites;
    BlocksMore(blocks, b);
    WritesMore(codec, AllWrites(blocks), WritesOf(b));
  }

  lemma WireOfBlock(codec: Codec, b: Block, w: Write)
    requires b.response == None
    ensures WireOf(WritesOf(b)) == WireOf(b.notes) && WireOf(WritesOf(b.(response := Some(w)))) == WireOf(b.notes) + w.bytes
  {
    hide WireOf;
    assert b.notes + [] == b.notes;
    WritesMore(codec, b.notes, [w]);
    WireOne(w);
  }

  lemma ReadsMoreBlocks(codec: Codec, cap: int, gone: Failure, input: seq<Byte>, blocks: seq<Block>, mid: seq<Byte>,
                        b: Block, afterRead: seq<Byte>, rest: seq<Byte>)
    requires Took(codec, cap, gone, input, AllReads(blocks), mid)
    requires |afterRead| <= |mid| && ReadOne(codec, cap, gone, mid) == (Ok(b.request), |mid| - |afterRead|) && afterRead == mid[|mid| - |afterRead|..]
    requires Took(codec, cap, gone, afterRead, b.taken, rest)
    ensures Took(codec, cap, gone, input, AllReads(blocks + [b]), rest) && |rest| < |mid|
  {
    hide Took, ReadOne, AllReads;
    BlocksMore(blocks, b);
    TookOne(codec, cap, gone, input, AllReads(blocks), mid, Ok(b.request), |mid| - |afterRead|);
    TookMore(codec, cap, gone, input, AllReads(blocks) + [Ok(b.request)], afterRead, b.taken, rest);
    TookShrinks(codec, cap, gone, afterRead, b.taken, rest);
    assert |afterRead| < |mid|;
  }

  lemma TraceMore(codec: Codec, cap: int, methods: set<string>, backend: Backend, blocks: seq<Block>, b: Block)
    requires TraceOk(codec, cap, methods, backend, blocks)
    requires forall i :: 0 <= i < |blocks| ==> Answered(codec, blocks[i]) && Get(blocks[i].request, "method") != Str("shutdown")
    requires Served(codec, cap, CallOf(methods, backend, |blocks|, b.request), b)
    ensures TraceOk(codec, cap, methods, backend, blocks + [b])
  {
    ServedBlockOk(codec, cap, methods, backend, |blocks|, b);
    hide BlockOk, Served, CallOf, Answered, Get;
    var more := blocks + [b];
    assert forall i :: 0 <= i < |blocks| ==> more[i] == blocks[i];
  }

  /** Serves one connection until shutdown, end of input or a violation. Whatever the backend does, whatever
      comes in and however sends fail, what is written is a sequence of blocks in the order the requests were
      read, and every read is accounted for. */
  method ServeConnection(conn: Conn, codec: Codec, cap: int, methods: set<string>, backend: Backend)
    returns (ghost blocks: seq<Block>, ghost end: Ending)
    modifies conn`inbox, conn`outbox
    ensures TraceOk(codec, cap, methods, backend, blocks) && EndsWell(codec, cap, methods, backend, blocks, end)
    ensures conn.outbox == old(conn.outbox) + WireOf(AllWrites(blocks))
    ensures Took(codec, cap, conn.Gone(), old(conn.inbox), AllReads(blocks) + (if end.InputEnded? then [Err(end.failure)] else []), conn.inbox)
  {
    hide Took, BlockOk, RunOf, CallOf, AnswerOf, AllWrites, AllReads, ReadOne, WireOf, TraceOk, FrameOf, WritesOf;
    blocks := [];
    ghost var input, before := conn.inbox, conn.outbox;
    NoBlocks();
    assert TraceOk(codec, cap, methods, backend, blocks) by { EmptyTrace(codec, cap, methods, backend); }
    TookNothing(codec, cap, conn.Gone(), conn.inbox);
    var calls := 0;
    while true
      invariant TraceOk(codec, cap, methods, backend, blocks) && calls == |blocks|
      invariant forall i :: 0 <= i < |blocks| ==> Answered(codec, blocks[i]) && Get(blocks[i].request, "method") != Str("shutdown")
      invariant conn.outbox == before + WireOf(AllWrites(blocks))
      invariant Took(codec, cap, conn.Gone(), input, AllReads(blocks), conn.inbox)
      decreases |conn.inbox|
    {
      ghost var mid, out := conn.inbox, conn.outbox;
      var obj := ReadFrame(conn, codec, cap);
      if obj.Err? {
        TookOne(codec, cap, conn.Gone(), input, AllReads(blocks), mid, obj, |mid| - |conn.inbox|);
        end := InputEnded(obj.error);
        return;
      }
      ghost var afterRead := conn.inbox;
      var r;
      ghost var b;
      r, b := HandleRequest(conn, codec, cap, methods, backend, calls, obj.value);
      calls := calls + 1;
      ghost var call := CallOf(methods, backend, |blocks|, obj.value);
      ghost var noted := conn.outbox;
      var ok, frame := r.Ok?, Err(FramingError);
      end := CallViolated;
      if ok {
        frame := EncodeFrame(codec, r.value, cap);
        ok, end := frame.Ok?, AnswerTooLarge;
      }
      WireOfBlock(codec, b, Write(obj.value, []));
      if !ok {
        WireMore(codec, before, blocks, b, out, conn.outbox);
        ReadsMoreBlocks(codec, cap, conn.Gone(), input, blocks, mid, b, afterRead, conn.inbox);
        TraceMore(codec, cap, methods, backend, blocks, b);
        blocks := blocks + [b];
        assert AllReads(blocks) + [] == AllReads(blocks);
        return;
      }
      ghost var part;
      ok, part := conn.SendAll(frame.value);
      ghost var full := b.(response := Some(Write(r.value, part)));
      assert Served(codec, cap, call, full) by { RespondedServed(codec, cap, call, b, full); }
      WireOfBlock(codec, b, Write(r.value, part));
      WireMore(codec, before, blocks, full, out, conn.outbox);
      ReadsMoreBlocks(codec, cap, conn.Gone(), input, blocks, mid, full, afterRead, conn.inbox);
      TraceMore(codec, cap, methods, backend, blocks, full);
      blocks := blocks + [full];
      assert AllReads(blocks) + [] == AllReads(blocks);
      if !ok {
        end := SendFailed;
        return;
      }
      if Get(obj.value, "method") == Str("shutdown") {
        end := ShutDown;
        return;
      }
    }
  }

  lemma EmptyTrace(codec: Codec, cap: int, methods: set<string>, backend: Backend)
    ensures TraceOk(codec, cap, methods, backend, [])
  {
  }

  lemma RespondedServed(codec: Codec, cap: int, call: Call, b: Block, full: Block)
    requires Served(codec, cap, call, b) && full == b.(response := full.response) && full.response.Some?
    requires AnswerOf(codec, cap, call, b) == Ok(full.response.value.message) && Attempt(codec, cap, full.response.value)
    ensures Served(codec, cap, call, full)
  {
    hide Along, Attempt, AnswerLeaf;
  }

  /** With a backend that catches no exception of its poll, the frames taken beside the requests are well-formed
      cancels, but for the last of a block that is then cut or of a broken transport. */
  lemma UncaughtTrace(codec: Codec, cap: int, methods: set<string>, backend: Backend, blocks: seq<Block>, i: nat)
    requires TraceOk(codec, cap, methods, backend, blocks) && i < |blocks|
    requires forall n, name, params :: backend(n, name, params).Some? ==> CatchesNone(backend(n, name, params).value)
    ensures var b := blocks[i];
      && (forall k :: 0 <= k < |b.taken| - 1 ==> WellFormedCancel(b.taken[k]))
      && (b.response.Some? && b.taken != [] ==> WellFormedCancel(b.taken[|b.taken| - 1]) || b.taken[|b.taken| - 1] == Err(OsError))
  {
    hide BlockOk, Along, CatchesNone, Attempt, BuildError, BuildResponse, ParseCancel;
    var b := blocks[i];
    var call := CallOf(methods, backend, i, b.request);
    assert Served(codec, cap, call, b);
    if call.Runs? { UncaughtEndsCall(Setting(codec, cap, call.mode, call.id), call.start, b.reactions); }
  }

  // ---------- the two ends of the connection

  /** What the peer gets: block after block, the whole notifications and then the response. */
  function AllOutgoing(codec: Codec, blocks: seq<Block>): seq<Message> {
    if blocks == [] then []
    else
      var b := blocks[|blocks| - 1];
      AllOutgoing(codec, blocks[..|blocks| - 1]) + WholeMessages(codec, b.notes) + if Answered(codec, b) then [b.response.value.message] else []
  }

  lemma {:induction false} OutgoingIsWhole(codec: Codec, blocks: seq<Block>)
    ensures AllOutgoing(codec, blocks) == WholeMessages(codec, AllWrites(blocks))
  {
    if blocks != [] {
      var init, b := blocks[..|blocks| - 1], blocks[|blocks| - 1];
      OutgoingIsWhole(codec, init);
      WritesMore(codec, AllWrites(init), WritesOf(b));
      if b.response.Some? {
        var w := b.response.value;
        WritesMore(codec, b.notes, [w]);
        assert [w][1..] == [];
        assert WholeMessages(codec, [w]) == if Whole(codec, w) then [w.message] else [];
      } else {
        assert b.notes + [] == b.notes;
      }
    }
  }

  lemma {:induction false} WritesAreAttempts(codec: Codec, cap: int, blocks: seq<Block>)
    requires forall i :: 0 <= i < |blocks| ==> BlockOk(codec, cap, blocks[i])
    ensures forall i :: 0 <= i < |AllWrites(blocks)| ==> Attempt(codec, cap, AllWrites(blocks)[i])
  {
    hide Attempt, NoteFor, AnswerTo, CancelFor;
    if blocks != [] { WritesAreAttempts(codec, cap, blocks[..|blocks| - 1]); }
  }

  /** If nothing was written after a torn write, the peer reads exactly the whole notifications and responses of the
      blocks, in order. */
  lemma PeerHears(codec: Codec, cap: int, gone: Failure, methods: set<string>, backend: Backend, blocks: seq<Block>)
    requires TraceOk(codec, cap, methods, backend, blocks)
    requires TornLast(codec, AllWrites(blocks)) && ReadsBack(codec, AllOutgoing(codec, blocks))
    ensures ReadAll(codec, cap, gone, WireOf(AllWrites(blocks))) == (AllOutgoing(codec, blocks), gone)
  {
    hide BlockOk, Served, Attempt, AllWrites, AllOutgoing, ReadAll, WireOf;
    OutgoingIsWhole(codec, blocks);
    WritesAreAttempts(codec, cap, blocks);
    PeerReads(codec, cap, gone, AllWrites(blocks));
  }

  /** A request that asks for progress. */
  function AnalyzeRequest(id: string): Message {
    map["jsonrpc" := Str("2.0"), "id" := Str(id), "method" := Str("analyze"), "params" := Obj(map["progress" := Bool(true)])]
  }

  /** A backend that reports progress once and returns. */
  function OneProgress(result: Message): Backend {
    (n, name, params) => Some(EmitProgress(0.0, None, "analyzing", Return(result)))
  }

  function AnalyzingNote(id: string): (note: Message)
    ensures BuildProgress(id, None, "analyzing") == Some(note)
  {
    BuildProgress(id, None, "analyzing").value
  }

  /** A progress write of which `k` bytes went out, and then the whole response. */
  function TornBlock(codec: Codec, id: string, result: Message, k: nat): Block
    requires var note := AnalyzingNote(id);
      |codec.dumps(note)| <= STRUCT_MAX && k <= |FrameOf(codec, note)| && |codec.dumps(BuildResponse(Str(id), result))| <= STRUCT_MAX
  {
    var note, response := AnalyzingNote(id), BuildResponse(Str(id), result);
    var part := FrameOf(codec, note)[..k];
    Block(AnalyzeRequest(id), [Wrote(part)], [Write(note, part)], [], Some(Write(response, FrameOf(codec, response))))
  }

  lemma AnalyzeCall(methods: set<string>, id: string, result: Message)
    requires "analyze" in methods
    ensures CallOf(methods, OneProgress(result), 0, AnalyzeRequest(id))
         == Runs(WithProgress, id, EmitProgress(0.0, None, "analyzing", Return(result)))
  {
    var request := AnalyzeRequest(id);
    assert Get(request, "jsonrpc") == Str("2.0") && Get(request, "id") == Str(id) && Get(request, "method") == Str("analyze");
    assert ParamsOf(request) == Obj(map["progress" := Bool(true)]);
  }

  lemma TornTrail(c: Setting, result: Message, k: nat)
    requires c.mode == WithProgress && Fits(c.codec, AnalyzingNote(c.id), c.cap) && k <= |FrameOf(c.codec, AnalyzingNote(c.id))|
    ensures var part := FrameOf(c.codec, AnalyzingNote(c.id))[..k];
      var t := Along(c, EmitProgress(0.0, None, "analyzing", Return(result)), [Wrote(part)]);
      t.at == Some(Return(result)) && t.notes == [Write(AnalyzingNote(c.id), part)] && t.taken == []
  {
    hide Advance, AnalyzingNote, BuildProgress, FrameOf, Heartbeat.LastOf;
    var frame := FrameOf(c.codec, AnalyzingNote(c.id));
    var start, r := EmitProgress(0.0, None, "analyzing", Return(result)), Wrote(frame[..k]);
    NoReactions(c, start);
    AlongMore(c, start, [], r);
    hide Along;
    assert [] + [r] == [r];
    AdvanceProgress(c, Trail(Some(start), [], [], [], false), r, if frame[..k] == frame then Some(0.0) else None);
  }

  lemma TornBlockServed(codec: Codec, cap: int, methods: set<string>, id: string, result: Message, k: nat)
    requires "analyze" in methods
    requires Fits(codec, AnalyzingNote(id), cap) && Fits(codec, BuildResponse(Str(id), result), cap)
    requires k <= |FrameOf(codec, AnalyzingNote(id))|
    ensures Served(codec, cap, CallOf(methods, OneProgress(result), 0, AnalyzeRequest(id)), TornBlock(codec, id, result, k))
  {
    hide Along, CallOf, AnalyzeRequest, OneProgress, AnalyzingNote, BuildProgress, BuildResponse, FrameOf;
    AnalyzeCall(methods, id, result);
    TornTrail(Setting(codec, cap, WithProgress, id), result, k);
  }

  /** A response can be lost: the backend reports progress, the send is torn inside its body and swallowed, and the whole
      response that follows fits in what the body lacks. The trace is in order, and the peer reads nothing. */
  lemma TornAnswerLost(codec: Codec, cap: int, gone: Failure, methods: set<string>, id: string, result: Message, k: nat)
    requires "analyze" in methods
    requires Fits(codec, AnalyzingNote(id), cap) && Fits(codec, BuildResponse(Str(id), result), cap)
    requires 4 <= k && k + |FrameOf(codec, BuildResponse(Str(id), result))| < |FrameOf(codec, AnalyzingNote(id))|
    ensures var b := TornBlock(codec, id, result, k);
      && TraceOk(codec, cap, methods, OneProgress(result), [b]) && Answered(codec, b)
      && AllOutgoing(codec, [b]) == [BuildResponse(Str(id), result)]
      && ReadAll(codec, cap, gone, WireOf(AllWrites([b]))) == ([], gone)
  {
    hide AnalyzingNote, BuildResponse, Served, CallOf, FrameOf, ReadAll, WireOf, TraceOk;
    var b := TornBlock(codec, id, result, k);
    TornBlockServed(codec, cap, methods, id, result, k);
    EmptyTrace(codec, cap, methods, OneProgress(result));
    TraceMore(codec, cap, methods, OneProgress(result), [], b);
    assert [] + [b] == [b];
    var t, answer := b.notes[0], b.response.value;
    BlocksMore([], b);
    NoBlocks();
    assert AllWrites([b]) == [] + [t] + [answer];
    OneWrite(codec, answer);
    OneWrite(codec, t);
    assert !Whole(codec, t);
    TornInBodyIff(codec, cap, gone, [], t, [answer]);
    OutgoingIsWhole(codec, [b]);
    WritesMore(codec, [t], [answer]);
    assert [t] + [answer] == AllWrites([b]);
  }
}
