/** What the worker does for a request, said on the messages themselves and without the functions that compute it. */
module ServeEffects {
  import opened Wrappers
  import opened Framing
  import opened Messages
  import opened Dispatch
  import Heartbeat

  // ---------- the messages, written out

  function ProgressNote(id: string, percent: Option<int>, phase: string): Message {
    map["jsonrpc" := Str("2.0"), "method" := Str("$/progress"),
        "params" := Obj(map["id" := Str(id), "percent" := if percent.Some? then Int(percent.value) else Null, "phase" := Str(phase)])]
  }

  function ChunkNote(id: string, seqNo: int, kind: string, payload: Message): Message {
    map["jsonrpc" := Str("2.0"), "method" := Str("$/chunk"),
        "params" := Obj(map["id" := Str(id), "seq" := Int(seqNo), "kind" := Str(kind), "payload" := Obj(payload)])]
  }

  /** A notification of this method with these params. */
  ghost predicate Notifies(m: Message, name: string, params: Message) {
    Get(m, "jsonrpc") == Str("2.0") && Get(m, "method") == Str(name) && "id" !in m && Get(m, "params") == Obj(params)
  }

  /** A well-formed cancel for the id. */
  ghost predicate Cancels(m: Message, target: string) {
    exists params :: Notifies(m, "$/cancel", params) && Get(params, "id") == Str(target)
  }

  lemma NotificationExact(m: Message, name: string)
    ensures NotificationParams(m, name).Ok? ==> Notifies(m, name, NotificationParams(m, name).value)
    ensures NotificationParams(m, name).Err? ==> NotificationParams(m, name) == Err(ProtocolError)
    ensures forall params :: Notifies(m, name, params) ==> NotificationParams(m, name) == Ok(params)
  {
  }

  lemma CancelExact(m: Message, target: string)
    ensures ParseCancel(m) == Ok(target) <==> Cancels(m, target)
    ensures ParseCancel(m).Err? ==> ParseCancel(m) == Err(ProtocolError)
  {
    NotificationExact(m, "$/cancel");
    hide NotificationParams, Notifies;
    if ParseCancel(m) == Ok(target) { assert Notifies(m, "$/cancel", NotificationParams(m, "$/cancel").value); }
  }

  /** The reader of progress accepts exactly a notification with the expected id, a percent that is null or from 0 to
      100, and one of the three phases. */
  lemma ProgressExact(m: Message, id: string, percent: Option<int>, phase: string)
    ensures ParseProgress(m, id) == Ok(Progress(id, percent, phase)) <==>
      exists params :: Notifies(m, "$/progress", params) && Get(params, "id") == Str(id) && Get(params, "phase") == Str(phase)
        && phase in {"importing", "analyzing", "finalizing"}
        && (if percent.Some? then Get(params, "percent") == Int(percent.value) && 0 <= percent.value <= 100 else Get(params, "percent") == Null)
  {
    NotificationExact(m, "$/progress");
    hide NotificationParams, Notifies;
    if NotificationParams(m, "$/progress").Ok? { assert Notifies(m, "$/progress", NotificationParams(m, "$/progress").value); }
  }

  /** The reader of chunks accepts exactly a notification with the expected id, a number that is not negative, the one
      kind, and an object. */
  lemma ChunkExact(m: Message, id: string, seqNo: nat, kind: string, payload: Message)
    ensures ParseChunk(m, id) == Ok(Chunk(id, seqNo, kind, payload)) <==>
      exists params :: Notifies(m, "$/chunk", params) && Get(params, "id") == Str(id) && Get(params, "seq") == Int(seqNo)
        && Get(params, "kind") == Str(kind) && kind == "function" && Get(params, "payload") == Obj(payload)
  {
    NotificationExact(m, "$/chunk");
    hide NotificationParams, Notifies;
    if NotificationParams(m, "$/chunk").Ok? { assert Notifies(m, "$/chunk", NotificationParams(m, "$/chunk").value); }
  }

  /** The slug of each known code; any other is internal. */
  const SLUGS: map<int, string> := map[
    -32600 := "invalid-request", -32601 := "method-not-found", -32602 := "invalid-params", -32603 := "internal-error",
    -32004 := "not-found", -32008 := "limit-exceeded", -32010 := "analysis-failed"]

  /** What an error says: code and message as given, the slug of the code, the detail if there is one. */
  lemma ErrorExact(id: Json, code: int, text: string, detail: Option<string>)
    ensures var m := BuildError(id, code, text, detail);
      && IsError(m, code, text) && Get(m, "error").members.Keys == {"code", "message", "data"}
      && var data := Get(Get(m, "error").members, "data");
      && data.Obj? && Get(data.members, "type") == Str(if code in SLUGS then SLUGS[code] else "internal-error")
      && (if detail.Some? then Get(data.members, "detail") == Str(detail.value) else "detail" !in data.members)
  {
    assert Slug(code) == if code in SLUGS then SLUGS[code] else "internal-error";
    hide Slug;
  }

  /** The reader of responses: version and id must be right and exactly one of result and error there; then an error is
      called whatever it holds, and a result must be an object. */
  lemma ResponseExact(m: Message, id: string)
    ensures var right := Get(m, "jsonrpc") == Str("2.0") && Get(m, "id") == Str(id);
      && (forall r :: ParseResponse(m, id) == Ok(r) <==> right && "error" !in m && "result" in m && m["result"] == Obj(r))
      && ((exists e :: ParseResponse(m, id) == Err(Called(e))) <==> right && "error" in m && "result" !in m)
  {
    hide ParseError;
    if Get(m, "jsonrpc") == Str("2.0") && Get(m, "id") == Str(id) && "error" in m && "result" !in m {
      assert ParseResponse(m, id) == Err(Called(ParseError(m["error"])));
    }
    forall r ensures ParseResponse(m, id) == Ok(r) <==>
      Get(m, "jsonrpc") == Str("2.0") && Get(m, "id") == Str(id) && "error" !in m && "result" in m && m["result"] == Obj(r)
    {
    }
  }

  /** What the reader makes of an error that it calls; missing and wrong members have their defaults. */
  lemma ParsedErrorExact(err: Json)
    ensures var e := ParseError(err); var m := if err.Obj? then err.members else map[];
      && (Get(m, "code").Int? ==> e.code == Get(m, "code").n)
      && (Get(m, "code").Bool? ==> e.code == if Get(m, "code").flag then 1 else 0)
      && (!Get(m, "code").Int? && !Get(m, "code").Bool? ==> e.code == -32603)
      && (Get(m, "message").Str? ==> e.message == Get(m, "message").s[..if |Get(m, "message").s| <= 512 then |Get(m, "message").s| else 512])
      && (!Get(m, "message").Str? ==> e.message == "worker error")
      && var data := if Get(m, "data").Obj? then Get(m, "data").members else map[];
      && (err.Obj? ==> e.slug == if Get(data, "type").Str? then Some(Get(data, "type").s) else None)
      && (!err.Obj? ==> e.slug == Some("internal-error"))
      && (if Get(data, "detail").Str? then e.detail == Some(Get(data, "detail").s[..if |Get(data, "detail").s| <= 256 then |Get(data, "detail").s| else 256])
          else e.detail == None)
  {
    ShortenedExact();
  }

  lemma ShortenedExact()
    ensures forall s: string, n: nat :: Shortened(s, n) == s[..if |s| <= n then |s| else n]
  {
    forall s: string ensures s[..|s|] == s { }
  }

  // ---------- one step of a call

  ghost predicate FitsFrame(c: Setting, note: Message) { |c.codec.dumps(note)| <= c.cap && |c.codec.dumps(note)| <= 0xFFFFFFFF }

  /** With the emitter at hand, a progress request goes out if and only if it is valid, fits, and comes a quarter of a
      second or more after the last that went out whole; in every case the backend goes on. */
  lemma ProgressStep(c: Setting, t: Trail, r: Reaction, now: real, percent: Option<int>, phase: string, next: Behaviour)
    requires t.at == Some(EmitProgress(now, percent, phase, next)) && c.mode == WithProgress
    ensures var note, t' := ProgressNote(c.id, percent, phase), Advance(c, t, r);
      if phase in {"importing", "analyzing", "finalizing"} && (percent.Some? ==> 0 <= percent.value <= 100) && FitsFrame(c, note)
         && (t.times == [] || now - t.times[|t.times| - 1] >= 0.25)
      then
        && (t'.at.Some? <==> r.Wrote? && r.bytes <= FrameOf(c.codec, note))
        && (t'.at.Some? ==> t' == t.(at := Some(next), notes := t.notes + [Write(note, r.bytes)],
                                     times := if r.bytes == FrameOf(c.codec, note) then t.times + [now] else t.times))
      else (t'.at.Some? <==> r == Held) && (t'.at.Some? ==> t' == t.(at := Some(next)))
  {
    hide FrameOf;
  }

  /** With the emitter at hand, a chunk goes out if and only if it is valid and fits; the backend learns whether it went
      out whole, and otherwise what was wrong. */
  lemma ChunkStep(c: Setting, t: Trail, r: Reaction, seqNo: int, kind: string, payload: Message,
                  sent: Behaviour, invalid: Behaviour, tooLarge: Behaviour, broken: Behaviour)
    requires t.at == Some(EmitChunk(seqNo, kind, payload, sent, invalid, tooLarge, broken)) && c.mode == Streaming
    ensures var note, t' := ChunkNote(c.id, seqNo, kind, payload), Advance(c, t, r);
      if kind == "function" && seqNo >= 0 && FitsFrame(c, note) then
        && (t'.at.Some? <==> r.Wrote? && r.bytes <= FrameOf(c.codec, note))
        && (t'.at.Some? ==> t' == t.(at := Some(if r.bytes == FrameOf(c.codec, note) then sent else broken), notes := t.notes + [Write(note, r.bytes)]))
      else
        && (t'.at.Some? <==> r == Held)
        && (t'.at.Some? ==> t' == t.(at := Some(if kind == "function" && seqNo >= 0 then tooLarge else invalid)))
  {
    hide FrameOf;
  }

  /** A poll that has said yes says yes and looks at nothing. Otherwise it goes on when nothing is there, raises when the
      select fails or the read does, and answers the cancel it read: yes for this id, no for another; any other frame is
      a violation. */
  lemma PollStep(c: Setting, t: Trail, look: Look, cancelled: Behaviour, goOn: Behaviour,
                 onFraming: Behaviour, onProtocol: Behaviour, onEof: Behaviour, onOs: Behaviour)
    requires t.at == Some(Poll(cancelled, goOn, onFraming, onProtocol, onEof, onOs)) && c.mode == Streaming
    ensures var t' := Advance(c, t, Polled(look));
      if t.latched then (t'.at.Some? <==> look == Latched) && (t'.at.Some? ==> t' == t.(at := Some(cancelled)))
      else
        match look
        case Latched => t'.at == None
        case Nothing => t' == t.(at := Some(goOn))
        case SelectFailed => t' == t.(at := Some(onFraming))
        case Got(Err(FramingError)) => t' == t.(at := Some(onFraming), taken := t.taken + [look.read])
        case Got(Err(ProtocolError)) => t' == t.(at := Some(onProtocol), taken := t.taken + [look.read])
        case Got(Err(EofError)) => t' == t.(at := Some(onEof), taken := t.taken + [look.read])
        case Got(Err(OsError)) => t' == t.(at := Some(onOs), taken := t.taken + [look.read])
        case Got(Ok(m)) =>
          && t'.notes == t.notes && t'.times == t.times && t'.taken == t.taken + [look.read]
          && (t'.latched <==> Cancels(m, c.id))
          && t'.at == Some(if Cancels(m, c.id) then cancelled else if exists other :: Cancels(m, other) then goOn else onProtocol)
  {
    assert t.taken + [] == t.taken;
    if look.Got? && look.read.Ok? {
      var m := look.read.value;
      forall other { CancelExact(m, other); }
      hide ParseCancel, Cancels;
      if ParseCancel(m).Ok? { assert Cancels(m, ParseCancel(m).value); }
    }
  }

  /** A request for a tool that was not handed over writes nothing and reads nothing. */
  lemma NoToolStep(c: Setting, t: Trail, r: Reaction)
    requires t.at.Some? && Advance(c, t, r).at.Some?
    requires (t.at.value.EmitProgress? && c.mode != WithProgress) || ((t.at.value.EmitChunk? || t.at.value.Poll?) && c.mode != Streaming)
    ensures r == NoTool && Advance(c, t, r) == t.(at := Advance(c, t, r).at)
    ensures Advance(c, t, r).at.value == if t.at.value.EmitProgress? then t.at.value.next else if t.at.value.EmitChunk? then t.at.value.sent else t.at.value.goOn
  {
    hide BuildProgress, BuildChunk;
  }

  // ---------- which tools a request gets

  ghost predicate HasMethod(m: Message, name: string) { Get(m, "method") == Str(name) }

  ghost predicate NotesByMode(c: Setting, t: Trail) {
    && (t.taken != [] ==> c.mode == Streaming)
    && (forall k :: 0 <= k < |t.notes| ==> HasMethod(t.notes[k].message, "$/progress") || HasMethod(t.notes[k].message, "$/chunk"))
    && (forall k :: 0 <= k < |t.notes| && HasMethod(t.notes[k].message, "$/progress") ==> c.mode == WithProgress)
    && (forall k :: 0 <= k < |t.notes| && HasMethod(t.notes[k].message, "$/chunk") ==> c.mode == Streaming)
  }

  lemma BuiltMethods(id: string, percent: Option<int>, phase: string, seqNo: int, kind: string, payload: Message)
    ensures BuildProgress(id, percent, phase).Some? ==>
      HasMethod(BuildProgress(id, percent, phase).value, "$/progress") && !HasMethod(BuildProgress(id, percent, phase).value, "$/chunk")
    ensures BuildChunk(id, seqNo, kind, payload).Some? ==>
      HasMethod(BuildChunk(id, seqNo, kind, payload).value, "$/chunk") && !HasMethod(BuildChunk(id, seqNo, kind, payload).value, "$/progress")
  {
    assert |"$/progress"| != |"$/chunk"|;
  }

  lemma ByModeStep(c: Setting, t: Trail, r: Reaction)
    requires NotesByMode(c, t)
    ensures NotesByMode(c, Advance(c, t, r))
  {
    if t.at.Some? {
      match t.at.value
      case EmitProgress(_, percent, phase, _) =>
        BuiltMethods(c.id, percent, phase, 0, "", map[]);
        AddsOneNote(c, t, r);
      case EmitChunk(seqNo, kind, payload, _, _, _, _) =>
        BuiltMethods(c.id, None, "", seqNo, kind, payload);
        AddsOneNote(c, t, r);
      case Poll(_, _, _, _, _, _) => AddsOneNote(c, t, r);
      case _ =>
    }
    hide Advance, HasMethod, BuildProgress, BuildChunk;
  }

  /** A step adds at most one note, which the tool at hand has built, and reads only as a streaming call. */
  lemma AddsOneNote(c: Setting, t: Trail, r: Reaction)
    requires t.at.Some?
    ensures var t' := Advance(c, t, r);
      && (t'.taken != t.taken ==> c.mode == Streaming)
      && (t'.notes != t.notes ==>
            && |t'.notes| == |t.notes| + 1 && t'.notes[..|t.notes|] == t.notes
            && match t.at.value
               case EmitProgress(_, percent, phase, _) =>
                 c.mode == WithProgress && Some(t'.notes[|t.notes|].message) == BuildProgress(c.id, percent, phase)
               case EmitChunk(seqNo, kind, payload, _, _, _, _) =>
                 c.mode == Streaming && Some(t'.notes[|t.notes|].message) == BuildChunk(c.id, seqNo, kind, payload)
               case _ => false)
  {
    hide BuildProgress, BuildChunk, FrameOf, PollAnswer;
  }

  lemma {:induction false} EveryTrailByMode(c: Setting, start: Behaviour, rs: seq<Reaction>)
    ensures NotesByMode(c, Along(c, start, rs))
    decreases |rs|
  {
    hide Advance, HasMethod;
    if rs != [] {
      EveryTrailByMode(c, start, rs[..|rs| - 1]);
      ByModeStep(c, Along(c, start, rs[..|rs| - 1]), rs[|rs| - 1]);
    }
  }

  /** In every trace: a block has chunks or poll reads only if its request is `start_decompile_stream`, and progress only
      if it is `analyze` with `progress` literally true; it has no other notifications. */
  lemma ToolsOnlyForMethod(codec: Codec, cap: int, methods: set<string>, backend: Backend, blocks: seq<Block>, i: nat)
    requires TraceOk(codec, cap, methods, backend, blocks) && i < |blocks|
    ensures var b := blocks[i];
      && (forall k :: 0 <= k < |b.notes| ==> HasMethod(b.notes[k].message, "$/progress") || HasMethod(b.notes[k].message, "$/chunk"))
      && ((exists k :: 0 <= k < |b.notes| && HasMethod(b.notes[k].message, "$/chunk")) || b.taken != [] ==> HasMethod(b.request, "start_decompile_stream"))
      && ((exists k :: 0 <= k < |b.notes| && HasMethod(b.notes[k].message, "$/progress")) ==>
            HasMethod(b.request, "analyze") && Get(b.request, "params").Obj? && Get(Get(b.request, "params").members, "progress") == Bool(true))
  {
    hide BlockOk, Along, BuildError, BuildResponse, Attempt, AnswerOf;
    var b := blocks[i];
    assert Served(codec, cap, CallOf(methods, backend, i, b.request), b);
    match CallOf(methods, backend, i, b.request)
    case Settled(_) =>
    case Runs(mode, id, start) => EveryTrailByMode(Setting(codec, cap, mode, id), start, b.reactions);
  }

  // ---------- a tool that is handed over is used

  lemma {:induction false} NotesGrow(c: Setting, start: Behaviour, rs: seq<Reaction>, n: nat)
    requires n <= |rs|
    ensures Along(c, start, rs[..n]).notes <= Along(c, start, rs).notes
    ensures Along(c, start, rs).at.Some? ==> Along(c, start, rs[..n]).at.Some?
    decreases |rs|
  {
    if n == |rs| {
      assert rs[..n] == rs;
    } else {
      assert rs[..|rs| - 1][..n] == rs[..n];
      NotesGrow(c, start, rs[..|rs| - 1], n);
      NotesGrowStep(c, Along(c, start, rs[..|rs| - 1]), rs[|rs| - 1]);
    }
  }

  lemma NotesGrowStep(c: Setting, t: Trail, r: Reaction)
    ensures t.notes <= Advance(c, t, r).notes && (Advance(c, t, r).at.Some? ==> t.at.Some?)
  {
    hide BuildProgress, BuildChunk, FrameOf, Sendable, PollAnswer;
  }

  lemma FirstStep(c: Setting, start: Behaviour, rs: seq<Reaction>)
    requires Along(c, start, rs).at.Some? && Ended(Along(c, start, rs).at.value) && !Ended(start)
    ensures rs != [] && Along(c, start, rs[..1]) == Advance(c, Trail(Some(start), [], [], [], false), rs[0])
    ensures Along(c, start, rs[..1]).at.Some? && Along(c, start, rs[..1]).notes <= Along(c, start, rs).notes
  {
    hide Advance;
    assert rs != [];
    AlongMore(c, start, [], rs[0]);
    assert rs[..1] == [] + [rs[0]];
    NotesGrow(c, start, rs, 1);
  }

  /** A request for this method that reaches the backend, which answers it with this strategy. */
  ghost predicate Reaches(methods: set<string>, backend: Backend, n: nat, obj: Message, id: string, name: string, params: Message, start: Behaviour) {
    && Get(obj, "jsonrpc") == Str("2.0") && Get(obj, "id") == Str(id)
    && Get(obj, "method") == Str(name) && name in methods && name != "ping" && name != "shutdown"
    && (if "params" in obj then obj["params"] == Obj(params) else params == map[])
    && backend(n, name, params) == Some(start)
  }

  /** The tools that go with the method: emitter and poll with `start_decompile_stream`, the progress emitter with an
      `analyze` that asks for it. */
  ghost predicate RightTools(mode: Mode, name: string, params: Message) {
    && (mode == Streaming <==> name == "start_decompile_stream")
    && (mode == WithProgress <==> name == "analyze" && Get(params, "progress") == Bool(true))
  }

  lemma ToolsAreRight(name: string, params: Message)
    ensures RightTools(ModeOf(name, params), name, params)
  {
    assert |"analyze"| != |"start_decompile_stream"|;
  }

  lemma ReachedCall(methods: set<string>, backend: Backend, n: nat, obj: Message, id: string, name: string, params: Message, start: Behaviour)
    requires Reaches(methods, backend, n, obj, id, name, params, start)
    ensures CallOf(methods, backend, n, obj) == Runs(ModeOf(name, params), id, start)
  {
  }

  lemma ReachedRun(codec: Codec, cap: int, methods: set<string>, backend: Backend, blocks: seq<Block>, i: nat,
                   id: string, name: string, params: Message, start: Behaviour) returns (c: Setting)
    requires TraceOk(codec, cap, methods, backend, blocks) && i < |blocks|
    requires Reaches(methods, backend, i, blocks[i].request, id, name, params, start)
    ensures c == Setting(codec, cap, ModeOf(name, params), id)
    ensures var b, t := blocks[i], Along(c, start, blocks[i].reactions);
      t.at.Some? && Ended(t.at.value) && t.notes == b.notes && t.taken == b.taken
  {
    hide BlockOk, Along, Reaches, CallOf, AnswerOf, Attempt;
    ReachedCall(methods, backend, i, blocks[i].request, id, name, params, start);
    assert Served(codec, cap, CallOf(methods, backend, i, blocks[i].request), blocks[i]);
    c := Setting(codec, cap, ModeOf(name, params), id);
  }

  /** A backend that first emits a valid chunk for `start_decompile_stream` has it first in the block. */
  lemma FirstChunkOut(codec: Codec, cap: int, methods: set<string>, backend: Backend, blocks: seq<Block>, i: nat,
                      id: string, params: Message, start: Behaviour)
    requires TraceOk(codec, cap, methods, backend, blocks) && i < |blocks|
    requires Reaches(methods, backend, i, blocks[i].request, id, "start_decompile_stream", params, start)
    requires start.EmitChunk? && start.kind == "function" && start.seqNo >= 0
    requires var text := codec.dumps(ChunkNote(id, start.seqNo, start.kind, start.payload)); |text| <= cap && |text| <= 0xFFFFFFFF
    ensures blocks[i].notes != [] && blocks[i].notes[0].message == ChunkNote(id, start.seqNo, start.kind, start.payload)
  {
    hide TraceOk, Reaches, Along, Advance, ChunkNote, FrameOf;
    var c := ReachedRun(codec, cap, methods, backend, blocks, i, id, "start_decompile_stream", params, start);
    var rs := blocks[i].reactions;
    FirstStep(c, start, rs);
    ChunkStep(c, Trail(Some(start), [], [], [], false), rs[0], start.seqNo, start.kind, start.payload,
              start.sent, start.invalid, start.tooLarge, start.broken);
  }

  /** A backend that first reports valid progress for `analyze` with `progress` true has it first in the block. */
  lemma FirstProgressOut(codec: Codec, cap: int, methods: set<string>, backend: Backend, blocks: seq<Block>, i: nat,
                         id: string, params: Message, start: Behaviour)
    requires TraceOk(codec, cap, methods, backend, blocks) && i < |blocks|
    requires Reaches(methods, backend, i, blocks[i].request, id, "analyze", params, start) && Get(params, "progress") == Bool(true)
    requires start.EmitProgress? && start.phase in {"importing", "analyzing", "finalizing"} && (start.percent.Some? ==> 0 <= start.percent.value <= 100)
    requires var text := codec.dumps(ProgressNote(id, start.percent, start.phase)); |text| <= cap && |text| <= 0xFFFFFFFF
    ensures blocks[i].notes != [] && blocks[i].notes[0].message == ProgressNote(id, start.percent, start.phase)
  {
    hide TraceOk, Reaches, Along, Advance, ProgressNote, FrameOf;
    var c := ReachedRun(codec, cap, methods, backend, blocks, i, id, "analyze", params, start);
    var rs := blocks[i].reactions;
    FirstStep(c, start, rs);
    ProgressStep(c, Trail(Some(start), [], [], [], false), rs[0], start.now, start.percent, start.phase, start.next);
  }

  /** A backend that first polls for `start_decompile_stream` is answered by a look at the socket. */
  lemma FirstPollLooks(codec: Codec, cap: int, methods: set<string>, backend: Backend, blocks: seq<Block>, i: nat,
                       id: string, params: Message, start: Behaviour)
    requires TraceOk(codec, cap, methods, backend, blocks) && i < |blocks|
    requires Reaches(methods, backend, i, blocks[i].request, id, "start_decompile_stream", params, start) && start.Poll?
    ensures var rs := blocks[i].reactions; rs != [] && rs[0].Polled? && rs[0].look != Latched
  {
    hide TraceOk, Reaches, Along, PollAnswer;
    var c := ReachedRun(codec, cap, methods, backend, blocks, i, id, "start_decompile_stream", params, start);
    FirstStep(c, start, blocks[i].reactions);
  }

  // ---------- which answer a request gets

  ghost predicate IsError(m: Message, code: int, text: string) {
    && "result" !in m && Get(m, "error").Obj?
    && Get(Get(m, "error").members, "code") == Int(code) && Get(Get(m, "error").members, "message") == Str(text)
  }

  ghost predicate IsResult(m: Message, result: Message) { "error" !in m && Get(m, "result") == Obj(result) }

  /** Answered without the backend: nothing written or read before. */
  ghost predicate Untouched(b: Block) { b.reactions == [] && b.notes == [] && b.taken == [] }

  lemma BuiltKinds(id: Json, result: Message, code: int, text: string, detail: Option<string>)
    ensures IsResult(BuildResponse(id, result), result) && IsError(BuildError(id, code, text, detail), code, text)
  {
  }

  /** A request is refused with the code of its first fault, before anything reaches the backend; control methods are
      answered without it, and so is a method it lacks. */
  lemma RefusedAnswers(codec: Codec, cap: int, methods: set<string>, backend: Backend, blocks: seq<Block>, i: nat)
    requires TraceOk(codec, cap, methods, backend, blocks) && i < |blocks|
    ensures var b := blocks[i]; var q := b.request;
      if Get(q, "jsonrpc") != Str("2.0") || !Get(q, "id").Str? then
        Untouched(b) && (b.response.Some? ==> IsError(b.response.value.message, -32600, "invalid request envelope"))
      else if !Get(q, "method").Str? || Get(q, "method").s !in methods then
        Untouched(b) && (b.response.Some? ==> IsError(b.response.value.message, -32601, "unknown method"))
      else if "params" in q && !q["params"].Obj? then
        Untouched(b) && (b.response.Some? ==> IsError(b.response.value.message, -32602, "params must be an object"))
      else if Get(q, "method").s in {"ping", "shutdown"} then
        Untouched(b) && (b.response.Some? ==> IsResult(b.response.value.message, map["ok" := Bool(true)]))
      else
        backend(i, Get(q, "method").s, if "params" in q then q["params"].members else map[]).None? ==>
          Untouched(b) && (b.response.Some? ==> IsError(b.response.value.message, -32601, "method not implemented"))
  {
    hide BlockOk, Along, BuildError, BuildResponse, Attempt, IsError, IsResult;
    var b := blocks[i];
    var id := IdOf(b.request);
    BuiltKinds(id, map["ok" := Bool(true)], -32600, "invalid request envelope", None);
    BuiltKinds(id, map["ok" := Bool(true)], -32601, "unknown method", None);
    BuiltKinds(id, map["ok" := Bool(true)], -32602, "params must be an object", None);
    BuiltKinds(id, map["ok" := Bool(true)], -32601, "method not implemented", None);
    assert Served(codec, cap, CallOf(methods, backend, i, b.request), b);
  }

  /** A request that reaches the backend is answered as the backend ended: with its result, its own error, or an internal
      error under the name of the exception; after a wire violation it is not answered. */
  lemma ReachedAnswers(codec: Codec, cap: int, methods: set<string>, backend: Backend, blocks: seq<Block>, i: nat,
                       id: string, name: string, params: Message, start: Behaviour) returns (leaf: Behaviour)
    requires TraceOk(codec, cap, methods, backend, blocks) && i < |blocks|
    requires Reaches(methods, backend, i, blocks[i].request, id, name, params, start)
    ensures exists mode :: RightTools(mode, name, params) && Along(Setting(codec, cap, mode, id), start, blocks[i].reactions).at == Some(leaf)
    ensures blocks[i].response.Some? ==>
      var m := blocks[i].response.value.message;
      match leaf
      case Return(result) => IsResult(m, result)
      case Raise(WorkerExc(code, text, detail)) =>
        IsError(m, code, text) && Get(Get(Get(m, "error").members, "data").members, "detail") == (if detail.Some? then Str(detail.value) else Null)
      case Raise(OtherExc(className)) =>
        IsError(m, -32603, "internal worker error")
        && Get(Get(Get(m, "error").members, "data").members, "detail") == Str(className + ": unhandled worker exception")
      case _ => false
  {
    hide BlockOk, Along, Attempt, Reaches, CallOf;
    var c := ReachedRun(codec, cap, methods, backend, blocks, i, id, name, params, start);
    ReachedCall(methods, backend, i, blocks[i].request, id, name, params, start);
    assert Served(codec, cap, CallOf(methods, backend, i, blocks[i].request), blocks[i]);
    leaf := Along(c, start, blocks[i].reactions).at.value;
    ToolsAreRight(name, params);
    assert Along(Setting(codec, cap, c.mode, id), start, blocks[i].reactions).at == Some(leaf);
  }

  /** The connection is closed without an answer only if the call ended in a wire violation, and then always, or if the
      answer does not fit a frame. */
  lemma ClosedUnanswered(codec: Codec, cap: int, methods: set<string>, backend: Backend, blocks: seq<Block>, end: Ending)
    requires TraceOk(codec, cap, methods, backend, blocks) && EndsWell(codec, cap, methods, backend, blocks, end) && blocks != []
    ensures var n := |blocks| - 1; var b := blocks[n];
      && (b.response.None? <==> end == CallViolated || end == AnswerTooLarge)
      && (end == CallViolated <==>
            exists id, name, params, start, mode, f ::
              && Reaches(methods, backend, n, b.request, id, name, params, start)
              && RightTools(mode, name, params)
              && Along(Setting(codec, cap, mode, id), start, b.reactions).at == Some(Raise(Wire(f))))
      && (end == AnswerTooLarge ==> exists m :: AnswerTo(m, b.request) && (|codec.dumps(m)| > cap || |codec.dumps(m)| > 0xFFFFFFFF))
  {
    hide BlockOk, Along, Attempt, AnswerTo, BuildError, BuildResponse, Whole;
    var n := |blocks| - 1;
    var b := blocks[n];
    var call := CallOf(methods, backend, n, b.request);
    assert Served(codec, cap, call, b);
    SettledAnswers(methods, backend, n, b.request);
    if call.Runs? {
      var leaf := Along(Setting(codec, cap, call.mode, call.id), call.start, b.reactions).at.value;
      LeafAnswers(b.request, leaf);
      var name, params := Get(b.request, "method").s, ParamsOf(b.request).members;
      assert Reaches(methods, backend, n, b.request, call.id, name, params, call.start);
      ToolsAreRight(name, params);
      if end == CallViolated {
        assert leaf.Raise? && leaf.exc.Wire?;
        assert Along(Setting(codec, cap, call.mode, call.id), call.start, b.reactions).at == Some(Raise(Wire(leaf.exc.failure)));
      }
    }
    forall id, name, params, start, mode, f
      | Reaches(methods, backend, n, b.request, id, name, params, start) && RightTools(mode, name, params)
        && Along(Setting(codec, cap, mode, id), start, b.reactions).at == Some(Raise(Wire(f)))
      ensures end == CallViolated
    {
      ReachedCall(methods, backend, n, b.request, id, name, params, start);
      ToolsAreRight(name, params);
      assert call.mode == mode;
    }
  }
}
