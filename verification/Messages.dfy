/** The JSON-RPC 2.0 messages of the worker protocol (`ghidra/rpc_framing.py`, sections 4, 4.1 and 5 of
    the JSON-RPC 2.0 Specification): builders, classifiers and parsers.
 */
module Messages {
  import opened Wrappers
  import opened Framing

  const PROGRESS_METHOD := "$/progress"
  const CHUNK_METHOD := "$/chunk"
  const CANCEL_METHOD := "$/cancel"
  const PROGRESS_PHASES: set<string> := {"importing", "analyzing", "finalizing"}
  const CHUNK_KINDS: set<string> := {"function"}

  const CODE_INVALID_REQUEST := -32600
  const CODE_METHOD_NOT_FOUND := -32601
  const CODE_INVALID_PARAMS := -32602
  const CODE_INTERNAL := -32603

  /** A missing member reads as null. */
  function Get(m: Message, key: string): Json { if key in m then m[key] else Null }

  // ---------- builders

  function BuildResponse(id: Json, result: Message): Message {
    map["jsonrpc" := Str("2.0"), "id" := id, "result" := Obj(result)]
  }

  function Slug(code: int): string {
    if code == -32600 then "invalid-request"
    else if code == -32601 then "method-not-found"
    else if code == -32602 then "invalid-params"
    else if code == -32004 then "not-found"
    else if code == -32008 then "limit-exceeded"
    else if code == -32010 then "analysis-failed"
    else "internal-error"
  }

  function BuildError(id: Json, code: int, message: string, detail: Option<string>): Message {
    var data := map["type" := Str(Slug(code))];
    var more := if detail.Some? then data["detail" := Str(detail.value)] else data;
    map["jsonrpc" := Str("2.0"), "id" := id,
        "error" := Obj(map["code" := Int(code), "message" := Str(message), "data" := Obj(more)])]
  }

  function Notification(method_: string, params: Message): Message {
    map["jsonrpc" := Str("2.0"), "method" := Str(method_), "params" := Obj(params)]
  }

  function PercentJson(percent: Option<int>): Json { if percent.Some? then Int(percent.value) else Null }

  /** `None` stands for the ValueError. */
  function BuildProgress(id: string, percent: Option<int>, phase: string): Option<Message> {
    if phase !in PROGRESS_PHASES then None
    else if percent.Some? && (percent.value < 0 || percent.value > 100) then None
    else Some(Notification(PROGRESS_METHOD, map["id" := Str(id), "percent" := PercentJson(percent), "phase" := Str(phase)]))
  }

  function BuildChunk(id: string, seqNo: int, kind: string, payload: Message): Option<Message> {
    if kind !in CHUNK_KINDS then None
    else if seqNo < 0 then None
    else Some(Notification(CHUNK_METHOD, map["id" := Str(id), "seq" := Int(seqNo), "kind" := Str(kind), "payload" := Obj(payload)]))
  }

  // ---------- classifiers

  /** A notification has a method and no id of its own. */
  predicate IsNotification(m: Message, method_: string) { Get(m, "method") == Str(method_) && "id" !in m }

  predicate IsProgress(m: Message) { IsNotification(m, PROGRESS_METHOD) }
  predicate IsChunk(m: Message) { IsNotification(m, CHUNK_METHOD) }
  predicate IsCancel(m: Message) { IsNotification(m, CANCEL_METHOD) }

  // ---------- parsers

  datatype RpcError = RpcError(code: int, message: string, slug: Option<string>, detail: Option<string>)
  datatype ResponseFailure = Malformed | Called(error: RpcError)
  datatype Progress = Progress(id: string, percent: Option<int>, phase: string)
  datatype Chunk = Chunk(id: string, seqNo: nat, kind: string, payload: Message)

  function Shortened(s: string, n: nat): string { if |s| <= n then s else s[..n] }

  function ParseError(err: Json): RpcError {
    match err
    case Obj(e) =>
      var code := match Get(e, "code") case Int(n) => n case Bool(b) => (if b then 1 else 0) case _ => -32603;
      var message := match Get(e, "message") case Str(s) => s case _ => "worker error";
      var data := match Get(e, "data") case Obj(d) => d case _ => map[];
      RpcError(code, Shortened(message, 512),
               match Get(data, "type") case Str(s) => Some(s) case _ => None,
               match Get(data, "detail") case Str(s) => Some(Shortened(s, 256)) case _ => None)
    case _ => RpcError(-32603, "worker error", Some("internal-error"), None)
  }

  function ParseResponse(m: Message, expected: string): Result<Message, ResponseFailure> {
    if Get(m, "jsonrpc") != Str("2.0") then Err(Malformed)
    else if Get(m, "id") != Str(expected) then Err(Malformed)
    else if ("result" in m) == ("error" in m) then Err(Malformed)
    else if "error" in m then Err(Called(ParseError(m["error"])))
    else match m["result"] case Obj(r) => Ok(r) case _ => Err(Malformed)
  }

  /** The params of a well-formed notification of the given kind. */
  function NotificationParams(m: Message, method_: string): Result<Message, Failure> {
    if Get(m, "jsonrpc") != Str("2.0") then Err(ProtocolError)
    else if !IsNotification(m, method_) then Err(ProtocolError)
    else match Get(m, "params") case Obj(p) => Ok(p) case _ => Err(ProtocolError)
  }

  function ParsePercent(raw: Json): Result<Option<int>, Failure> {
    match raw
    case Null => Ok(None)
    case Int(n) => if 0 <= n <= 100 then Ok(Some(n)) else Err(ProtocolError)
    case _ => Err(ProtocolError)
  }

  function ParseProgress(m: Message, expected: string): Result<Progress, Failure> {
    match NotificationParams(m, PROGRESS_METHOD)
    case Err(e) => Err(e)
    case Ok(p) =>
      if Get(p, "id") != Str(expected) then Err(ProtocolError)
      else match (ParsePercent(Get(p, "percent")), Get(p, "phase"))
        case (Ok(percent), Str(phase)) => if phase in PROGRESS_PHASES then Ok(Progress(expected, percent, phase)) else Err(ProtocolError)
        case _ => Err(ProtocolError)
  }

  function ParseChunk(m: Message, expected: string): Result<Chunk, Failure> {
    match NotificationParams(m, CHUNK_METHOD)
    case Err(e) => Err(e)
    case Ok(p) =>
      if Get(p, "id") != Str(expected) then Err(ProtocolError)
      else match (Get(p, "seq"), Get(p, "kind"), Get(p, "payload"))
        case (Int(n), Str(kind), Obj(payload)) =>
          if n >= 0 && kind in CHUNK_KINDS then Ok(Chunk(expected, n, kind, payload)) else Err(ProtocolError)
        case _ => Err(ProtocolError)
  }

  /** The id a well-formed cancel is for. */
  function ParseCancel(m: Message): Result<string, Failure> {
    match NotificationParams(m, CANCEL_METHOD)
    case Err(e) => Err(e)
    case Ok(p) => match Get(p, "id") case Str(id) => Ok(id) case _ => Err(ProtocolError)
  }

  // ---------- round trips

  lemma NotificationRoundTrip(method_: string, params: Message)
    ensures NotificationParams(Notification(method_, params), method_) == Ok(params)
    ensures IsNotification(Notification(method_, params), method_)
  {
  }

  /** A progress frame is built exactly for values its parser accepts, and the parser returns them; any other
      request id is refused. */
  lemma ProgressRoundTrip(id: string, percent: Option<int>, phase: string, expected: string)
    ensures BuildProgress(id, percent, phase).Some? <==> phase in PROGRESS_PHASES && (percent.Some? ==> 0 <= percent.value <= 100)
    ensures BuildProgress(id, percent, phase).Some? ==>
      var m := BuildProgress(id, percent, phase).value;
      IsProgress(m) && ParseProgress(m, expected) == if expected == id then Ok(Progress(id, percent, phase)) else Err(ProtocolError)
  {
    NotificationRoundTrip(PROGRESS_METHOD, map["id" := Str(id), "percent" := PercentJson(percent), "phase" := Str(phase)]);
  }

  lemma ChunkRoundTrip(id: string, seqNo: int, kind: string, payload: Message, expected: string)
    ensures BuildChunk(id, seqNo, kind, payload).Some? <==> kind in CHUNK_KINDS && seqNo >= 0
    ensures BuildChunk(id, seqNo, kind, payload).Some? ==>
      var m := BuildChunk(id, seqNo, kind, payload).value;
      IsChunk(m) && ParseChunk(m, expected) == if expected == id then Ok(Chunk(id, seqNo, kind, payload)) else Err(ProtocolError)
  {
    NotificationRoundTrip(CHUNK_METHOD, map["id" := Str(id), "seq" := Int(seqNo), "kind" := Str(kind), "payload" := Obj(payload)]);
  }

  lemma ResponseRoundTrip(id: string, result: Message, expected: string)
    ensures ParseResponse(BuildResponse(Str(id), result), expected) == if expected == id then Ok(result) else Err(Malformed)
  {
  }

  /** An error response carries its code, slug and texts to the reader, the texts cut to their caps. */
  lemma ErrorRoundTrip(id: string, code: int, message: string, detail: Option<string>)
    ensures ParseResponse(BuildError(Str(id), code, message, detail), id) ==
      Err(Called(RpcError(code, Shortened(message, 512), Some(Slug(code)),
                          if detail.Some? then Some(Shortened(detail.value, 256)) else None)))
  {
    var data := map["type" := Str(Slug(code))];
    var more := if detail.Some? then data["detail" := Str(detail.value)] else data;
    hide Slug;
    var e := map["code" := Int(code), "message" := Str(message), "data" := Obj(more)];
    assert Get(e, "code") == Int(code) && Get(e, "message") == Str(message) && Get(e, "data") == Obj(more);
    assert Get(more, "type") == Str(Slug(code));
  }

  /** No frame is both a notification of one kind and a response, or notifications of two kinds. */
  lemma KindsExclusive(m: Message, expected: string)
    ensures (IsProgress(m) || IsChunk(m) || IsCancel(m)) ==> ParseResponse(m, expected) == Err(Malformed)
    ensures !(IsProgress(m) && IsChunk(m)) && !(IsProgress(m) && IsCancel(m)) && !(IsChunk(m) && IsCancel(m))
    ensures ParseProgress(m, expected).Ok? ==> IsProgress(m)
    ensures ParseChunk(m, expected).Ok? ==> IsChunk(m)
    ensures ParseCancel(m).Ok? ==> IsCancel(m)
  {
    assert |PROGRESS_METHOD| != |CHUNK_METHOD|;
    assert |PROGRESS_METHOD| != |CANCEL_METHOD|;
    assert |CHUNK_METHOD| != |CANCEL_METHOD|;
  }
}
