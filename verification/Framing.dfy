/** Length-prefixed JSON frames (`ghidra/rpc_framing.py`) and their reading from a socket that
    fragments at will (`worker/dispatch.py`).

    JSON text is not modelled: a codec is any pair of functions, and where messages are to be
    recovered from their text the codec is required to read back those messages.
 */
module Framing {
  import opened Wrappers

  /** A JSON value; a number with a fraction or an exponent is given by its decimal text. */
  datatype Json =
    | Null
    | Bool(flag: bool)
    | Int(n: int)
    | Float(text: string)
    | Str(s: string)
    | Arr(elements: seq<Json>)
    | Obj(members: Message)

  /** A JSON object. */
  type Message = map<string, Json>

  /** The exceptions that matter on the wire. */
  datatype Failure = FramingError | ProtocolError | EofError | OsError

  datatype Codec = Codec(dumps: Message -> seq<Byte>, loads: seq<Byte> -> Option<Json>)

  /** The codec reads back each of these messages. */
  ghost predicate ReadsBack(codec: Codec, ms: seq<Message>) {
    forall i :: 0 <= i < |ms| ==> codec.loads(codec.dumps(ms[i])) == Some(Obj(ms[i]))
  }

  const LENGTH_PREFIX_BYTES := 4
  const STRUCT_MAX := 0xFFFFFFFF

  // ---------- the frame format

  /** Four bytes, most significant first. */
  function Prefix(n: nat): (p: seq<Byte>)
    requires n <= STRUCT_MAX
    ensures |p| == LENGTH_PREFIX_BYTES
  {
    [n / 0x1000000, n / 0x10000 % 256, n / 256 % 256, n % 256]
  }

  function PrefixValue(p: seq<Byte>): nat
    requires |p| == LENGTH_PREFIX_BYTES
  {
    ((p[0] as int * 256 + p[1]) * 256 + p[2]) * 256 + p[3]
  }

  lemma PrefixRoundTrip(n: nat)
    requires n <= STRUCT_MAX
    ensures PrefixValue(Prefix(n)) == n
  {
    var a, b := n / 256, n / 0x10000;
    assert n / 0x10000 == a / 256;
    assert n / 0x1000000 == b / 256;
    assert n == a * 256 + n % 256;
    assert a == b * 256 + a % 256;
    assert b == (b / 256) * 256 + b % 256;
  }

  predicate Fits(codec: Codec, m: Message, cap: int) {
    |codec.dumps(m)| <= cap && |codec.dumps(m)| <= STRUCT_MAX
  }

  predicate Framable(codec: Codec, ms: seq<Message>) {
    forall i :: 0 <= i < |ms| ==> |codec.dumps(ms[i])| <= STRUCT_MAX
  }

  predicate AllFit(codec: Codec, ms: seq<Message>, cap: int) {
    forall i :: 0 <= i < |ms| ==> Fits(codec, ms[i], cap)
  }

  /** Every list of messages is read back by some codec: the one that writes a message as its place in the list. */
  lemma CodecExists(ms: seq<Message>) returns (codec: Codec)
    ensures ReadsBack(codec, ms)
    ensures |ms| <= STRUCT_MAX ==> AllFit(codec, ms, |ms|)
  {
    codec := Codec(m => seq(PlaceOf(ms, m), _ => 0), text => if |text| < |ms| then Some(Obj(ms[|text|])) else None);
    forall i | 0 <= i < |ms| ensures PlaceOf(ms, ms[i]) < |ms| && ms[PlaceOf(ms, ms[i])] == ms[i] {
      PlaceFound(ms, ms[i]);
    }
  }

  function PlaceOf(ms: seq<Message>, m: Message): nat {
    if ms == [] || ms[0] == m then 0 else 1 + PlaceOf(ms[1..], m)
  }

  lemma {:induction false} PlaceFound(ms: seq<Message>, m: Message)
    requires m in ms
    ensures PlaceOf(ms, m) < |ms| && ms[PlaceOf(ms, m)] == m
  {
    if ms[0] != m { PlaceFound(ms[1..], m); }
  }

  function FrameOf(codec: Codec, m: Message): seq<Byte>
    requires |codec.dumps(m)| <= STRUCT_MAX
  {
    Prefix(|codec.dumps(m)|) + codec.dumps(m)
  }

  function EncodeFrame(codec: Codec, m: Message, cap: int): Result<seq<Byte>, Failure> {
    if !Fits(codec, m, cap) then Err(FramingError) else Ok(FrameOf(codec, m))
  }

  function DecodeLengthPrefix(p: seq<Byte>, cap: int): Result<nat, Failure> {
    if |p| != LENGTH_PREFIX_BYTES then Err(FramingError)
    else if PrefixValue(p) > cap then Err(FramingError)
    else Ok(PrefixValue(p))
  }

  function DecodeBody(codec: Codec, body: seq<Byte>): Result<Message, Failure> {
    match codec.loads(body)
    case Some(Obj(m)) => Ok(m)
    case _ => Err(ProtocolError)
  }

  // ---------- what one read does to a stream of bytes

  /** Outcome of reading one frame, and how many bytes it takes. `gone` is the error at the end of input. */
  function ReadOne(codec: Codec, cap: int, gone: Failure, input: seq<Byte>): (r: (Result<Message, Failure>, nat))
    ensures r.1 <= |input|
    ensures r.0.Ok? ==> r.1 >= LENGTH_PREFIX_BYTES
  {
    if |input| < LENGTH_PREFIX_BYTES then (Err(gone), |input|)
    else
      var n := DecodeLengthPrefix(input[..4], cap);
      if n.Err? then (Err(n.error), 4)
      else if |input| < 4 + n.value then (Err(gone), |input|)
      else (DecodeBody(codec, input[4..4 + n.value]), 4 + n.value)
  }

  /** One read, case by case: too little input is the end of it; a declared length over the cap is refused after the
      prefix; a body that does not load to an object is a protocol error, and taken; any other is its message. */
  lemma ReadOneExact(codec: Codec, cap: int, gone: Failure, input: seq<Byte>)
    ensures var out := ReadOne(codec, cap, gone, input);
      if |input| < 4 then out == (Err(gone), |input|)
      else
        var n := input[0] as int * 0x1000000 + input[1] as int * 0x10000 + input[2] as int * 0x100 + input[3];
        if n > cap then out == (Err(FramingError), 4)
        else if |input| < 4 + n then out == (Err(gone), |input|)
        else
          var loaded := codec.loads(input[4..4 + n]);
          out == (if loaded.Some? && loaded.value.Obj? then Ok(loaded.value.members) else Err(ProtocolError), 4 + n)
  {
  }

  /** A message is framed if and only if its text is within the cap and the range of the prefix. */
  lemma EncodeExact(codec: Codec, m: Message, cap: int)
    ensures var text := codec.dumps(m);
      if |text| <= cap && |text| <= 0xFFFFFFFF then EncodeFrame(codec, m, cap).Ok? && EncodeFrame(codec, m, cap).value[4..] == text
      else EncodeFrame(codec, m, cap) == Err(FramingError)
  {
  }

  /** Reading until the first failure: the messages, then the failure. */
  function ReadAll(codec: Codec, cap: int, gone: Failure, input: seq<Byte>): (seq<Message>, Failure)
    decreases |input|
  {
    var (r, n) := ReadOne(codec, cap, gone, input);
    if r.Err? then ([], r.error)
    else
      var (rest, failure) := ReadAll(codec, cap, gone, input[n..]);
      ([r.value] + rest, failure)
  }

  function StreamOf(codec: Codec, ms: seq<Message>): seq<Byte>
    requires Framable(codec, ms)
  {
    if ms == [] then [] else FrameOf(codec, ms[0]) + StreamOf(codec, ms[1..])
  }

  lemma ReadFrameOf(codec: Codec, cap: int, gone: Failure, m: Message, rest: seq<Byte>)
    requires codec.loads(codec.dumps(m)) == Some(Obj(m)) && Fits(codec, m, cap)
    ensures ReadOne(codec, cap, gone, FrameOf(codec, m) + rest) == (Ok(m), |FrameOf(codec, m)|)
  {
    var input := FrameOf(codec, m) + rest;
    PrefixRoundTrip(|codec.dumps(m)|);
    assert input[..4] == Prefix(|codec.dumps(m)|);
    assert input[4..4 + |codec.dumps(m)|] == codec.dumps(m);
  }

  lemma ReadAllFrame(codec: Codec, cap: int, gone: Failure, m: Message, rest: seq<Byte>)
    requires codec.loads(codec.dumps(m)) == Some(Obj(m)) && Fits(codec, m, cap)
    ensures var (more, failure) := ReadAll(codec, cap, gone, rest);
      ReadAll(codec, cap, gone, FrameOf(codec, m) + rest) == ([m] + more, failure)
  {
    var frame := FrameOf(codec, m);
    ReadFrameOf(codec, cap, gone, m, rest);
    assert (frame + rest)[|frame|..] == rest;
  }

  /** A frame with its last bytes missing is an error, whatever was cut. */
  lemma ReadCutFrame(codec: Codec, cap: int, gone: Failure, m: Message, k: nat)
    requires Fits(codec, m, cap) && k < |FrameOf(codec, m)|
    ensures ReadOne(codec, cap, gone, FrameOf(codec, m)[..k]) == (Err(gone), k)
  {
    if k >= 4 {
      PrefixRoundTrip(|codec.dumps(m)|);
      assert FrameOf(codec, m)[..k][..4] == Prefix(|codec.dumps(m)|);
    }
  }

  lemma ReadAllCut(codec: Codec, cap: int, gone: Failure, m: Message, k: nat)
    requires Fits(codec, m, cap) && k < |FrameOf(codec, m)|
    ensures ReadAll(codec, cap, gone, FrameOf(codec, m)[..k]) == ([], gone)
  {
    ReadCutFrame(codec, cap, gone, m, k);
  }

  lemma ReadAllNothing(codec: Codec, cap: int, gone: Failure)
    ensures ReadAll(codec, cap, gone, []) == ([], gone)
  {
  }

  /** How many of the frames lie wholly before position `k` of their stream. */
  function CompleteFrames(codec: Codec, ms: seq<Message>, k: nat): (r: nat)
    requires Framable(codec, ms)
    ensures r <= |ms|
  {
    if ms == [] || k < |FrameOf(codec, ms[0])| then 0
    else 1 + CompleteFrames(codec, ms[1..], k - |FrameOf(codec, ms[0])|)
  }

  lemma {:induction false} CompleteFramesMeaning(codec: Codec, ms: seq<Message>, k: nat)
    requires Framable(codec, ms)
    ensures var n := CompleteFrames(codec, ms, k);
      && |StreamOf(codec, ms[..n])| <= k
      && (n < |ms| ==> k < |StreamOf(codec, ms[..n + 1])|)
  {
    if ms != [] && k >= |FrameOf(codec, ms[0])| {
      CompleteFramesMeaning(codec, ms[1..], k - |FrameOf(codec, ms[0])|);
      var n := CompleteFrames(codec, ms, k);
      assert ms[..n][1..] == ms[1..][..n - 1];
      if n < |ms| { assert ms[..n + 1][1..] == ms[1..][..n]; }
    } else if ms != [] {
      assert ms[..1][1..] == [];
    }
  }

  /** Cut anywhere, the stream of any messages that fit yields exactly the complete frames before the cut
      and then the error; uncut, it yields them all. */
  lemma {:induction false} CutStream(codec: Codec, cap: int, gone: Failure, ms: seq<Message>, k: nat)
    requires ReadsBack(codec, ms) && AllFit(codec, ms, cap)
    requires k <= |StreamOf(codec, ms)|
    ensures ReadAll(codec, cap, gone, StreamOf(codec, ms)[..k]) == (ms[..CompleteFrames(codec, ms, k)], gone)
  {
    hide ReadAll, FrameOf;
    if ms == [] {
      ReadAllNothing(codec, cap, gone);
    } else {
      var frame := FrameOf(codec, ms[0]);
      var stream := StreamOf(codec, ms);
      if k < |frame| {
        assert stream[..k] == frame[..k];
        ReadAllCut(codec, cap, gone, ms[0], k);
      } else {
        var rest := StreamOf(codec, ms[1..])[..k - |frame|];
        assert stream[..k] == frame + rest;
        ReadAllFrame(codec, cap, gone, ms[0], rest);
        CutStream(codec, cap, gone, ms[1..], k - |frame|);
        assert ms[..CompleteFrames(codec, ms, k)] == [ms[0]] + ms[1..][..CompleteFrames(codec, ms, k) - 1];
      }
    }
  }

  lemma {:induction false} AllComplete(codec: Codec, ms: seq<Message>)
    requires Framable(codec, ms)
    ensures CompleteFrames(codec, ms, |StreamOf(codec, ms)|) == |ms|
  {
    if ms != [] { AllComplete(codec, ms[1..]); }
  }

  lemma StreamRoundTrip(codec: Codec, cap: int, gone: Failure, ms: seq<Message>)
    requires ReadsBack(codec, ms) && AllFit(codec, ms, cap)
    ensures ReadAll(codec, cap, gone, StreamOf(codec, ms)) == (ms, gone)
  {
    AllComplete(codec, ms);
    CutStream(codec, cap, gone, ms, |StreamOf(codec, ms)|);
    assert StreamOf(codec, ms)[..|StreamOf(codec, ms)|] == StreamOf(codec, ms);
    assert ms[..|ms|] == ms;
  }

  // ---------- the socket

  /** A connected socket: bytes still to arrive, then a close or a transport error; and the bytes sent. */
  class Conn {
    var inbox: seq<Byte>
    var outbox: seq<Byte>
    const reset: bool

    constructor (inbox: seq<Byte>, reset: bool)
      ensures this.inbox == inbox && outbox == [] && this.reset == reset
    {
      this.inbox, this.reset, outbox := inbox, reset, [];
    }

    /** The error a read meets once the input is used up. */
    function Gone(): Failure { if reset then OsError else EofError }

    /** Any non-empty part of what is asked for; the empty answer means the peer closed. */
    method Recv(n: nat) returns (r: Result<seq<Byte>, Failure>)
      requires n > 0
      modifies this`inbox
      ensures r.Err? <==> old(inbox) == [] && reset
      ensures r.Err? ==> r.error == OsError && inbox == old(inbox)
      ensures r.Ok? ==> |r.value| <= n && r.value + inbox == old(inbox) && (r.value == [] <==> old(inbox) == [])
    {
      if inbox == [] {
        return if reset then Err(OsError) else Ok([]);
      }
      var k :| 1 <= k <= n && k <= |inbox|;
      r := Ok(inbox[..k]);
      inbox := inbox[k..];
    }

    /** A send that fails may have put any part of the data on the wire. */
    method SendAll(data: seq<Byte>) returns (ok: bool, ghost part: seq<Byte>)
      modifies this`outbox
      ensures outbox == old(outbox) + part && part <= data
      ensures ok <==> part == data
    {
      var k: nat :| k <= |data|;
      outbox := outbox + data[..k];
      ok, part := k == |data|, data[..k];
    }
  }

  method RecvExact(conn: Conn, n: nat) returns (r: Result<seq<Byte>, Failure>)
    modifies conn`inbox
    ensures r.Ok? <==> n <= |old(conn.inbox)|
    ensures r.Ok? ==> r.value == old(conn.inbox)[..n] && conn.inbox == old(conn.inbox)[n..]
    ensures r.Err? ==> r.error == conn.Gone() && conn.inbox == []
  {
    var got: seq<Byte> := [];
    var remaining := n;
    while remaining > 0
      invariant remaining >= 0 && |got| + remaining == n && got + conn.inbox == old(conn.inbox)
    {
      var part := conn.Recv(remaining);
      if part.Err? { return Err(part.error); }
      if part.value == [] { return Err(EofError); }
      got := got + part.value;
      remaining := remaining - |part.value|;
    }
    assert got == old(conn.inbox)[..n] && conn.inbox == old(conn.inbox)[n..];
    r := Ok(got);
  }

  /** One frame: prefix, cap check, then the body, whatever the fragmentation. */
  method ReadFrame(conn: Conn, codec: Codec, cap: int) returns (r: Result<Message, Failure>)
    modifies conn`inbox
    ensures (r, |old(conn.inbox)| - |conn.inbox|) == ReadOne(codec, cap, conn.Gone(), old(conn.inbox))
    ensures |conn.inbox| <= |old(conn.inbox)| && conn.inbox == old(conn.inbox)[|old(conn.inbox)| - |conn.inbox|..]
    ensures |old(conn.inbox)| >= 4 && PrefixValue(old(conn.inbox)[..4]) > cap ==>
      r == Err(FramingError) && conn.inbox == old(conn.inbox)[4..]
  {
    ghost var input := conn.inbox;
    var prefix := RecvExact(conn, LENGTH_PREFIX_BYTES);
    if prefix.Err? { return Err(prefix.error); }
    var n := DecodeLengthPrefix(prefix.value, cap);
    if n.Err? { return Err(n.error); }
    var body := Ok([]);
    if n.value > 0 { body := RecvExact(conn, n.value); }
    if body.Err? { return Err(body.error); }
    assert body.value == input[4..4 + n.value];
    r := DecodeBody(codec, body.value);
  }

  // ---------- reads one after the other, failed ones included

  /** The outcomes of `n` reads in a row, and what is left of the input. */
  function Reads(codec: Codec, cap: int, gone: Failure, input: seq<Byte>, n: nat): (seq<Result<Message, Failure>>, seq<Byte>) {
    if n == 0 then ([], input)
    else
      var (rs, rest) := Reads(codec, cap, gone, input, n - 1);
      var (r, k) := ReadOne(codec, cap, gone, rest);
      (rs + [r], rest[k..])
  }

  /** Reading from `input` gives the outcomes `rs` one after the other and leaves `rest`. */
  ghost predicate Took(codec: Codec, cap: int, gone: Failure, input: seq<Byte>, rs: seq<Result<Message, Failure>>, rest: seq<Byte>) {
    Reads(codec, cap, gone, input, |rs|) == (rs, rest)
  }

  lemma TookNothing(codec: Codec, cap: int, gone: Failure, input: seq<Byte>)
    ensures Took(codec, cap, gone, input, [], input)
  {
  }

  lemma TookOne(codec: Codec, cap: int, gone: Failure, input: seq<Byte>, rs: seq<Result<Message, Failure>>, mid: seq<Byte>,
                r: Result<Message, Failure>, n: nat)
    requires Took(codec, cap, gone, input, rs, mid) && ReadOne(codec, cap, gone, mid) == (r, n)
    ensures Took(codec, cap, gone, input, rs + [r], mid[n..])
  {
  }

  lemma TookLast(codec: Codec, cap: int, gone: Failure, input: seq<Byte>, rs: seq<Result<Message, Failure>>, rest: seq<Byte>)
    returns (mid: seq<Byte>)
    requires Took(codec, cap, gone, input, rs, rest) && rs != []
    ensures Took(codec, cap, gone, input, rs[..|rs| - 1], mid)
    ensures var (r, n) := ReadOne(codec, cap, gone, mid); r == rs[|rs| - 1] && rest == mid[n..]
  {
    hide ReadOne;
    mid := Reads(codec, cap, gone, input, |rs| - 1).1;
  }

  lemma {:induction false} TookMore(codec: Codec, cap: int, gone: Failure, input: seq<Byte>, rs: seq<Result<Message, Failure>>,
                                    mid: seq<Byte>, more: seq<Result<Message, Failure>>, rest: seq<Byte>)
    requires Took(codec, cap, gone, input, rs, mid) && Took(codec, cap, gone, mid, more, rest)
    ensures Took(codec, cap, gone, input, rs + more, rest)
    decreases |more|
  {
    hide ReadOne;
    if more == [] {
      assert rs + more == rs;
    } else {
      hide Took;
      var init := more[..|more| - 1];
      var last := TookLast(codec, cap, gone, mid, more, rest);
      TookMore(codec, cap, gone, input, rs, mid, init, last);
      TookOne(codec, cap, gone, input, rs + init, last, more[|more| - 1], ReadOne(codec, cap, gone, last).1);
      assert rs + init + [more[|more| - 1]] == rs + more;
    }
  }

  lemma {:induction false} TookShrinks(codec: Codec, cap: int, gone: Failure, input: seq<Byte>, rs: seq<Result<Message, Failure>>, rest: seq<Byte>)
    requires Took(codec, cap, gone, input, rs, rest)
    ensures |rest| <= |input|
    decreases |rs|
  {
    if rs != [] {
      var mid := TookLast(codec, cap, gone, input, rs, rest);
      TookShrinks(codec, cap, gone, input, rs[..|rs| - 1], mid);
    }
  }

  function Oks(ms: seq<Message>): seq<Result<Message, Failure>> { seq(|ms|, i requires 0 <= i < |ms| => Ok(ms[i])) }

  /** As long as no read fails, they give what the whole input decodes to. */
  lemma {:induction false} TookDecodes(codec: Codec, cap: int, gone: Failure, input: seq<Byte>, ms: seq<Message>, rest: seq<Byte>)
    requires Took(codec, cap, gone, input, Oks(ms), rest)
    ensures var (more, end) := ReadAll(codec, cap, gone, rest); ReadAll(codec, cap, gone, input) == (ms + more, end)
    decreases |ms|
  {
    var (more, end) := ReadAll(codec, cap, gone, rest);
    if ms == [] {
      assert ms + more == more;
    } else {
      hide Took, ReadOne;
      var init, m := ms[..|ms| - 1], ms[|ms| - 1];
      assert Oks(ms)[..|ms| - 1] == Oks(init);
      var mid := TookLast(codec, cap, gone, input, Oks(ms), rest);
      TookDecodes(codec, cap, gone, input, init, mid);
      assert init + ([m] + more) == ms + more;
    }
  }

  /** When the peer sent whole frames, the reads give its messages in order and fail only after the last of them. */
  lemma {:induction false} TookStream(codec: Codec, cap: int, gone: Failure, ms: seq<Message>, rs: seq<Result<Message, Failure>>, rest: seq<Byte>)
    requires ReadsBack(codec, ms) && AllFit(codec, ms, cap)
    requires Took(codec, cap, gone, StreamOf(codec, ms), rs, rest)
    ensures forall i :: 0 <= i < |rs| ==> rs[i] == if i < |ms| then Ok(ms[i]) else Err(gone)
    ensures rest == StreamOf(codec, ms[if |rs| <= |ms| then |rs| else |ms|..])
    decreases |rs|
  {
    if rs == [] {
      assert ms[0..] == ms;
    } else {
      hide Took, ReadOne;
      var n := |rs| - 1;
      var mid := TookLast(codec, cap, gone, StreamOf(codec, ms), rs, rest);
      TookStream(codec, cap, gone, ms, rs[..n], mid);
      if n < |ms| {
        assert ms[n..][1..] == ms[n + 1..];
        var tail := StreamOf(codec, ms[n + 1..]);
        ReadFrameOf(codec, cap, gone, ms[n], tail);
        assert (FrameOf(codec, ms[n]) + tail)[|FrameOf(codec, ms[n])|..] == tail;
      } else {
        ReadNothing(codec, cap, gone);
      }
    }
  }

  lemma ReadNothing(codec: Codec, cap: int, gone: Failure)
    ensures ReadOne(codec, cap, gone, []) == (Err(gone), 0)
  {
  }

  /** Reading frame after frame gives what the whole stream decodes to, however it is fragmented. */
  method ReadUntilFailure(conn: Conn, codec: Codec, cap: int) returns (ms: seq<Message>, failure: Failure)
    modifies conn`inbox
    ensures (ms, failure) == ReadAll(codec, cap, conn.Gone(), old(conn.inbox))
  {
    hide Took, ReadOne;
    ms := [];
    ghost var input := conn.inbox;
    TookNothing(codec, cap, conn.Gone(), input);
    assert Oks(ms) == [];
    while true
      invariant Took(codec, cap, conn.Gone(), input, Oks(ms), conn.inbox)
      decreases |conn.inbox|
    {
      ghost var mid := conn.inbox;
      var r := ReadFrame(conn, codec, cap);
      if r.Err? {
        TookDecodes(codec, cap, conn.Gone(), input, ms, mid);
        assert ms + [] == ms;
        return ms, r.error;
      }
      TookOne(codec, cap, conn.Gone(), input, Oks(ms), mid, r, |mid| - |conn.inbox|);
      assert Oks(ms) + [r] == Oks(ms + [r.value]);
      ms := ms + [r.value];
    }
  }

  // ---------- writes one after the other, torn ones included

  /** An attempt to send a message: the part of its frame that went out. */
  datatype Write = Write(message: Message, bytes: seq<Byte>)

  ghost predicate Attempt(codec: Codec, cap: int, w: Write) {
    Fits(codec, w.message, cap) && w.bytes <= FrameOf(codec, w.message)
  }

  predicate Whole(codec: Codec, w: Write) {
    |codec.dumps(w.message)| <= STRUCT_MAX && w.bytes == FrameOf(codec, w.message)
  }

  /** Something went out, but not all. */
  predicate Torn(codec: Codec, w: Write) { w.bytes != [] && !Whole(codec, w) }

  function WireOf(ws: seq<Write>): seq<Byte> {
    if ws == [] then [] else ws[0].bytes + WireOf(ws[1..])
  }

  /** The messages that went out whole. */
  function WholeMessages(codec: Codec, ws: seq<Write>): (ms: seq<Message>)
    ensures Framable(codec, ms)
  {
    if ws == [] then []
    else if Whole(codec, ws[0]) then [ws[0].message] + WholeMessages(codec, ws[1..])
    else WholeMessages(codec, ws[1..])
  }

  lemma {:induction false} WritesMore(codec: Codec, ws: seq<Write>, more: seq<Write>)
    ensures WireOf(ws + more) == WireOf(ws) + WireOf(more)
    ensures WholeMessages(codec, ws + more) == WholeMessages(codec, ws) + WholeMessages(codec, more)
  {
    hide Whole;
    if ws == [] {
      assert ws + more == more;
    } else {
      assert (ws + more)[1..] == ws[1..] + more;
      WritesMore(codec, ws[1..], more);
    }
  }

  lemma {:induction false} NothingWritten(codec: Codec, ws: seq<Write>)
    requires forall i :: 0 <= i < |ws| ==> ws[i].bytes == []
    ensures WireOf(ws) == [] && WholeMessages(codec, ws) == []
  {
    if ws != [] { NothingWritten(codec, ws[1..]); }
  }

  /** After a torn write nothing more went out. */
  ghost predicate TornLast(codec: Codec, ws: seq<Write>) {
    forall i, j :: 0 <= i < j < |ws| && Torn(codec, ws[i]) ==> ws[j].bytes == []
  }

  /** If nothing follows a torn write, the peer reads exactly the messages that went out whole. */
  lemma {:induction false} PeerReads(codec: Codec, cap: int, gone: Failure, ws: seq<Write>)
    requires forall i :: 0 <= i < |ws| ==> Attempt(codec, cap, ws[i])
    requires ReadsBack(codec, WholeMessages(codec, ws)) && TornLast(codec, ws)
    ensures ReadAll(codec, cap, gone, WireOf(ws)) == (WholeMessages(codec, ws), gone)
  {
    hide ReadAll, FrameOf;
    if ws == [] {
      ReadAllNothing(codec, cap, gone);
    } else {
      var w, rest := ws[0], ws[1..];
      if Whole(codec, w) {
        var ms := WholeMessages(codec, ws);
        assert ms[0] == w.message && ms[1..] == WholeMessages(codec, rest);
        PeerReads(codec, cap, gone, rest);
        ReadAllFrame(codec, cap, gone, w.message, WireOf(rest));
      } else if w.bytes == [] {
        PeerReads(codec, cap, gone, rest);
        assert WireOf(ws) == WireOf(rest);
      } else {
        NothingWritten(codec, rest);
        assert w.bytes == FrameOf(codec, w.message)[..|w.bytes|];
        assert WireOf(ws) == w.bytes;
        ReadAllCut(codec, cap, gone, w.message, |w.bytes|);
      }
    }
  }

  lemma {:induction false} TornWeighs(codec: Codec, cap: int, ws: seq<Write>)
    requires forall i :: 0 <= i < |ws| ==> Attempt(codec, cap, ws[i])
    ensures |WireOf(ws)| >= |StreamOf(codec, WholeMessages(codec, ws))|
    ensures (exists i :: 0 <= i < |ws| && Torn(codec, ws[i])) ==> |WireOf(ws)| > |StreamOf(codec, WholeMessages(codec, ws))|
    ensures (forall i :: 0 <= i < |ws| ==> !Torn(codec, ws[i])) ==> WireOf(ws) == StreamOf(codec, WholeMessages(codec, ws))
  {
    hide FrameOf;
    if ws != [] {
      TornWeighs(codec, cap, ws[1..]);
      if Whole(codec, ws[0]) { assert WholeMessages(codec, ws)[1..] == WholeMessages(codec, ws[1..]); }
      if i :| 0 <= i < |ws| && Torn(codec, ws[i]) && i > 0 { assert Torn(codec, ws[1..][i - 1]); }
    }
  }

  /** The bytes on the wire are the frames of the whole messages if and only if no write was torn. */
  lemma WireIsStreamIff(codec: Codec, cap: int, ws: seq<Write>)
    requires forall i :: 0 <= i < |ws| ==> Attempt(codec, cap, ws[i])
    ensures WireOf(ws) == StreamOf(codec, WholeMessages(codec, ws)) <==> forall i :: 0 <= i < |ws| ==> !Torn(codec, ws[i])
  {
    TornWeighs(codec, cap, ws);
  }

  /** A write torn inside its body swallows what follows: the peer waits for the rest of the body and gets it from there. */
  lemma TornSwallows(codec: Codec, cap: int, gone: Failure, m: Message, k: nat, after: seq<Byte>)
    requires Fits(codec, m, cap) && 4 <= k && k + |after| < |FrameOf(codec, m)|
    ensures ReadAll(codec, cap, gone, FrameOf(codec, m)[..k] + after) == ([], gone)
  {
    PrefixRoundTrip(|codec.dumps(m)|);
    assert (FrameOf(codec, m)[..k] + after)[..4] == Prefix(|codec.dumps(m)|);
  }

  lemma {:induction false} ReadAllStream(codec: Codec, cap: int, gone: Failure, ms: seq<Message>, rest: seq<Byte>)
    requires ReadsBack(codec, ms) && AllFit(codec, ms, cap)
    ensures var (more, end) := ReadAll(codec, cap, gone, rest); ReadAll(codec, cap, gone, StreamOf(codec, ms) + rest) == (ms + more, end)
    decreases |ms|
  {
    hide ReadAll, FrameOf;
    var (more, end) := ReadAll(codec, cap, gone, rest);
    if ms == [] {
      assert StreamOf(codec, ms) + rest == rest && ms + more == more;
    } else {
      var tail := StreamOf(codec, ms[1..]) + rest;
      assert StreamOf(codec, ms) + rest == FrameOf(codec, ms[0]) + tail;
      ReadAllFrame(codec, cap, gone, ms[0], tail);
      ReadAllStream(codec, cap, gone, ms[1..], rest);
      assert [ms[0]] + (ms[1..] + more) == ms + more;
    }
  }

  lemma {:induction false} WholeFit(codec: Codec, cap: int, ws: seq<Write>)
    requires forall i :: 0 <= i < |ws| ==> Attempt(codec, cap, ws[i])
    ensures AllFit(codec, WholeMessages(codec, ws), cap)
  {
    hide FrameOf;
    if ws != [] { WholeFit(codec, cap, ws[1..]); }
  }

  /** A write torn inside its body, with less behind it than its body lacks: the peer reads what was whole before it and
      nothing after it, so it reads all that was whole if and only if nothing behind it was. */
  lemma TornInBodyIff(codec: Codec, cap: int, gone: Failure, before: seq<Write>, t: Write, after: seq<Write>)
    requires forall i :: 0 <= i < |before| ==> Attempt(codec, cap, before[i]) && !Torn(codec, before[i])
    requires ReadsBack(codec, WholeMessages(codec, before))
    requires Attempt(codec, cap, t) && 4 <= |t.bytes| && |t.bytes| + |WireOf(after)| < |FrameOf(codec, t.message)|
    ensures var ws := before + [t] + after; var all := ReadAll(codec, cap, gone, WireOf(ws));
      all == (WholeMessages(codec, before), gone) && (all == (WholeMessages(codec, ws), gone) <==> WholeMessages(codec, after) == [])
  {
    hide ReadAll, FrameOf, WireOf, StreamOf;
    var ms := WholeMessages(codec, before);
    WritesMore(codec, before + [t], after);
    WritesMore(codec, before, [t]);
    OneWrite(codec, t);
    WireIsStreamIff(codec, cap, before);
    WholeFit(codec, cap, before);
    assert WireOf(before + [t] + after) == StreamOf(codec, ms) + (t.bytes + WireOf(after));
    ReadAllStream(codec, cap, gone, ms, t.bytes + WireOf(after));
    assert t.bytes == FrameOf(codec, t.message)[..|t.bytes|];
    TornSwallows(codec, cap, gone, t.message, |t.bytes|, WireOf(after));
    assert ms + [] == ms;
  }

  lemma OneWrite(codec: Codec, w: Write)
    ensures WireOf([w]) == w.bytes && WholeMessages(codec, [w]) == if Whole(codec, w) then [w.message] else []
  {
    assert [w][1..] == [] && w.bytes + [] == w.bytes;
  }
}
