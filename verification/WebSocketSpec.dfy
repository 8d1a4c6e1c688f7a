/** What a server WebSocket does, as functions on its state.  The first half holds the
    atomic segments of the endpoint, the code that runs between two awaits; the second
    half strings them together for a run in which every await is allowed to finish
    before the next event arrives. */
module WebSocketSpec {
  import opened Bytes
  import opened Wire

  datatype ReadyState = CONNECTING | OPEN | CLOSING | CLOSED {
    function Rank(): nat {
      match this
      case CONNECTING => 0
      case OPEN => 1
      case CLOSING => 2
      case CLOSED => 3
    }
  }

  /** One observable act: a callback or a call on the transport, with its outcome. */
  datatype Effect =
    | Delivered(text: bool, data: seq<byte>)
    | Reported(cause: Cause)
    | Wrote(opcode: nat, payload: seq<byte>, ok: bool)
    | Ended(ok: bool)
    | Aborted
    | Closed(code: nat, reason: seq<byte>)

  /** The endpoint's fields, except the two input buffers, with everything it has done. */
  datatype Core = Core(
    ready: ReadyState,
    fragments: seq<seq<byte>>,
    fragmentOpcode: nat,
    fragmentBytes: nat,
    sentClose: bool,
    receivedClose: bool,
    closeCode: nat,
    closeReason: seq<byte>,
    timer: bool,
    log: seq<Effect>)

  const INITIAL := Core(CONNECTING, [], 0, 0, false, false, 1006, [], false, [])

  function Emit(c: Core, e: Effect): Core {
    c.(log := c.log + [e])
  }

  // ---------------------------------------------------------------- atomic segments

  /** What `#handleFrame` decides before its first await. */
  datatype Next =
    | PeerClose(payload: seq<byte>)
    | SendPong(payload: seq<byte>)
    | Nothing
    | Violation(cause: Cause, code: nat)
    | Deliver(text: bool, message: seq<byte>)

  function Dispatch(c: Core, f: Frame, maxMessageBytes: nat): (Core, Next) {
    if f.opcode == 0x8 then (c, PeerClose(f.payload))
    else if f.opcode == 0x9 then (c, SendPong(f.payload))
    else if f.opcode == 0xa then (c, Nothing)
    else if f.opcode != 0 && f.opcode != 0x1 && f.opcode != 0x2 then
      (c, Violation(UnsupportedOpcode, 1002))
    else if f.opcode == 0 && c.fragmentOpcode == 0 then (c, Violation(UnexpectedContinuation, 1002))
    else if f.opcode != 0 && c.fragmentOpcode != 0 then (c, Violation(IncompleteMessage, 1002))
    else if !f.fin then
      var c' := c.(fragmentOpcode := if f.opcode != 0 then f.opcode else c.fragmentOpcode,
                   fragmentBytes := c.fragmentBytes + |f.payload|);
      if c'.fragmentBytes > maxMessageBytes then (c', Violation(MessageTooLarge, 1009))
      else (c'.(fragments := c.fragments + [f.payload]), Nothing)
    else if c.fragmentBytes + |f.payload| > maxMessageBytes then (c, Violation(MessageTooLarge, 1009))
    else
      var opcode := if f.opcode == 0 then c.fragmentOpcode else f.opcode;
      (c.(fragments := [], fragmentOpcode := 0, fragmentBytes := 0),
       Deliver(opcode == 0x1, Flatten(c.fragments + [f.payload])))
  }

  /** `validateCloseCode`: the codes an endpoint may put in a Close frame. */
  predicate ValidCloseCode(code: int) {
    1000 <= code < 5000 && !(1016 <= code < 3000) && code !in {1004, 1005, 1006, 1015}
  }

  /** The code and reason of a received Close frame, or nothing if it is malformed. */
  function ParseClose(payload: seq<byte>, utf8: seq<byte> -> bool): Option<(nat, seq<byte>)> {
    if payload == [] then Some((1005, []))
    else if |payload| == 1 then None
    else
      var code := BigEndian(payload[..2]);
      if ValidCloseCode(code) && utf8(payload[2..]) then Some((code, payload[2..])) else None
  }

  datatype CloseStart = AlreadyClosed | InvalidArgument | Sending(payload: seq<byte>)

  /** `close` up to its first await. */
  function StartClose(c: Core, code: int, reason: seq<byte>): (Core, CloseStart) {
    if c.ready == CLOSED || c.sentClose then (c, AlreadyClosed)
    else if !ValidCloseCode(code) || |reason| > 123 then (c, InvalidArgument)
    else (c.(sentClose := true, ready := CLOSING), Sending(ToBigEndian(code, 2) + reason))
  }

  /** `#receiveClose` from the parsed payload to its first await; the flag says whether
      the payload is to be echoed. */
  function StartPeerClose(c: Core, code: nat, reason: seq<byte>): (Core, bool) {
    var c' := c.(receivedClose := true, closeCode := code, closeReason := reason);
    if c.sentClose then (c', false) else (c'.(sentClose := true, ready := CLOSING), true)
  }

  /** `#finish` up to its first await. */
  function Finish(c: Core, code: nat, reason: seq<byte>): Core {
    if c.ready == CLOSED then c
    else Emit(c.(ready := CLOSED, timer := false), Closed(code, reason))
  }

  function Ascii(s: string): seq<byte> {
    seq(|s|, i requires 0 <= i < |s| => (s[i] as int) % 128)
  }

  function FailureReason(code: nat): (reason: seq<byte>)
    ensures |reason| <= 123
  {
    Ascii(if code == 1009 then "Message too large" else "Protocol error")
  }

  // ---------------------------------------------------------------- runs without interleaving

  datatype Action = Send(text: bool, data: seq<byte>) | Close(code: int, reason: seq<byte>)

  /** What a message handler does before its promise settles, and whether it rejects. */
  datatype HandlerRun = HandlerRun(actions: seq<Action>, throws: bool)

  /** Everything outside the endpoint.  Each answer may depend on the whole history. */
  datatype Env = Env(
    maxMessageBytes: nat,
    utf8: seq<byte> -> bool,
    handler: (seq<Effect>, bool, seq<byte>) -> HandlerRun,
    writeOk: seq<Effect> -> bool,
    endOk: seq<Effect> -> bool)

  ghost predicate ValidEnv(env: Env) {
    1 <= env.maxMessageBytes <= MAX_SAFE_INTEGER
  }

  datatype Result = Result(core: Core, rejected: bool)

  function WriteFrame(env: Env, c: Core, opcode: nat, payload: seq<byte>): Result {
    var ok := env.writeOk(c.log);
    Result(Emit(c, Wrote(opcode, payload, ok)), !ok)
  }

  function FinishTransport(env: Env, c: Core): Core {
    var ok := env.endOk(c.log);
    var c' := Emit(c.(timer := false), Ended(ok));
    if ok then c' else Emit(c', Aborted)
  }

  function SendMessage(env: Env, c: Core, text: bool, data: seq<byte>): Result {
    if c.ready != OPEN || |data| > env.maxMessageBytes then Result(c, true)
    else WriteFrame(env, c, if text then 0x1 else 0x2, data)
  }

  function CloseSocket(env: Env, c: Core, code: int, reason: seq<byte>): Result {
    match StartClose(c, code, reason)
    case (_, AlreadyClosed) => Result(c, false)
    case (_, InvalidArgument) => Result(c, true)
    case (c1, Sending(payload)) =>
      var r := WriteFrame(env, c1, 0x8, payload);
      if r.rejected then r
      else if r.core.receivedClose then Result(FinishTransport(env, r.core), false)
      else Result(r.core.(timer := true), false)
  }

  function ProtocolFailure(env: Env, c: Core, cause: Cause, code: nat): Core {
    var c1 := Emit(c, Reported(cause));
    var c2 := if !c1.sentClose && c1.ready != CLOSED
              then CloseSocket(env, c1, code, FailureReason(code)).core else c1;
    Finish(FinishTransport(env, c2), 1006, [])
  }

  function ReceiveClose(env: Env, c: Core, payload: seq<byte>): Result {
    match ParseClose(payload, env.utf8)
    case None => Result(ProtocolFailure(env, c, InvalidClose, 1002), false)
    case Some((code, reason)) => AnswerClose(env, c, payload, code, reason)
  }

  function AnswerClose(env: Env, c: Core, payload: seq<byte>, code: nat, reason: seq<byte>): Result {
    var (c1, echo) := StartPeerClose(c, code, reason);
    var r := if echo then WriteFrame(env, c1, 0x8, payload) else Result(c1, false);
    if r.rejected then r
    else Result(Finish(FinishTransport(env, r.core), code, reason), false)
  }

  function Perform(env: Env, c: Core, actions: seq<Action>): Core
    decreases |actions|
  {
    if actions == [] then c else
    var r := match actions[0]
             case Send(text, data) => SendMessage(env, c, text, data)
             case Close(code, reason) => CloseSocket(env, c, code, reason);
    Perform(env, r.core, actions[1..])
  }

  /** The `try` around the message callback and its `catch`. */
  function DeliverMessage(env: Env, c: Core, text: bool, message: seq<byte>): Result {
    if text && !env.utf8(message) then HandlerFailure(env, c)
    else
      var run := env.handler(c.log, text, message);
      var c' := Perform(env, Emit(c, Delivered(text, message)), run.actions);
      if run.throws then HandlerFailure(env, c') else Result(c', false)
  }

  function HandlerFailure(env: Env, c: Core): Result {
    CloseSocket(env, Emit(c, Reported(HandlerFailed)), 1011, Ascii("Handler failed"))
  }

  function HandleFrame(env: Env, c: Core, f: Frame): Result {
    match Dispatch(c, f, env.maxMessageBytes)
    case (c', PeerClose(payload)) => ReceiveClose(env, c', payload)
    case (c', SendPong(payload)) => WriteFrame(env, c', 0xa, payload)
    case (c', Nothing) => Result(c', false)
    case (c', Violation(cause, code)) => Result(ProtocolFailure(env, c', cause, code), false)
    case (c', Deliver(text, message)) => DeliverMessage(env, c', text, message)
  }

  datatype Run = Run(core: Core, buffer: seq<byte>, rejected: bool)

  /** One `#readFrame`; the flag is what it resolves to. */
  function ReadOne(env: Env, c: Core, buffer: seq<byte>): (r: (Run, bool))
    ensures r.1 ==> |r.0.buffer| < |buffer|
  {
    ReadFrameSizes(buffer, env.maxMessageBytes);
    match ReadFrame(buffer, env.maxMessageBytes)
    case NeedMore => (Run(c, buffer, false), false)
    case Fail(cause, code) => (Run(ProtocolFailure(env, c, cause, code), buffer, false), false)
    case Parsed(frame, size) =>
      var r := HandleFrame(env, c, frame);
      (Run(r.core, buffer[size..], r.rejected), !r.rejected && r.core.ready != CLOSED)
  }

  /** The loop of `receiveData`. */
  function Drain(env: Env, c: Core, buffer: seq<byte>): Run
    decreases |buffer|
  {
    var (r, more) := ReadOne(env, c, buffer);
    if more then Drain(env, r.core, r.buffer) else r
  }

  /** The endpoint with its two input buffers. */
  datatype Socket = Socket(core: Core, buffer: seq<byte>, pendingInput: seq<byte>)

  datatype Outcome = Outcome(socket: Socket, rejected: bool)

  function Fresh(): Socket {
    Socket(INITIAL, [], [])
  }

  function ReceiveData(env: Env, s: Socket, data: seq<byte>): Outcome {
    if s.core.ready == CLOSED then Outcome(s, false)
    else if s.core.ready == CONNECTING then
      var pending := s.pendingInput + data;
      if |pending| > env.maxMessageBytes + 14 then
        Outcome(Socket(ProtocolFailure(env, s.core, InputOverLimit, 1009), s.buffer, pending), false)
      else Outcome(s.(pendingInput := pending), false)
    else
      var r := Drain(env, s.core, s.buffer + data);
      Outcome(Socket(r.core, r.buffer, s.pendingInput), r.rejected)
  }

  function ReceiveEnd(env: Env, s: Socket, finished: bool): Socket {
    if s.core.ready == CLOSED then s
    else if s.buffer != [] then s.(core := ProtocolFailure(env, s.core, EndedInsideFrame, 1002))
    else if finished && s.core.receivedClose then
      s.(core := Finish(s.core, s.core.closeCode, s.core.closeReason))
    else s.(core := Finish(Emit(s.core, Aborted), 1006, s.core.closeReason))
  }

  /** `accept`; the flag says whether the chosen subprotocol was offered. */
  function Accept(env: Env, s: Socket, offered: bool): Outcome {
    if s.core.ready != CONNECTING then Outcome(s, false)
    else if !offered then Outcome(s, true)
    else
      var s' := s.(core := s.core.(ready := OPEN));
      if s.pendingInput == [] then Outcome(s', false)
      else ReceiveData(env, s'.(pendingInput := []), s.pendingInput)
  }
}
