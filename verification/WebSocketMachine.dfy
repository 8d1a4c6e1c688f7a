/** The endpoint under every interleaving.  Each call is a task: a stack of places where
    an async function waits, and what the innermost one waits for.  A step lets one task
    run to its next await, starts a call, moves the write queue, or fires the close timer. */
module WebSocketMachine {
  import opened Bytes
  import opened Wire
  import opened WebSocketSpec

  /** A frame enqueued by `#writeFrame`. */
  datatype Op = Op(opcode: nat, payload: seq<byte>)

  /** Who called `#finish`. */
  datatype Finisher = PeerClosed | Failed | TimedOut | TransportEnded(clean: bool)

  /** A call of `onClose`. */
  datatype Report = Report(code: nat, reason: seq<byte>, finisher: Finisher)

  /** The input so far: what arrived on a live socket, what of it reached the buffer, and the
      frames read off the buffer, each in order. */
  datatype Input = Input(received: seq<byte>, fed: seq<byte>, taken: seq<Frame>)

  /** The fields shared by all calls, with the history the properties speak of. */
  datatype Shared = Shared(
    core: Core,
    buffer: seq<byte>,
    pendingInput: seq<byte>,
    queue: seq<Op>,                    // every frame enqueued, in order
    handed: nat,                       // how many were given to transport.write
    results: seq<bool>,                // how those writes settled, in order
    parsed: set<(nat, seq<byte>)>,     // code and reason of every well-formed Close received
    reports: seq<Report>,              // every onClose call
    ends: seq<nat>,                    // writes already settled at each transport.end call
    input: Input)

  const START := Shared(INITIAL, [], [], [], 0, [], {}, [], [], Input([], [], []))

  /** Where an async function waits, named by what it does next. */
  datatype Place =
    | ReadLoop | AfterFailure | AfterHandle | Tail
    | AfterMessage | AfterReport
    | AfterEcho(code: nat, reason: seq<byte>) | AfterPeerEnd(code: nat, reason: seq<byte>)
    | FailureReported(code: nat) | FailureClosing | FailureEnding
    | CloseWritten
    | EndQueued(count: nat) | EndCalled

  /** What the innermost place waits for.  `Done` still yields once before it resumes. */
  datatype Wait = Done(ok: bool, value: bool) | ForWrite(index: nat) | ForQueue(count: nat) | ForOutside

  datatype Task = Task(stack: seq<Place>, wait: Wait)

  /** A call that has run to its first await. */
  datatype Call = Call(shared: Shared, stack: seq<Place>, wait: Wait) {
    function Under(place: Place): Call {
      this.(stack := [place] + stack)
    }
  }

  const OK := Done(true, false)
  const THROWN := Done(false, false)

  datatype Limits = Limits(maxMessageBytes: nat, utf8: seq<byte> -> bool)

  // ---------------------------------------------------------------- calls

  function CallWrite(s: Shared, opcode: nat, payload: seq<byte>): Call {
    Call(s.(queue := s.queue + [Op(opcode, payload)]), [], ForWrite(|s.queue|))
  }

  function CallFinishTransport(s: Shared): Call {
    Call(s.(core := s.core.(timer := false)), [EndQueued(|s.queue|)], ForQueue(|s.queue|))
  }

  function CallFinish(s: Shared, code: nat, reason: seq<byte>, finisher: Finisher): Call {
    if s.core.ready == CLOSED then Call(s, [], OK)
    else
      var reports := s.reports + [Report(code, reason, finisher)];
      Call(s.(core := WebSocketSpec.Finish(s.core, code, reason), reports := reports), [Tail], ForOutside)
  }

  function CallClose(s: Shared, code: int, reason: seq<byte>): Call {
    match StartClose(s.core, code, reason)
    case (_, AlreadyClosed) => Call(s, [], OK)
    case (_, InvalidArgument) => Call(s, [], THROWN)
    case (c, Sending(payload)) => CallWrite(s.(core := c), 0x8, payload).Under(CloseWritten)
  }

  function CallFailure(s: Shared, cause: Cause, code: nat): Call {
    Call(s.(core := Emit(s.core, Reported(cause))), [FailureReported(code)], ForOutside)
  }

  function CallPeerClose(l: Limits, s: Shared, payload: seq<byte>): Call {
    match ParseClose(payload, l.utf8)
    case None => CallFailure(s, InvalidClose, 1002).Under(Tail)
    case Some((code, reason)) =>
      var (c, echo) := StartPeerClose(s.core, code, reason);
      var s' := s.(core := c, parsed := s.parsed + {(code, reason)});
      if echo then CallWrite(s', 0x8, payload).Under(AfterEcho(code, reason))
      else CallFinishTransport(s').Under(AfterPeerEnd(code, reason))
  }

  function CallHandle(l: Limits, s: Shared, f: Frame): Call {
    var (c, next) := Dispatch(s.core, f, l.maxMessageBytes);
    var s' := s.(core := c);
    match next
    case PeerClose(payload) => CallPeerClose(l, s', payload).Under(Tail)
    case SendPong(payload) => CallWrite(s', 0xa, payload).Under(Tail)
    case Nothing => Call(s', [], OK)
    case Violation(cause, code) => CallFailure(s', cause, code).Under(Tail)
    case Deliver(text, message) =>
      if text && !l.utf8(message) then Call(s'.(core := Emit(c, Reported(HandlerFailed))), [AfterReport], ForOutside)
      else Call(s'.(core := Emit(c, Delivered(text, message))), [AfterMessage], ForOutside)
  }

  function CallRead(l: Limits, s: Shared): Call {
    ReadFrameSizes(s.buffer, l.maxMessageBytes);
    match ReadFrame(s.buffer, l.maxMessageBytes)
    case NeedMore => Call(s, [], OK)
    case Fail(cause, code) => CallFailure(s, cause, code).Under(AfterFailure)
    case Parsed(frame, size) =>
      CallHandle(l, Take(s, frame, size), frame).Under(AfterHandle)
  }

  /** A frame leaves the buffer. */
  function Take(s: Shared, frame: Frame, size: nat): Shared
    requires size <= |s.buffer|
  {
    s.(buffer := s.buffer[size..], input := s.input.(taken := s.input.taken + [frame]))
  }

  /** Input reaches the buffer. */
  function Feed(s: Shared, data: seq<byte>): Shared {
    s.(buffer := s.buffer + data, input := s.input.(fed := s.input.fed + data))
  }

  function CallReceive(l: Limits, s: Shared, data: seq<byte>): Call {
    if s.core.ready == CLOSED then Call(s, [], OK)
    else if s.core.ready == CONNECTING then
      var s' := s.(pendingInput := s.pendingInput + data);
      if |s'.pendingInput| > l.maxMessageBytes + 14 then CallFailure(s', InputOverLimit, 1009).Under(Tail)
      else Call(s', [], OK)
    else CallRead(l, Feed(s, data)).Under(ReadLoop)
  }

  function CallReceiveEnd(s: Shared, finished: bool): Call {
    if s.core.ready == CLOSED then Call(s, [], OK)
    else if s.buffer != [] then CallFailure(s, EndedInsideFrame, 1002).Under(Tail)
    else if finished && s.core.receivedClose then
      CallFinish(s, s.core.closeCode, s.core.closeReason, TransportEnded(true)).Under(Tail)
    else CallFinish(s.(core := Emit(s.core, Aborted)), 1006, s.core.closeReason, TransportEnded(false)).Under(Tail)
  }

  function CallAccept(l: Limits, s: Shared, offered: bool): Call {
    if s.core.ready != CONNECTING then Call(s, [], OK)
    else if !offered then Call(s, [], THROWN)
    else
      var s' := s.(core := s.core.(ready := OPEN));
      if s.pendingInput == [] then Call(s', [], OK)
      else CallReceive(l, s'.(pendingInput := []), s.pendingInput).Under(Tail)
  }

  function CallSend(l: Limits, s: Shared, text: bool, data: seq<byte>): Call {
    if s.core.ready != OPEN || |data| > l.maxMessageBytes then Call(s, [], THROWN)
    else CallWrite(s, if text then 0x1 else 0x2, data).Under(Tail)
  }

  /** From one await to the next: `place` resumes with the outcome it waited for. */
  function Resume(l: Limits, s: Shared, place: Place, ok: bool, value: bool): Call {
    match place
    case ReadLoop => if ok && value then CallRead(l, s).Under(ReadLoop) else Call(s, [], Done(ok, false))
    case AfterFailure => Call(s, [], Done(ok, false))
    case AfterHandle => Call(s, [], Done(ok, s.core.ready != CLOSED))
    case Tail => Call(s, [], Done(ok, value))
    case AfterMessage =>
      if ok then Call(s, [], OK)
      else Call(s.(core := Emit(s.core, Reported(HandlerFailed))), [AfterReport], ForOutside)
    case AfterReport =>
      if ok then CallClose(s, 1011, Ascii("Handler failed")).Under(Tail) else Call(s, [], THROWN)
    case AfterEcho(code, reason) =>
      if ok then CallFinishTransport(s).Under(AfterPeerEnd(code, reason)) else Call(s, [], THROWN)
    case AfterPeerEnd(code, reason) => CallFinish(s, code, reason, PeerClosed).Under(Tail)
    case FailureReported(code) =>
      if !ok then Call(s, [], THROWN)
      else if !s.core.sentClose && s.core.ready != CLOSED then
        CallClose(s, code, FailureReason(code)).Under(FailureClosing)
      else CallFinishTransport(s).Under(FailureEnding)
    case FailureClosing => CallFinishTransport(s).Under(FailureEnding)
    case FailureEnding => CallFinish(s, 1006, [], Failed).Under(Tail)
    case CloseWritten =>
      if !ok then Call(s, [], THROWN)
      else if s.core.receivedClose then CallFinishTransport(s).Under(Tail)
      else Call(s.(core := s.core.(timer := true)), [], OK)
    case EndQueued(_) =>
      Call(s.(core := Emit(s.core, Ended(true)), ends := s.ends + [|s.results|]), [EndCalled], ForOutside)
    case EndCalled => Call(if ok then s else s.(core := Emit(s.core, Aborted)), [], OK)
  }

  // ---------------------------------------------------------------- steps

  datatype Machine = Machine(shared: Shared, tasks: seq<Task>)

  datatype Choice =
    | Receives(data: seq<byte>)
    | Ends(finished: bool)
    | Accepts(offered: bool)
    | Sends(text: bool, data: seq<byte>)
    | Closes(code: int, reason: seq<byte>)
    | Resumes(task: nat, ok: bool)     // `ok` is what the outside answers, when it is asked
    | HandsOver                        // the write queue reaches its next frame
    | Settles(ok: bool)                // the transport settles the write in progress
    | Fires                            // the close timer

  /** What a task is told when it resumes, if it can resume now. */
  function Answer(s: Shared, wait: Wait, outside: bool): Option<(bool, bool)> {
    match wait
    case Done(ok, value) => Some((ok, value))
    case ForWrite(i) => if i < |s.results| then Some((s.results[i], true)) else None
    case ForQueue(n) => if n <= |s.results| then Some((true, false)) else None
    case ForOutside => Some((outside, false))
  }

  function Spawn(m: Machine, c: Call): Machine {
    Machine(c.shared, m.tasks + [Task(c.stack, c.wait)])
  }

  function ResumeTask(l: Limits, m: Machine, i: nat, outside: bool): Machine {
    var s := m.shared;
    if i >= |m.tasks| || m.tasks[i].stack == [] then m else
    var stack := m.tasks[i].stack;
    match Answer(s, m.tasks[i].wait, outside)
    case None => m
    case Some((ok, value)) =>
      var c := Resume(l, s, stack[|stack| - 1], ok, value);
      Machine(c.shared, m.tasks[i := Task(stack[..|stack| - 1] + c.stack, c.wait)])
  }

  /** Input on a live socket is part of the history. */
  function Arrive(s: Shared, data: seq<byte>): Shared {
    if s.core.ready == CLOSED then s else s.(input := s.input.(received := s.input.received + data))
  }

  function Step(l: Limits, m: Machine, choice: Choice): Machine {
    var s := m.shared;
    match choice
    case Receives(data) => Spawn(m, CallReceive(l, Arrive(s, data), data))
    case Ends(finished) => Spawn(m, CallReceiveEnd(s, finished))
    case Accepts(offered) => Spawn(m, CallAccept(l, s, offered))
    case Sends(text, data) => Spawn(m, CallSend(l, s, text, data))
    case Closes(code, reason) => Spawn(m, CallClose(s, code, reason))
    case Resumes(i, outside) => ResumeTask(l, m, i, outside)
    case HandsOver =>
      if s.handed == |s.results| < |s.queue| then m.(shared := s.(handed := s.handed + 1)) else m
    case Settles(ok) =>
      if |s.results| < s.handed then m.(shared := s.(results := s.results + [ok])) else m
    case Fires =>
      if s.core.timer
      then Spawn(m, CallFinish(s.(core := Emit(s.core.(timer := false), Aborted)), 1006, [], TimedOut))
      else m
  }

  function RunAll(l: Limits, m: Machine, choices: seq<Choice>): Machine
    decreases |choices|
  {
    if choices == [] then m else RunAll(l, Step(l, m, choices[0]), choices[1..])
  }

  const BEGIN := Machine(START, [])
}
