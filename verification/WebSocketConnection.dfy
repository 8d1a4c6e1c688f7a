/** The endpoint in its own, imperative, form: every method is proved to do to the fields
    what `WebSocketSpec` says, and the bytes given to the transport are kept decodable. */
module WebSocketConnection {
  import opened Bytes
  import opened Wire
  import opened WebSocketSpec
  import opened WebSocketFacts
  import Calls

  /** Takes the masking key off a payload in place. */
  method Unmask(payload: array<byte>, mask: seq<byte>)
    requires |mask| == 4
    modifies payload
    ensures payload[..] == Masked(old(payload[..]), mask)
  {
    for index := 0 to payload.Length
      invariant forall k | 0 <= k < index :: payload[k] == Xor(old(payload[..])[k], mask[k % 4])
      invariant forall k | index <= k < payload.Length :: payload[k] == old(payload[..])[k]
    {
      payload[index] := Xor(payload[index], mask[index % 4]);
    }
  }

  ghost predicate Carries(sent: seq<byte>, log: seq<Effect>) {
    (forall f <- Written(log) :: WellFormed(f)) && sent == LayoutAll(Written(log))
  }

  lemma {:induction false} CarriesMore(sent: seq<byte>, log: seq<Effect>, e: Effect)
    requires Carries(sent, log) && (e.Wrote? ==> e.opcode < 16 && |e.payload| <= MAX_SAFE_INTEGER)
    ensures Carries(sent + (if e.Wrote? then Layout(ServerFrame(e.opcode, e.payload)) else []), log + [e])
  {
    hide Written, LayoutAll, Layout;
    WrittenGrows(log, e);
    if e.Wrote? {
      LayoutAllAppend(Written(log), ServerFrame(e.opcode, e.payload));
    } else {
      assert sent + [] == sent && Written(log) + [] == Written(log);
    }
  }

  /** What the length field of a buffered frame comes to. */
  datatype Header = Waiting | Bad(cause: Cause, code: nat) | Ends(offset: nat, length: nat)

  class Connection {
    const env: Env

    var readyState: ReadyState
    var buffer: seq<byte>
    var pendingInput: seq<byte>
    var fragments: seq<seq<byte>>
    var fragmentOpcode: nat
    var fragmentBytes: nat
    var sentClose: bool
    var receivedClose: bool
    var closeCode: nat
    var closeReason: seq<byte>
    var closeTimer: bool

    /** The calls made on the outside, and the bytes given to `transport.write`. */
    var log: seq<Effect>
    var sent: seq<byte>

    function View(): Core
      reads this
    {
      Core(readyState, fragments, fragmentOpcode, fragmentBytes, sentClose, receivedClose,
           closeCode, closeReason, closeTimer, log)
    }

    function Snapshot(): Socket
      reads this
    {
      Socket(View(), buffer, pendingInput)
    }

    /** What went out is, byte for byte, the frames in the log. */
    ghost predicate Valid()
      reads this
    {
      ValidEnv(env) && Carries(sent, log)
    }

    constructor (env: Env)
      requires ValidEnv(env)
      ensures Valid() && this.env == env && Snapshot() == Fresh()
    {
      this.env := env;
      readyState := CONNECTING;
      buffer, pendingInput, fragments := [], [], [];
      fragmentOpcode, fragmentBytes := 0, 0;
      sentClose, receivedClose, closeTimer := false, false, false;
      closeCode, closeReason := 1006, [];
      log, sent := [], [];
    }

    /** A call on the outside that writes no bytes. */
    method Record(e: Effect)
      requires Valid() && !e.Wrote?
      modifies this`log
      ensures Valid() && View() == Emit(old(View()), e)
    {
      hide Carries;
      CarriesMore(sent, log, e);
      assert sent + [] == sent;
      log := log + [e];
    }

    method WriteFrame(opcode: nat, payload: seq<byte>) returns (rejected: bool)
      requires Valid() && opcode < 16 && |payload| <= MAX_SAFE_INTEGER
      modifies this`log, this`sent
      ensures Valid()
      ensures Result(View(), rejected) == WebSocketSpec.WriteFrame(env, old(View()), opcode, payload)
      ensures sent == old(sent) + Layout(ServerFrame(opcode, payload))
    {
      hide Carries;
      var frame := EncodeFrame(opcode, payload);
      var ok := env.writeOk(log);
      CarriesMore(sent, log, Wrote(opcode, payload, ok));
      sent := sent + frame[..];
      log := log + [Wrote(opcode, payload, ok)];
      rejected := !ok;
    }

    method FinishTransport()
      requires Valid()
      modifies this`log, this`closeTimer
      ensures Valid() && View() == WebSocketSpec.FinishTransport(env, old(View()))
    {
      closeTimer := false;
      var ok := env.endOk(log);
      Record(Ended(ok));
      if !ok {
        Record(Aborted);
      }
    }

    method Finish(code: nat, reason: seq<byte>)
      requires Valid()
      modifies this`log, this`closeTimer, this`readyState
      ensures Valid() && View() == WebSocketSpec.Finish(old(View()), code, reason)
    {
      if readyState == CLOSED {
        return;
      }
      closeTimer := false;
      readyState := CLOSED;
      Record(Closed(code, reason));
    }

    /** The close timer, if it has not been cleared. */
    method RunTimer()
      requires Valid()
      modifies this`log, this`closeTimer, this`readyState
      ensures Valid() && View() == Calls.TimeOut(old(View()))
    {
      hide Carries;
      if closeTimer {
        closeTimer := false;
        Record(Aborted);
        Finish(1006, []);
      }
    }

    method Send(text: bool, data: seq<byte>) returns (rejected: bool)
      requires Valid()
      modifies this`log, this`sent
      ensures Valid() && Result(View(), rejected) == SendMessage(env, old(View()), text, data)
      ensures old(readyState) == OPEN && |data| <= env.maxMessageBytes ==>
                sent == old(sent) + (if text then Layout(ServerFrame(0x1, data)) else Layout(ServerFrame(0x2, data)))
      ensures old(readyState) != OPEN || |data| > env.maxMessageBytes ==> rejected && sent == old(sent)
    {
      hide Carries;
      if readyState != OPEN {
        return true;
      }
      if |data| > env.maxMessageBytes {
        return true;
      }
      rejected := WriteFrame(if text then 0x1 else 0x2, data);
    }

    method Close(code: int, reason: seq<byte>) returns (rejected: bool)
      requires Valid()
      modifies this`log, this`sent, this`sentClose, this`readyState, this`closeTimer
      ensures Valid() && Result(View(), rejected) == CloseSocket(env, old(View()), code, reason)
    {
      hide WebSocketSpec.WriteFrame, WebSocketSpec.FinishTransport, Carries, Flatten;
      if readyState == CLOSED || sentClose {
        return false;
      }
      if !ValidCloseCode(code) || |reason| > 123 {
        return true;
      }
      var payload := Concat([ToBigEndian(code, 2), reason]);
      FlattenShort(ToBigEndian(code, 2), reason);
      sentClose := true;
      readyState := CLOSING;
      rejected := WriteFrame(0x8, payload[..]);
      if rejected {
        return;
      }
      if receivedClose {
        FinishTransport();
      } else {
        closeTimer := true;
      }
    }

    method ProtocolFailure(cause: Cause, code: nat)
      requires Valid()
      modifies this`log, this`sent, this`sentClose, this`readyState, this`closeTimer
      ensures Valid() && View() == WebSocketSpec.ProtocolFailure(env, old(View()), cause, code)
    {
      Record(Reported(cause));
      if !sentClose && readyState != CLOSED {
        var ignored := Close(code, FailureReason(code));
      }
      FinishTransport();
      Finish(1006, []);
    }

    /** A well-formed Close: recorded, echoed if none was sent, and the end of the transport. */
    method AnswerClose(payload: seq<byte>, code: nat, reason: seq<byte>) returns (rejected: bool)
      requires Valid() && |payload| <= MAX_SAFE_INTEGER
      modifies this`log, this`sent, this`sentClose, this`readyState, this`closeTimer
      modifies this`receivedClose, this`closeCode, this`closeReason
      ensures Valid()
      ensures Result(View(), rejected) == WebSocketSpec.AnswerClose(env, old(View()), payload, code, reason)
    {
      hide WebSocketSpec.FinishTransport, WebSocketSpec.WriteFrame, WebSocketSpec.Finish, Carries;
      receivedClose := true;
      closeCode := code;
      closeReason := reason;
      if !sentClose {
        sentClose := true;
        readyState := CLOSING;
        rejected := WriteFrame(0x8, payload);
        if rejected {
          return;
        }
      }
      FinishTransport();
      Finish(code, reason);
      rejected := false;
    }

    method ReceiveClose(payload: seq<byte>)
      returns (rejected: bool)
      requires Valid() && |payload| <= MAX_SAFE_INTEGER
      modifies this`log, this`sent, this`sentClose, this`readyState, this`closeTimer
      modifies this`receivedClose, this`closeCode, this`closeReason
      ensures Valid() && Result(View(), rejected) == WebSocketSpec.ReceiveClose(env, old(View()), payload)
    {
      hide WebSocketSpec.ProtocolFailure, WebSocketSpec.AnswerClose, BigEndian, Carries;
      var code, reason := 1005, [];
      if |payload| >= 2 {
        code := BigEndian(payload[..2]);
        reason := payload[2..];
      }
      if |payload| == 1 || (|payload| >= 2 && !(ValidCloseCode(code) && env.utf8(reason))) {
        ProtocolFailure(InvalidClose, 1002);
        return false;
      }
      rejected := AnswerClose(payload, code, reason);
    }

    /** What the message handler does with the socket while it runs. */
    method RunHandler(actions: seq<Action>)
      requires Valid()
      modifies this`log, this`sent, this`sentClose, this`readyState, this`closeTimer
      ensures Valid() && View() == Perform(env, old(View()), actions)
    {
      for i := 0 to |actions|
        invariant Valid()
        invariant Perform(env, View(), actions[i..]) == Perform(env, old(View()), actions)
      {
        assert actions[i..][1..] == actions[i + 1..];
        var ignored;
        match actions[i] {
          case Send(text, data) => ignored := Send(text, data);
          case Close(code, reason) => ignored := Close(code, reason);
        }
      }
    }

    method DeliverMessage(text: bool, message: seq<byte>) returns (rejected: bool)
      requires Valid()
      modifies this`log, this`sent, this`sentClose, this`readyState, this`closeTimer
      ensures Valid() && Result(View(), rejected) == WebSocketSpec.DeliverMessage(env, old(View()), text, message)
    {
      var failed := text && !env.utf8(message);
      if !failed {
        var run := env.handler(log, text, message);
        Record(Delivered(text, message));
        RunHandler(run.actions);
        failed := run.throws;
      }
      rejected := false;
      if failed {
        Record(Reported(HandlerFailed));
        rejected := Close(1011, Ascii("Handler failed"));
      }
    }

    /** A part of a message that is not its last: kept, or too much. */
    method KeepPart(f: Frame)
      requires Valid() && !f.fin && f.opcode in {0, 0x1, 0x2} && (f.opcode == 0) == (fragmentOpcode != 0)
      modifies this`log, this`sent, this`sentClose, this`readyState, this`closeTimer
      modifies this`fragments, this`fragmentOpcode, this`fragmentBytes
      ensures Valid() && Result(View(), false) == WebSocketSpec.HandleFrame(env, old(View()), f)
    {
      hide WebSocketSpec.ProtocolFailure, Carries;
      if f.opcode != 0 {
        fragmentOpcode := f.opcode;
      }
      fragmentBytes := fragmentBytes + |f.payload|;
      if fragmentBytes > env.maxMessageBytes {
        ProtocolFailure(MessageTooLarge, 1009);
      } else {
        fragments := fragments + [f.payload];
      }
    }

    /** The last part of a message: delivered with those before it, or too much. */
    method FinishMessage(f: Frame) returns (rejected: bool)
      requires Valid() && f.fin && f.opcode in {0, 0x1, 0x2} && (f.opcode == 0) == (fragmentOpcode != 0)
      modifies this`log, this`sent, this`sentClose, this`readyState, this`closeTimer
      modifies this`fragments, this`fragmentOpcode, this`fragmentBytes
      ensures Valid() && Result(View(), rejected) == WebSocketSpec.HandleFrame(env, old(View()), f)
    {
      hide WebSocketSpec.ProtocolFailure, WebSocketSpec.DeliverMessage, Flatten, Carries;
      if fragmentBytes + |f.payload| > env.maxMessageBytes {
        ProtocolFailure(MessageTooLarge, 1009);
        return false;
      }
      var opcode := if f.opcode == 0 then fragmentOpcode else f.opcode;
      var message := Concat(fragments + [f.payload]);
      fragments, fragmentOpcode, fragmentBytes := [], 0, 0;
      rejected := DeliverMessage(opcode == 0x1, message[..]);
    }

    /** A continuation of nothing, or a new message inside another. */
    method RefuseMisplaced(f: Frame)
      requires Valid() && f.opcode in {0, 0x1, 0x2} && (f.opcode == 0) == (fragmentOpcode == 0)
      modifies this`log, this`sent, this`sentClose, this`readyState, this`closeTimer
      ensures Valid() && Result(View(), false) == WebSocketSpec.HandleFrame(env, old(View()), f)
    {
      hide WebSocketSpec.ProtocolFailure, Carries;
      ProtocolFailure(if f.opcode == 0 then UnexpectedContinuation else IncompleteMessage, 1002);
    }

    /** A data frame: misplaced, kept, or the end of a message. */
    method HandleData(f: Frame) returns (rejected: bool)
      requires Valid() && f.opcode in {0, 0x1, 0x2}
      modifies this`log, this`sent, this`sentClose, this`readyState, this`closeTimer
      modifies this`fragments, this`fragmentOpcode, this`fragmentBytes
      ensures Valid() && Result(View(), rejected) == WebSocketSpec.HandleFrame(env, old(View()), f)
    {
      hide WebSocketSpec.HandleFrame, Carries;
      rejected := false;
      if (f.opcode == 0) == (fragmentOpcode == 0) {
        RefuseMisplaced(f);
      } else if f.fin {
        rejected := FinishMessage(f);
      } else {
        KeepPart(f);
      }
    }

    /** A control frame, or an opcode that means nothing. */
    method HandleControl(f: Frame) returns (rejected: bool)
      requires Valid() && |f.payload| <= MAX_SAFE_INTEGER && f.opcode !in {0, 0x1, 0x2}
      modifies this`log, this`sent, this`sentClose, this`readyState, this`closeTimer
      modifies this`receivedClose, this`closeCode, this`closeReason
      ensures Valid() && Result(View(), rejected) == WebSocketSpec.HandleFrame(env, old(View()), f)
    {
      hide WebSocketSpec.ProtocolFailure, WebSocketSpec.ReceiveClose, WebSocketSpec.WriteFrame, Carries;
      rejected := false;
      if f.opcode == 0x8 {
        rejected := ReceiveClose(f.payload);
      } else if f.opcode == 0x9 {
        rejected := WriteFrame(0xa, f.payload);
      } else if f.opcode != 0xa {
        ProtocolFailure(UnsupportedOpcode, 1002);
      }
    }

    method HandleFrame(f: Frame) returns (rejected: bool)
      requires Valid() && |f.payload| <= MAX_SAFE_INTEGER
      modifies this
      ensures Valid() && buffer == old(buffer) && pendingInput == old(pendingInput)
      ensures Result(View(), rejected) == WebSocketSpec.HandleFrame(env, old(View()), f)
    {
      hide WebSocketSpec.HandleFrame, Carries;
      if f.opcode in {0, 0x1, 0x2} {
        rejected := HandleData(f);
      } else {
        rejected := HandleControl(f);
      }
    }

    /** The payload length and where it ends, once the first two bytes are known to be sound. */
    method ReadLength() returns (header: Header)
      requires |buffer| >= 2 && (buffer[0] / 16) % 8 == 0 && buffer[1] >= 128
      ensures match header
              case Waiting => Wire.ReadFrame(buffer, env.maxMessageBytes) == NeedMore
              case Bad(cause, code) => Wire.ReadFrame(buffer, env.maxMessageBytes) == Fail(cause, code)
              case Ends(offset, length) =>
                && 2 <= offset <= |buffer|
                && Wire.ReadFrame(buffer, env.maxMessageBytes)
                   == ReadPayload(buffer, offset, length, env.maxMessageBytes)
    {
      hide BigEndian, ReadPayload;
      var payloadLength := buffer[1] % 128;
      if payloadLength == 126 {
        if |buffer| < 4 {
          return Waiting;
        }
        payloadLength := BigEndian(buffer[2..4]);
        if payloadLength < 126 {
          return Bad(NonMinimalLength, 1002);
        }
        return Ends(4, payloadLength);
      }
      if payloadLength == 127 {
        if |buffer| < 10 {
          return Waiting;
        }
        if buffer[2] >= 128 {
          return Bad(InvalidLength, 1002);
        }
        payloadLength := BigEndian(buffer[2..10]);
        if payloadLength > MAX_SAFE_INTEGER {
          return Bad(LengthTooLarge, 1009);
        }
        if payloadLength <= 0xffff {
          return Bad(NonMinimalLength, 1002);
        }
        return Ends(10, payloadLength);
      }
      header := Ends(2, payloadLength);
    }

    /** The rest of the frame, behind a header that ends at `offset`. */
    method ReadBody(offset: nat, payloadLength: nat) returns (more: bool, rejected: bool)
      requires Valid() && 2 <= offset <= |buffer|
      requires Wire.ReadFrame(buffer, env.maxMessageBytes)
               == ReadPayload(buffer, offset, payloadLength, env.maxMessageBytes)
      modifies this
      ensures Valid() && pendingInput == old(pendingInput)
      ensures (Run(View(), buffer, rejected), more) == ReadOne(env, old(View()), old(buffer))
    {
      hide WebSocketSpec.ProtocolFailure, WebSocketSpec.HandleFrame, Wire.ReadFrame, Masked, Flatten, Carries;
      more, rejected := false, false;
      var fin, opcode := buffer[0] >= 128, buffer[0] % 16;
      var control := opcode >= 0x8;
      if (control && (!fin || payloadLength > 125)) || payloadLength > env.maxMessageBytes {
        ProtocolFailure(if control then InvalidControlFrame else FrameTooLarge, if control then 1002 else 1009);
        return;
      }
      if |buffer| < offset + 4 + payloadLength {
        return;
      }
      var mask, start := buffer[offset..offset + 4], offset + 4;
      FlattenShort(buffer[start..start + payloadLength], []);
      var payload := Concat([buffer[start..start + payloadLength]]);
      Unmask(payload, mask);
      buffer := buffer[start + payloadLength..];
      rejected := HandleFrame(Frame(fin, opcode, payload[..]));
      more := !rejected && readyState != CLOSED;
    }

    method ReadFrame() returns (more: bool, rejected: bool)
      requires Valid()
      modifies this
      ensures Valid() && pendingInput == old(pendingInput)
      ensures (Run(View(), buffer, rejected), more) == ReadOne(env, old(View()), old(buffer))
    {
      hide WebSocketSpec.ProtocolFailure, WebSocketSpec.HandleFrame, BigEndian, Masked, Flatten, Carries;
      ReadFrameSizes(buffer, env.maxMessageBytes);
      more, rejected := false, false;
      if |buffer| < 2 {
        return;
      }
      if (buffer[0] / 16) % 8 != 0 {
        ProtocolFailure(UnsupportedRsv, 1002);
        return;
      }
      if buffer[1] < 128 {
        ProtocolFailure(UnmaskedFrame, 1002);
        return;
      }
      var header := ReadLength();
      hide Wire.ReadFrame;
      match header {
        case Waiting =>
        case Bad(cause, code) => ProtocolFailure(cause, code);
        case Ends(offset, length) => more, rejected := ReadBody(offset, length);
      }
    }

    method ReceiveData(data: seq<byte>) returns (rejected: bool)
      requires Valid()
      modifies this
      ensures Valid() && Outcome(Snapshot(), rejected) == WebSocketSpec.ReceiveData(env, old(Snapshot()), data)
    {
      hide WebSocketSpec.ProtocolFailure, ReadOne, Carries, Flatten;
      rejected := false;
      if readyState == CLOSED {
        return;
      }
      if readyState == CONNECTING {
        FlattenShort(pendingInput, data);
        var joined := Concat([pendingInput, data]);
        pendingInput := joined[..];
        if |pendingInput| > env.maxMessageBytes + 14 {
          ProtocolFailure(InputOverLimit, 1009);
        }
        return;
      }
      FlattenShort(buffer, data);
      var joined := Concat([buffer, data]);
      buffer := joined[..];
      ghost var target := Drain(env, View(), buffer);
      var more;
      more, rejected := ReadFrame();
      while more
        invariant Valid() && pendingInput == old(pendingInput)
        invariant target == if more then Drain(env, View(), buffer) else Run(View(), buffer, rejected)
        decreases if more then 1 + |buffer| else 0
      {
        more, rejected := ReadFrame();
      }
    }

    method ReceiveEnd(finished: bool)
      requires Valid()
      modifies this
      ensures Valid() && Snapshot() == WebSocketSpec.ReceiveEnd(env, old(Snapshot()), finished)
    {
      if readyState == CLOSED {
        return;
      }
      if |buffer| > 0 {
        ProtocolFailure(EndedInsideFrame, 1002);
        return;
      }
      var clean := finished && receivedClose;
      if !clean {
        Record(Aborted);
      }
      Finish(if clean then closeCode else 1006, closeReason);
    }

    method Accept(offered: bool) returns (rejected: bool)
      requires Valid()
      modifies this
      ensures Valid() && Outcome(Snapshot(), rejected) == WebSocketSpec.Accept(env, old(Snapshot()), offered)
    {
      if readyState != CONNECTING {
        return false;
      }
      if !offered {
        return true;
      }
      readyState := OPEN;
      rejected := false;
      if |pendingInput| > 0 {
        var pending := pendingInput;
        pendingInput := [];
        rejected := ReceiveData(pending);
      }
    }

    /** The bytes on the wire decode, by section 5.2, to the frames the log says were
        written: final, unmasked and with no reserved bit. */
    lemma {:induction false} SentDecodes()
      requires Valid()
      ensures DecodeAll(sent) == Some(Written(log))
      ensures forall f <- Written(log) :: f.fin && f.rsv == 0 && f.key == None
    {
      DecodeAllInverts(Written(log));
      WrittenAreServerFrames(log);
    }
  }

  lemma {:induction false} WrittenAreServerFrames(log: seq<Effect>)
    ensures forall f <- Written(log) :: f.fin && f.rsv == 0 && f.key == None
  {
    if log != [] {
      WrittenAreServerFrames(log[..|log| - 1]);
    }
  }
}
