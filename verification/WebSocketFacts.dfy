/** What each act of the endpoint adds to its history, and what it leaves alone. */
module WebSocketFacts {
  import opened Bytes
  import opened Wire
  import opened WebSocketSpec

  /** The messages handed to the handler, in order. */
  function Deliveries(log: seq<Effect>): seq<(bool, seq<byte>)> {
    if log == [] then [] else
    var rest := Deliveries(log[..|log| - 1]);
    match log[|log| - 1]
    case Delivered(text, data) => rest + [(text, data)]
    case _ => rest
  }

  /** The payloads of the pongs written, in order. */
  function Pongs(log: seq<Effect>): seq<seq<byte>> {
    if log == [] then [] else
    var rest := Pongs(log[..|log| - 1]);
    match log[|log| - 1]
    case Wrote(opcode, payload, _) => if opcode == 0xa then rest + [payload] else rest
    case _ => rest
  }

  /** The frames handed to the transport, in order. */
  function Written(log: seq<Effect>): seq<RawFrame> {
    if log == [] then [] else
    var rest := Written(log[..|log| - 1]);
    match log[|log| - 1]
    case Wrote(opcode, payload, _) => rest + [ServerFrame(opcode, payload)]
    case _ => rest
  }

  lemma {:induction false} WrittenGrows(log: seq<Effect>, e: Effect)
    ensures Written(log + [e]) == Written(log) + (if e.Wrote? then [ServerFrame(e.opcode, e.payload)] else [])
  {
    assert (log + [e])[..|log|] == log;
  }

  lemma {:induction false} LogGrows(log: seq<Effect>, e: Effect)
    ensures Deliveries(log + [e]) == Deliveries(log) + (if e.Delivered? then [(e.text, e.data)] else [])
    ensures Pongs(log + [e]) == Pongs(log) + (if e.Wrote? && e.opcode == 0xa then [e.payload] else [])
  {
    assert (log + [e])[..|log|] == log;
  }

  ghost predicate SameFragments(c: Core, c': Core) {
    c'.fragments == c.fragments && c'.fragmentOpcode == c.fragmentOpcode && c'.fragmentBytes == c.fragmentBytes
  }

  /** `c'` follows `c` without a delivery or a pong, and no less closed. */
  ghost predicate Quiet(c: Core, c': Core) {
    && Deliveries(c'.log) == Deliveries(c.log) && Pongs(c'.log) == Pongs(c.log)
    && SameFragments(c, c') && c.ready.Rank() <= c'.ready.Rank()
  }

  lemma {:induction false} EndQuiet(env: Env, c: Core)
    ensures Quiet(c, FinishTransport(env, c)) && FinishTransport(env, c).ready == c.ready
  {
    LogGrows(c.log, Ended(env.endOk(c.log)));
    LogGrows(c.log + [Ended(env.endOk(c.log))], Aborted);
  }

  lemma {:induction false} WriteQuiet(env: Env, c: Core, opcode: nat, payload: seq<byte>)
    requires opcode != 0xa
    ensures var c' := WriteFrame(env, c, opcode, payload).core;
            Quiet(c, c') && c'.ready == c.ready
  {
    LogGrows(c.log, Wrote(opcode, payload, env.writeOk(c.log)));
  }

  lemma {:induction false} CloseQuiet(env: Env, c: Core, code: int, reason: seq<byte>)
    ensures var c' := CloseSocket(env, c, code, reason).core;
            Quiet(c, c') && (c.ready != CLOSED ==> c'.ready != CLOSED)
  {
    match StartClose(c, code, reason)
    case (c1, Sending(payload)) =>
      WriteQuiet(env, c1, 0x8, payload);
      EndQuiet(env, WriteFrame(env, c1, 0x8, payload).core);
    case _ =>
  }

  lemma {:induction false} PerformQuiet(env: Env, c: Core, actions: seq<Action>)
    ensures var c' := Perform(env, c, actions);
            Quiet(c, c') && (c.ready != CLOSED ==> c'.ready != CLOSED)
    decreases |actions|
  {
    if actions != [] {
      var r := match actions[0]
               case Send(text, data) => SendMessage(env, c, text, data)
               case Close(code, reason) => CloseSocket(env, c, code, reason);
      match actions[0] {
        case Send(text, data) => WriteQuiet(env, c, if text then 0x1 else 0x2, data);
        case Close(code, reason) => CloseQuiet(env, c, code, reason);
      }
      PerformQuiet(env, r.core, actions[1..]);
    }
  }

  /** A protocol failure always closes, always with 1006, and delivers nothing. */
  lemma {:induction false} FailureCloses(env: Env, c: Core, cause: Cause, code: nat)
    ensures var c' := ProtocolFailure(env, c, cause, code);
            && Quiet(c, c') && c'.ready == CLOSED
            && (c.ready != CLOSED ==> c'.log != [] && c'.log[|c'.log| - 1] == Closed(1006, []))
  {
    hide Deliveries, Pongs, CloseSocket, FinishTransport;
    var c1 := Emit(c, Reported(cause));
    LogGrows(c.log, Reported(cause));
    CloseQuiet(env, c1, code, FailureReason(code));
    var c2 := if !c1.sentClose && c1.ready != CLOSED
              then CloseSocket(env, c1, code, FailureReason(code)).core else c1;
    EndQuiet(env, c2);
    LogGrows(FinishTransport(env, c2).log, Closed(1006, []));
  }

  lemma {:induction false} AnswerQuiet(env: Env, c: Core, payload: seq<byte>, code: nat, reason: seq<byte>)
    requires c.ready != CLOSED
    ensures Quiet(c, AnswerClose(env, c, payload, code, reason).core)
  {
    hide Deliveries, Pongs, FinishTransport, WriteFrame;
    var (c1, echo) := StartPeerClose(c, code, reason);
    WriteQuiet(env, c1, 0x8, payload);
    var c2 := if echo then WriteFrame(env, c1, 0x8, payload).core else c1;
    EndQuiet(env, c2);
    LogGrows(FinishTransport(env, c2).log, Closed(code, reason));
  }

  lemma {:induction false} PeerCloseQuiet(env: Env, c: Core, payload: seq<byte>)
    requires c.ready != CLOSED
    ensures Quiet(c, ReceiveClose(env, c, payload).core)
  {
    hide Deliveries, Pongs, ProtocolFailure, AnswerClose, ParseClose;
    FailureCloses(env, c, InvalidClose, 1002);
    if ParseClose(payload, env.utf8).Some? {
      var (code, reason) := ParseClose(payload, env.utf8).value;
      AnswerQuiet(env, c, payload, code, reason);
    }
  }

  /** A whole message reaches the handler exactly once, unless it is text that is not
      text; whatever the handler then does, reading goes on. */
  lemma {:induction false} DeliverOnce(env: Env, c: Core, text: bool, message: seq<byte>)
    requires c.ready != CLOSED
    ensures var c' := DeliverMessage(env, c, text, message).core;
            && Deliveries(c'.log)
               == Deliveries(c.log) + (if text && !env.utf8(message) then [] else [(text, message)])
            && Pongs(c'.log) == Pongs(c.log) && SameFragments(c, c')
            && c.ready.Rank() <= c'.ready.Rank() && c'.ready != CLOSED
  {
    hide Deliveries, Pongs, CloseSocket, Perform;
    var run := env.handler(c.log, text, message);
    var c1 := Emit(c, Delivered(text, message));
    LogGrows(c.log, Delivered(text, message));
    LogGrows(c.log, Reported(HandlerFailed));
    PerformQuiet(env, c1, run.actions);
    var c2 := Perform(env, c1, run.actions);
    LogGrows(c2.log, Reported(HandlerFailed));
    CloseQuiet(env, Emit(c, Reported(HandlerFailed)), 1011, Ascii("Handler failed"));
    CloseQuiet(env, Emit(c2, Reported(HandlerFailed)), 1011, Ascii("Handler failed"));
  }

  lemma {:induction false} DispatchKeeps(c: Core, f: Frame, limit: nat)
    ensures var c1 := Dispatch(c, f, limit).0; c1.log == c.log && c1.ready == c.ready
  {
  }

  /** What one frame adds, by what `Dispatch` decides about it. */
  lemma {:induction false} HandleFrameQuiet(env: Env, c: Core, f: Frame)
    requires c.ready != CLOSED
    ensures var (c1, next) := Dispatch(c, f, env.maxMessageBytes);
            var c' := HandleFrame(env, c, f).core;
            && c1.log == c.log && c1.ready == c.ready && c.ready.Rank() <= c'.ready.Rank()
            && (c'.ready != CLOSED ==> SameFragments(c1, c'))
            && Deliveries(c'.log) == Deliveries(c.log)
                 + (if next.Deliver? && !(next.text && !env.utf8(next.message))
                    then [(next.text, next.message)] else [])
            && Pongs(c'.log) == Pongs(c.log) + (if next.SendPong? then [next.payload] else [])
            && (next.Violation? ==>
                  HandleFrame(env, c, f) == Result(ProtocolFailure(env, c1, next.cause, next.code), false))
            && (next.Violation? ==> c'.ready == CLOSED)
            && (next.SendPong? || next.Nothing? || next.Deliver? ==> c'.ready != CLOSED)
  {
    hide Deliveries, Pongs, Dispatch, ReceiveClose, ProtocolFailure, DeliverMessage;
    var (c1, next) := Dispatch(c, f, env.maxMessageBytes);
    DispatchKeeps(c, f, env.maxMessageBytes);
    match next {
      case PeerClose(payload) => PeerCloseQuiet(env, c1, payload);
      case SendPong(payload) => LogGrows(c1.log, Wrote(0xa, payload, env.writeOk(c1.log)));
      case Nothing =>
      case Violation(cause, code) => FailureCloses(env, c1, cause, code);
      case Deliver(text, message) => DeliverOnce(env, c1, text, message);
    }
  }

  /** Section 7.4 of RFC 6455, as the ranges an endpoint may send. */
  lemma {:induction false} CloseCodesByRange(code: int)
    ensures ValidCloseCode(code) <==> 1000 <= code <= 1003 || 1007 <= code <= 1014 || 3000 <= code <= 4999
  {
  }

  /** A Close this endpoint starts is one it would itself accept, with the same code and reason. */
  lemma {:induction false} StartedCloseParses(c: Core, code: int, reason: seq<byte>, utf8: seq<byte> -> bool)
    requires StartClose(c, code, reason).1.Sending? && utf8(reason)
    ensures var payload := StartClose(c, code, reason).1.payload;
            2 <= |payload| <= 125 && ParseClose(payload, utf8) == Some((code, reason))
  {
    var payload := StartClose(c, code, reason).1.payload;
    Pow256Values();
    BigEndianInverts(code, 2);
    assert payload[..2] == ToBigEndian(code, 2) && payload[2..] == reason;
  }

  /** A well-formed Close is echoed byte for byte, unless a Close was already sent, and the
      socket then closes with the code and reason it carried. */
  lemma {:induction false} PeerCloseIsAnswered(env: Env, c: Core, payload: seq<byte>)
    requires c.ready != CLOSED && ParseClose(payload, env.utf8).Some?
    ensures var r, (code, reason) := ReceiveClose(env, c, payload), ParseClose(payload, env.utf8).value;
            && Written(r.core.log) == Written(c.log) + (if c.sentClose then [] else [ServerFrame(0x8, payload)])
            && r.core.sentClose && r.core.receivedClose && (c.sentClose ==> !r.rejected)
            && (!r.rejected ==> r.core.ready == CLOSED && r.core.log != [])
            && (!r.rejected ==> r.core.log[|r.core.log| - 1] == Closed(code, reason))
  {
    hide Written, ParseClose;
    var (code, reason) := ParseClose(payload, env.utf8).value;
    var (c1, echo) := StartPeerClose(c, code, reason);
    WrittenGrows(c.log, Wrote(0x8, payload, env.writeOk(c.log)));
    var c2 := if echo then WriteFrame(env, c1, 0x8, payload).core else c1;
    EndWritesNothing(env, c2);
    WrittenGrows(FinishTransport(env, c2).log, Closed(code, reason));
  }

  lemma {:induction false} EndWritesNothing(env: Env, c: Core)
    ensures Written(FinishTransport(env, c).log) == Written(c.log)
  {
    WrittenGrows(c.log, Ended(env.endOk(c.log)));
    WrittenGrows(c.log + [Ended(env.endOk(c.log))], Aborted);
  }

  /** The end of the transport closes a live socket; it reports the peer's code only after a
      clean end that followed the peer's Close, and 1006 otherwise. */
  lemma {:induction false} EndReports(env: Env, s: Socket, finished: bool)
    requires s.core.ready != CLOSED
    ensures var c := ReceiveEnd(env, s, finished).core;
            var clean := s.buffer == [] && finished && s.core.receivedClose;
            && c.ready == CLOSED && c.log != []
            && c.log[|c.log| - 1] == Closed(if clean then s.core.closeCode else 1006,
                                            if s.buffer == [] then s.core.closeReason else [])
            && Deliveries(c.log) == Deliveries(s.core.log)
  {
    hide Deliveries, ProtocolFailure;
    if s.buffer != [] {
      FailureCloses(env, s.core, EndedInsideFrame, 1002);
    } else if finished && s.core.receivedClose {
      LogGrows(s.core.log, Closed(s.core.closeCode, s.core.closeReason));
    } else {
      LogGrows(s.core.log, Aborted);
      LogGrows(s.core.log + [Aborted], Closed(1006, s.core.closeReason));
    }
  }
}
