/** What each call writes, reports and ends with, effect by effect and byte by byte. */
module WebSocketOutcomes {
  import opened Bytes
  import opened Wire
  import opened WebSocketSpec
  import opened WebSocketFacts
  import opened Calls

  // ---------------------------------------------------------------- words of the statements

  /** A text of ASCII characters, as its bytes. */
  function Chars(s: string): seq<byte> {
    seq(|s|, i requires 0 <= i < |s| => if (s[i] as int) < 128 then s[i] as int else 0)
  }

  /** A close code as two bytes, and the reason. */
  function CloseBytes(code: nat, reason: seq<byte>): seq<byte>
    requires code < 0x1_0000
  {
    [code / 256, code % 256] + reason
  }

  /** The codes a Close frame may carry. */
  predicate CloseCode(code: int) {
    1000 <= code <= 1003 || 1007 <= code <= 1014 || 3000 <= code <= 4999
  }

  /** Ending the transport: aborted if that fails. */
  function Ending(env: Env, log: seq<Effect>): seq<Effect> {
    if env.endOk(log) then [Ended(true)] else [Ended(false), Aborted]
  }

  /** The history a protocol failure leaves: the report; one Close with the code, unless one was
      sent; the end of the transport; and the close of the socket with 1006. */
  function FailureLog(env: Env, c: Core, cause: Cause, code: nat): seq<Effect>
    requires code < 0x1_0000
  {
    var reported := c.log + [Reported(cause)];
    var text := Chars(if code == 1009 then "Message too large" else "Protocol error");
    var ok := env.writeOk(reported);
    var written := reported + [Wrote(0x8, CloseBytes(code, text), ok)];
    var closed := if c.sentClose || c.ready == CLOSED then reported
                  else if ok && c.receivedClose then written + Ending(env, written) else written;
    closed + Ending(env, closed) + if c.ready == CLOSED then [] else [Closed(1006, [])]
  }

  ghost predicate Failed(env: Env, c: Core, cause: Cause, code: nat, c': Core)
    requires code < 0x1_0000
  {
    && c'.log == FailureLog(env, c, cause, code) && c'.ready == CLOSED && !c'.timer
    && c'.sentClose == (c.sentClose || c.ready != CLOSED) && SameFragments(c, c')
    && c'.receivedClose == c.receivedClose && c'.closeCode == c.closeCode && c'.closeReason == c.closeReason
  }

  lemma {:induction false} TwoBytes(code: nat)
    requires code < 0x1_0000
    ensures ToBigEndian(code, 2) == [code / 256, code % 256]
  {
    assert ToBigEndian(code / 256, 1) == [] + [code / 256 % 256];
  }

  lemma {:induction false} BigEndianOfTwo(b: seq<byte>)
    requires |b| >= 2
    ensures var high: int, low: int := b[0], b[1]; BigEndian(b[..2]) == 256 * high + low
  {
    assert b[..2][..1] == [b[0]] && [b[0]][..0] == [];
    assert BigEndian([b[0]]) == b[0];
  }

  /** The three texts this endpoint sends are ASCII. */
  lemma {:induction false} TextsAreAscii()
    ensures Ascii("Protocol error") == Chars("Protocol error")
    ensures Ascii("Message too large") == Chars("Message too large")
    ensures Ascii("Handler failed") == Chars("Handler failed")
  {
  }

  // ---------------------------------------------------------------- the application's calls

  /** `send` on an open socket, within the limit, writes one frame: a text frame for text and a
      binary one for bytes; it rejects exactly if the write does. Otherwise it rejects and does
      nothing. */
  lemma {:induction false} SendWrites(env: Env, c: Core, text: bool, data: seq<byte>)
    ensures var r, ok := SendMessage(env, c, text, data), env.writeOk(c.log);
            if c.ready == OPEN && |data| <= env.maxMessageBytes then
              && Written(r.core.log)
                 == Written(c.log) + [if text then ServerFrame(0x1, data) else ServerFrame(0x2, data)]
              && r == Result(c.(log := c.log + [Wrote(if text then 0x1 else 0x2, data, ok)]), !ok)
            else r == Result(c, true)
  {
    WrittenGrows(c.log, Wrote(if text then 0x1 else 0x2, data, env.writeOk(c.log)));
    hide Written;
  }

  /** `close`: once, with a code and reason a Close frame may carry. The frame is written, the
      socket is closing, and then the transport is ended if the peer has sent its Close, or the
      timer runs; when the write rejects, so does `close`, and neither happens. */
  lemma {:induction false} CloseWrites(env: Env, c: Core, code: int, reason: seq<byte>)
    ensures var r, ok := CloseSocket(env, c, code, reason), env.writeOk(c.log);
            if c.ready == CLOSED || c.sentClose then r == Result(c, false)
            else if !CloseCode(code) || |reason| > 123 then r == Result(c, true)
            else
              var log := c.log + [Wrote(0x8, CloseBytes(code, reason), ok)];
              var closing := c.(ready := CLOSING, sentClose := true, log := log);
              if !ok then r == Result(closing, true)
              else if c.receivedClose then r == Result(closing.(timer := false, log := log + Ending(env, log)), false)
              else r == Result(closing.(timer := true), false)
  {
    CloseCodesByRange(code);
    if CloseCode(code) {
      TwoBytes(code);
      EndingAppends(env, c.log + [Wrote(0x8, CloseBytes(code, reason), env.writeOk(c.log))]);
    }
    hide ToBigEndian;
  }

  lemma {:induction false} EndingAppends(env: Env, log: seq<Effect>)
    ensures !env.endOk(log) ==> log + [Ended(false)] + [Aborted] == log + Ending(env, log)
  {
  }

  lemma {:induction false} TransportEnds(env: Env, c: Core)
    ensures FinishTransport(env, c) == c.(timer := false, log := c.log + Ending(env, c.log))
  {
    EndingAppends(env, c.log);
  }

  /** A handler's replies go out in the order in which it made them, and once it has closed the
      socket nothing more does. */
  lemma {:induction false} RepliesInOrder(env: Env, c: Core, replies: seq<Action>)
    requires c.ready == OPEN
    requires forall i | 0 <= i < |replies| :: replies[i].Send? && |replies[i].data| <= env.maxMessageBytes
    ensures var c' := Perform(env, c, replies);
            && Written(c'.log) == Written(c.log) + Frames(replies)
            && c' == c.(log := c'.log) && Deliveries(c'.log) == Deliveries(c.log)
    decreases |replies|
  {
    hide Written, Deliveries;
    if replies == [] {
      assert Written(c.log) + [] == Written(c.log);
    } else {
      var text, data := replies[0].text, replies[0].data;
      SendWrites(env, c, text, data);
      WriteQuiet(env, c, if text then 0x1 else 0x2, data);
      RepliesInOrder(env, SendMessage(env, c, text, data).core, replies[1..]);
      Associate(Written(c.log), [ServerFrame(if text then 0x1 else 0x2, data)], Frames(replies[1..]));
    }
  }

  function Frames(replies: seq<Action>): seq<RawFrame> {
    if replies == [] then []
    else (if replies[0].Send? then [ServerFrame(if replies[0].text then 0x1 else 0x2, replies[0].data)] else [])
         + Frames(replies[1..])
  }

  lemma {:induction false} NothingAfterClose(env: Env, c: Core, actions: seq<Action>)
    requires c.ready != OPEN && (c.sentClose || c.ready == CLOSED)
    ensures Perform(env, c, actions) == c
    decreases |actions|
  {
    if actions != [] {
      NothingAfterClose(env, c, actions[1..]);
    }
  }

  /** A message and what comes of it: the handler's acts follow its delivery, and if the handler
      throws, or the text is not UTF-8 and there is no delivery, the failure is reported and the
      socket is closed with 1011. */
  lemma {:induction false} MessageHandled(env: Env, c: Core, text: bool, message: seq<byte>)
    ensures var run := env.handler(c.log, text, message);
            var acted := Perform(env, c.(log := c.log + [Delivered(text, message)]), run.actions);
            var after := if text && !env.utf8(message) then c else acted;
            DeliverMessage(env, c, text, message)
            == if (text && !env.utf8(message)) || run.throws then
                 CloseSocket(env, after.(log := after.log + [Reported(HandlerFailed)]), 1011, Chars("Handler failed"))
               else Result(acted, false)
  {
    TextsAreAscii();
    hide CloseSocket, Perform, Ascii;
  }

  // ---------------------------------------------------------------- failures

  lemma {:induction false} FailureIsLogged(env: Env, c: Core, cause: Cause, code: nat)
    requires code == 1002 || code == 1009
    ensures Failed(env, c, cause, code, ProtocolFailure(env, c, cause, code))
  {
    hide CloseSocket, FinishTransport, Ending, Ascii, Chars;
    TextsAreAscii();
    TextsAreShort();
    var c1 := c.(log := c.log + [Reported(cause)]);
    CloseWrites(env, c1, code, FailureReason(code));
    var c2 := if !c1.sentClose && c1.ready != CLOSED
              then CloseSocket(env, c1, code, FailureReason(code)).core else c1;
    TransportEnds(env, c2);
    assert FailureReason(code) == Chars(if code == 1009 then "Message too large" else "Protocol error");
    assert c.ready == CLOSED ==> c2.log + Ending(env, c2.log) + [] == c2.log + Ending(env, c2.log);
  }

  lemma {:induction false} TextsAreShort()
    ensures |Chars("Protocol error")| <= 123 && |Chars("Message too large")| <= 123
  {
  }

  /** A data frame that is refused, why, and with which code. */
  function FrameRefusal(c: Core, f: Frame, limit: nat): Option<(Cause, nat)> {
    if f.opcode in {0x8, 0x9, 0xa} then None
    else if f.opcode !in {0, 0x1, 0x2} then Some((UnsupportedOpcode, 1002))
    else if f.opcode == 0 && c.fragmentOpcode == 0 then Some((UnexpectedContinuation, 1002))
    else if f.opcode != 0 && c.fragmentOpcode != 0 then Some((IncompleteMessage, 1002))
    else if c.fragmentBytes + |f.payload| > limit then Some((MessageTooLarge, 1009))
    else None
  }

  /** Exactly these frames fail the socket, each with its own report and code. */
  lemma {:induction false} RefusedFrameFails(env: Env, c: Core, f: Frame)
    ensures match FrameRefusal(c, f, env.maxMessageBytes)
            case Some((cause, code)) =>
              && !HandleFrame(env, c, f).rejected
              && HandleFrame(env, c, f).core.log == FailureLog(env, c, cause, code)
            case None => !Dispatch(c, f, env.maxMessageBytes).1.Violation?
  {
    hide ProtocolFailure, FailureLog, Flatten;
    var c1 := Dispatch(c, f, env.maxMessageBytes).0;
    match FrameRefusal(c, f, env.maxMessageBytes)
    case Some((cause, code)) =>
      FailureIsLogged(env, c1, cause, code);
      FailureOfFields(env, c, c1, cause, code);
    case None =>
  }

  /** The history of a failure does not depend on the fragments. */
  lemma {:induction false} FailureOfFields(env: Env, c: Core, c1: Core, cause: Cause, code: nat)
    requires code < 0x1_0000
    requires c1 == c.(fragments := c1.fragments, fragmentOpcode := c1.fragmentOpcode, fragmentBytes := c1.fragmentBytes)
    ensures FailureLog(env, c1, cause, code) == FailureLog(env, c, cause, code)
  {
  }

  /** A ping is answered with its own payload, a pong with nothing. */
  lemma {:induction false} PingIsAnswered(env: Env, c: Core, payload: seq<byte>)
    ensures var ok := env.writeOk(c.log);
            HandleFrame(env, c, Frame(true, 0x9, payload))
            == Result(c.(log := c.log + [Wrote(0xa, payload, ok)]), !ok)
    ensures HandleFrame(env, c, Frame(true, 0xa, payload)) == Result(c, false)
  {
  }

  // ---------------------------------------------------------------- the peer's Close

  /** A well-formed Close on a live socket: echoed byte for byte unless a Close was sent; then the
      transport is ended and the socket closed with the peer's code and reason. When the echo's
      write rejects, the socket is left closing. */
  ghost predicate Answered(env: Env, c: Core, payload: seq<byte>, code: nat, reason: seq<byte>, r: Result) {
    var heard := c.(receivedClose := true, closeCode := code, closeReason := reason, sentClose := true);
    if !c.sentClose && !env.writeOk(c.log) then
      r == Result(heard.(ready := CLOSING, log := c.log + [Wrote(0x8, payload, false)]), true)
    else
      var log := c.log + if c.sentClose then [] else [Wrote(0x8, payload, true)];
      var closed := log + Ending(env, log) + [Closed(code, reason)];
      r == Result(heard.(ready := CLOSED, timer := false, log := closed), false)
  }

  /** What a received Close does, by its bytes: empty, it means 1005; one byte is malformed; two
      bytes and more are a big-endian code, which must be one that may be sent, and a reason, which
      must be UTF-8. */
  lemma {:induction false} CloseIsReadByBytes(env: Env, c: Core, payload: seq<byte>)
    requires c.ready != CLOSED
    ensures var r := ReceiveClose(env, c, payload);
            if payload == [] then Answered(env, c, payload, 1005, [], r)
            else if |payload| == 1 then Failed(env, c, InvalidClose, 1002, r.core) && !r.rejected
            else
              var high: int, low: int := payload[0], payload[1];
              if CloseCode(256 * high + low) && env.utf8(payload[2..])
              then Answered(env, c, payload, 256 * high + low, payload[2..], r)
              else Failed(env, c, InvalidClose, 1002, r.core) && !r.rejected
    ensures HandleFrame(env, c, Frame(true, 0x8, payload)) == ReceiveClose(env, c, payload)
  {
    hide ProtocolFailure, AnswerClose, Failed, Answered, BigEndian;
    FailureIsLogged(env, c, InvalidClose, 1002);
    if payload == [] {
      CloseAnswered(env, c, payload, 1005, []);
    } else if |payload| >= 2 {
      BigEndianOfTwo(payload);
      var high: int, low: int := payload[0], payload[1];
      CloseCodesByRange(256 * high + low);
      CloseAnswered(env, c, payload, 256 * high + low, payload[2..]);
    }
  }

  lemma {:induction false} CloseAnswered(env: Env, c: Core, payload: seq<byte>, code: nat, reason: seq<byte>)
    requires c.ready != CLOSED
    ensures Answered(env, c, payload, code, reason, AnswerClose(env, c, payload, code, reason))
  {
    hide FinishTransport, Ending;
    var c1 := StartPeerClose(c, code, reason).0;
    var c2 := if c.sentClose then c1 else WriteFrame(env, c1, 0x8, payload).core;
    TransportEnds(env, c2);
    assert c.log + [] == c.log;
  }

  // ---------------------------------------------------------------- input, opening and the end

  /** Before the socket opens, input is kept, up to the limit and one frame header; more fails it. */
  lemma {:induction false} EarlyInputIsKept(env: Env, s: Socket, data: seq<byte>)
    requires s.core.ready == CONNECTING
    ensures var o, pending := ReceiveData(env, s, data), s.pendingInput + data;
            && !o.rejected && o.socket.buffer == s.buffer && o.socket.pendingInput == pending
            && if |pending| <= env.maxMessageBytes + 14 then o.socket.core == s.core
               else Failed(env, s.core, InputOverLimit, 1009, o.socket.core)
  {
    hide ProtocolFailure, Failed;
    FailureIsLogged(env, s.core, InputOverLimit, 1009);
  }

  /** `accept` opens a connecting socket whose subprotocol was offered, and reads what waited. */
  lemma {:induction false} AcceptOpens(env: Env, s: Socket, offered: bool)
    ensures var o := Accept(env, s, offered);
            if s.core.ready != CONNECTING then o == Outcome(s, false)
            else if !offered then o == Outcome(s, true)
            else
              var open := s.(core := s.core.(ready := OPEN), pendingInput := []);
              o == if s.pendingInput == [] then Outcome(open, false) else ReceiveData(env, open, s.pendingInput)
  {
    hide ReceiveData;
  }

  /** The end of the transport, in its three cases. */
  lemma {:induction false} EndIsLogged(env: Env, s: Socket, finished: bool)
    ensures var c, c' := s.core, ReceiveEnd(env, s, finished).core;
            && ReceiveEnd(env, s, finished) == s.(core := c')
            && if c.ready == CLOSED then c' == c
               else if s.buffer != [] then Failed(env, c, EndedInsideFrame, 1002, c')
               else if finished && c.receivedClose then
                 c' == c.(ready := CLOSED, timer := false, log := c.log + [Closed(c.closeCode, c.closeReason)])
               else
                 c' == c.(ready := CLOSED, timer := false, log := c.log + [Aborted, Closed(1006, c.closeReason)])
  {
    hide ProtocolFailure, Failed;
    FailureIsLogged(env, s.core, EndedInsideFrame, 1002);
    assert s.core.log + [Aborted] + [Closed(1006, s.core.closeReason)]
        == s.core.log + [Aborted, Closed(1006, s.core.closeReason)];
  }

  /** The close timer aborts the transport and closes with 1006, unless it was cleared. */
  lemma {:induction false} TimerCloses(c: Core)
    requires c.timer ==> c.ready != CLOSED
    ensures TimeOut(c)
            == if c.timer then c.(timer := false, ready := CLOSED, log := c.log + [Aborted, Closed(1006, [])]) else c
  {
    assert c.log + [Aborted] + [Closed(1006, [])] == c.log + [Aborted, Closed(1006, [])];
  }
}
