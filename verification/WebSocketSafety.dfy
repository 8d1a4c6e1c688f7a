/** What no interleaving can break: the ready state, the close callback, the order of
    frames on the wire and of the end of the stream after the Close frame. */
module WebSocketSafety {
  import opened Bytes
  import opened Wire
  import opened WebSocketSpec
  import opened WebSocketMachine

  // ---------------------------------------------------------------- the invariant

  ghost predicate HasClose(queue: seq<Op>) {
    exists i | 0 <= i < |queue| :: queue[i].opcode == 0x8
  }

  /** At most one Close frame, nothing but pongs behind it, and every frame legal. */
  ghost predicate Orderly(queue: seq<Op>, limit: nat) {
    && (forall i | 0 <= i < |queue| :: LegalOp(queue[i], limit))
    && (forall i, j | 0 <= i < j < |queue| :: queue[i].opcode == 0x8 ==> queue[j].opcode == 0xa)
  }

  ghost predicate LegalOp(op: Op, limit: nat) {
    && op.opcode in {0x1, 0x2, 0x8, 0xa}
    && |op.payload| <= (if op.opcode >= 0x8 then 125 else limit)
  }

  /** The state an end before any Close frame leaves for good. */
  ghost predicate ClosedWithoutFrame(s: Shared) {
    s.core.ready == CLOSED && !s.core.sentClose
  }

  /** The code an `onClose` call reports is the peer's own, or 1006. */
  ghost predicate Honest(r: Report, parsed: set<(nat, seq<byte>)>) {
    if r.finisher == PeerClosed || r.finisher == TransportEnded(true) then (r.code, r.reason) in parsed
    else r.code == 1006
  }

  ghost predicate Good(s: Shared, limit: nat) {
    var c := s.core;
    && (ClosedWithoutFrame(s) ==> s.buffer == [])
    && (c.ready == CLOSING ==> c.sentClose)
    && (c.sentClose ==> c.ready == CLOSING || c.ready == CLOSED)
    && (c.timer ==> c.sentClose)
    && |s.reports| == (if c.ready == CLOSED then 1 else 0)
    && Orderly(s.queue, limit) && (c.sentClose <==> HasClose(s.queue))
    && |s.results| <= s.handed <= |s.queue| && s.handed <= |s.results| + 1
    && (forall p <- s.parsed :: p.0 == 1005 || ValidCloseCode(p.0))
    && (c.receivedClose ==> (c.closeCode, c.closeReason) in s.parsed)
    && (forall r <- s.reports :: Honest(r, s.parsed))
    && (forall n <- s.ends :: n <= |s.results| && Drained(s, n))
  }

  /** Among the first `n` frames is the Close frame, or there never will be one. */
  ghost predicate Drained(s: Shared, n: nat) {
    n <= |s.queue| && (HasClose(s.queue[..n]) || ClosedWithoutFrame(s))
  }

  /** What must hold wherever a task waits. */
  ghost predicate Safe(s: Shared, place: Place) {
    match place
    case AfterEcho(code, reason) => (code, reason) in s.parsed && s.core.sentClose
    case AfterPeerEnd(code, reason) => (code, reason) in s.parsed && s.core.sentClose
    case FailureReported(code) => code == 1002 || code == 1009
    case FailureClosing => s.core.sentClose || s.core.ready == CLOSED
    case FailureEnding => s.core.sentClose || s.core.ready == CLOSED
    case CloseWritten => s.core.sentClose
    case EndQueued(n) => Drained(s, n)
    case _ => true
  }

  ghost predicate AllSafe(s: Shared, stack: seq<Place>) {
    forall i | 0 <= i < |stack| :: Safe(s, stack[i])
  }

  /** A task that waits to end the transport waits for the frames it must follow. */
  ghost predicate WaitsForQueue(stack: seq<Place>, wait: Wait) {
    forall i | 0 <= i < |stack| ::
      stack[i].EndQueued? ==> i == |stack| - 1 && wait == ForQueue(stack[i].count)
  }

  /** How the shared state moves: only forward. */
  ghost predicate Advances(s: Shared, s': Shared) {
    && s.core.ready.Rank() <= s'.core.ready.Rank()
    && (s.core.sentClose ==> s'.core.sentClose)
    && (ClosedWithoutFrame(s) ==> ClosedWithoutFrame(s'))
    && s.queue <= s'.queue && s.results <= s'.results && s.reports <= s'.reports
    && s.handed <= s'.handed
    && s.parsed <= s'.parsed
  }

  ghost predicate GoodCall(s: Shared, c: Call, limit: nat) {
    && Good(c.shared, limit) && Advances(s, c.shared)
    && AllSafe(c.shared, c.stack) && WaitsForQueue(c.stack, c.wait)
  }

  lemma {:induction false} AdvancesTransitive(a: Shared, b: Shared, c: Shared)
    requires Advances(a, b) && Advances(b, c)
    ensures Advances(a, c)
  {
  }

  /** What is safe stays safe. */
  lemma {:induction false} SafeStays(s: Shared, s': Shared, place: Place)
    requires Safe(s, place) && Advances(s, s')
    ensures Safe(s', place)
  {
    if place.EndQueued? {
      DrainedStays(s, s', place.count);
    }
  }

  lemma {:induction false} DrainedStays(s: Shared, s': Shared, n: nat)
    requires Drained(s, n) && Advances(s, s')
    ensures Drained(s', n)
  {
    assert s'.queue[..n] == s.queue[..n];
  }

  lemma {:induction false} AllSafeStays(s: Shared, s': Shared, stack: seq<Place>)
    requires AllSafe(s, stack) && Advances(s, s')
    ensures AllSafe(s', stack)
  {
    forall i | 0 <= i < |stack| ensures Safe(s', stack[i]) {
      SafeStays(s, s', stack[i]);
    }
  }

  /** A call made from a place that is itself safe. */
  lemma {:induction false} UnderGood(s: Shared, c: Call, place: Place, limit: nat)
    requires GoodCall(s, c, limit) && Safe(c.shared, place)
    requires !place.EndQueued?
    ensures GoodCall(s, c.Under(place), limit)
  {
  }

  // ---------------------------------------------------------------- each call keeps it

  lemma {:induction false} QueueGrows(queue: seq<Op>, op: Op, limit: nat)
    requires Orderly(queue, limit) && LegalOp(op, limit)
    requires HasClose(queue) ==> op.opcode == 0xa
    ensures Orderly(queue + [op], limit)
    ensures HasClose(queue + [op]) <==> HasClose(queue) || op.opcode == 0x8
  {
    var q := queue + [op];
    forall i, j | 0 <= i < j < |q| && q[i].opcode == 0x8 ensures q[j].opcode == 0xa {
      assert i < |queue| && queue[i] == q[i];
    }
    if HasClose(queue) {
      var i :| 0 <= i < |queue| && queue[i].opcode == 0x8;
      assert q[i].opcode == 0x8;
    }
    if op.opcode == 0x8 {
      assert q[|queue|].opcode == 0x8;
    }
  }

  lemma {:induction false} EndsStay(s: Shared, s': Shared)
    requires Advances(s, s') && s'.ends == s.ends
    requires forall n <- s.ends :: n <= |s.results| && Drained(s, n)
    ensures forall n <- s'.ends :: n <= |s'.results| && Drained(s', n)
  {
    forall n <- s'.ends ensures n <= |s'.results| && Drained(s', n) {
      DrainedStays(s, s', n);
    }
  }

  /** Only the core changed, and it neither closed nor sent a Close frame. */
  lemma {:induction false} CoreStep(s: Shared, s': Shared, limit: nat)
    requires Good(s, limit)
    requires s' == s.(core := s'.core, pendingInput := s'.pendingInput, buffer := s'.buffer, input := s'.input)
    requires s.core.ready.Rank() <= s'.core.ready.Rank() && (s'.core.ready == CLOSED <==> s.core.ready == CLOSED)
    requires s'.core.ready == CLOSING ==> s.core.ready == CLOSING
    requires s'.core.sentClose == s.core.sentClose && (s'.core.timer ==> s'.core.sentClose)
    requires s.core.sentClose ==> s'.core.ready != OPEN
    requires s'.core.receivedClose == s.core.receivedClose
    requires s'.core.closeCode == s.core.closeCode && s'.core.closeReason == s.core.closeReason
    requires ClosedWithoutFrame(s) ==> s'.buffer == []
    ensures Good(s', limit) && Advances(s, s')
  {
    EndsStay(s, s');
  }

  /** A frame that is not a Close joins the queue. */
  lemma {:induction false} WriteGood(s: Shared, opcode: nat, payload: seq<byte>, limit: nat)
    requires Good(s, limit) && LegalOp(Op(opcode, payload), limit) && opcode != 0x8
    requires s.core.sentClose ==> opcode == 0xa
    ensures GoodCall(s, CallWrite(s, opcode, payload), limit)
  {
    QueueGrows(s.queue, Op(opcode, payload), limit);
    EndsStay(s, CallWrite(s, opcode, payload).shared);
  }

  /** The one Close frame joins the queue. */
  lemma {:induction false} WriteCloseGood(s: Shared, s1: Shared, payload: seq<byte>, limit: nat)
    requires Good(s, limit) && |payload| <= 125 && !s.core.sentClose && s.core.ready != CLOSED
    requires s1 == s.(core := s1.core, parsed := s1.parsed) && s1.core.ready == CLOSING && s1.core.sentClose
    requires s.parsed <= s1.parsed && forall p <- s1.parsed :: p.0 == 1005 || ValidCloseCode(p.0)
    requires s1.core.receivedClose ==> (s1.core.closeCode, s1.core.closeReason) in s1.parsed
    ensures GoodCall(s, CallWrite(s1, 0x8, payload), limit)
  {
    QueueGrows(s.queue, Op(0x8, payload), limit);
    EndsStay(s, CallWrite(s1, 0x8, payload).shared);
  }

  lemma {:induction false} CloseGood(s: Shared, code: int, reason: seq<byte>, limit: nat)
    requires Good(s, limit)
    ensures var c := CallClose(s, code, reason);
            GoodCall(s, c, limit) && (c.stack != [] ==> c.shared.core.sentClose)
  {
    match StartClose(s.core, code, reason)
    case (c, Sending(payload)) =>
      var s1 := s.(core := c);
      WriteCloseGood(s, s1, payload, limit);
      UnderGood(s, CallWrite(s1, 0x8, payload), CloseWritten, limit);
    case _ =>
  }

  lemma {:induction false} FinishTransportGood(s: Shared, limit: nat)
    requires Good(s, limit) && (s.core.sentClose || s.core.ready == CLOSED)
    ensures GoodCall(s, CallFinishTransport(s), limit)
  {
    var s' := CallFinishTransport(s).shared;
    CoreStep(s, s', limit);
    assert s.queue[..|s.queue|] == s.queue;
  }

  lemma {:induction false} FinishGood(s: Shared, code: nat, reason: seq<byte>, finisher: Finisher, limit: nat)
    requires Good(s, limit) && Honest(Report(code, reason, finisher), s.parsed)
    requires s.core.sentClose || s.core.ready == CLOSED || s.buffer == []
    ensures GoodCall(s, CallFinish(s, code, reason, finisher), limit)
  {
    var s' := CallFinish(s, code, reason, finisher).shared;
    if s.core.ready != CLOSED {
      EndsStay(s, s');
      assert s'.reports == s.reports + [Report(code, reason, finisher)];
    }
  }

  lemma {:induction false} FailureGood(s: Shared, cause: Cause, code: nat, limit: nat)
    requires Good(s, limit) && (code == 1002 || code == 1009)
    ensures GoodCall(s, CallFailure(s, cause, code), limit)
  {
    CoreStep(s, CallFailure(s, cause, code).shared, limit);
  }

  lemma {:induction false} PeerCloseGood(l: Limits, s: Shared, payload: seq<byte>)
    requires Good(s, l.maxMessageBytes) && |payload| <= 125 && !ClosedWithoutFrame(s)
    ensures GoodCall(s, CallPeerClose(l, s, payload), l.maxMessageBytes)
  {
    var limit := l.maxMessageBytes;
    match ParseClose(payload, l.utf8)
    case None =>
      FailureGood(s, InvalidClose, 1002, limit);
    case Some((code, reason)) =>
      var (c, echo) := StartPeerClose(s.core, code, reason);
      var s1 := s.(core := c, parsed := s.parsed + {(code, reason)});
      if echo {
        WriteCloseGood(s, s1, payload, limit);
        UnderGood(s, CallWrite(s1, 0x8, payload), AfterEcho(code, reason), limit);
      } else {
        EndsStay(s, s1);
        FinishTransportGood(s1, limit);
        AdvancesTransitive(s, s1, CallFinishTransport(s1).shared);
      }
  }

  lemma {:induction false} DispatchKeepsCore(c: Core, f: Frame, limit: nat)
    ensures var (c', next) := Dispatch(c, f, limit);
            && c'.ready == c.ready && c'.sentClose == c.sentClose && c'.receivedClose == c.receivedClose
            && c'.closeCode == c.closeCode && c'.closeReason == c.closeReason && c'.timer == c.timer
            && (next.PeerClose? || next.SendPong? ==> next.payload == f.payload && f.opcode >= 8)
            && (next.Violation? ==> next.code == 1002 || next.code == 1009)
  {
  }

  /** A call made after a step forward, and answered where it was made. */
  lemma {:induction false} AnsweredGood(s: Shared, s1: Shared, c: Call, limit: nat)
    requires Advances(s, s1) && GoodCall(s1, c, limit)
    ensures GoodCall(s, c.Under(Tail), limit)
  {
    AdvancesTransitive(s, s1, c.shared);
    UnderGood(s, c, Tail, limit);
    hide Good, Advances;
  }

  /** A step forward that then waits for the outside at one place. */
  lemma {:induction false} WaitingGood(s: Shared, s1: Shared, place: Place, limit: nat)
    requires Good(s1, limit) && Advances(s, s1) && place in {AfterMessage, AfterReport}
    ensures GoodCall(s, Call(s1, [place], ForOutside), limit)
  {
    hide Good, Advances;
  }

  /** A frame is dispatched on a socket that has not closed without a Close frame. */
  lemma {:induction false} HandleGood(l: Limits, s: Shared, f: Frame)
    requires Good(s, l.maxMessageBytes) && !ClosedWithoutFrame(s) && (f.opcode >= 8 ==> |f.payload| <= 125)
    ensures GoodCall(s, CallHandle(l, s, f), l.maxMessageBytes)
  {
    hide Good, Dispatch, CallPeerClose, GoodCall, Advances, LegalOp;
    var limit := l.maxMessageBytes;
    var (c, next) := Dispatch(s.core, f, limit);
    var s1 := s.(core := c);
    DispatchKeepsCore(s.core, f, limit);
    CoreKept(s, s1, limit);
    match next {
      case PeerClose(payload) =>
        PeerCloseGood(l, s1, payload);
        AnsweredGood(s, s1, CallPeerClose(l, s1, payload), limit);
      case SendPong(payload) => PongGood(s, s1, payload, limit);
      case Nothing => SteppedGood(s, s1, limit);
      case Violation(cause, code) =>
        FailureGood(s1, cause, code, limit);
        AnsweredGood(s, s1, CallFailure(s1, cause, code), limit);
      case Deliver(text, message) => DeliverGood(l, s, s1, text, message);
    }
  }

  lemma {:induction false} PongGood(s: Shared, s1: Shared, payload: seq<byte>, limit: nat)
    requires Good(s1, limit) && Advances(s, s1) && |payload| <= 125
    ensures GoodCall(s, CallWrite(s1, 0xa, payload).Under(Tail), limit)
  {
    hide Good, GoodCall, Advances;
    WriteGood(s1, 0xa, payload, limit);
    AnsweredGood(s, s1, CallWrite(s1, 0xa, payload), limit);
  }

  lemma {:induction false} SteppedGood(s: Shared, s1: Shared, limit: nat)
    requires Good(s1, limit) && Advances(s, s1)
    ensures GoodCall(s, Call(s1, [], OK), limit)
  {
    hide Good, Advances;
  }

  lemma {:induction false} DeliverGood(l: Limits, s: Shared, s1: Shared, text: bool, message: seq<byte>)
    requires Good(s, l.maxMessageBytes) && Good(s1, l.maxMessageBytes) && Advances(s, s1)
    ensures GoodCall(s, Call(s1.(core := Emit(s1.core, Reported(HandlerFailed))), [AfterReport], ForOutside),
                     l.maxMessageBytes)
    ensures GoodCall(s, Call(s1.(core := Emit(s1.core, Delivered(text, message))), [AfterMessage], ForOutside),
                     l.maxMessageBytes)
  {
    hide Good, GoodCall, Advances;
    var limit := l.maxMessageBytes;
    var failed := s1.(core := Emit(s1.core, Reported(HandlerFailed)));
    CoreKept(s1, failed, limit);
    AdvancesTransitive(s, s1, failed);
    WaitingGood(s, failed, AfterReport, limit);
    var delivered := s1.(core := Emit(s1.core, Delivered(text, message)));
    CoreKept(s1, delivered, limit);
    AdvancesTransitive(s, s1, delivered);
    WaitingGood(s, delivered, AfterMessage, limit);
  }

  /** Only fields that take no part in closing changed. */
  lemma {:induction false} CoreKept(s: Shared, s': Shared, limit: nat)
    requires Good(s, limit)
    requires s' == s.(core := s'.core, pendingInput := s'.pendingInput, buffer := s'.buffer, input := s'.input)
    requires s'.core.ready == s.core.ready && s'.core.sentClose == s.core.sentClose && s'.core.timer == s.core.timer
    requires s'.core.receivedClose == s.core.receivedClose
    requires s'.core.closeCode == s.core.closeCode && s'.core.closeReason == s.core.closeReason
    requires s'.buffer == s.buffer || !ClosedWithoutFrame(s)
    ensures Good(s', limit) && Advances(s, s')
  {
    CoreStep(s, s', limit);
  }

  /** With nothing buffered a closed socket reads no frame; otherwise it sent its Close. */
  lemma {:induction false} ReadGood(l: Limits, s: Shared)
    requires Good(s, l.maxMessageBytes)
    ensures GoodCall(s, CallRead(l, s), l.maxMessageBytes)
  {
    hide CallHandle;
    var limit := l.maxMessageBytes;
    ReadFrameSizes(s.buffer, limit);
    match ReadFrame(s.buffer, limit)
    case NeedMore =>
    case Fail(cause, code) =>
      FailureGood(s, cause, code, limit);
    case Parsed(frame, size) =>
      var s1 := Take(s, frame, size);
      CoreKept(s, s1, limit);
      HandleGood(l, s1, frame);
      AdvancesTransitive(s, s1, CallHandle(l, s1, frame).shared);
  }

  lemma {:induction false} ReceiveGood(l: Limits, s: Shared, data: seq<byte>)
    requires Good(s, l.maxMessageBytes)
    ensures GoodCall(s, CallReceive(l, s, data), l.maxMessageBytes)
  {
    hide Good, CallRead;
    var limit := l.maxMessageBytes;
    if s.core.ready == CONNECTING {
      var s1 := s.(pendingInput := s.pendingInput + data);
      CoreKept(s, s1, limit);
      FailureGood(s1, InputOverLimit, 1009, limit);
    } else if s.core.ready != CLOSED {
      var s1 := Feed(s, data);
      CoreKept(s, s1, limit);
      ReadGood(l, s1);
      AdvancesTransitive(s, s1, CallRead(l, s1).shared);
    }
  }

  lemma {:induction false} ArrivalGood(l: Limits, s: Shared, data: seq<byte>)
    requires Good(s, l.maxMessageBytes)
    ensures GoodCall(s, CallReceive(l, Arrive(s, data), data), l.maxMessageBytes)
  {
    hide CallReceive;
    var s1 := Arrive(s, data);
    CoreKept(s, s1, l.maxMessageBytes);
    ReceiveGood(l, s1, data);
    AdvancesTransitive(s, s1, CallReceive(l, s1, data).shared);
  }

  lemma {:induction false} ReceiveEndGood(s: Shared, finished: bool, limit: nat)
    requires Good(s, limit)
    ensures GoodCall(s, CallReceiveEnd(s, finished), limit)
  {
    if s.core.ready == CLOSED {
    } else if s.buffer != [] {
      FailureGood(s, EndedInsideFrame, 1002, limit);
    } else if finished && s.core.receivedClose {
      FinishGood(s, s.core.closeCode, s.core.closeReason, TransportEnded(true), limit);
    } else {
      var s1 := s.(core := Emit(s.core, Aborted));
      CoreKept(s, s1, limit);
      FinishGood(s1, 1006, s.core.closeReason, TransportEnded(false), limit);
    }
  }

  lemma {:induction false} AcceptGood(l: Limits, s: Shared, offered: bool)
    requires Good(s, l.maxMessageBytes)
    ensures GoodCall(s, CallAccept(l, s, offered), l.maxMessageBytes)
  {
    hide CallReceive;
    var limit := l.maxMessageBytes;
    if s.core.ready == CONNECTING && offered {
      var s1 := s.(core := s.core.(ready := OPEN));
      CoreStep(s, s1, limit);
      var s2 := s1.(pendingInput := []);
      CoreKept(s1, s2, limit);
      ReceiveGood(l, s2, s.pendingInput);
      AdvancesTransitive(s, s2, CallReceive(l, s2, s.pendingInput).shared);
    }
  }

  lemma {:induction false} SendGood(l: Limits, s: Shared, text: bool, data: seq<byte>)
    requires Good(s, l.maxMessageBytes)
    ensures GoodCall(s, CallSend(l, s, text, data), l.maxMessageBytes)
  {
    if s.core.ready == OPEN && |data| <= l.maxMessageBytes {
      WriteGood(s, if text then 0x1 else 0x2, data, l.maxMessageBytes);
    }
  }

  lemma {:induction false} Idle(s: Shared, wait: Wait, limit: nat)
    requires Good(s, limit)
    ensures GoodCall(s, Call(s, [], wait), limit)
  {
  }

  lemma {:induction false} FailureReportedGood(s: Shared, code: nat, limit: nat)
    requires Good(s, limit) && (code == 1002 || code == 1009) && !s.core.sentClose && s.core.ready != CLOSED
    ensures GoodCall(s, CallClose(s, code, FailureReason(code)).Under(FailureClosing), limit)
  {
    CloseGood(s, code, FailureReason(code), limit);
    UnderGood(s, CallClose(s, code, FailureReason(code)), FailureClosing, limit);
  }

  /** Resuming a task from a safe place. */
  lemma {:induction false} ResumeGood(l: Limits, s: Shared, place: Place, ok: bool, value: bool)
    requires Good(s, l.maxMessageBytes) && Safe(s, place)
    requires place.EndQueued? ==> place.count <= |s.results|
    ensures GoodCall(s, Resume(l, s, place, ok, value), l.maxMessageBytes)
  {
    hide Good, CallRead, CallClose, CallFinish, CallFinishTransport, Advances, Drained, FailureReason, Ascii;
    var limit := l.maxMessageBytes;
    Idle(s, Resume(l, s, place, ok, value).wait, limit);
    match place {
      case ReadLoop =>
        ReadGood(l, s);
      case AfterMessage =>
        CoreKept(s, s.(core := Emit(s.core, Reported(HandlerFailed))), limit);
      case AfterReport =>
        CloseGood(s, 1011, Ascii("Handler failed"), limit);
      case AfterEcho(code, reason) =>
        FinishTransportGood(s, limit);
        PlacesStay(s, CallFinishTransport(s), AfterPeerEnd(code, reason), limit);
      case AfterPeerEnd(code, reason) =>
        FinishGood(s, code, reason, PeerClosed, limit);
      case FailureReported(code) =>
        if !s.core.sentClose && s.core.ready != CLOSED {
          FailureReportedGood(s, code, limit);
        } else {
          FinishTransportGood(s, limit);
          PlacesStay(s, CallFinishTransport(s), FailureEnding, limit);
        }
      case FailureClosing =>
        FinishTransportGood(s, limit);
        PlacesStay(s, CallFinishTransport(s), FailureEnding, limit);
      case FailureEnding =>
        FinishGood(s, 1006, [], Failed, limit);
      case CloseWritten =>
        FinishTransportGood(s, limit);
        TimerGood(s, limit);
      case EndQueued(n) =>
        EndGood(l, s, n);
      case EndCalled =>
        CoreKept(s, s.(core := Emit(s.core, Aborted)), limit);
      case _ =>
    }
  }

  lemma {:induction false} PlacesStay(s: Shared, c: Call, place: Place, limit: nat)
    requires GoodCall(s, c, limit) && Safe(s, place) && !place.EndQueued?
    ensures GoodCall(s, c.Under(place), limit)
  {
    SafeStays(s, c.shared, place);
    UnderGood(s, c, place, limit);
  }

  lemma {:induction false} TimerGood(s: Shared, limit: nat)
    requires Good(s, limit) && s.core.sentClose
    ensures GoodCall(s, Call(s.(core := s.core.(timer := true)), [], OK), limit)
  {
    CoreStep(s, s.(core := s.core.(timer := true)), limit);
  }

  lemma {:induction false} EndGood(l: Limits, s: Shared, n: nat)
    requires Good(s, l.maxMessageBytes) && Drained(s, n) && n <= |s.results|
    ensures GoodCall(s, Resume(l, s, EndQueued(n), true, false), l.maxMessageBytes)
  {
    var s' := Resume(l, s, EndQueued(n), true, false).shared;
    forall k <- s'.ends ensures k <= |s'.results| && Drained(s', k) {
      if k in s.ends {
        DrainedStays(s, s', k);
      } else {
        assert k == |s.results|;
        if HasClose(s.queue[..n]) {
          var i :| 0 <= i < n && s.queue[..n][i].opcode == 0x8;
          assert s'.queue[..k][i].opcode == 0x8;
        }
      }
    }
  }

  // ---------------------------------------------------------------- every step, every run

  ghost predicate SafeTask(s: Shared, t: Task) {
    AllSafe(s, t.stack) && WaitsForQueue(t.stack, t.wait)
  }

  ghost predicate Invariant(m: Machine, limit: nat) {
    Good(m.shared, limit) && forall i | 0 <= i < |m.tasks| :: SafeTask(m.shared, m.tasks[i])
  }

  lemma {:induction false} TasksStay(m: Machine, s': Shared, limit: nat)
    requires Invariant(m, limit) && Good(s', limit) && Advances(m.shared, s')
    ensures Invariant(m.(shared := s'), limit)
  {
    forall i | 0 <= i < |m.tasks| ensures SafeTask(s', m.tasks[i]) {
      AllSafeStays(m.shared, s', m.tasks[i].stack);
    }
  }

  lemma {:induction false} SpawnKeeps(m: Machine, c: Call, limit: nat)
    requires Invariant(m, limit) && GoodCall(m.shared, c, limit)
    ensures Invariant(Spawn(m, c), limit)
  {
    TasksStay(m, c.shared, limit);
  }

  /** The places below the resumed one, with what its call left waiting above them. */
  lemma {:induction false} StacksJoin(s: Shared, task: Task, c: Call, limit: nat)
    requires task.stack != [] && SafeTask(s, task) && GoodCall(s, c, limit)
    ensures SafeTask(c.shared, Task(task.stack[..|task.stack| - 1] + c.stack, c.wait))
  {
    hide Good, Advances, Safe;
    var below := task.stack[..|task.stack| - 1];
    AllSafeStays(s, c.shared, task.stack);
    assert forall k | 0 <= k < |below| :: below[k] == task.stack[k] && !below[k].EndQueued?;
  }

  /** A task that can resume does so from a safe place, and ends the transport only when the
      frames it must follow have settled. */
  lemma {:induction false} ReadyIsSafe(s: Shared, task: Task, outside: bool)
    requires task.stack != [] && SafeTask(s, task) && Answer(s, task.wait, outside).Some?
    ensures var place := task.stack[|task.stack| - 1];
            Safe(s, place) && (place.EndQueued? ==> place.count <= |s.results|)
  {
    hide Safe;
  }

  lemma {:induction false} ResumeKeeps(l: Limits, m: Machine, i: nat, ok: bool)
    requires Invariant(m, l.maxMessageBytes)
    ensures var m' := ResumeTask(l, m, i, ok);
            Invariant(m', l.maxMessageBytes) && Advances(m.shared, m'.shared)
  {
    hide Resume, Good, Advances, Safe, SafeTask, Answer;
    var s := m.shared;
    if i < |m.tasks| && m.tasks[i].stack != [] && Answer(s, m.tasks[i].wait, ok).Some? {
      var task := m.tasks[i];
      var (told, value) := Answer(s, task.wait, ok).value;
      var top := |task.stack| - 1;
      ReadyIsSafe(s, task, ok);
      ResumeGood(l, s, task.stack[top], told, value);
      var c := Resume(l, s, task.stack[top], told, value);
      TasksStay(m, c.shared, l.maxMessageBytes);
      StacksJoin(s, task, c, l.maxMessageBytes);
      assert ResumeTask(l, m, i, ok) == Machine(c.shared, m.tasks[i := Task(task.stack[..top] + c.stack, c.wait)]);
    } else {
      AdvancesItself(s);
      assert ResumeTask(l, m, i, ok) == m;
    }
  }

  lemma {:induction false} AdvancesItself(s: Shared)
    ensures Advances(s, s)
  {
  }

  lemma {:induction false} FiresKeeps(l: Limits, m: Machine)
    requires Invariant(m, l.maxMessageBytes)
    ensures var m' := Step(l, m, Fires);
            Invariant(m', l.maxMessageBytes) && Advances(m.shared, m'.shared)
  {
    var s, limit := m.shared, l.maxMessageBytes;
    if s.core.timer {
      var s1 := s.(core := Emit(s.core.(timer := false), Aborted));
      CoreStep(s, s1, limit);
      FinishGood(s1, 1006, [], TimedOut, limit);
      var c := CallFinish(s1, 1006, [], TimedOut);
      AdvancesTransitive(s, s1, c.shared);
      assert GoodCall(s, c, limit);
      SpawnKeeps(m, c, limit);
    }
  }

  lemma {:induction false} QueueKeeps(l: Limits, m: Machine, choice: Choice)
    requires Invariant(m, l.maxMessageBytes) && (choice.HandsOver? || choice.Settles?)
    ensures var m' := Step(l, m, choice);
            Invariant(m', l.maxMessageBytes) && Advances(m.shared, m'.shared)
  {
    hide SafeTask, Good, Advances;
    var s := m.shared;
    var handed, results := Step(l, m, choice).shared.handed, Step(l, m, choice).shared.results;
    QueueBounds(s, l.maxMessageBytes);
    QueueGood(s, handed, results, l.maxMessageBytes);
    TasksStay(m, s.(handed := handed, results := results), l.maxMessageBytes);
  }

  lemma {:induction false} QueueBounds(s: Shared, limit: nat)
    requires Good(s, limit)
    ensures |s.results| <= s.handed <= |s.queue| && s.handed <= |s.results| + 1
  {
  }

  /** A frame is handed over, or a write settles. */
  lemma {:induction false} QueueGood(s: Shared, handed: nat, results: seq<bool>, limit: nat)
    requires Good(s, limit) && s.handed <= handed && s.results <= results
    requires |results| <= handed <= |s.queue| && handed <= |results| + 1
    ensures var s' := s.(handed := handed, results := results); Good(s', limit) && Advances(s, s')
  {
    EndsStay(s, s.(handed := handed, results := results));
    hide Drained, Orderly, HasClose;
  }

  /** One step of any task, the queue or the timer keeps the invariant and moves forward. */
  lemma {:induction false} StepKeeps(l: Limits, m: Machine, choice: Choice)
    requires Invariant(m, l.maxMessageBytes)
    ensures var m' := Step(l, m, choice);
            Invariant(m', l.maxMessageBytes) && Advances(m.shared, m'.shared)
  {
    hide CallReceive, CallReceiveEnd, CallAccept, CallSend, CallClose, Good, Advances, AllSafe, Spawn, WaitsForQueue,
         ResumeTask;
    var s, limit := m.shared, l.maxMessageBytes;
    match choice {
      case Receives(data) => ArrivalGood(l, s, data); SpawnAdvances(m, CallReceive(l, Arrive(s, data), data), limit);
      case Ends(finished) => ReceiveEndGood(s, finished, limit); SpawnAdvances(m, CallReceiveEnd(s, finished), limit);
      case Accepts(offered) => AcceptGood(l, s, offered); SpawnAdvances(m, CallAccept(l, s, offered), limit);
      case Sends(text, data) => SendGood(l, s, text, data); SpawnAdvances(m, CallSend(l, s, text, data), limit);
      case Closes(code, reason) =>
        CloseGood(s, code, reason, limit);
        SpawnAdvances(m, CallClose(s, code, reason), limit);
      case Resumes(i, ok) => ResumeKeeps(l, m, i, ok);
      case Fires => FiresKeeps(l, m);
      case _ => QueueKeeps(l, m, choice);
    }
  }

  lemma {:induction false} SpawnAdvances(m: Machine, c: Call, limit: nat)
    requires Invariant(m, limit) && GoodCall(m.shared, c, limit)
    ensures Invariant(Spawn(m, c), limit) && Advances(m.shared, Spawn(m, c).shared)
  {
    SpawnKeeps(m, c, limit);
  }

  lemma {:induction false} RunKeeps(l: Limits, m: Machine, choices: seq<Choice>)
    requires Invariant(m, l.maxMessageBytes)
    ensures var m' := RunAll(l, m, choices);
            Invariant(m', l.maxMessageBytes) && Advances(m.shared, m'.shared)
    decreases |choices|
  {
    if choices != [] {
      StepKeeps(l, m, choices[0]);
      var m1 := Step(l, m, choices[0]);
      RunKeeps(l, m1, choices[1..]);
      AdvancesTransitive(m.shared, m1.shared, RunAll(l, m, choices).shared);
    }
  }

  lemma {:induction false} BeginIsGood(limit: nat)
    ensures Invariant(BEGIN, limit)
  {
  }

  lemma {:induction false} RunJoins(l: Limits, m: Machine, xs: seq<Choice>, ys: seq<Choice>)
    ensures RunAll(l, RunAll(l, m, xs), ys) == RunAll(l, m, xs + ys)
    decreases |xs|
  {
    hide Step;
    if xs == [] {
      assert [] + ys == ys;
    } else {
      RunJoins(l, Step(l, m, xs[0]), xs[1..], ys);
      assert (xs + ys)[1..] == xs[1..] + ys;
    }
  }

  // ---------------------------------------------------------------- the theorems

  /** Under every interleaving the ready state never decreases, and `onClose` fires at
      most once: exactly when the socket becomes closed. */
  lemma {:induction false} ReadyStateNeverDecreases(l: Limits, past: seq<Choice>, future: seq<Choice>)
    ensures var now, later := RunAll(l, BEGIN, past).shared, RunAll(l, BEGIN, past + future).shared;
            && now.core.ready.Rank() <= later.core.ready.Rank()
            && now.reports <= later.reports
            && |later.reports| == (if later.core.ready == CLOSED then 1 else 0)
  {
    BeginIsGood(l.maxMessageBytes);
    RunKeeps(l, BEGIN, past);
    RunKeeps(l, RunAll(l, BEGIN, past), future);
    RunJoins(l, BEGIN, past, future);
  }

  /** `onClose` reports a code other than 1006 only if a Close frame was parsed with that
      very code and reason, the code being one an endpoint may send or 1005 for an empty
      frame; a failure, a timeout or an unclean end always reports 1006. */
  lemma {:induction false} ReportedCodesAreThePeers(l: Limits, choices: seq<Choice>)
    ensures var s := RunAll(l, BEGIN, choices).shared;
            forall r <- s.reports ::
              && (r.code != 1006 ==>
                    && (r.finisher == PeerClosed || r.finisher == TransportEnded(true))
                    && (r.code, r.reason) in s.parsed
                    && (r.code == 1005 || ValidCloseCode(r.code)))
              && (r.finisher in {Failed, TimedOut, TransportEnded(false)} ==> r.code == 1006)
  {
    BeginIsGood(l.maxMessageBytes);
    RunKeeps(l, BEGIN, choices);
  }

  function FramesOfOps(queue: seq<Op>): seq<RawFrame> {
    if queue == [] then [] else [ServerFrame(queue[0].opcode, queue[0].payload)] + FramesOfOps(queue[1..])
  }

  lemma {:induction false} OpsAreWellFormed(queue: seq<Op>, limit: nat)
    requires limit <= MAX_SAFE_INTEGER && Orderly(queue, limit)
    ensures |FramesOfOps(queue)| == |queue|
    ensures forall i | 0 <= i < |queue| :: FramesOfOps(queue)[i] == ServerFrame(queue[i].opcode, queue[i].payload)
    ensures forall f <- FramesOfOps(queue) :: WellFormed(f)
  {
    if queue != [] {
      assert LegalOp(queue[0], limit);
      var rest := queue[1..];
      forall i | 0 <= i < |rest| ensures LegalOp(rest[i], limit) {
        assert rest[i] == queue[i + 1];
      }
      forall i, j | 0 <= i < j < |rest| && rest[i].opcode == 0x8 ensures rest[j].opcode == 0xa {
        assert rest[i] == queue[i + 1] && rest[j] == queue[j + 1];
      }
      OpsAreWellFormed(rest, limit);
    }
  }

  /** The bytes handed to the transport, under every interleaving, decode by section 5.2
      to exactly the operations enqueued so far, in order: final, unmasked, no reserved
      bit, at most 125 bytes in a control frame, at most one Close and only pongs after. */
  lemma {:induction false} WireCarriesTheQueue(l: Limits, choices: seq<Choice>)
    requires l.maxMessageBytes <= MAX_SAFE_INTEGER
    ensures var s := RunAll(l, BEGIN, choices).shared;
            && s.handed <= |s.queue| && Orderly(s.queue, l.maxMessageBytes)
            && (forall f <- FramesOfOps(s.queue[..s.handed]) :: WellFormed(f))
            && DecodeAll(LayoutAll(FramesOfOps(s.queue[..s.handed]))) == Some(FramesOfOps(s.queue[..s.handed]))
            && |FramesOfOps(s.queue[..s.handed])| == s.handed
            && (forall i | 0 <= i < s.handed ::
                  FramesOfOps(s.queue[..s.handed])[i] == RawFrame(true, 0, s.queue[i].opcode, None, s.queue[i].payload))
            && (s.core.sentClose <==> HasClose(s.queue))
  {
    BeginIsGood(l.maxMessageBytes);
    RunKeeps(l, BEGIN, choices);
    var s := RunAll(l, BEGIN, choices).shared;
    OpsAreWellFormed(s.queue[..s.handed], l.maxMessageBytes);
    DecodeAllInverts(FramesOfOps(s.queue[..s.handed]));
  }

  /** The transport is never ended ahead of the Close frame: at each `transport.end` the
      Close frame has been written and settled, or the transport had ended before any
      Close frame and none is ever sent. */
  lemma {:induction false} EndFollowsCloseFrame(l: Limits, choices: seq<Choice>)
    ensures var s := RunAll(l, BEGIN, choices).shared;
            forall n <- s.ends :: n <= |s.results| <= |s.queue| && (HasClose(s.queue[..n]) || !HasClose(s.queue))
  {
    BeginIsGood(l.maxMessageBytes);
    RunKeeps(l, BEGIN, choices);
  }

  /** A socket closed by its transport before any Close frame stays silent: no Close frame
      and no message follows, whatever is still running. */
  lemma {:induction false} SilentAfterEarlyEnd(l: Limits, past: seq<Choice>, future: seq<Choice>)
    requires ClosedWithoutFrame(RunAll(l, BEGIN, past).shared)
    ensures var later := RunAll(l, BEGIN, past + future).shared;
            ClosedWithoutFrame(later) && !HasClose(later.queue) && later.buffer == []
  {
    BeginIsGood(l.maxMessageBytes);
    RunKeeps(l, BEGIN, past);
    RunKeeps(l, RunAll(l, BEGIN, past), future);
    RunJoins(l, BEGIN, past, future);
  }
}
