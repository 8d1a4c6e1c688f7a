/** What the handler sees under every interleaving: the messages of the input, in the order in
    which the bytes arrived, however many reads overlap. */
module WebSocketOrder {
  import opened Bytes
  import opened Wire
  import opened WebSocketSpec
  import opened WebSocketFacts
  import opened WebSocketMachine
  import opened Reassembly

  // ---------------------------------------------------------------- reading off the front

  /** Read off one after another, the frames leave `rest` of the input. */
  ghost predicate Reads(max: nat, input: seq<byte>, frames: seq<Frame>, rest: seq<byte>)
    decreases |frames|
  {
    if frames == [] then input == rest else
    match ReadFrame(input, max)
    case Parsed(f, n) => n <= |input| && f == frames[0] && Reads(max, input[n..], frames[1..], rest)
    case _ => false
  }

  lemma {:induction false} ReadsMore(max: nat, input: seq<byte>, frames: seq<Frame>, rest: seq<byte>, more: seq<byte>)
    requires Reads(max, input, frames, rest)
    ensures Reads(max, input + more, frames, rest + more)
    decreases |frames|
  {
    hide ReadFrame;
    if frames != [] {
      var n := ReadFrame(input, max).size;
      ReadFrameStable(input, more, max);
      ReadsMore(max, input[n..], frames[1..], rest, more);
      assert (input + more)[n..] == input[n..] + more;
    }
  }

  lemma {:induction false} ReadsNext(max: nat, input: seq<byte>, frames: seq<Frame>, rest: seq<byte>, f: Frame, n: nat)
    requires Reads(max, input, frames, rest) && ReadFrame(rest, max) == Parsed(f, n) && n <= |rest|
    ensures Reads(max, input, frames + [f], rest[n..])
    decreases |frames|
  {
    if frames == [] {
      assert ([] + [f])[1..] == [];
    } else {
      var size := ReadFrame(input, max).size;
      ReadsNext(max, input[size..], frames[1..], rest, f, n);
      assert (frames + [f])[1..] == frames[1..] + [f];
    }
  }

  // ---------------------------------------------------------------- the messages of some frames

  /** What one decision adds to the deliveries. */
  function Handed(next: Next, utf8: seq<byte> -> bool): seq<(bool, seq<byte>)> {
    if next.Deliver? && !(next.text && !utf8(next.message)) then [(next.text, next.message)] else []
  }

  /** Frames reassembled one by one: the open fragments and the messages. */
  function DigestFrom(l: Limits, c: Core, frames: seq<Frame>): (Core, seq<(bool, seq<byte>)>)
    decreases |frames|
  {
    if frames == [] then (c, []) else
    var (c1, next) := Dispatch(c, frames[0], l.maxMessageBytes);
    var (c2, messages) := DigestFrom(l, c1, frames[1..]);
    (c2, Handed(next, l.utf8) + messages)
  }

  function Digest(l: Limits, frames: seq<Frame>): (Core, seq<(bool, seq<byte>)>) {
    DigestFrom(l, INITIAL, frames)
  }

  lemma {:induction false} DigestNext(l: Limits, c: Core, frames: seq<Frame>, f: Frame)
    ensures var (c1, messages) := DigestFrom(l, c, frames);
            var (c2, next) := Dispatch(c1, f, l.maxMessageBytes);
            DigestFrom(l, c, frames + [f]) == (c2, messages + Handed(next, l.utf8))
    decreases |frames|
  {
    hide Dispatch, Handed;
    if frames == [] {
      assert [] + [f] == [f] && [f][1..] == [];
      var handed := Handed(Dispatch(c, f, l.maxMessageBytes).1, l.utf8);
      assert handed + [] == handed == [] + handed;
    } else {
      var (c1, next) := Dispatch(c, frames[0], l.maxMessageBytes);
      DigestNext(l, c1, frames[1..], f);
      assert (frames + [f])[1..] == frames[1..] + [f];
      var (c2, messages) := DigestFrom(l, c1, frames[1..]);
      Associate(Handed(next, l.utf8), messages, Handed(Dispatch(c2, f, l.maxMessageBytes).1, l.utf8));
    }
  }

  /** Reassembly looks at the fragments only. */
  lemma {:induction false} DispatchLooksAtFragments(a: Core, b: Core, f: Frame, limit: nat)
    requires SameFragments(a, b)
    ensures Dispatch(a, f, limit).1 == Dispatch(b, f, limit).1
    ensures SameFragments(Dispatch(a, f, limit).0, Dispatch(b, f, limit).0)
  {
    hide Flatten;
    if f.opcode in {0, 0x1, 0x2} && (f.opcode == 0) == (a.fragmentOpcode != 0) {
      if f.fin {
        assert a.fragments + [f.payload] == b.fragments + [f.payload];
      }
    }
  }

  // ---------------------------------------------------------------- the invariant

  /** Bytes received wait for the socket to open or have been fed, in order; of those fed, the
      frames taken leave the buffer; and the handler has seen the messages of those frames. */
  ghost predicate InOrder(l: Limits, s: Shared) {
    && s.input.received == s.pendingInput + s.input.fed
    && (s.core.ready == CONNECTING ==> s.input.fed == [])
    && (s.core.ready == OPEN ==> s.pendingInput == [])
    && Reads(l.maxMessageBytes, s.input.fed, s.input.taken, s.buffer)
    && SameFragments(Digest(l, s.input.taken).0, s.core)
    && Deliveries(s.core.log) == Digest(l, s.input.taken).1
  }

  /** Nothing that concerns the input changed. */
  ghost predicate Unmoved(s: Shared, s': Shared) {
    && s'.input == s.input && s'.buffer == s.buffer && s'.pendingInput == s.pendingInput
    && SameFragments(s.core, s'.core) && Deliveries(s'.core.log) == Deliveries(s.core.log)
    && (s'.core.ready in {CONNECTING, OPEN} ==> s.core.ready == s'.core.ready)
  }

  lemma {:induction false} UnmovedKeeps(l: Limits, s: Shared, s': Shared)
    requires InOrder(l, s) && Unmoved(s, s')
    ensures InOrder(l, s')
  {
  }

  // ---------------------------------------------------------------- calls that read nothing

  lemma {:induction false} EmitUnmoved(s: Shared, e: Effect)
    requires !e.Delivered?
    ensures Unmoved(s, s.(core := Emit(s.core, e)))
  {
    LogGrows(s.core.log, e);
  }

  lemma {:induction false} FinishUnmoved(s: Shared, code: nat, reason: seq<byte>, finisher: Finisher)
    ensures Unmoved(s, CallFinish(s, code, reason, finisher).shared)
  {
    LogGrows(s.core.log, Closed(code, reason));
    hide Deliveries;
  }

  lemma {:induction false} CloseUnmoved(s: Shared, code: int, reason: seq<byte>)
    ensures Unmoved(s, CallClose(s, code, reason).shared)
  {
    hide Deliveries;
  }

  lemma {:induction false} PeerCloseUnmoved(l: Limits, s: Shared, payload: seq<byte>)
    ensures Unmoved(s, CallPeerClose(l, s, payload).shared)
  {
    EmitUnmoved(s, Reported(InvalidClose));
    hide Deliveries, ParseClose;
  }

  // ---------------------------------------------------------------- calls that read

  /** A frame leaves the buffer, is reassembled and handed on, all before the first await. */
  lemma {:induction false} HandleKeeps(l: Limits, s: Shared, f: Frame, n: nat)
    requires InOrder(l, s) && ReadFrame(s.buffer, l.maxMessageBytes) == Parsed(f, n) && n <= |s.buffer|
    ensures InOrder(l, CallHandle(l, Take(s, f, n), f).shared)
  {
    var t, limit := Take(s, f, n), l.maxMessageBytes;
    var (c, next) := Dispatch(s.core, f, limit);
    ReadsNext(limit, s.input.fed, s.input.taken, s.buffer, f, n);
    DigestNext(l, INITIAL, s.input.taken, f);
    DispatchLooksAtFragments(Digest(l, s.input.taken).0, s.core, f, limit);
    DispatchKeeps(s.core, f, limit);
    var t1 := t.(core := c);
    HandedOn(l, t1, f, next, CallHandle(l, t, f).shared);
    hide Dispatch, DigestFrom, Reads, Deliveries, CallHandle;
  }

  /** What the decision about a frame adds to the log is what it hands on. */
  lemma {:induction false} HandedOn(l: Limits, t1: Shared, f: Frame, next: Next, t2: Shared)
    requires t2 == match next
      case PeerClose(payload) => CallPeerClose(l, t1, payload).shared
      case SendPong(payload) => CallWrite(t1, 0xa, payload).shared
      case Nothing => t1
      case Violation(cause, code) => CallFailure(t1, cause, code).shared
      case Deliver(text, message) =>
        var effect := if text && !l.utf8(message) then Reported(HandlerFailed) else Delivered(text, message);
        t1.(core := Emit(t1.core, effect))
    ensures t2.input == t1.input && t2.buffer == t1.buffer && t2.pendingInput == t1.pendingInput
    ensures SameFragments(t1.core, t2.core)
    ensures t2.core.ready in {CONNECTING, OPEN} ==> t1.core.ready == t2.core.ready
    ensures Deliveries(t2.core.log) == Deliveries(t1.core.log) + Handed(next, l.utf8)
  {
    hide CallPeerClose, Deliveries;
    match next {
      case PeerClose(payload) => PeerCloseUnmoved(l, t1, payload);
      case Violation(cause, code) => EmitUnmoved(t1, Reported(cause));
      case Deliver(text, message) =>
        LogGrows(t1.core.log, Reported(HandlerFailed));
        LogGrows(t1.core.log, Delivered(text, message));
      case _ =>
    }
  }

  lemma {:induction false} ReadKeeps(l: Limits, s: Shared)
    requires InOrder(l, s)
    ensures InOrder(l, CallRead(l, s).shared)
  {
    hide CallHandle, InOrder;
    ReadFrameSizes(s.buffer, l.maxMessageBytes);
    match ReadFrame(s.buffer, l.maxMessageBytes)
    case NeedMore =>
    case Fail(cause, code) =>
      EmitUnmoved(s, Reported(cause));
      UnmovedKeeps(l, s, CallRead(l, s).shared);
    case Parsed(frame, size) => HandleKeeps(l, s, frame, size);
  }

  /** Fresh input, behind everything received before it. */
  lemma {:induction false} ArrivalKeeps(l: Limits, s: Shared, data: seq<byte>)
    requires InOrder(l, s)
    ensures InOrder(l, CallReceive(l, Arrive(s, data), data).shared)
  {
    hide CallRead, Digest, Deliveries;
    if s.core.ready == CONNECTING {
      var s1 := Arrive(s, data);
      var s2 := s1.(pendingInput := s1.pendingInput + data);
      assert s.pendingInput + [] == s.pendingInput && s2.pendingInput + [] == s2.pendingInput;
      EmitUnmoved(s2, Reported(InputOverLimit));
      assert InOrder(l, s2);
      UnmovedKeeps(l, s2, s2.(core := Emit(s2.core, Reported(InputOverLimit))));
    } else if s.core.ready != CLOSED {
      Associate(s.pendingInput, s.input.fed, data);
      ReadsMore(l.maxMessageBytes, s.input.fed, s.input.taken, s.buffer, data);
      ReadKeeps(l, Feed(Arrive(s, data), data));
    }
  }

  /** Opening feeds what waited. */
  lemma {:induction false} AcceptKeeps(l: Limits, s: Shared, offered: bool)
    requires InOrder(l, s)
    ensures InOrder(l, CallAccept(l, s, offered).shared)
  {
    hide CallRead, Digest, Deliveries;
    if s.core.ready == CONNECTING && offered {
      var s1 := s.(core := s.core.(ready := OPEN), pendingInput := []);
      ReadsMore(l.maxMessageBytes, s.input.fed, s.input.taken, s.buffer, s.pendingInput);
      assert s.pendingInput + [] == s.pendingInput && [] + s.pendingInput == s.pendingInput;
      ReadKeeps(l, Feed(s1, s.pendingInput));
    }
  }

  lemma {:induction false} EndKeeps(l: Limits, s: Shared, finished: bool)
    requires InOrder(l, s)
    ensures InOrder(l, CallReceiveEnd(s, finished).shared)
  {
    hide InOrder, CallFinish, Deliveries;
    if s.core.ready == CLOSED {
    } else if s.buffer != [] {
      EmitUnmoved(s, Reported(EndedInsideFrame));
      UnmovedKeeps(l, s, CallReceiveEnd(s, finished).shared);
    } else if finished && s.core.receivedClose {
      FinishUnmoved(s, s.core.closeCode, s.core.closeReason, TransportEnded(true));
      UnmovedKeeps(l, s, CallReceiveEnd(s, finished).shared);
    } else {
      var s1 := s.(core := Emit(s.core, Aborted));
      EmitUnmoved(s, Aborted);
      UnmovedKeeps(l, s, s1);
      FinishUnmoved(s1, 1006, s.core.closeReason, TransportEnded(false));
      UnmovedKeeps(l, s1, CallReceiveEnd(s, finished).shared);
    }
  }

  /** From one await to the next: only the read loop moves the input. */
  lemma {:induction false} ResumeKeeps(l: Limits, s: Shared, place: Place, ok: bool, value: bool)
    requires InOrder(l, s)
    ensures InOrder(l, Resume(l, s, place, ok, value).shared)
  {
    hide InOrder, CallRead, CallClose, CallFinish, Deliveries, FailureReason, Ascii;
    var s' := Resume(l, s, place, ok, value).shared;
    match place {
      case ReadLoop =>
        if ok && value {
          ReadKeeps(l, s);
        }
      case AfterMessage =>
        EmitUnmoved(s, Reported(HandlerFailed));
        UnmovedKeeps(l, s, s.(core := Emit(s.core, Reported(HandlerFailed))));
      case AfterReport =>
        CloseUnmoved(s, 1011, Ascii("Handler failed"));
        UnmovedKeeps(l, s, CallClose(s, 1011, Ascii("Handler failed")).shared);
      case AfterPeerEnd(code, reason) =>
        FinishUnmoved(s, code, reason, PeerClosed);
        UnmovedKeeps(l, s, s');
      case FailureReported(code) =>
        CloseUnmoved(s, code, FailureReason(code));
        UnmovedKeeps(l, s, CallClose(s, code, FailureReason(code)).shared);
        UnmovedKeeps(l, s, CallFinishTransport(s).shared);
      case FailureEnding =>
        FinishUnmoved(s, 1006, [], Failed);
        UnmovedKeeps(l, s, s');
      case EndQueued(_) =>
        EmitUnmoved(s, Ended(true));
        UnmovedKeeps(l, s, s');
      case EndCalled =>
        EmitUnmoved(s, Aborted);
        UnmovedKeeps(l, s, s.(core := Emit(s.core, Aborted)));
      case _ =>
        UnmovedKeeps(l, s, s');
    }
  }

  lemma {:induction false} FiresKeeps(l: Limits, s: Shared)
    requires InOrder(l, s)
    ensures InOrder(l, CallFinish(s.(core := Emit(s.core.(timer := false), Aborted)), 1006, [], TimedOut).shared)
  {
    hide InOrder, CallFinish, Deliveries;
    var s1 := s.(core := s.core.(timer := false));
    UnmovedKeeps(l, s, s1);
    EmitUnmoved(s1, Aborted);
    var s2 := s1.(core := Emit(s1.core, Aborted));
    UnmovedKeeps(l, s1, s2);
    FinishUnmoved(s2, 1006, [], TimedOut);
    UnmovedKeeps(l, s2, CallFinish(s2, 1006, [], TimedOut).shared);
  }

  lemma {:induction false} StepKeeps(l: Limits, m: Machine, choice: Choice)
    requires InOrder(l, m.shared)
    ensures InOrder(l, Step(l, m, choice).shared)
  {
    hide InOrder, CallReceive, CallReceiveEnd, CallAccept, CallClose, CallFinish, Resume, Arrive;
    var s := m.shared;
    match choice {
      case Receives(data) => ArrivalKeeps(l, s, data);
      case Ends(finished) => EndKeeps(l, s, finished);
      case Accepts(offered) => AcceptKeeps(l, s, offered);
      case Sends(text, data) => UnmovedKeeps(l, s, CallSend(l, s, text, data).shared);
      case Closes(code, reason) =>
        CloseUnmoved(s, code, reason);
        UnmovedKeeps(l, s, CallClose(s, code, reason).shared);
      case Resumes(i, ok) => TaskKeeps(l, m, i, ok);
      case Fires => FiresKeeps(l, s);
      case _ => UnmovedKeeps(l, s, Step(l, m, choice).shared);
    }
  }

  lemma {:induction false} TaskKeeps(l: Limits, m: Machine, i: nat, ok: bool)
    requires InOrder(l, m.shared)
    ensures InOrder(l, ResumeTask(l, m, i, ok).shared)
  {
    hide InOrder, Resume;
    var s := m.shared;
    if i < |m.tasks| && m.tasks[i].stack != [] && Answer(s, m.tasks[i].wait, ok).Some? {
      var (told, value) := Answer(s, m.tasks[i].wait, ok).value;
      ResumeKeeps(l, s, m.tasks[i].stack[|m.tasks[i].stack| - 1], told, value);
    }
  }

  lemma {:induction false} RunKeeps(l: Limits, m: Machine, choices: seq<Choice>)
    requires InOrder(l, m.shared)
    ensures InOrder(l, RunAll(l, m, choices).shared)
    decreases |choices|
  {
    hide InOrder, Step;
    if choices != [] {
      StepKeeps(l, m, choices[0]);
      RunKeeps(l, Step(l, m, choices[0]), choices[1..]);
    }
  }

  lemma {:induction false} RunKeepsOrder(l: Limits, choices: seq<Choice>)
    ensures InOrder(l, RunAll(l, BEGIN, choices).shared)
  {
    assert InOrder(l, START);
    hide InOrder, RunAll;
    RunKeeps(l, BEGIN, choices);
  }

  // ---------------------------------------------------------------- the theorems

  /** What arrived on a live socket in a run, in order. */
  function Arrived(l: Limits, m: Machine, choices: seq<Choice>): seq<byte>
    decreases |choices|
  {
    if choices == [] then [] else
    (if choices[0].Receives? && m.shared.core.ready != CLOSED then choices[0].data else [])
    + Arrived(l, Step(l, m, choices[0]), choices[1..])
  }

  lemma {:induction false} HandleReceivesNothing(l: Limits, s: Shared, f: Frame)
    ensures CallHandle(l, s, f).shared.input == s.input
  {
    hide Dispatch, ParseClose;
  }

  lemma {:induction false} ReadReceivesNothing(l: Limits, s: Shared)
    ensures CallRead(l, s).shared.input.received == s.input.received
  {
    hide CallHandle;
    ReadFrameSizes(s.buffer, l.maxMessageBytes);
    match ReadFrame(s.buffer, l.maxMessageBytes)
    case Parsed(frame, size) => HandleReceivesNothing(l, Take(s, frame, size), frame);
    case _ =>
  }

  lemma {:induction false} ReceiveAddsNothing(l: Limits, s: Shared, data: seq<byte>)
    ensures CallReceive(l, s, data).shared.input.received == s.input.received
  {
    hide CallRead;
    ReadReceivesNothing(l, Feed(s, data));
  }

  lemma {:induction false} ResumeReceivesNothing(l: Limits, s: Shared, place: Place, ok: bool, value: bool)
    ensures Resume(l, s, place, ok, value).shared.input.received == s.input.received
  {
    hide CallRead, StartClose, FailureReason, Ascii;
    ReadReceivesNothing(l, s);
  }

  lemma {:induction false} StepReceives(l: Limits, m: Machine, choice: Choice)
    ensures Step(l, m, choice).shared.input.received == m.shared.input.received
            + (if choice.Receives? && m.shared.core.ready != CLOSED then choice.data else [])
  {
    hide CallReceive, Resume, CallRead, StartClose;
    var s := m.shared;
    var received := s.input.received;
    assert received + [] == received;
    match choice {
      case Receives(data) => ReceiveAddsNothing(l, Arrive(s, data), data);
      case Accepts(offered) =>
        ReceiveAddsNothing(l, s.(core := s.core.(ready := OPEN), pendingInput := []), s.pendingInput);
      case Resumes(i, ok) =>
        if i < |m.tasks| && m.tasks[i].stack != [] && Answer(s, m.tasks[i].wait, ok).Some? {
          var (told, value) := Answer(s, m.tasks[i].wait, ok).value;
          ResumeReceivesNothing(l, s, m.tasks[i].stack[|m.tasks[i].stack| - 1], told, value);
        }
      case _ =>
    }
  }

  lemma {:induction false} RunReceives(l: Limits, m: Machine, choices: seq<Choice>)
    ensures RunAll(l, m, choices).shared.input.received == m.shared.input.received + Arrived(l, m, choices)
    decreases |choices|
  {
    hide Step;
    if choices == [] {
      assert m.shared.input.received + [] == m.shared.input.received;
    } else {
      var m1 := Step(l, m, choices[0]);
      StepReceives(l, m, choices[0]);
      RunReceives(l, m1, choices[1..]);
      var own := if choices[0].Receives? && m.shared.core.ready != CLOSED then choices[0].data else [];
      Associate(m.shared.input.received, own, Arrived(l, m1, choices[1..]));
    }
  }

  /** Under every interleaving, overlapping reads included, what the handler saw is what
      reassembling the frames of the input gives, in the order in which the bytes arrived. The
      input is everything that arrived, short of what still waits for the socket to open. */
  lemma {:induction false} DeliveriesFollowInput(l: Limits, choices: seq<Choice>)
    ensures var s := RunAll(l, BEGIN, choices).shared;
            && Arrived(l, BEGIN, choices) == s.pendingInput + s.input.fed
            && Reads(l.maxMessageBytes, s.input.fed, s.input.taken, s.buffer)
            && Deliveries(s.core.log) == Digest(l, s.input.taken).1
  {
    RunKeepsOrder(l, choices);
    RunReceives(l, BEGIN, choices);
    var arrived := Arrived(l, BEGIN, choices);
    assert [] + arrived == arrived;
  }

  // ---------------------------------------------------------------- bounded messages

  ghost predicate Fit(messages: seq<(bool, seq<byte>)>, limit: nat) {
    forall i | 0 <= i < |messages| :: |messages[i].1| <= limit
  }

  /** The fragments kept total no more than what was counted of them, and not more than the limit. */
  ghost predicate Counted(c: Core, limit: nat) {
    TotalLength(c.fragments) <= c.fragmentBytes && TotalLength(c.fragments) <= limit
  }

  /** After a violation the count may be past the limit; what it counts never is. */
  lemma {:induction false} DispatchCounts(c: Core, f: Frame, limit: nat)
    requires Counted(c, limit)
    ensures var (c', next) := Dispatch(c, f, limit);
            Counted(c', limit) && (next.Deliver? ==> |next.message| <= limit)
  {
    TotalLengthAppend(c.fragments, [f.payload]);
    assert TotalLength([f.payload]) == |f.payload|;
    FlattenLength(c.fragments + [f.payload]);
  }

  lemma {:induction false} DigestFits(l: Limits, c: Core, frames: seq<Frame>)
    requires Counted(c, l.maxMessageBytes)
    ensures var (c', messages) := DigestFrom(l, c, frames);
            Counted(c', l.maxMessageBytes) && Fit(messages, l.maxMessageBytes)
    decreases |frames|
  {
    if frames != [] {
      DispatchCounts(c, frames[0], l.maxMessageBytes);
      DigestFits(l, Dispatch(c, frames[0], l.maxMessageBytes).0, frames[1..]);
    }
    hide Dispatch, Counted;
  }

  /** In every reachable state, calls that overlap included, the fragments kept total at most the
      limit, and no message above it has been delivered. */
  lemma {:induction false} EveryRunIsBounded(l: Limits, choices: seq<Choice>)
    ensures var c := RunAll(l, BEGIN, choices).shared.core;
            && TotalLength(c.fragments) <= l.maxMessageBytes
            && forall i | 0 <= i < |Deliveries(c.log)| :: |Deliveries(c.log)[i].1| <= l.maxMessageBytes
  {
    RunKeepsOrder(l, choices);
    DigestFits(l, INITIAL, RunAll(l, BEGIN, choices).shared.input.taken);
    hide RunAll, Digest;
  }

  // ---------------------------------------------------------------- whole messages

  /** A transport that takes everything and a handler that only listens. */
  function Listener(l: Limits): Env {
    Env(l.maxMessageBytes, l.utf8, (_, _, _) => HandlerRun([], false), _ => true, _ => true)
  }

  lemma {:induction false} ListenerNeverRejects(l: Limits, c: Core, f: Frame)
    ensures !HandleFrame(Listener(l), c, f).rejected
  {
    hide Dispatch, ParseClose, ProtocolFailure, Perform;
  }

  lemma {:induction false} DigestIsHandled(l: Limits, c: Core, d: Core, frames: seq<Frame>)
    requires SameFragments(d, c) && c.ready != CLOSED && HandleAll(Listener(l), c, frames).core.ready != CLOSED
    ensures Deliveries(HandleAll(Listener(l), c, frames).core.log) == Deliveries(c.log) + DigestFrom(l, d, frames).1
    decreases |frames|
  {
    hide HandleFrame, Deliveries, Dispatch;
    if frames == [] {
      assert Deliveries(c.log) + [] == Deliveries(c.log);
    } else {
      var env, f := Listener(l), frames[0];
      HandleFrameQuiet(env, c, f);
      ListenerNeverRejects(l, c, f);
      DispatchLooksAtFragments(d, c, f, l.maxMessageBytes);
      var c' := HandleFrame(env, c, f).core;
      var (d', next) := Dispatch(d, f, l.maxMessageBytes);
      DigestIsHandled(l, c', d', frames[1..]);
      Associate(Deliveries(c.log), Handed(next, l.utf8), DigestFrom(l, d', frames[1..]).1);
    }
  }

  /** Messages cut and mixed with pings and pongs as section 5.4 of RFC 6455 allows: of the frames
      taken so far, the whole messages came out whole and in order, however the reads overlap. */
  lemma {:induction false} TakenMessagesDelivered(l: Limits, choices: seq<Choice>, messages: seq<Message>)
    returns (k: nat, seen: nat)
    requires AllValid(messages, l.maxMessageBytes)
    requires var taken := RunAll(l, BEGIN, choices).shared.input.taken;
             AllLegal(taken, l.maxMessageBytes) && DataFrames(taken) <= FramesOf(messages)
    ensures ReadUpTo(messages, k, seen, RunAll(l, BEGIN, choices).shared.input.taken) && k <= |messages|
    ensures Deliveries(RunAll(l, BEGIN, choices).shared.core.log) == Expected(messages[..k], l.utf8)
  {
    hide RunAll, HandleAll, DigestFrom, Deliveries, DataFrames, FramesOf, Expected, ReadUpTo, Reads;
    DeliveriesFollowInput(l, choices);
    var taken, c := RunAll(l, BEGIN, choices).shared.input.taken, INITIAL.(ready := OPEN);
    k, seen := ListenerHears(l, c, messages, taken);
    DigestIsHandled(l, c, INITIAL, taken);
    NothingYet();
    assert [] + Digest(l, taken).1 == Digest(l, taken).1;
  }

  lemma {:induction false} NothingYet()
    ensures Deliveries([]) == []
  {
  }

  /** The data frames among `frames` are the first `k` messages and `seen` parts of the next. */
  ghost predicate ReadUpTo(messages: seq<Message>, k: nat, seen: nat, frames: seq<Frame>) {
    && k <= |messages|
    && (if k == |messages| then seen == 0 else seen < |messages[k].parts|)
    && FramesOf(messages) == DataFrames(frames) + Remaining(messages[k..], seen)
  }

  lemma {:induction false} StartOfMessages(c: Core, messages: seq<Message>, limit: nat)
    requires c == INITIAL.(ready := OPEN) && AllValid(messages, limit)
    ensures Between(c, messages[0..], 0) && Remaining(messages[0..], 0) == FramesOf(messages)
  {
    assert messages[0..] == messages;
    if messages != [] {
      assert messages[0].Valid(limit);
      StartsBetween(c, messages);
    }
  }

  lemma {:induction false} ListenerHears(l: Limits, c: Core, messages: seq<Message>, frames: seq<Frame>)
    returns (k: nat, seen: nat)
    requires c == INITIAL.(ready := OPEN)
    requires AllValid(messages, l.maxMessageBytes) && AllLegal(frames, l.maxMessageBytes)
    requires DataFrames(frames) <= FramesOf(messages)
    ensures ReadUpTo(messages, k, seen, frames) && k <= |messages|
    ensures var r := HandleAll(Listener(l), c, frames);
            r.core.ready != CLOSED && Deliveries(r.core.log) == Expected(messages[..k], l.utf8)
  {
    hide HandleAll, DataFrames, FramesOf, Remaining, Expected, Deliveries, Between, AllLegal, AllValid;
    NeverRejects(l, c, frames);
    StartOfMessages(c, messages, l.maxMessageBytes);
    k, seen := Assembles(Listener(l), c, frames, messages, 0, 0);
    var r := HandleAll(Listener(l), c, frames);
    PositionOfMessages(r.core, messages, k, seen);
    NothingYet();
    HeardSoFar(messages, k, l.utf8, Deliveries(r.core.log));
  }

  lemma {:induction false} PositionOfMessages(c: Core, messages: seq<Message>, k: nat, seen: nat)
    requires k <= |messages| && Between(c, messages[k..], seen)
    ensures c.ready != CLOSED && if k == |messages| then seen == 0 else seen < |messages[k].parts|
  {
  }

  lemma {:induction false} HeardSoFar(messages: seq<Message>, k: nat, utf8: seq<byte> -> bool,
                                      heard: seq<(bool, seq<byte>)>)
    requires k <= |messages|
    requires heard + Expected(messages[k..], utf8) == [] + Expected(messages[0..], utf8)
    ensures heard == Expected(messages[..k], utf8)
  {
    hide Expected;
    assert messages[0..] == messages[..k] + messages[k..];
    ExpectedSplits(messages[..k], messages[k..], utf8);
    CancelSuffix(heard, [], Expected(messages[..k], utf8), Expected(messages[k..], utf8));
    assert [] + Expected(messages[..k], utf8) == Expected(messages[..k], utf8);
  }

  // ---------------------------------------------------------------- from bytes to messages

  /** Frames read off the front of the wire form of legal frames are the first of these. */
  lemma {:induction false} ReadsAreFirst(max: nat, input: seq<byte>, taken: seq<Frame>, rest: seq<byte>,
                                         frames: seq<Frame>, keys: seq<seq<byte>>)
    requires max <= MAX_SAFE_INTEGER && Reads(max, input, taken, rest)
    requires AllLegal(frames, max) && Keys(keys, |frames|) && input <= ClientLayout(frames, keys)
    ensures taken <= frames
    decreases |taken|
  {
    if taken != [] {
      var wire, n := ClientLayout(frames, keys), ReadFrame(input, max).size;
      var more := wire[|input|..];
      assert input + more == wire;
      ReadFrameStable(input, more, max);
      ReadFrameSizes(input, max);
      hide ReadFrame;
      assert frames != [];
      var f, later := frames[0], ClientLayout(frames[1..], keys[1..]);
      ClientFrameRoundTrip(f, keys[0], later, max);
      assert wire[n..] == later && input[n..] <= later;
      ReadsAreFirst(max, input[n..], taken[1..], rest, frames[1..], keys[1..]);
    }
  }

  lemma {:induction false} FirstDataFrames(xs: seq<Frame>, ys: seq<Frame>)
    requires xs <= ys
    ensures DataFrames(xs) <= DataFrames(ys)
  {
    if xs != [] {
      FirstDataFrames(xs[1..], ys[1..]);
    }
  }

  /** No input that arrived before the socket opened has been passed over. */
  predicate NothingSkipped(s: Shared) {
    s.pendingInput == [] || s.input.fed == []
  }

  lemma {:induction false} UntilClosingNothingSkipped(l: Limits, choices: seq<Choice>)
    ensures var s := RunAll(l, BEGIN, choices).shared; s.core.ready in {CONNECTING, OPEN} ==> NothingSkipped(s)
  {
    hide RunAll, Reads, Digest, Deliveries, SameFragments;
    RunKeepsOrder(l, choices);
  }

  /** So on a client's input, messages come out whole and in order as far as they have been read,
      however the reads that take them overlap and however the bytes were cut. */
  lemma {:induction false} MessagesSurviveOverlap(l: Limits, choices: seq<Choice>, messages: seq<Message>,
                                                  frames: seq<Frame>, keys: seq<seq<byte>>)
    returns (k: nat, seen: nat)
    requires l.maxMessageBytes <= MAX_SAFE_INTEGER && AllValid(messages, l.maxMessageBytes)
    requires AllLegal(frames, l.maxMessageBytes) && Keys(keys, |frames|) && DataFrames(frames) <= FramesOf(messages)
    requires Arrived(l, BEGIN, choices) <= ClientLayout(frames, keys)
    requires var s := RunAll(l, BEGIN, choices).shared; s.core.ready !in {CONNECTING, OPEN} ==> NothingSkipped(s)
    ensures var s := RunAll(l, BEGIN, choices).shared;
            && s.input.taken <= frames && ReadUpTo(messages, k, seen, s.input.taken)
            && Deliveries(s.core.log) == Expected(messages[..k], l.utf8)
  {
    hide ClientLayout, DataFrames, FramesOf, Deliveries, Digest;
    DeliveriesFollowInput(l, choices);
    var s := RunAll(l, BEGIN, choices).shared;
    UntilClosingNothingSkipped(l, choices);
    hide RunAll, Arrived;
    assert s.pendingInput == [] ==> [] + s.input.fed == s.input.fed;
    ReadsAreFirst(l.maxMessageBytes, s.input.fed, s.input.taken, s.buffer, frames, keys);
    hide Reads;
    FirstDataFrames(s.input.taken, frames);
    k, seen := TakenMessagesDelivered(l, choices, messages);
  }

  lemma {:induction false} NeverRejects(l: Limits, c: Core, frames: seq<Frame>)
    ensures !HandleAll(Listener(l), c, frames).rejected
    decreases |frames|
  {
    hide HandleFrame;
    if frames != [] {
      ListenerNeverRejects(l, c, frames[0]);
      NeverRejects(l, HandleFrame(Listener(l), c, frames[0]).core, frames[1..]);
    }
  }

  // ---------------------------------------------------------------- input passed over

  lemma {:induction false} ReadFeedsNothing(l: Limits, s: Shared)
    ensures CallRead(l, s).shared.input.fed == s.input.fed
  {
    hide CallHandle;
    ReadFrameSizes(s.buffer, l.maxMessageBytes);
    match ReadFrame(s.buffer, l.maxMessageBytes)
    case Parsed(frame, size) => HandleReceivesNothing(l, Take(s, frame, size), frame);
    case _ =>
  }

  lemma {:induction false} ReceiveFeeds(l: Limits, s: Shared, data: seq<byte>)
    requires s.core.ready != CLOSED
    ensures var t := CallReceive(l, Arrive(s, data), data).shared;
            && t.input.received == s.input.received + data
            && t.input.fed == if s.core.ready == CONNECTING then s.input.fed else s.input.fed + data
  {
    hide CallRead;
    ReceiveAddsNothing(l, Arrive(s, data), data);
    ReadFeedsNothing(l, Feed(Arrive(s, data), data));
  }

  /** What has been fed is the front of what arrived. */
  predicate InSequence(s: Shared) {
    s.input.fed <= s.input.received
  }

  /** For one more arrival: in its place when the socket has yet to open or nothing waits. */
  lemma {:induction false} ArrivalInSequence(l: Limits, s: Shared, data: seq<byte>)
    requires s.core.ready != CLOSED && s.input.received == s.pendingInput + s.input.fed
    requires if s.core.ready == CONNECTING then s.input.fed == [] else s.pendingInput == []
    ensures InSequence(CallReceive(l, Arrive(s, data), data).shared)
  {
    ReceiveFeeds(l, s, data);
    assert [] + s.input.fed == s.input.fed;
    hide CallReceive, Arrive;
  }

  /** Otherwise some arrival is not. */
  lemma {:induction false} ArrivalOutOfSequence(l: Limits, s: Shared) returns (data: seq<byte>)
    requires s.core.ready != CLOSED && s.core.ready != CONNECTING && s.pendingInput != []
    requires s.input.received == s.pendingInput + s.input.fed
    ensures !InSequence(CallReceive(l, Arrive(s, data), data).shared)
  {
    hide CallReceive, Arrive;
    var at := |s.input.fed|;
    data := [if s.input.received[at] == 0 then 1 else 0];
    ReceiveFeeds(l, s, data);
    assert (s.input.fed + data)[at] != (s.input.received + data)[at];
  }

  lemma {:induction false} RunOneMore(l: Limits, m: Machine, choices: seq<Choice>, next: Choice)
    ensures RunAll(l, m, choices + [next]) == Step(l, RunAll(l, m, choices), next)
    decreases |choices|
  {
    hide Step;
    if choices == [] {
      assert [] + [next] == [next] && [next][1..] == [];
      assert RunAll(l, m, [next]) == RunAll(l, Step(l, m, next), []);
    } else {
      RunOneMore(l, Step(l, m, choices[0]), choices[1..], next);
      assert (choices + [next])[1..] == choices[1..] + [next];
    }
  }

  lemma {:induction false} OneMoreArrival(l: Limits, choices: seq<Choice>, data: seq<byte>)
    ensures RunAll(l, BEGIN, choices + [Receives(data)]).shared
            == var s := RunAll(l, BEGIN, choices).shared; CallReceive(l, Arrive(s, data), data).shared
  {
    hide CallReceive, Arrive, RunAll;
    RunOneMore(l, BEGIN, choices, Receives(data));
  }

  /** Whatever arrives next is read in its place if and only if the socket has yet to open or
      nothing waited for it: a socket closed before it opens never returns to what waited. */
  lemma {:induction false} InSequenceUnlessClosedEarly(l: Limits, choices: seq<Choice>)
    requires RunAll(l, BEGIN, choices).shared.core.ready != CLOSED
    ensures (forall data :: InSequence(RunAll(l, BEGIN, choices + [Receives(data)]).shared))
            <==> (RunAll(l, BEGIN, choices).shared.core.ready == CONNECTING
                  || RunAll(l, BEGIN, choices).shared.pendingInput == [])
  {
    hide RunAll, CallReceive, Arrive, Reads, Digest, Deliveries, SameFragments, InSequence;
    RunKeepsOrder(l, choices);
    var s := RunAll(l, BEGIN, choices).shared;
    if s.core.ready == CONNECTING || s.pendingInput == [] {
      forall data ensures InSequence(RunAll(l, BEGIN, choices + [Receives(data)]).shared) {
        OneMoreArrival(l, choices, data);
        ArrivalInSequence(l, s, data);
      }
    } else {
      var data := ArrivalOutOfSequence(l, s);
      OneMoreArrival(l, choices, data);
    }
  }

  /** A one-byte binary message as a client sends it. */
  function ByteFrame(x: byte): Frame {
    Frame(true, 0x2, [x])
  }

  function ByteWire(x: byte, key: seq<byte>): seq<byte>
    requires |key| == 4
  {
    Layout(RawFrame(true, 0, 0x2, Some(key), [x]))
  }

  lemma {:induction false} ByteRead(l: Limits, s: Shared, x: byte, key: seq<byte>)
    requires 1 <= l.maxMessageBytes <= MAX_SAFE_INTEGER && |key| == 4
    requires s.buffer == ByteWire(x, key) && SameFragments(s.core, INITIAL)
    ensures |ByteWire(x, key)| == 7
    ensures CallRead(l, s).shared.core.log == s.core.log + [Delivered(false, [x])]
  {
    ClientFrameRoundTrip(ByteFrame(x), key, [], l.maxMessageBytes);
    assert ByteWire(x, key) + [] == ByteWire(x, key);
    FlattenOne([x]);
    assert [] + [[x]] == [[x]];
    hide ReadFrame, Layout;
  }

  function EarlyClose(x: byte, y: byte, key: seq<byte>): seq<Choice>
    requires |key| == 4
  {
    [Receives(ByteWire(x, key)), Closes(1000, []), Receives(ByteWire(y, key))]
  }

  lemma {:induction false} ThreeSteps(l: Limits, m: Machine, a: Choice, b: Choice, c: Choice)
    ensures var m1 := Step(l, m, a); var m2 := Step(l, m1, b);
            && RunAll(l, m, [a, b, c]) == Step(l, m2, c)
            && Arrived(l, m, [a, b, c]) == Arrived(l, m, [a]) + (Arrived(l, m1, [b]) + Arrived(l, m2, [c]))
  {
    hide Step;
    assert [a, b, c][1..] == [b, c] && [b, c][1..] == [c] && [a][1..] == [] && [b][1..] == [] && [c][1..] == [];
    var m1 := Step(l, m, a);
    var m2 := Step(l, m1, b);
    assert RunAll(l, m1, [b, c]) == RunAll(l, m2, [c]) == RunAll(l, Step(l, m2, c), []);
    assert Arrived(l, m1, [b, c]) == Arrived(l, m1, [b]) + Arrived(l, m2, [c]);
  }

  lemma {:induction false} ClosedEarly(l: Limits, x: byte, y: byte, key: seq<byte>)
    requires 1 <= l.maxMessageBytes <= MAX_SAFE_INTEGER && |key| == 4
    ensures var a, b, c := EarlyClose(x, y, key)[0], EarlyClose(x, y, key)[1], EarlyClose(x, y, key)[2];
            var m1 := Step(l, BEGIN, a); var m2 := Step(l, m1, b);
            && m1.shared.core.ready == CONNECTING && m2.shared.core.ready == CLOSING
            && Step(l, m2, c).shared.core.log == [Delivered(false, [y])]
  {
    hide CallRead, ByteWire;
    var wire := ByteWire(y, key);
    ByteRead(l, START.(buffer := ByteWire(x, key)), x, key);
    var m2 := Step(l, Step(l, BEGIN, Receives(ByteWire(x, key))), Closes(1000, []));
    assert m2.shared.core.ready == CLOSING && m2.shared.buffer == [] && m2.shared.core.log == [];
    assert [] + wire == wire;
    ByteRead(l, Feed(Arrive(m2.shared, wire), wire), y, key);
  }

  /** Two messages arrive, the application closes between them and before the socket opens: the
      second is delivered and the first never is. */
  lemma {:induction false} EarlyCloseSkipsAMessage(l: Limits, x: byte, y: byte, key: seq<byte>)
    requires 1 <= l.maxMessageBytes <= MAX_SAFE_INTEGER && |key| == 4
    ensures Arrived(l, BEGIN, EarlyClose(x, y, key)) == ClientLayout([ByteFrame(x), ByteFrame(y)], [key, key])
    ensures Deliveries(RunAll(l, BEGIN, EarlyClose(x, y, key)).shared.core.log) == [(false, [y])]
    ensures Expected([Message(false, [[x]]), Message(false, [[y]])], l.utf8) == [(false, [x]), (false, [y])]
  {
    hide Step, RunAll, Arrived, ClientLayout, Layout, Expected, Flatten, Deliveries;
    var choices, first, second := EarlyClose(x, y, key), ByteWire(x, key), ByteWire(y, key);
    ThreeSteps(l, BEGIN, choices[0], choices[1], choices[2]);
    assert choices == [choices[0], choices[1], choices[2]];
    ClosedEarly(l, x, y, key);
    var m1 := Step(l, BEGIN, choices[0]);
    var m2 := Step(l, m1, choices[1]);
    OnlyArrival(l, BEGIN, choices[0]);
    OnlyArrival(l, m1, choices[1]);
    OnlyArrival(l, m2, choices[2]);
    TwoLaidOut(ByteFrame(x), ByteFrame(y), key);
    assert [] + second == second;
    OneDelivery(Delivered(false, [y]));
    TwoExpected([x], [y], l.utf8);
  }

  lemma {:induction false} OneDelivery(e: Effect)
    requires e.Delivered?
    ensures Deliveries([e]) == [(e.text, e.data)]
  {
    LogGrows([], e);
    assert [] + [e] == [e] && [] + [(e.text, e.data)] == [(e.text, e.data)];
  }

  lemma {:induction false} TwoExpected(x: seq<byte>, y: seq<byte>, utf8: seq<byte> -> bool)
    ensures Expected([Message(false, [x]), Message(false, [y])], utf8) == [(false, x), (false, y)]
  {
    var a, b := Message(false, [x]), Message(false, [y]);
    ExpectedOne(a, utf8);
    ExpectedOne(b, utf8);
    ExpectedUnfolds([a, b], utf8);
    FlattenOne(x);
    FlattenOne(y);
    assert [a, b][1..] == [b];
    hide Expected, Flatten;
  }

  lemma {:induction false} FlattenOne(part: seq<byte>)
    ensures Flatten([part]) == part
  {
    assert [part][1..] == [] && part + [] == part;
  }

  lemma {:induction false} OnlyArrival(l: Limits, m: Machine, choice: Choice)
    ensures Arrived(l, m, [choice]) == if choice.Receives? && m.shared.core.ready != CLOSED then choice.data else []
  {
    hide Step;
    var own := if choice.Receives? && m.shared.core.ready != CLOSED then choice.data else [];
    assert [choice][1..] == [] && own + [] == own;
  }

  lemma {:induction false} TwoLaidOut(a: Frame, b: Frame, key: seq<byte>)
    requires |key| == 4 && a.opcode < 16 && b.opcode < 16
    requires |a.payload| <= MAX_SAFE_INTEGER && |b.payload| <= MAX_SAFE_INTEGER
    ensures ClientLayout([a, b], [key, key])
            == Layout(RawFrame(a.fin, 0, a.opcode, Some(key), a.payload))
               + Layout(RawFrame(b.fin, 0, b.opcode, Some(key), b.payload))
  {
    hide Layout;
    assert [a, b][1..] == [b] && [b][1..] == [] && [key, key][1..] == [key] && [key][1..] == [];
    var last := Layout(RawFrame(b.fin, 0, b.opcode, Some(key), b.payload));
    assert ClientLayout([b], [key]) == last + [] == last;
  }
}
