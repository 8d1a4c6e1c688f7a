/** Calls made one at a time are among the machine's runs: when every callback and every call of
    the transport settles before the next call is made, the tasks do what `WebSocketSpec` says. */
module WebSocketSequential {
  import opened Bytes
  import opened Wire
  import opened WebSocketSpec
  import opened WebSocketMachine
  import Calls
  import Memory = Limits
  import WebSocketSafety

  // ---------------------------------------------------------------- the two histories

  /** The machine notes an end of the transport before it knows how it went, and keeps the frames
      in its queue. */
  function Trimmed(log: seq<Effect>): seq<Effect> {
    if log == [] then [] else
    var k := |log| - 1;
    Trimmed(log[..k]) + match log[k]
                        case Wrote(_, _, _) => []
                        case Ended(_) => [Ended(true)]
                        case e => [e]
  }

  function Ops(log: seq<Effect>): seq<Op> {
    if log == [] then [] else
    var k := |log| - 1;
    Ops(log[..k]) + if log[k].Wrote? then [Op(log[k].opcode, log[k].payload)] else []
  }

  function Oks(log: seq<Effect>): (oks: seq<bool>)
    ensures |oks| == |Ops(log)|
  {
    if log == [] then [] else
    var k := |log| - 1;
    Oks(log[..k]) + if log[k].Wrote? then [log[k].ok] else []
  }

  lemma {:induction false} Appended(log: seq<Effect>, e: Effect)
    ensures Trimmed(log + [e]) == Trimmed(log) + (if e.Wrote? then [] else if e.Ended? then [Ended(true)] else [e])
    ensures Ops(log + [e]) == Ops(log) + if e.Wrote? then [Op(e.opcode, e.payload)] else []
    ensures Oks(log + [e]) == Oks(log) + if e.Wrote? then [e.ok] else []
  {
    assert (log + [e])[..|log|] == log;
  }

  /** The machine at rest shows the core: same fields, same effects, every frame handed over and
      settled as the core's history says. */
  ghost predicate Shows(s: Shared, c: Core) {
    && s.core == c.(log := Trimmed(c.log))
    && s.queue == Ops(c.log) && s.results == Oks(c.log) && s.handed == |s.queue|
  }

  ghost predicate ShowsSocket(s: Shared, k: Socket) {
    Shows(s, k.core) && s.buffer == k.buffer && s.pendingInput == k.pendingInput
  }

  ghost predicate Agree(l: Limits, env: Env) {
    l.maxMessageBytes == env.maxMessageBytes && l.utf8 == env.utf8
  }

  lemma {:induction false} ShowsEffect(s: Shared, c: Core, e: Effect)
    requires Shows(s, c) && !e.Wrote? && !e.Ended?
    ensures Shows(s.(core := Emit(s.core, e)), Emit(c, e))
  {
    Appended(c.log, e);
    assert Ops(c.log) + [] == Ops(c.log) && Oks(c.log) + [] == Oks(c.log);
  }

  // ---------------------------------------------------------------- one task runs, the others wait

  ghost predicate Reaches(l: Limits, m: Machine, m': Machine) {
    exists choices :: RunAll(l, m, choices) == m'
  }

  /** Only task `i` moved, and new tasks may have been made. */
  ghost predicate Goes(l: Limits, m: Machine, i: nat, m': Machine) {
    && Reaches(l, m, m') && |m.tasks| <= |m'.tasks|
    && forall k | 0 <= k < |m.tasks| && k != i :: m'.tasks[k] == m.tasks[k]
  }

  lemma {:induction false} ReachesTransitive(l: Limits, a: Machine, b: Machine, c: Machine)
    requires Reaches(l, a, b) && Reaches(l, b, c)
    ensures Reaches(l, a, c)
  {
    var xs :| RunAll(l, a, xs) == b;
    var ys :| RunAll(l, b, ys) == c;
    WebSocketSafety.RunJoins(l, a, xs, ys);
  }

  lemma {:induction false} GoesTransitive(l: Limits, a: Machine, i: nat, b: Machine, c: Machine)
    requires Goes(l, a, i, b) && Goes(l, b, i, c)
    ensures Goes(l, a, i, c)
  {
    ReachesTransitive(l, a, b, c);
    hide Reaches;
  }

  lemma {:induction false} StepReaches(l: Limits, m: Machine, choice: Choice)
    ensures Reaches(l, m, Step(l, m, choice))
  {
    hide Step;
    assert [choice][1..] == [];
    assert RunAll(l, m, [choice]) == RunAll(l, Step(l, m, choice), []);
  }

  /** Task `i` has run to the first await of `c`, on top of the places below. */
  ghost predicate At(m: Machine, i: nat, below: seq<Place>, c: Call) {
    m.shared == c.shared && i < |m.tasks| && m.tasks[i] == Task(below + c.stack, c.wait)
  }

  /** The call on top of the places below has settled. */
  ghost predicate Settled(m: Machine, i: nat, below: seq<Place>, ok: bool, value: bool) {
    && i < |m.tasks| && m.tasks[i].stack == below && !m.tasks[i].wait.ForOutside?
    && Answer(m.shared, m.tasks[i].wait, true) == Some((ok, value))
  }

  lemma {:induction false} UnderAt(m: Machine, i: nat, below: seq<Place>, c: Call, place: Place)
    requires At(m, i, below, c.Under(place))
    ensures At(m, i, below + [place], c)
  {
    assert below + ([place] + c.stack) == below + [place] + c.stack;
  }

  /** The place below resumes with what its call settled to. */
  lemma {:induction false} Continues(l: Limits, m: Machine, i: nat, below: seq<Place>, place: Place, ok: bool,
                                     value: bool) returns (m': Machine)
    requires Settled(m, i, below + [place], ok, value)
    ensures Goes(l, m, i, m') && At(m', i, below, Resume(l, m.shared, place, ok, value))
  {
    hide Resume;
    m' := Step(l, m, Resumes(i, true));
    StepReaches(l, m, Resumes(i, true));
    var stack := m.tasks[i].stack;
    assert stack[|stack| - 1] == place && stack[..|stack| - 1] == below;
    hide Reaches;
  }

  /** A callback or a call of the transport settles. */
  lemma {:induction false} Answers(l: Limits, m: Machine, i: nat, below: seq<Place>, place: Place, ok: bool)
    returns (m': Machine)
    requires i < |m.tasks| && m.tasks[i] == Task(below + [place], ForOutside)
    ensures Goes(l, m, i, m') && At(m', i, below, Resume(l, m.shared, place, ok, false))
  {
    hide Resume;
    m' := Step(l, m, Resumes(i, ok));
    StepReaches(l, m, Resumes(i, ok));
    var stack := m.tasks[i].stack;
    assert stack[|stack| - 1] == place && stack[..|stack| - 1] == below;
    hide Reaches;
  }

  /** A call has come to its end as the sequential layer says. */
  ghost predicate Comes(l: Limits, m: Machine, i: nat, below: seq<Place>, r: Result, value: bool, m': Machine) {
    && Goes(l, m, i, m') && Shows(m'.shared, r.core) && Settled(m', i, below, !r.rejected, value)
    && m'.shared.buffer == m.shared.buffer && m'.shared.pendingInput == m.shared.pendingInput
  }

  lemma {:induction false} ComesAfter(l: Limits, a: Machine, i: nat, b: Machine, below: seq<Place>, r: Result,
                                      value: bool, c: Machine)
    requires Goes(l, a, i, b) && Comes(l, b, i, below, r, value, c)
    requires b.shared.buffer == a.shared.buffer && b.shared.pendingInput == a.shared.pendingInput
    ensures Comes(l, a, i, below, r, value, c)
  {
    GoesTransitive(l, a, i, b, c);
    hide Goes, Shows, Settled;
  }

  /** Nothing to wait for: the call is over as soon as it is made. */
  lemma {:induction false} OverAtOnce(l: Limits, m: Machine, i: nat, below: seq<Place>, s: Shared, ok: bool,
                                      value: bool, c: Core)
    requires At(m, i, below, Call(s, [], Done(ok, value))) && Shows(s, c)
    ensures Comes(l, m, i, below, Result(c, !ok), value, m)
  {
    assert below + [] == below;
    assert RunAll(l, m, []) == m;
  }

  /** A call that only hands on what the call under it settled to. */
  lemma {:induction false} HandsOn(l: Limits, m: Machine, i: nat, below: seq<Place>, r: Result, value: bool,
                                   m1: Machine) returns (m': Machine)
    requires Comes(l, m, i, below + [Tail], r, value, m1)
    ensures Comes(l, m, i, below, r, value, m')
  {
    m' := Continues(l, m1, i, below, Tail, !r.rejected, value);
    OverAtOnce(l, m', i, below, m1.shared, !r.rejected, value, r.core);
    ComesAfter(l, m1, i, m', below, r, value, m');
    GoesTransitive(l, m, i, m1, m');
    hide Goes, Shows, Settled;
  }

  // ---------------------------------------------------------------- the transport

  lemma {:induction false} WriteRuns(l: Limits, env: Env, m: Machine, i: nat, below: seq<Place>, s: Shared, c: Core,
                                     opcode: nat, payload: seq<byte>) returns (m': Machine)
    requires Shows(s, c) && At(m, i, below, CallWrite(s, opcode, payload))
    ensures Comes(l, m, i, below, WriteFrame(env, c, opcode, payload), true, m')
  {
    hide Reaches, Trimmed, Ops, Oks;
    var ok := env.writeOk(c.log);
    var m1 := Step(l, m, HandsOver);
    m' := Step(l, m1, Settles(ok));
    StepReaches(l, m, HandsOver);
    StepReaches(l, m1, Settles(ok));
    ReachesTransitive(l, m, m1, m');
    Appended(c.log, Wrote(opcode, payload, ok));
    assert Trimmed(c.log) + [] == Trimmed(c.log) && below + [] == below;
  }

  lemma {:induction false} EndRuns(l: Limits, env: Env, m: Machine, i: nat, below: seq<Place>, s: Shared, c: Core)
    returns (m': Machine)
    requires Shows(s, c) && At(m, i, below, CallFinishTransport(s))
    ensures Comes(l, m, i, below, Result(FinishTransport(env, c), false), false, m')
  {
    hide Goes, Trimmed, Ops, Oks;
    var ok := env.endOk(c.log);
    var m1 := Continues(l, m, i, below, EndQueued(|s.queue|), true, false);
    m' := Answers(l, m1, i, below, EndCalled, ok);
    GoesTransitive(l, m, i, m1, m');
    Appended(c.log, Ended(ok));
    Appended(c.log + [Ended(ok)], Aborted);
    assert Ops(c.log) + [] == Ops(c.log) && Oks(c.log) + [] == Oks(c.log) && below + [] == below;
  }

  lemma {:induction false} FinishRuns(l: Limits, m: Machine, i: nat, below: seq<Place>, s: Shared, c: Core, code: nat,
                                      reason: seq<byte>, finisher: Finisher) returns (m': Machine)
    requires Shows(s, c) && At(m, i, below, CallFinish(s, code, reason, finisher))
    ensures Comes(l, m, i, below, Result(Finish(c, code, reason), false), false, m')
  {
    hide Goes, Trimmed, Ops, Oks;
    if c.ready == CLOSED {
      OverAtOnce(l, m, i, below, s, true, false, c);
      m' := m;
    } else {
      m' := Answers(l, m, i, below, Tail, true);
      ShowsEffect(s.(core := s.core.(ready := CLOSED, timer := false)), c.(ready := CLOSED, timer := false),
                  Closed(code, reason));
      assert below + [] == below;
    }
  }

  /** Calls that read nothing leave the input alone. */
  lemma {:induction false} InputUntouched(s: Shared, code: nat, reason: seq<byte>, finisher: Finisher)
    ensures var t := CallFinish(s, code, reason, finisher).shared;
            t.buffer == s.buffer && t.pendingInput == s.pendingInput
    ensures var t := CallClose(s, code, reason).shared; t.buffer == s.buffer && t.pendingInput == s.pendingInput
  {
    hide StartClose, Finish;
  }

  // ---------------------------------------------------------------- the application

  lemma {:induction false} SendRuns(l: Limits, env: Env, m: Machine, i: nat, below: seq<Place>, s: Shared, c: Core,
                                    text: bool, data: seq<byte>) returns (m': Machine, value: bool)
    requires Agree(l, env) && Shows(s, c) && At(m, i, below, CallSend(l, s, text, data))
    ensures Comes(l, m, i, below, SendMessage(env, c, text, data), value, m')
  {
    hide Goes, Settled, Trimmed, Ops, Oks;
    if c.ready != OPEN || |data| > env.maxMessageBytes {
      OverAtOnce(l, m, i, below, s, false, false, c);
      m', value := m, false;
    } else {
      var opcode := if text then 0x1 else 0x2;
      UnderAt(m, i, below, CallWrite(s, opcode, data), Tail);
      var m1 := WriteRuns(l, env, m, i, below + [Tail], s, c, opcode, data);
      m' := HandsOn(l, m, i, below, WriteFrame(env, c, opcode, data), true, m1);
      value := true;
    }
  }

  lemma {:induction false} CloseRuns(l: Limits, env: Env, m: Machine, i: nat, below: seq<Place>, s: Shared, c: Core,
                                     code: int, reason: seq<byte>) returns (m': Machine, value: bool)
    requires Shows(s, c) && At(m, i, below, CallClose(s, code, reason))
    ensures Comes(l, m, i, below, CloseSocket(env, c, code, reason), value, m')
  {
    hide Goes, Settled, Trimmed, Ops, Oks, FinishTransport, WriteFrame, ToBigEndian;
    var start := StartClose(c, code, reason);
    if start.1.Sending? {
      var c1, s1, payload := start.0, s.(core := start.0.(log := s.core.log)), start.1.payload;
      assert CallClose(s, code, reason) == CallWrite(s1, 0x8, payload).Under(CloseWritten);
      UnderAt(m, i, below, CallWrite(s1, 0x8, payload), CloseWritten);
      var r := WriteFrame(env, c1, 0x8, payload);
      var m1 := WriteRuns(l, env, m, i, below + [CloseWritten], s1, c1, 0x8, payload);
      m', value := CloseWrittenRuns(l, env, m1, i, below, r);
      ComesAfter(l, m, i, m1, below, CloseSocket(env, c, code, reason), value, m');
    } else {
      OverAtOnce(l, m, i, below, s, start.1.AlreadyClosed?, false, c);
      m', value := m, false;
    }
  }

  /** What follows the write of a Close frame. */
  lemma {:induction false} CloseWrittenRuns(l: Limits, env: Env, m: Machine, i: nat, below: seq<Place>, r: Result)
    returns (m': Machine, value: bool)
    requires Shows(m.shared, r.core) && Settled(m, i, below + [CloseWritten], !r.rejected, true)
    ensures Comes(l, m, i, below,
                  if r.rejected then r
                  else if r.core.receivedClose then Result(FinishTransport(env, r.core), false)
                  else Result(r.core.(timer := true), false), value, m')
  {
    hide Goes, Trimmed, Ops, Oks, FinishTransport;
    var m1 := Continues(l, m, i, below, CloseWritten, !r.rejected, true);
    value := false;
    if r.rejected {
      OverAtOnce(l, m1, i, below, m.shared, false, false, r.core);
      ComesAfter(l, m, i, m1, below, r, false, m1);
      m' := m1;
    } else if r.core.receivedClose {
      UnderAt(m1, i, below, CallFinishTransport(m.shared), Tail);
      var m2 := EndRuns(l, env, m1, i, below + [Tail], m.shared, r.core);
      m' := HandsOn(l, m1, i, below, Result(FinishTransport(env, r.core), false), false, m2);
      ComesAfter(l, m, i, m1, below, Result(FinishTransport(env, r.core), false), false, m');
    } else {
      var s1 := m.shared.(core := m.shared.core.(timer := true));
      OverAtOnce(l, m1, i, below, s1, true, false, r.core.(timer := true));
      ComesAfter(l, m, i, m1, below, Result(r.core.(timer := true), false), false, m1);
      m' := m1;
    }
  }

  // ---------------------------------------------------------------- failures and the peer's Close

  lemma {:induction false} FailureRuns(l: Limits, env: Env, m: Machine, i: nat, below: seq<Place>, s: Shared, c: Core,
                                       cause: Cause, code: nat) returns (m': Machine)
    requires Shows(s, c) && At(m, i, below, CallFailure(s, cause, code))
    ensures Comes(l, m, i, below, Result(ProtocolFailure(env, c, cause, code), false), false, m')
  {
    hide Goes, Settled, Trimmed, Ops, Oks, FinishTransport, CloseSocket, CallClose, CallFinish, Finish, FailureReason;
    var c1 := Emit(c, Reported(cause));
    ShowsEffect(s, c, Reported(cause));
    var m1 := Answers(l, m, i, below, FailureReported(code), true);
    InputUntouched(m.shared, code, FailureReason(code), Failed);
    if !c1.sentClose && c1.ready != CLOSED {
      UnderAt(m1, i, below, CallClose(m.shared, code, FailureReason(code)), FailureClosing);
      var m2, value := CloseRuns(l, env, m1, i, below + [FailureClosing], m.shared, c1, code, FailureReason(code));
      var r := CloseSocket(env, c1, code, FailureReason(code));
      var m3 := Continues(l, m2, i, below, FailureClosing, !r.rejected, value);
      GoesTransitive(l, m, i, m1, m2);
      GoesTransitive(l, m, i, m2, m3);
      m' := FailureEnds(l, env, m3, i, below, m2.shared, r.core);
      ComesAfter(l, m, i, m3, below, Result(ProtocolFailure(env, c, cause, code), false), false, m');
    } else {
      m' := FailureEnds(l, env, m1, i, below, m.shared, c1);
      ComesAfter(l, m, i, m1, below, Result(ProtocolFailure(env, c, cause, code), false), false, m');
    }
  }

  lemma {:induction false} FailureEnds(l: Limits, env: Env, m: Machine, i: nat, below: seq<Place>, s: Shared, c: Core)
    returns (m': Machine)
    requires Shows(s, c) && At(m, i, below, CallFinishTransport(s).Under(FailureEnding))
    ensures Comes(l, m, i, below, Result(Finish(FinishTransport(env, c), 1006, []), false), false, m')
  {
    hide Goes, Settled, Trimmed, Ops, Oks, FinishTransport, CallFinish, Finish, Shows;
    UnderAt(m, i, below, CallFinishTransport(s), FailureEnding);
    var m1 := EndRuns(l, env, m, i, below + [FailureEnding], s, c);
    var c1 := FinishTransport(env, c);
    var m2 := Continues(l, m1, i, below, FailureEnding, true, false);
    m' := FinishesUnder(l, m2, i, below, m1.shared, c1, 1006, [], Failed);
    InputUntouched(m1.shared, 1006, [], Failed);
    GoesTransitive(l, m, i, m1, m2);
    ComesAfter(l, m, i, m2, below, Result(Finish(c1, 1006, []), false), false, m');
  }

  lemma {:induction false} FinishesUnder(l: Limits, m: Machine, i: nat, below: seq<Place>, s: Shared, c: Core,
                                         code: nat, reason: seq<byte>, finisher: Finisher) returns (m': Machine)
    requires Shows(s, c) && At(m, i, below, CallFinish(s, code, reason, finisher).Under(Tail))
    ensures Comes(l, m, i, below, Result(Finish(c, code, reason), false), false, m')
  {
    hide Goes, Settled, Shows, CallFinish, Finish;
    UnderAt(m, i, below, CallFinish(s, code, reason, finisher), Tail);
    var m1 := FinishRuns(l, m, i, below + [Tail], s, c, code, reason, finisher);
    m' := HandsOn(l, m, i, below, Result(Finish(c, code, reason), false), false, m1);
  }

  lemma {:induction false} PeerCloseRuns(l: Limits, env: Env, m: Machine, i: nat, below: seq<Place>, s: Shared,
                                         c: Core, payload: seq<byte>) returns (m': Machine)
    requires Agree(l, env) && Shows(s, c) && At(m, i, below, CallPeerClose(l, s, payload))
    ensures Comes(l, m, i, below, ReceiveClose(env, c, payload), false, m')
  {
    hide Goes, Settled, Trimmed, Ops, Oks, ProtocolFailure, CallFailure, AnswerClose, ParseClose;
    match ParseClose(payload, l.utf8) {
      case None =>
        UnderAt(m, i, below, CallFailure(s, InvalidClose, 1002), Tail);
        var m1 := FailureRuns(l, env, m, i, below + [Tail], s, c, InvalidClose, 1002);
        m' := HandsOn(l, m, i, below, Result(ProtocolFailure(env, c, InvalidClose, 1002), false), false, m1);
      case Some((code, reason)) =>
        m' := AnswerRuns(l, env, m, i, below, s, c, payload, code, reason);
    }
  }

  lemma {:induction false} AnswerRuns(l: Limits, env: Env, m: Machine, i: nat, below: seq<Place>, s: Shared, c: Core,
                                      payload: seq<byte>, code: nat, reason: seq<byte>) returns (m': Machine)
    requires Shows(s, c)
    requires var (c1, echo) := StartPeerClose(s.core, code, reason);
             var s1 := s.(core := c1, parsed := s.parsed + {(code, reason)});
             At(m, i, below, if echo then CallWrite(s1, 0x8, payload).Under(AfterEcho(code, reason))
                             else CallFinishTransport(s1).Under(AfterPeerEnd(code, reason)))
    ensures Comes(l, m, i, below, AnswerClose(env, c, payload, code, reason), false, m')
  {
    hide Goes, Settled, Trimmed, Ops, Oks, FinishTransport, Finish, WriteFrame;
    var s1 := s.(core := StartPeerClose(s.core, code, reason).0, parsed := s.parsed + {(code, reason)});
    var (c1, echo) := StartPeerClose(c, code, reason);
    if echo {
      UnderAt(m, i, below, CallWrite(s1, 0x8, payload), AfterEcho(code, reason));
      var r := WriteFrame(env, c1, 0x8, payload);
      var m1 := WriteRuns(l, env, m, i, below + [AfterEcho(code, reason)], s1, c1, 0x8, payload);
      var m2 := Continues(l, m1, i, below, AfterEcho(code, reason), !r.rejected, true);
      GoesTransitive(l, m, i, m1, m2);
      if r.rejected {
        OverAtOnce(l, m2, i, below, m1.shared, false, false, r.core);
        m' := m2;
      } else {
        m' := PeerEnds(l, env, m2, i, below, m1.shared, r.core, code, reason);
      }
      ComesAfter(l, m, i, m2, below, AnswerClose(env, c, payload, code, reason), false, m');
    } else {
      m' := PeerEnds(l, env, m, i, below, s1, c1, code, reason);
    }
  }

  lemma {:induction false} PeerEnds(l: Limits, env: Env, m: Machine, i: nat, below: seq<Place>, s: Shared, c: Core,
                                    code: nat, reason: seq<byte>) returns (m': Machine)
    requires Shows(s, c) && At(m, i, below, CallFinishTransport(s).Under(AfterPeerEnd(code, reason)))
    ensures Comes(l, m, i, below, Result(Finish(FinishTransport(env, c), code, reason), false), false, m')
  {
    hide Goes, Settled, FinishTransport, CallFinish, Finish, Shows;
    UnderAt(m, i, below, CallFinishTransport(s), AfterPeerEnd(code, reason));
    var m1 := EndRuns(l, env, m, i, below + [AfterPeerEnd(code, reason)], s, c);
    var c1 := FinishTransport(env, c);
    var m2 := Continues(l, m1, i, below, AfterPeerEnd(code, reason), true, false);
    m' := FinishesUnder(l, m2, i, below, m1.shared, c1, code, reason, PeerClosed);
    InputUntouched(m1.shared, code, reason, PeerClosed);
    GoesTransitive(l, m, i, m1, m2);
    ComesAfter(l, m, i, m2, below, Result(Finish(c1, code, reason), false), false, m');
  }

  // ---------------------------------------------------------------- messages and frames

  /** Calls that came and settled beside the tasks there were. */
  ghost predicate Beside(l: Limits, m: Machine, c: Core, m': Machine) {
    && Reaches(l, m, m') && m.tasks <= m'.tasks && Shows(m'.shared, c)
    && m'.shared.buffer == m.shared.buffer && m'.shared.pendingInput == m.shared.pendingInput
  }

  lemma {:induction false} BesideTransitive(l: Limits, a: Machine, c1: Core, b: Machine, c2: Core, d: Machine)
    requires Beside(l, a, c1, b) && Beside(l, b, c2, d)
    ensures Beside(l, a, c2, d)
  {
    ReachesTransitive(l, a, b, d);
    hide Reaches, Shows;
  }

  lemma {:induction false} BesideGoes(l: Limits, m: Machine, i: nat, c: Core, m': Machine)
    requires Beside(l, m, c, m')
    ensures Goes(l, m, i, m')
  {
    hide Reaches, Shows;
  }

  /** A call made now, as a task of its own. */
  lemma {:induction false} Made(l: Limits, m: Machine, choice: Choice, c: Call) returns (m': Machine)
    requires Step(l, m, choice) == Spawn(m, c)
    ensures m' == Spawn(m, c) && Goes(l, m, |m.tasks|, m') && At(m', |m.tasks|, [], c)
  {
    m' := Spawn(m, c);
    StepReaches(l, m, choice);
    assert [] + c.stack == c.stack;
    hide Reaches, Step;
  }

  /** One of the handler's calls, run to its end. */
  lemma {:induction false} ActionRuns(l: Limits, env: Env, m: Machine, c: Core, action: Action) returns (m': Machine)
    requires Agree(l, env) && Shows(m.shared, c)
    ensures Beside(l, m, match action
                         case Send(text, data) => SendMessage(env, c, text, data).core
                         case Close(code, reason) => CloseSocket(env, c, code, reason).core, m')
  {
    hide Shows, SendMessage, CloseSocket, CallSend, CallClose, Spawn;
    var i, s, value := |m.tasks|, m.shared, false;
    match action {
      case Send(text, data) =>
        var m1 := Made(l, m, Sends(text, data), CallSend(l, s, text, data));
        m', value := SendRuns(l, env, m1, i, [], s, c, text, data);
        SendTouchesNoInput(l, s, text, data);
        CameBeside(l, m, m1, SendMessage(env, c, text, data), value, m');
      case Close(code, reason) =>
        var m1 := Made(l, m, Closes(code, reason), CallClose(s, code, reason));
        m', value := CloseRuns(l, env, m1, i, [], s, c, code, reason);
        CloseTouchesNoInput(s, code, reason);
        CameBeside(l, m, m1, CloseSocket(env, c, code, reason), value, m');
    }
  }

  lemma {:induction false} SendTouchesNoInput(l: Limits, s: Shared, text: bool, data: seq<byte>)
    ensures var t := CallSend(l, s, text, data).shared; t.buffer == s.buffer && t.pendingInput == s.pendingInput
  {
  }

  lemma {:induction false} CloseTouchesNoInput(s: Shared, code: int, reason: seq<byte>)
    ensures var t := CallClose(s, code, reason).shared; t.buffer == s.buffer && t.pendingInput == s.pendingInput
  {
    hide StartClose;
  }

  lemma {:induction false} CameBeside(l: Limits, m: Machine, m1: Machine, r: Result, value: bool, m': Machine)
    requires Goes(l, m, |m.tasks|, m1) && Comes(l, m1, |m.tasks|, [], r, value, m')
    requires m1.shared.buffer == m.shared.buffer && m1.shared.pendingInput == m.shared.pendingInput
    ensures Beside(l, m, r.core, m')
  {
    GoesTransitive(l, m, |m.tasks|, m1, m');
    hide Reaches, Shows, Settled;
    assert m'.tasks[..|m.tasks|] == m.tasks;
  }

  lemma {:induction false} ActionsRun(l: Limits, env: Env, m: Machine, c: Core, actions: seq<Action>)
    returns (m': Machine)
    requires Agree(l, env) && Shows(m.shared, c)
    ensures Beside(l, m, Perform(env, c, actions), m')
    decreases |actions|
  {
    hide Shows, SendMessage, CloseSocket;
    if actions == [] {
      m' := m;
      assert RunAll(l, m, []) == m;
    } else {
      var m1 := ActionRuns(l, env, m, c, actions[0]);
      var c1 := match actions[0]
                case Send(text, data) => SendMessage(env, c, text, data).core
                case Close(code, reason) => CloseSocket(env, c, code, reason).core;
      m' := ActionsRun(l, env, m1, c1, actions[1..]);
      hide Reaches;
      BesideTransitive(l, m, c1, m1, Perform(env, c, actions), m');
    }
  }

  /** A failure of the handler has been noted and is being reported. */
  lemma {:induction false} HandlerFailureRuns(l: Limits, env: Env, m: Machine, i: nat, below: seq<Place>, s: Shared,
                                              c: Core) returns (m': Machine, value: bool)
    requires Shows(s, c)
    requires At(m, i, below, Call(s.(core := Emit(s.core, Reported(HandlerFailed))), [AfterReport], ForOutside))
    ensures Comes(l, m, i, below, HandlerFailure(env, c), value, m')
  {
    hide Goes, Settled, Trimmed, Ops, Oks, CloseSocket, CallClose, Ascii;
    ShowsEffect(s, c, Reported(HandlerFailed));
    var c1, reason := Emit(c, Reported(HandlerFailed)), Ascii("Handler failed");
    var m1 := Answers(l, m, i, below, AfterReport, true);
    UnderAt(m1, i, below, CallClose(m.shared, 1011, reason), Tail);
    var m2, v := CloseRuns(l, env, m1, i, below + [Tail], m.shared, c1, 1011, reason);
    value := v;
    m' := HandsOn(l, m1, i, below, CloseSocket(env, c1, 1011, reason), value, m2);
    CloseTouchesNoInput(m.shared, 1011, reason);
    ComesAfter(l, m, i, m1, below, CloseSocket(env, c1, 1011, reason), value, m');
  }

  lemma {:induction false} DeliverRuns(l: Limits, env: Env, m: Machine, i: nat, below: seq<Place>, s: Shared, c: Core,
                                       text: bool, message: seq<byte>) returns (m': Machine, value: bool)
    requires Agree(l, env) && Shows(s, c) && (text ==> env.utf8(message))
    requires At(m, i, below, Call(s.(core := Emit(s.core, Delivered(text, message))), [AfterMessage], ForOutside))
    ensures Comes(l, m, i, below, DeliverMessage(env, c, text, message), value, m')
  {
    hide Settled, Shows, Perform, HandlerFailure;
    var run := env.handler(c.log, text, message);
    ShowsEffect(s, c, Delivered(text, message));
    var c1 := Perform(env, Emit(c, Delivered(text, message)), run.actions);
    var m1 := ActionsRun(l, env, m, Emit(c, Delivered(text, message)), run.actions);
    BesideGoes(l, m, i, c1, m1);
    assert below + [AfterMessage] == m1.tasks[i].stack;
    hide Goes, Reaches;
    var m2 := Answers(l, m1, i, below, AfterMessage, !run.throws);
    GoesTransitive(l, m, i, m1, m2);
    if run.throws {
      m', value := HandlerFailureRuns(l, env, m2, i, below, m1.shared, c1);
    } else {
      OverAtOnce(l, m2, i, below, m1.shared, true, false, c1);
      m', value := m2, false;
    }
    ComesAfter(l, m, i, m2, below, DeliverMessage(env, c, text, message), value, m');
  }

  lemma {:induction false} HandleRuns(l: Limits, env: Env, m: Machine, i: nat, below: seq<Place>, s: Shared, c: Core,
                                      f: Frame) returns (m': Machine, value: bool)
    requires Agree(l, env) && Shows(s, c) && At(m, i, below, CallHandle(l, s, f))
    ensures Comes(l, m, i, below, HandleFrame(env, c, f), value, m')
  {
    hide Goes, Settled, Trimmed, Ops, Oks, CallPeerClose, CallFailure, CallWrite, ReceiveClose, ProtocolFailure,
         DeliverMessage, WriteFrame, Flatten;
    var (c1, next) := Dispatch(c, f, env.maxMessageBytes);
    var s1 := s.(core := Dispatch(s.core, f, l.maxMessageBytes).0);
    DispatchIgnoresLog(s.core, c, f, l.maxMessageBytes);
    value := false;
    match next {
      case PeerClose(payload) =>
        UnderAt(m, i, below, CallPeerClose(l, s1, payload), Tail);
        var m1 := PeerCloseRuns(l, env, m, i, below + [Tail], s1, c1, payload);
        m' := HandsOn(l, m, i, below, ReceiveClose(env, c1, payload), false, m1);
      case SendPong(payload) =>
        UnderAt(m, i, below, CallWrite(s1, 0xa, payload), Tail);
        var m1 := WriteRuns(l, env, m, i, below + [Tail], s1, c1, 0xa, payload);
        m' := HandsOn(l, m, i, below, WriteFrame(env, c1, 0xa, payload), true, m1);
        value := true;
      case Nothing =>
        OverAtOnce(l, m, i, below, s1, true, false, c1);
        m' := m;
      case Violation(cause, code) =>
        UnderAt(m, i, below, CallFailure(s1, cause, code), Tail);
        var m1 := FailureRuns(l, env, m, i, below + [Tail], s1, c1, cause, code);
        m' := HandsOn(l, m, i, below, Result(ProtocolFailure(env, c1, cause, code), false), false, m1);
      case Deliver(text, message) =>
        if text && !l.utf8(message) {
          m', value := HandlerFailureRuns(l, env, m, i, below, s1, c1);
          InvalidTextFails(env, c1, message);
        } else {
          m', value := DeliverRuns(l, env, m, i, below, s1, c1, text, message);
        }
    }
  }

  lemma {:induction false} InvalidTextFails(env: Env, c: Core, message: seq<byte>)
    requires !env.utf8(message)
    ensures DeliverMessage(env, c, true, message) == HandlerFailure(env, c)
  {
    hide HandlerFailure, Perform;
  }

  lemma {:induction false} DispatchIgnoresLog(a: Core, c: Core, f: Frame, limit: nat)
    requires a == c.(log := a.log)
    ensures Dispatch(a, f, limit).1 == Dispatch(c, f, limit).1
    ensures Dispatch(a, f, limit).0 == Dispatch(c, f, limit).0.(log := a.log) && Dispatch(c, f, limit).0.log == c.log
  {
    hide Flatten;
  }

  // ---------------------------------------------------------------- input, opening and the end

  /** The buffer too is what the sequential layer leaves, and whether there is more to read. */
  ghost predicate ComesToSocket(l: Limits, m: Machine, i: nat, below: seq<Place>, k: Socket, rejected: bool,
                                value: bool, m': Machine) {
    && Goes(l, m, i, m') && ShowsSocket(m'.shared, k) && Settled(m', i, below, !rejected, value)
  }

  lemma {:induction false} SocketComes(l: Limits, m: Machine, i: nat, below: seq<Place>, r: Result, value: bool,
                                       m': Machine)
    requires Comes(l, m, i, below, r, value, m')
    ensures ComesToSocket(l, m, i, below, Socket(r.core, m.shared.buffer, m.shared.pendingInput), r.rejected, value, m')
  {
    hide Goes, Shows, Settled;
  }

  lemma {:induction false} SocketAfter(l: Limits, a: Machine, i: nat, b: Machine, below: seq<Place>, k: Socket,
                                       rejected: bool, value: bool, c: Machine)
    requires Goes(l, a, i, b) && ComesToSocket(l, b, i, below, k, rejected, value, c)
    ensures ComesToSocket(l, a, i, below, k, rejected, value, c)
  {
    GoesTransitive(l, a, i, b, c);
    hide Goes, ShowsSocket, Settled;
  }

  lemma {:induction false} SocketHandsOn(l: Limits, m: Machine, i: nat, below: seq<Place>, k: Socket, rejected: bool,
                                         value: bool, m1: Machine) returns (m': Machine)
    requires ComesToSocket(l, m, i, below + [Tail], k, rejected, value, m1)
    ensures ComesToSocket(l, m, i, below, k, rejected, value, m')
  {
    hide Goes, Shows;
    m' := Continues(l, m1, i, below, Tail, !rejected, value);
    assert below + [] == below;
    GoesTransitive(l, m, i, m1, m');
  }

  /** One `#readFrame`. */
  lemma {:induction false} ReadRuns(l: Limits, env: Env, m: Machine, i: nat, below: seq<Place>, s: Shared, k: Socket)
    returns (m': Machine, value: bool)
    requires Agree(l, env) && ShowsSocket(s, k) && At(m, i, below, CallRead(l, s))
    ensures var (run, more) := ReadOne(env, k.core, k.buffer);
            && ComesToSocket(l, m, i, below, Socket(run.core, run.buffer, k.pendingInput), run.rejected, value, m')
            && (more <==> !run.rejected && value)
  {
    hide Goes, Settled, Shows, ProtocolFailure, CallFailure, HandleFrame, CallHandle;
    ReadFrameSizes(s.buffer, l.maxMessageBytes);
    match ReadFrame(s.buffer, l.maxMessageBytes) {
      case NeedMore =>
        OverAtOnce(l, m, i, below, s, true, false, k.core);
        SocketComes(l, m, i, below, Result(k.core, false), false, m);
        m', value := m, false;
      case Fail(cause, code) =>
        UnderAt(m, i, below, CallFailure(s, cause, code), AfterFailure);
        var r := Result(ProtocolFailure(env, k.core, cause, code), false);
        var m1 := FailureRuns(l, env, m, i, below + [AfterFailure], s, k.core, cause, code);
        m' := Continues(l, m1, i, below, AfterFailure, true, false);
        OverAtOnce(l, m', i, below, m1.shared, true, false, r.core);
        FailureTouchesNoInput(s, cause, code);
        GoesTransitive(l, m, i, m1, m');
        SocketComes(l, m', i, below, r, false, m');
        SocketAfter(l, m, i, m', below, Socket(r.core, k.buffer, k.pendingInput), false, false, m');
        value := false;
      case Parsed(frame, size) =>
        m', value := FrameRuns(l, env, m, i, below, s, k, frame, size);
    }
  }

  lemma {:induction false} FailureTouchesNoInput(s: Shared, cause: Cause, code: nat)
    ensures var t := CallFailure(s, cause, code).shared; t.buffer == s.buffer && t.pendingInput == s.pendingInput
  {
  }

  lemma {:induction false} HandleTouchesNoInput(l: Limits, s: Shared, f: Frame)
    ensures var t := CallHandle(l, s, f).shared; t.buffer == s.buffer && t.pendingInput == s.pendingInput
  {
    hide Dispatch, ParseClose;
  }

  /** A frame off the buffer, handled to the end. */
  lemma {:induction false} FrameRuns(l: Limits, env: Env, m: Machine, i: nat, below: seq<Place>, s: Shared, k: Socket,
                                     frame: Frame, size: nat) returns (m': Machine, value: bool)
    requires Agree(l, env) && ShowsSocket(s, k) && size <= |s.buffer|
    requires At(m, i, below, CallHandle(l, Take(s, frame, size), frame).Under(AfterHandle))
    ensures var r := HandleFrame(env, k.core, frame);
            && ComesToSocket(l, m, i, below, Socket(r.core, k.buffer[size..], k.pendingInput), r.rejected, value, m')
            && (value <==> r.core.ready != CLOSED)
  {
    hide Goes, Settled, Shows, HandleFrame, CallHandle;
    var s1, r := Take(s, frame, size), HandleFrame(env, k.core, frame);
    TakeShows(s, k.core, frame, size);
    UnderAt(m, i, below, CallHandle(l, s1, frame), AfterHandle);
    var m1, v := HandleRuns(l, env, m, i, below + [AfterHandle], s1, k.core, frame);
    m' := Continues(l, m1, i, below, AfterHandle, !r.rejected, v);
    value := m1.shared.core.ready != CLOSED;
    ReadyShows(m1.shared, r.core);
    OverAtOnce(l, m', i, below, m1.shared, !r.rejected, value, r.core);
    HandleTouchesNoInput(l, s1, frame);
    GoesTransitive(l, m, i, m1, m');
    SocketComes(l, m', i, below, r, value, m');
    SocketAfter(l, m, i, m', below, Socket(r.core, k.buffer[size..], k.pendingInput), r.rejected, value, m');
  }

  lemma {:induction false} TakeShows(s: Shared, c: Core, frame: Frame, size: nat)
    requires Shows(s, c) && size <= |s.buffer|
    ensures Shows(Take(s, frame, size), c)
  {
  }

  lemma {:induction false} ReadyShows(s: Shared, c: Core)
    requires Shows(s, c)
    ensures s.core.ready == c.ready && s.core.receivedClose == c.receivedClose
    ensures s.core.closeCode == c.closeCode && s.core.closeReason == c.closeReason
  {
  }

  /** The loop of `receiveData`. */
  lemma {:induction false} DrainRuns(l: Limits, env: Env, m: Machine, i: nat, below: seq<Place>, s: Shared, k: Socket)
    returns (m': Machine)
    requires Agree(l, env) && ShowsSocket(s, k) && At(m, i, below, CallRead(l, s).Under(ReadLoop))
    ensures var r := Drain(env, k.core, k.buffer);
            ComesToSocket(l, m, i, below, Socket(r.core, r.buffer, k.pendingInput), r.rejected, false, m')
    decreases |k.buffer|
  {
    hide Goes, Settled, Shows, ReadOne, CallRead;
    UnderAt(m, i, below, CallRead(l, s), ReadLoop);
    var (run, more) := ReadOne(env, k.core, k.buffer);
    var k1 := Socket(run.core, run.buffer, k.pendingInput);
    var m1, value := ReadRuns(l, env, m, i, below + [ReadLoop], s, k);
    var m2 := Continues(l, m1, i, below, ReadLoop, !run.rejected, value);
    GoesTransitive(l, m, i, m1, m2);
    if more {
      m' := DrainRuns(l, env, m2, i, below, m1.shared, k1);
      var r := Drain(env, k1.core, k1.buffer);
      SocketAfter(l, m, i, m2, below, Socket(r.core, r.buffer, k.pendingInput), r.rejected, false, m');
    } else {
      OverAtOnce(l, m2, i, below, m1.shared, !run.rejected, false, run.core);
      SocketComes(l, m2, i, below, Result(run.core, run.rejected), false, m2);
      SocketAfter(l, m, i, m2, below, k1, run.rejected, false, m2);
      m' := m2;
    }
  }

  lemma {:induction false} ReceiveRuns(l: Limits, env: Env, m: Machine, i: nat, below: seq<Place>, s: Shared,
                                       k: Socket, data: seq<byte>) returns (m': Machine)
    requires Agree(l, env) && ShowsSocket(s, k) && At(m, i, below, CallReceive(l, s, data))
    ensures var o := ReceiveData(env, k, data); ComesToSocket(l, m, i, below, o.socket, o.rejected, false, m')
  {
    hide Goes, Settled, ProtocolFailure, CallFailure, Drain, CallRead;
    if k.core.ready == CLOSED {
      OverAtOnce(l, m, i, below, s, true, false, k.core);
      SocketComes(l, m, i, below, Result(k.core, false), false, m);
      m' := m;
    } else if k.core.ready == CONNECTING {
      var s1 := s.(pendingInput := s.pendingInput + data);
      if |s1.pendingInput| > l.maxMessageBytes + 14 {
        var r := Result(ProtocolFailure(env, k.core, InputOverLimit, 1009), false);
        UnderAt(m, i, below, CallFailure(s1, InputOverLimit, 1009), Tail);
        var m1 := FailureRuns(l, env, m, i, below + [Tail], s1, k.core, InputOverLimit, 1009);
        m' := HandsOn(l, m, i, below, r, false, m1);
        FailureTouchesNoInput(s1, InputOverLimit, 1009);
        SocketComes(l, m, i, below, r, false, m');
      } else {
        OverAtOnce(l, m, i, below, s1, true, false, k.core);
        SocketComes(l, m, i, below, Result(k.core, false), false, m);
        m' := m;
      }
    } else {
      m' := DrainRuns(l, env, m, i, below, Feed(s, data), k.(buffer := k.buffer + data));
    }
  }

  lemma {:induction false} ReceiveEndRuns(l: Limits, env: Env, m: Machine, i: nat, below: seq<Place>, s: Shared,
                                          k: Socket, finished: bool) returns (m': Machine)
    requires Agree(l, env) && ShowsSocket(s, k) && At(m, i, below, CallReceiveEnd(s, finished))
    ensures ComesToSocket(l, m, i, below, ReceiveEnd(env, k, finished), false, false, m')
  {
    hide Goes, Settled, Shows, ProtocolFailure, CallFailure, CallFinish, Finish;
    var c := k.core;
    ReadyShows(s, c);
    if c.ready == CLOSED {
      OverAtOnce(l, m, i, below, s, true, false, c);
      SocketComes(l, m, i, below, Result(c, false), false, m);
      m' := m;
    } else if s.buffer != [] {
      var r := Result(ProtocolFailure(env, c, EndedInsideFrame, 1002), false);
      UnderAt(m, i, below, CallFailure(s, EndedInsideFrame, 1002), Tail);
      var m1 := FailureRuns(l, env, m, i, below + [Tail], s, c, EndedInsideFrame, 1002);
      m' := HandsOn(l, m, i, below, r, false, m1);
      FailureTouchesNoInput(s, EndedInsideFrame, 1002);
      SocketComes(l, m, i, below, r, false, m');
    } else {
      var clean := finished && c.receivedClose;
      var c1, s1 := if clean then c else Emit(c, Aborted), if clean then s else s.(core := Emit(s.core, Aborted));
      var code := if clean then c.closeCode else 1006;
      if !clean {
        ShowsEffect(s, c, Aborted);
      }
      m' := FinishesUnder(l, m, i, below, s1, c1, code, c.closeReason, TransportEnded(clean));
      InputUntouched(s1, code, c.closeReason, TransportEnded(clean));
      SocketComes(l, m, i, below, Result(Finish(c1, code, c.closeReason), false), false, m');
    }
  }

  lemma {:induction false} AcceptRuns(l: Limits, env: Env, m: Machine, i: nat, below: seq<Place>, s: Shared,
                                      k: Socket, offered: bool) returns (m': Machine)
    requires Agree(l, env) && ShowsSocket(s, k) && At(m, i, below, CallAccept(l, s, offered))
    ensures var o := Accept(env, k, offered); ComesToSocket(l, m, i, below, o.socket, o.rejected, false, m')
  {
    hide Goes, Settled, ReceiveData, CallReceive;
    var c := k.core;
    if c.ready != CONNECTING || !offered {
      OverAtOnce(l, m, i, below, s, c.ready != CONNECTING, false, c);
      SocketComes(l, m, i, below, Result(c, c.ready == CONNECTING), false, m);
      m' := m;
    } else {
      var s1, k1 := s.(core := s.core.(ready := OPEN)), k.(core := c.(ready := OPEN));
      if s.pendingInput == [] {
        OverAtOnce(l, m, i, below, s1, true, false, k1.core);
        SocketComes(l, m, i, below, Result(k1.core, false), false, m);
        m' := m;
      } else {
        var s2, k2 := s1.(pendingInput := []), k1.(pendingInput := []);
        UnderAt(m, i, below, CallReceive(l, s2, s.pendingInput), Tail);
        var m1 := ReceiveRuns(l, env, m, i, below + [Tail], s2, k2, s.pendingInput);
        var o := ReceiveData(env, k2, s.pendingInput);
        m' := SocketHandsOn(l, m, i, below, o.socket, o.rejected, false, m1);
      }
    }
  }

  // ---------------------------------------------------------------- the theorems

  /** One `Sends` step: on an open socket, within the limit, the queue grows by exactly one text or
      binary frame, whose write the call then waits for; otherwise the call throws and nothing else
      changes. */
  lemma {:induction false} SendQueuesOneFrame(l: Limits, m: Machine, text: bool, data: seq<byte>)
    ensures var m', s := Step(l, m, Sends(text, data)), m.shared;
            if s.core.ready == OPEN && |data| <= l.maxMessageBytes then
              && m'.shared == s.(queue := s.queue + [if text then Op(0x1, data) else Op(0x2, data)])
              && m'.tasks == m.tasks + [Task([Tail], ForWrite(|s.queue|))]
            else m'.shared == s && m'.tasks == m.tasks + [Task([], THROWN)]
  {
    assert [Tail] + [] == [Tail];
  }

  /** A call made when nothing is in progress, with every callback and every call of the transport
      settled before the next: the machine ends in the state the sequential layer gives, with the
      same effects in the same order and the same frames handed over, and the call's task settles
      as the call does. */
  lemma {:induction false} CallRuns(l: Limits, env: Env, m: Machine, k: Socket, call: Calls.Call)
    returns (m': Machine, value: bool)
    requires Agree(l, env) && ShowsSocket(m.shared, k)
    ensures var o := Calls.Make(env, k, call);
            && Reaches(l, m, m') && ShowsSocket(m'.shared, o.socket)
            && (call.TimesOut? && !k.core.timer ==> m' == m)
            && (!call.TimesOut? || k.core.timer ==> Settled(m', |m.tasks|, [], !o.rejected, value))
  {
    hide Shows, Settled, ReceiveData, ReceiveEnd, Accept, SendMessage, CloseSocket, CallReceive, CallReceiveEnd,
         CallAccept, CallSend, CallClose, Spawn;
    var i, s := |m.tasks|, m.shared;
    value := false;
    match call {
      case Receives(data) =>
        var s1 := Arrive(s, data);
        ArriveShows(s, k, data);
        var m1 := Made(l, m, Receives(data), CallReceive(l, s1, data));
        m' := ReceiveRuns(l, env, m1, i, [], s1, k, data);
        var o := ReceiveData(env, k, data);
        SocketAfter(l, m, i, m1, [], o.socket, o.rejected, false, m');
      case Ends(finished) =>
        var m1 := Made(l, m, Ends(finished), CallReceiveEnd(s, finished));
        m' := ReceiveEndRuns(l, env, m1, i, [], s, k, finished);
        SocketAfter(l, m, i, m1, [], ReceiveEnd(env, k, finished), false, false, m');
      case Accepts(offered) =>
        var m1 := Made(l, m, Accepts(offered), CallAccept(l, s, offered));
        m' := AcceptRuns(l, env, m1, i, [], s, k, offered);
        var o := Accept(env, k, offered);
        SocketAfter(l, m, i, m1, [], o.socket, o.rejected, false, m');
      case Sends(text, data) =>
        var m1 := Made(l, m, Sends(text, data), CallSend(l, s, text, data));
        m', value := SendRuns(l, env, m1, i, [], s, k.core, text, data);
        SendTouchesNoInput(l, s, text, data);
        CameToSocket(l, m, m1, k, SendMessage(env, k.core, text, data), value, m');
      case Closes(code, reason) =>
        var m1 := Made(l, m, Closes(code, reason), CallClose(s, code, reason));
        m', value := CloseRuns(l, env, m1, i, [], s, k.core, code, reason);
        CloseTouchesNoInput(s, code, reason);
        CameToSocket(l, m, m1, k, CloseSocket(env, k.core, code, reason), value, m');
      case TimesOut =>
        m' := TimerRuns(l, m, k);
    }
  }

  lemma {:induction false} ArriveShows(s: Shared, k: Socket, data: seq<byte>)
    requires ShowsSocket(s, k)
    ensures ShowsSocket(Arrive(s, data), k)
  {
  }

  lemma {:induction false} CameToSocket(l: Limits, m: Machine, m1: Machine, k: Socket, r: Result, value: bool,
                                        m': Machine)
    requires ShowsSocket(m.shared, k) && Goes(l, m, |m.tasks|, m1) && Comes(l, m1, |m.tasks|, [], r, value, m')
    requires m1.shared.buffer == m.shared.buffer && m1.shared.pendingInput == m.shared.pendingInput
    ensures Reaches(l, m, m') && ShowsSocket(m'.shared, k.(core := r.core))
    ensures Settled(m', |m.tasks|, [], !r.rejected, value)
  {
    GoesTransitive(l, m, |m.tasks|, m1, m');
    hide Reaches, Shows, Settled;
  }

  lemma {:induction false} TimerRuns(l: Limits, m: Machine, k: Socket) returns (m': Machine)
    requires ShowsSocket(m.shared, k)
    ensures Reaches(l, m, m') && ShowsSocket(m'.shared, k.(core := Calls.TimeOut(k.core)))
    ensures if k.core.timer then Settled(m', |m.tasks|, [], true, false) else m' == m
  {
    hide Reaches, Settled, CallFinish, Finish, Trimmed, Ops, Oks, Spawn;
    var s, c := m.shared, k.core;
    if c.timer {
      var s0, c0 := s.(core := s.core.(timer := false)), c.(timer := false);
      ShowsEffect(s0, c0, Aborted);
      var s1, c1 := s0.(core := Emit(s0.core, Aborted)), Emit(c0, Aborted);
      var m1 := Made(l, m, Fires, CallFinish(s1, 1006, [], TimedOut));
      m' := FinishRuns(l, m1, |m.tasks|, [], s1, c1, 1006, [], TimedOut);
      InputUntouched(s1, 1006, [], TimedOut);
      CameToSocket(l, m, m1, k, Result(Finish(c1, 1006, []), false), false, m');
    } else {
      m' := m;
      assert Reaches(l, m, m) by {
        ReachesItself(l, m);
      }
    }
  }

  lemma {:induction false} ReachesItself(l: Limits, m: Machine)
    ensures Reaches(l, m, m)
  {
    assert RunAll(l, m, []) == m;
  }

  /** So every history of calls made one at a time is one of the machine's runs, from the first
      call on: what is proved of every interleaving holds of it, and what the machine does there is
      what the sequential layer says. */
  lemma {:induction false} SequentialCallsAreARun(l: Limits, env: Env, calls: seq<Calls.Call>)
    returns (choices: seq<Choice>)
    requires Agree(l, env)
    ensures ShowsSocket(RunAll(l, BEGIN, choices).shared, Memory.MakeAll(env, Fresh(), calls).0)
  {
    hide ShowsSocket, RunAll, Calls.Make;
    var m := CallsRun(l, env, calls);
    choices :| RunAll(l, BEGIN, choices) == m;
  }

  lemma {:induction false} CallsRun(l: Limits, env: Env, calls: seq<Calls.Call>) returns (m: Machine)
    requires Agree(l, env)
    ensures Reaches(l, BEGIN, m) && ShowsSocket(m.shared, Memory.MakeAll(env, Fresh(), calls).0)
  {
    if calls == [] {
      m := BEGIN;
      ReachesItself(l, m);
    } else {
      hide ShowsSocket, Reaches, Calls.Make, Settled;
      var n := |calls| - 1;
      var before := CallsRun(l, env, calls[..n]);
      var k := Memory.MakeAll(env, Fresh(), calls[..n]).0;
      var value;
      m, value := CallRuns(l, env, before, k, calls[n]);
      ReachesTransitive(l, BEGIN, before, m);
    }
  }

  /** A callback or a write that rejects where its rejection is not caught ends its call there:
      nothing is written, reported, ended or closed any more, and the caller is told. */
  lemma {:induction false} RejectionEndsTheCall(l: Limits, m: Machine, i: nat, below: seq<Place>, place: Place)
    requires i < |m.tasks| && m.tasks[i].stack == below + [place]
    requires Answer(m.shared, m.tasks[i].wait, false).Some? && !Answer(m.shared, m.tasks[i].wait, false).value.0
    requires place in {AfterReport, CloseWritten} || place.FailureReported? || place.AfterEcho?
    ensures var m' := Step(l, m, Resumes(i, false));
            m'.shared == m.shared && m'.tasks == m.tasks[i := Task(below, THROWN)]
  {
    var stack := m.tasks[i].stack;
    assert stack[|stack| - 1] == place && stack[..|stack| - 1] == below && below + [] == below;
  }
}
