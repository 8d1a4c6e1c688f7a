/** A socket that is closing is never forgotten, whatever the order in which its calls go on. */
module WebSocketProgress {
  import opened Bytes
  import opened Wire
  import opened WebSocketSpec
  import opened WebSocketMachine

  // ---------------------------------------------------------------- what watches a closing socket

  /** The transport refused a Close frame. */
  ghost predicate Refused(s: Shared) {
    exists j | 0 <= j < |s.results| && j < |s.queue| :: s.queue[j].opcode == 0x8 && !s.results[j]
  }

  /** Places from which a call goes on to answer the peer's Close and close the socket. */
  predicate Answering(place: Place) {
    place.AfterEcho? || place.AfterPeerEnd?
  }

  /** Places from which a call goes on to close the socket. */
  predicate Finishing(place: Place) {
    Answering(place) || place == FailureClosing || place == FailureEnding
  }

  ghost predicate Watched(s: Shared, places: set<Place>) {
    && (s.core.receivedClose ==> s.core.sentClose)
    && (s.core.ready == CLOSING ==>
          || s.core.timer || Refused(s) || (exists p | p in places :: Finishing(p))
          || (CloseWritten in places && !s.core.receivedClose))
    && (s.core.ready == CLOSING && s.core.receivedClose ==>
          Refused(s) || exists p | p in places :: Answering(p))
  }

  function Places(stack: seq<Place>): set<Place> {
    set k | 0 <= k < |stack| :: stack[k]
  }

  /** Whoever waits for the write of a Close frame waits for that write. */
  ghost predicate AwaitsClose(s: Shared, stack: seq<Place>, wait: Wait) {
    forall k | 0 <= k < |stack| && (stack[k] == CloseWritten || stack[k].AfterEcho?) ::
      && k == |stack| - 1 && wait.ForWrite?
      && wait.index < |s.queue| && s.queue[wait.index].opcode == 0x8
  }

  /** A call that leaves the socket watched, with `others` the places of everyone else. */
  ghost predicate Watches(s: Shared, others: set<Place>, c: Call) {
    && Watched(c.shared, others + Places(c.stack)) && AwaitsClose(c.shared, c.stack, c.wait)
    && s.queue <= c.shared.queue && s.results == c.shared.results
  }

  // ---------------------------------------------------------------- small steps

  lemma {:induction false} RefusedStays(s: Shared, s': Shared)
    requires Refused(s) && s.queue <= s'.queue && s.results <= s'.results
    ensures Refused(s')
  {
    var j :| 0 <= j < |s.results| && j < |s.queue| && s.queue[j].opcode == 0x8 && !s.results[j];
    assert s'.queue[j].opcode == 0x8 && !s'.results[j];
  }

  lemma {:induction false} StaysWatched(s: Shared, s': Shared, places: set<Place>, more: set<Place>)
    requires Watched(s, places) && places <= more && s.queue <= s'.queue && s.results <= s'.results
    requires s'.core.ready == s.core.ready || (s.core.ready == CONNECTING && s'.core.ready == OPEN)
    requires s'.core.timer == s.core.timer && s'.core.sentClose == s.core.sentClose
    requires s'.core.receivedClose == s.core.receivedClose
    ensures Watched(s', more)
  {
    if Refused(s) {
      RefusedStays(s, s');
    }
    hide Refused, Finishing, Answering;
  }

  lemma {:induction false} UnderWatches(s: Shared, others: set<Place>, c: Call, place: Place)
    requires Watches(s, others, c) && place != CloseWritten && !place.AfterEcho?
    ensures Watches(s, others, c.Under(place))
  {
    var stack := [place] + c.stack;
    assert forall k | 0 <= k < |c.stack| :: stack[k + 1] == c.stack[k];
    assert Places(c.stack) <= Places(stack);
    StaysWatched(c.shared, c.shared, others + Places(c.stack), others + Places(stack));
    hide Watched;
  }

  /** A call that changes nothing about closing, and waits for no Close frame. */
  lemma {:induction false} PlainWatches(s: Shared, others: set<Place>, c: Call)
    requires Watched(s, others) && s.queue <= c.shared.queue && s.results == c.shared.results
    requires c.shared.core.ready == s.core.ready || (s.core.ready == CONNECTING && c.shared.core.ready == OPEN)
    requires c.shared.core.timer == s.core.timer && c.shared.core.sentClose == s.core.sentClose
    requires c.shared.core.receivedClose == s.core.receivedClose
    requires forall k | 0 <= k < |c.stack| :: c.stack[k] != CloseWritten && !c.stack[k].AfterEcho?
    ensures Watches(s, others, c)
  {
    StaysWatched(s, c.shared, others, others + Places(c.stack));
    hide Watched;
  }

  /** A closed socket needs no watching. */
  lemma {:induction false} FinishWatches(s: Shared, others: set<Place>, code: nat, reason: seq<byte>,
                                         finisher: Finisher)
    requires s.core.receivedClose ==> s.core.sentClose
    ensures Watches(s, others, CallFinish(s, code, reason, finisher))
  {
    hide Refused;
  }

  /** The timer is cleared for a call that goes on to close the socket. */
  lemma {:induction false} EndWatches(s: Shared, others: set<Place>, place: Place)
    requires Watched(s, others) && Finishing(place) && !place.AfterEcho?
    requires s.core.receivedClose ==> Answering(place) || Refused(s) || exists p | p in others :: Answering(p)
    ensures Watches(s, others, CallFinishTransport(s).Under(place))
  {
    var c := CallFinishTransport(s).Under(place);
    assert c.stack[0] == place && place in Places(c.stack);
    if Refused(s) {
      RefusedStays(s, c.shared);
    }
    hide Refused;
  }

  // ---------------------------------------------------------------- each call

  lemma {:induction false} CloseWatches(s: Shared, others: set<Place>, code: int, reason: seq<byte>)
    requires Watched(s, others)
    ensures Watches(s, others, CallClose(s, code, reason))
  {
    hide Refused, ToBigEndian;
    var c := CallClose(s, code, reason);
    if StartClose(s.core, code, reason).1.Sending? {
      assert c.stack == [CloseWritten] && c.stack[0] in Places(c.stack);
    } else {
      PlainWatches(s, others, c);
    }
  }

  lemma {:induction false} FailureWatches(s: Shared, others: set<Place>, cause: Cause, code: nat)
    requires Watched(s, others)
    ensures Watches(s, others, CallFailure(s, cause, code))
  {
    PlainWatches(s, others, CallFailure(s, cause, code));
    hide Watched;
  }

  lemma {:induction false} PeerCloseWatches(l: Limits, s: Shared, others: set<Place>, payload: seq<byte>)
    requires Watched(s, others)
    ensures Watches(s, others, CallPeerClose(l, s, payload))
  {
    hide Refused, ParseClose;
    var c := CallPeerClose(l, s, payload);
    match ParseClose(payload, l.utf8)
    case None =>
      FailureWatches(s, others, InvalidClose, 1002);
      UnderWatches(s, others, CallFailure(s, InvalidClose, 1002), Tail);
    case Some((code, reason)) =>
      assert c.stack[0] in Places(c.stack) && Answering(c.stack[0]);
  }

  lemma {:induction false} HandleWatches(l: Limits, s: Shared, others: set<Place>, f: Frame)
    requires Watched(s, others)
    ensures Watches(s, others, CallHandle(l, s, f))
  {
    hide Watched, Dispatch, CallPeerClose, CallFailure;
    var (c, next) := Dispatch(s.core, f, l.maxMessageBytes);
    var s1 := s.(core := c);
    DispatchKeepsClose(s.core, f, l.maxMessageBytes);
    StaysWatched(s, s1, others, others);
    match next {
      case PeerClose(payload) =>
        PeerCloseWatches(l, s1, others, payload);
        UnderWatches(s1, others, CallPeerClose(l, s1, payload), Tail);
      case Violation(cause, code) =>
        FailureWatches(s1, others, cause, code);
        UnderWatches(s1, others, CallFailure(s1, cause, code), Tail);
      case _ => PlainWatches(s, others, CallHandle(l, s, f));
    }
  }

  lemma {:induction false} DispatchKeepsClose(c: Core, f: Frame, limit: nat)
    ensures var d := Dispatch(c, f, limit).0;
            && d.ready == c.ready && d.timer == c.timer && d.sentClose == c.sentClose
            && d.receivedClose == c.receivedClose
  {
  }

  lemma {:induction false} ReadWatches(l: Limits, s: Shared, others: set<Place>)
    requires Watched(s, others)
    ensures Watches(s, others, CallRead(l, s))
  {
    hide Watched, CallHandle, CallFailure;
    ReadFrameSizes(s.buffer, l.maxMessageBytes);
    match ReadFrame(s.buffer, l.maxMessageBytes)
    case NeedMore => PlainWatches(s, others, Call(s, [], OK));
    case Fail(cause, code) =>
      FailureWatches(s, others, cause, code);
      UnderWatches(s, others, CallFailure(s, cause, code), AfterFailure);
    case Parsed(frame, size) =>
      var s1 := Take(s, frame, size);
      StaysWatched(s, s1, others, others);
      HandleWatches(l, s1, others, frame);
      UnderWatches(s1, others, CallHandle(l, s1, frame), AfterHandle);
  }

  lemma {:induction false} ReceiveWatches(l: Limits, s: Shared, others: set<Place>, data: seq<byte>)
    requires Watched(s, others)
    ensures Watches(s, others, CallReceive(l, s, data))
  {
    hide Watched, CallRead, CallFailure;
    if s.core.ready == CLOSED {
      PlainWatches(s, others, Call(s, [], OK));
    } else if s.core.ready == CONNECTING {
      var s1 := s.(pendingInput := s.pendingInput + data);
      StaysWatched(s, s1, others, others);
      PlainWatches(s, others, Call(s1, [], OK));
      FailureWatches(s1, others, InputOverLimit, 1009);
      UnderWatches(s1, others, CallFailure(s1, InputOverLimit, 1009), Tail);
    } else {
      var s1 := Feed(s, data);
      StaysWatched(s, s1, others, others);
      ReadWatches(l, s1, others);
      UnderWatches(s1, others, CallRead(l, s1), ReadLoop);
    }
  }

  lemma {:induction false} ReceiveEndWatches(s: Shared, others: set<Place>, finished: bool)
    requires Watched(s, others)
    ensures Watches(s, others, CallReceiveEnd(s, finished))
  {
    hide Refused, Finishing, Answering, CallFinish, CallFailure;
    if s.core.ready == CLOSED {
      PlainWatches(s, others, Call(s, [], OK));
    } else if s.buffer != [] {
      FailureWatches(s, others, EndedInsideFrame, 1002);
      UnderWatches(s, others, CallFailure(s, EndedInsideFrame, 1002), Tail);
    } else {
      var clean := finished && s.core.receivedClose;
      var s1 := if clean then s else s.(core := Emit(s.core, Aborted));
      var code := if clean then s.core.closeCode else 1006;
      FinishWatches(s1, others, code, s.core.closeReason, TransportEnded(clean));
      UnderWatches(s1, others, CallFinish(s1, code, s.core.closeReason, TransportEnded(clean)), Tail);
    }
    hide Watched;
  }

  lemma {:induction false} AcceptWatches(l: Limits, s: Shared, others: set<Place>, offered: bool)
    requires Watched(s, others)
    ensures Watches(s, others, CallAccept(l, s, offered))
  {
    hide Watched, CallReceive;
    if s.core.ready != CONNECTING || !offered || s.pendingInput == [] {
      PlainWatches(s, others, CallAccept(l, s, offered));
    } else {
      var s1 := s.(core := s.core.(ready := OPEN), pendingInput := []);
      StaysWatched(s, s1, others, others);
      ReceiveWatches(l, s1, others, s.pendingInput);
      UnderWatches(s1, others, CallReceive(l, s1, s.pendingInput), Tail);
    }
  }

  // ---------------------------------------------------------------- going on

  /** A place that is left: what watched from it goes on watching. */
  lemma {:induction false} ResumeWatches(l: Limits, s: Shared, others: set<Place>, place: Place, ok: bool, value: bool)
    requires Watched(s, others + {place})
    requires !ok && (place == CloseWritten || place.AfterEcho?) ==> Refused(s)
    ensures Watches(s, others, Resume(l, s, place, ok, value))
  {
    hide Refused, CallRead, CallClose, CallFinish, FailureReason, Ascii;
    if place == CloseWritten || Finishing(place) {
      CloserWatches(l, s, others, place, ok, value);
    } else {
      LeftWatched(s, others, place);
      OtherWatches(l, s, others, place, ok, value);
    }
  }

  /** A place that watches nothing is not missed. */
  lemma {:induction false} LeftWatched(s: Shared, others: set<Place>, place: Place)
    requires Watched(s, others + {place}) && place != CloseWritten && !Finishing(place)
    ensures Watched(s, others)
  {
    hide Refused;
  }

  lemma {:induction false} OtherWatches(l: Limits, s: Shared, others: set<Place>, place: Place, ok: bool, value: bool)
    requires Watched(s, others) && place != CloseWritten && !Finishing(place)
    ensures Watches(s, others, Resume(l, s, place, ok, value))
  {
    hide Watched, CallRead, CallClose, FailureReason, Ascii, Refused;
    match place {
      case ReadLoop =>
        if ok && value {
          ReadWatches(l, s, others);
          UnderWatches(s, others, CallRead(l, s), ReadLoop);
        } else {
          PlainWatches(s, others, Resume(l, s, place, ok, value));
        }
      case AfterReport =>
        if ok {
          CloseWatches(s, others, 1011, Ascii("Handler failed"));
          UnderWatches(s, others, CallClose(s, 1011, Ascii("Handler failed")), Tail);
        } else {
          PlainWatches(s, others, Resume(l, s, place, ok, value));
        }
      case FailureReported(code) => ReportedWatches(l, s, others, code, ok, value);
      case _ => PlainWatches(s, others, Resume(l, s, place, ok, value));
    }
  }

  lemma {:induction false} ReportedWatches(l: Limits, s: Shared, others: set<Place>, code: nat, ok: bool, value: bool)
    requires Watched(s, others)
    ensures Watches(s, others, Resume(l, s, FailureReported(code), ok, value))
  {
    hide CallClose, FailureReason, Refused;
    if !ok {
      PlainWatches(s, others, Call(s, [], THROWN));
    } else if !s.core.sentClose && s.core.ready != CLOSED {
      CloseWatches(s, others, code, FailureReason(code));
      UnderWatches(s, others, CallClose(s, code, FailureReason(code)), FailureClosing);
    } else if s.core.ready == CLOSING {
      EndWatches(s, others, FailureEnding);
    } else {
      NotClosingEnds(s, others, FailureEnding);
    }
  }

  /** Away from CLOSING there is nothing to watch. */
  lemma {:induction false} NotClosingEnds(s: Shared, others: set<Place>, place: Place)
    requires Watched(s, others) && s.core.ready != CLOSING && place != CloseWritten && !place.AfterEcho?
    ensures Watches(s, others, CallFinishTransport(s).Under(place))
  {
    hide Refused;
  }

  /** The places that close the socket do so, or hand over to one that does. */
  lemma {:induction false} CloserWatches(l: Limits, s: Shared, others: set<Place>, place: Place, ok: bool, value: bool)
    requires Watched(s, others + {place}) && (place == CloseWritten || Finishing(place))
    requires !ok && (place == CloseWritten || place.AfterEcho?) ==> Refused(s)
    ensures Watches(s, others, Resume(l, s, place, ok, value))
  {
    hide Refused, CallFinish;
    match place {
      case AfterEcho(code, reason) => EchoedWatches(s, others, code, reason, ok);
      case AfterPeerEnd(code, reason) =>
        FinishWatches(s, others, code, reason, PeerClosed);
        UnderWatches(s, others, CallFinish(s, code, reason, PeerClosed), Tail);
      case FailureClosing => FailureGoesOn(s, others);
      case FailureEnding =>
        FinishWatches(s, others, 1006, [], Failed);
        UnderWatches(s, others, CallFinish(s, 1006, [], Failed), Tail);
      case CloseWritten => WrittenWatches(s, others, ok);
    }
  }

  lemma {:induction false} RefusedIsWatched(s: Shared, s': Shared, others: set<Place>)
    requires Refused(s) && s.queue <= s'.queue && s.results <= s'.results
    requires s'.core.receivedClose ==> s'.core.sentClose
    ensures Watched(s', others)
  {
    RefusedStays(s, s');
    hide Refused;
  }

  lemma {:induction false} EchoedWatches(s: Shared, others: set<Place>, code: nat, reason: seq<byte>, ok: bool)
    requires Watched(s, others + {AfterEcho(code, reason)}) && (!ok ==> Refused(s))
    ensures Watches(s, others, if ok then CallFinishTransport(s).Under(AfterPeerEnd(code, reason))
                               else Call(s, [], THROWN))
  {
    if ok {
      var c := CallFinishTransport(s).Under(AfterPeerEnd(code, reason));
      assert c.stack[0] in Places(c.stack) && Answering(c.stack[0]);
    } else {
      RefusedIsWatched(s, s, others + Places([]));
    }
    hide Refused;
  }

  lemma {:induction false} FailureGoesOn(s: Shared, others: set<Place>)
    requires Watched(s, others + {FailureClosing})
    ensures Watches(s, others, CallFinishTransport(s).Under(FailureEnding))
  {
    var c := CallFinishTransport(s).Under(FailureEnding);
    assert c.stack[0] == FailureEnding && FailureEnding in Places(c.stack);
    if Refused(s) {
      RefusedStays(s, c.shared);
    }
    hide Refused;
  }

  lemma {:induction false} WrittenWatches(s: Shared, others: set<Place>, ok: bool)
    requires Watched(s, others + {CloseWritten}) && (!ok ==> Refused(s))
    ensures Watches(s, others, if !ok then Call(s, [], THROWN)
                               else if s.core.receivedClose then CallFinishTransport(s).Under(Tail)
                               else Call(s.(core := s.core.(timer := true)), [], OK))
  {
    if !ok {
      RefusedIsWatched(s, s, others + Places([]));
    } else if s.core.receivedClose {
      if Refused(s) {
        RefusedStays(s, CallFinishTransport(s).shared);
      }
    }
    hide Refused;
  }

  // ---------------------------------------------------------------- the whole machine

  function AllPlaces(tasks: seq<Task>): set<Place> {
    set i, k | 0 <= i < |tasks| && 0 <= k < |tasks[i].stack| :: tasks[i].stack[k]
  }

  ghost predicate WatchedMachine(m: Machine) {
    && Watched(m.shared, AllPlaces(m.tasks))
    && forall i | 0 <= i < |m.tasks| :: AwaitsClose(m.shared, m.tasks[i].stack, m.tasks[i].wait)
  }

  lemma {:induction false} AwaitsStays(s: Shared, s': Shared, stack: seq<Place>, wait: Wait)
    requires AwaitsClose(s, stack, wait) && s.queue <= s'.queue
    ensures AwaitsClose(s', stack, wait)
  {
  }

  lemma {:induction false} SpawnWatched(m: Machine, c: Call)
    requires WatchedMachine(m) && Watches(m.shared, AllPlaces(m.tasks), c)
    ensures WatchedMachine(Spawn(m, c))
  {
    var m' := Spawn(m, c);
    PlacesAppend(m.tasks, Task(c.stack, c.wait));
    StaysWatched(c.shared, c.shared, AllPlaces(m.tasks) + Places(c.stack), AllPlaces(m'.tasks));
    forall i | 0 <= i < |m'.tasks| ensures AwaitsClose(m'.shared, m'.tasks[i].stack, m'.tasks[i].wait) {
      if i < |m.tasks| {
        AwaitsStays(m.shared, c.shared, m.tasks[i].stack, m.tasks[i].wait);
      }
    }
    hide Watched, AllPlaces, Places;
  }

  lemma {:induction false} PlacesAppend(tasks: seq<Task>, last: Task)
    ensures AllPlaces(tasks) + Places(last.stack) <= AllPlaces(tasks + [last])
  {
    var more := tasks + [last];
    forall p | p in AllPlaces(tasks) ensures p in AllPlaces(more) {
      var i, k :| 0 <= i < |tasks| && 0 <= k < |tasks[i].stack| && tasks[i].stack[k] == p;
      assert more[i].stack[k] == p;
    }
    forall p | p in Places(last.stack) ensures p in AllPlaces(more) {
      var k :| 0 <= k < |last.stack| && last.stack[k] == p;
      assert more[|tasks|].stack[k] == p;
    }
  }

  /** Everyone's places but the top one of task `i`. */
  function OtherPlaces(tasks: seq<Task>, i: nat): set<Place>
    requires i < |tasks|
  {
    set j, k | 0 <= j < |tasks| && 0 <= k < |tasks[j].stack| && (j != i || k < |tasks[j].stack| - 1) ::
      tasks[j].stack[k]
  }

  lemma {:induction false} PlacesSplit(tasks: seq<Task>, i: nat)
    requires i < |tasks| && tasks[i].stack != []
    ensures AllPlaces(tasks) <= OtherPlaces(tasks, i) + {tasks[i].stack[|tasks[i].stack| - 1]}
  {
  }

  lemma {:induction false} PlacesReplaced(tasks: seq<Task>, i: nat, stack: seq<Place>, wait: Wait)
    requires i < |tasks| && tasks[i].stack != []
    ensures var below := tasks[i].stack[..|tasks[i].stack| - 1];
            OtherPlaces(tasks, i) + Places(stack) <= AllPlaces(tasks[i := Task(below + stack, wait)])
  {
    var below := tasks[i].stack[..|tasks[i].stack| - 1];
    var after := tasks[i := Task(below + stack, wait)];
    forall p | p in OtherPlaces(tasks, i) ensures p in AllPlaces(after) {
      var j, k :| 0 <= j < |tasks| && 0 <= k < |tasks[j].stack| && (j != i || k < |tasks[j].stack| - 1)
        && tasks[j].stack[k] == p;
      assert after[j].stack[k] == p;
    }
    forall p | p in Places(stack) ensures p in AllPlaces(after) {
      var k :| 0 <= k < |stack| && stack[k] == p;
      assert after[i].stack[|below| + k] == p;
    }
  }

  /** A rejected wait for a Close frame is a refused Close frame. */
  lemma {:induction false} RejectedIsRefused(s: Shared, stack: seq<Place>, wait: Wait, outside: bool)
    requires stack != [] && AwaitsClose(s, stack, wait) && Answer(s, wait, outside).Some?
    ensures var place := stack[|stack| - 1];
            !Answer(s, wait, outside).value.0 && (place == CloseWritten || place.AfterEcho?) ==> Refused(s)
  {
  }

  lemma {:induction false} ResumeWatched(l: Limits, m: Machine, i: nat, outside: bool)
    requires WatchedMachine(m)
    ensures WatchedMachine(ResumeTask(l, m, i, outside))
  {
    hide Watched, Refused, AllPlaces, OtherPlaces, Places, Resume, Answer;
    if i < |m.tasks| && m.tasks[i].stack != [] && Answer(m.shared, m.tasks[i].wait, outside).Some? {
      var s, stack := m.shared, m.tasks[i].stack;
      var (ok, value) := Answer(s, m.tasks[i].wait, outside).value;
      var place, below := stack[|stack| - 1], stack[..|stack| - 1];
      var others := OtherPlaces(m.tasks, i);
      PlacesSplit(m.tasks, i);
      StaysWatched(s, s, AllPlaces(m.tasks), others + {place});
      RejectedIsRefused(s, stack, m.tasks[i].wait, outside);
      ResumeWatches(l, s, others, place, ok, value);
      var c := Resume(l, s, place, ok, value);
      var m' := ResumeTask(l, m, i, outside);
      PlacesReplaced(m.tasks, i, c.stack, c.wait);
      StaysWatched(c.shared, c.shared, others + Places(c.stack), AllPlaces(m'.tasks));
      forall j | 0 <= j < |m'.tasks| ensures AwaitsClose(m'.shared, m'.tasks[j].stack, m'.tasks[j].wait) {
        if j != i {
          AwaitsStays(s, c.shared, m.tasks[j].stack, m.tasks[j].wait);
        } else {
          assert forall k | 0 <= k < |below| :: m'.tasks[i].stack[k] == stack[k];
          assert forall k | 0 <= k < |c.stack| :: m'.tasks[i].stack[|below| + k] == c.stack[k];
        }
      }
    }
  }

  lemma {:induction false} StepWatched(l: Limits, m: Machine, choice: Choice)
    requires WatchedMachine(m)
    ensures WatchedMachine(Step(l, m, choice))
  {
    hide Watched, AwaitsClose, AllPlaces, Watches, ResumeTask, Spawn, CallReceive, CallReceiveEnd, CallAccept,
         CallClose, CallFinish, Refused;
    var s, others := m.shared, AllPlaces(m.tasks);
    match choice {
      case Receives(data) =>
        StaysWatched(s, Arrive(s, data), others, others);
        ReceiveWatches(l, Arrive(s, data), others, data);
        ArrivedWatches(s, Arrive(s, data), others, CallReceive(l, Arrive(s, data), data));
        SpawnWatched(m, CallReceive(l, Arrive(s, data), data));
      case Ends(finished) =>
        ReceiveEndWatches(s, others, finished);
        SpawnWatched(m, CallReceiveEnd(s, finished));
      case Accepts(offered) =>
        AcceptWatches(l, s, others, offered);
        SpawnWatched(m, CallAccept(l, s, offered));
      case Sends(text, data) =>
        PlainWatches(s, others, CallSend(l, s, text, data));
        SpawnWatched(m, CallSend(l, s, text, data));
      case Closes(code, reason) =>
        CloseWatches(s, others, code, reason);
        SpawnWatched(m, CallClose(s, code, reason));
      case Resumes(i, ok) => ResumeWatched(l, m, i, ok);
      case Fires => FiresWatched(l, m);
      case _ => QueueWatched(l, m, choice);
    }
  }

  lemma {:induction false} ArrivedWatches(s: Shared, s1: Shared, others: set<Place>, c: Call)
    requires Watches(s1, others, c) && s1.queue == s.queue && s1.results == s.results
    ensures Watches(s, others, c)
  {
    hide Watched;
  }

  lemma {:induction false} FiresWatched(l: Limits, m: Machine)
    requires WatchedMachine(m)
    ensures WatchedMachine(Step(l, m, Fires))
  {
    hide AwaitsClose, AllPlaces, Refused, CallFinish, Spawn;
    var s, others := m.shared, AllPlaces(m.tasks);
    var s1 := s.(core := Emit(s.core.(timer := false), Aborted));
    FinishWatches(s1, others, 1006, [], TimedOut);
    ArrivedWatches(s, s1, others, CallFinish(s1, 1006, [], TimedOut));
    SpawnWatched(m, CallFinish(s1, 1006, [], TimedOut));
    hide Watched, Watches;
  }

  lemma {:induction false} QueueWatched(l: Limits, m: Machine, choice: Choice)
    requires WatchedMachine(m) && (choice.HandsOver? || choice.Settles?)
    ensures WatchedMachine(Step(l, m, choice))
  {
    hide Watched, AllPlaces;
    var m' := Step(l, m, choice);
    StaysWatched(m.shared, m'.shared, AllPlaces(m.tasks), AllPlaces(m'.tasks));
    forall i | 0 <= i < |m'.tasks| ensures AwaitsClose(m'.shared, m'.tasks[i].stack, m'.tasks[i].wait) {
      AwaitsStays(m.shared, m'.shared, m.tasks[i].stack, m.tasks[i].wait);
    }
    hide AwaitsClose;
  }

  lemma {:induction false} RunWatched(l: Limits, m: Machine, choices: seq<Choice>)
    requires WatchedMachine(m)
    ensures WatchedMachine(RunAll(l, m, choices))
    decreases |choices|
  {
    hide WatchedMachine, Step;
    if choices != [] {
      StepWatched(l, m, choices[0]);
      RunWatched(l, Step(l, m, choices[0]), choices[1..]);
    }
  }

  /** In every reachable state a socket that is closing has its close timer running, or a call in
      progress that goes on to close it, or one that waits for the write of its Close frame, or
      else the transport has refused a Close frame, of which a caller was told. */
  lemma {:induction false} ClosingIsWatched(l: Limits, choices: seq<Choice>)
    requires RunAll(l, BEGIN, choices).shared.core.ready == CLOSING
    ensures var m := RunAll(l, BEGIN, choices);
            || m.shared.core.timer
            || (exists i, k | 0 <= i < |m.tasks| && 0 <= k < |m.tasks[i].stack| ::
                  Finishing(m.tasks[i].stack[k]) || m.tasks[i].stack[k] == CloseWritten)
            || (exists j | 0 <= j < |m.shared.results| && j < |m.shared.queue| ::
                  m.shared.queue[j].opcode == 0x8 && !m.shared.results[j])
  {
    assert WatchedMachine(BEGIN);
    RunWatched(l, BEGIN, choices);
    var m := RunAll(l, BEGIN, choices);
    hide RunAll, Finishing, Answering;
    if p :| p in AllPlaces(m.tasks) && (Finishing(p) || p == CloseWritten) {
      var i, k :| 0 <= i < |m.tasks| && 0 <= k < |m.tasks[i].stack| && m.tasks[i].stack[k] == p;
    }
  }
}
