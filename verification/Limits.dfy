/** What a socket may hold: bounded input, bounded fragments, bounded messages. */
module Limits {
  import opened Bytes
  import opened Wire
  import opened WebSocketSpec
  import opened WebSocketFacts
  import opened Calls
  import opened Chunking
  import opened Waiting

  /** The three fragment fields describe one unfinished message, within the limit. */
  ghost predicate FragmentsAgree(c: Core, limit: nat) {
    && c.fragmentBytes == TotalLength(c.fragments) <= limit
    && (c.fragmentOpcode != 0 <==> c.fragments != [])
    && c.fragmentOpcode in {0, 0x1, 0x2}
  }

  ghost predicate DeliveriesFit(log: seq<Effect>, limit: nat) {
    forall i | 0 <= i < |Deliveries(log)| :: |Deliveries(log)[i].1| <= limit
  }

  ghost predicate Bounded(c: Core, limit: nat) {
    (c.ready != CLOSED ==> FragmentsAgree(c, limit)) && DeliveriesFit(c.log, limit)
  }

  lemma {:induction false} DispatchBounds(c: Core, f: Frame, limit: nat)
    requires FragmentsAgree(c, limit) && DeliveriesFit(c.log, limit) && |f.payload| <= limit
    ensures var (c', next) := Dispatch(c, f, limit);
            && c'.log == c.log && c'.ready == c.ready
            && (!next.Violation? ==> FragmentsAgree(c', limit))
            && (next.Deliver? ==> |next.message| <= limit)
  {
    TotalLengthAppend(c.fragments, [f.payload]);
    assert TotalLength([f.payload]) == |f.payload|;
    FlattenLength(c.fragments + [f.payload]);
  }

  lemma {:induction false} HandleFrameBounds(env: Env, c: Core, f: Frame)
    requires Bounded(c, env.maxMessageBytes) && c.ready != CLOSED && |f.payload| <= env.maxMessageBytes
    ensures Bounded(HandleFrame(env, c, f).core, env.maxMessageBytes)
  {
    DispatchBounds(c, f, env.maxMessageBytes);
    HandleFrameQuiet(env, c, f);
    hide HandleFrame, Dispatch, Deliveries;
  }

  lemma {:induction false} DrainBounds(env: Env, c: Core, b: seq<byte>)
    requires Bounded(c, env.maxMessageBytes) && c.ready != CLOSED
    ensures Bounded(Drain(env, c, b).core, env.maxMessageBytes)
    decreases |b|
  {
    ReadFrameSizes(b, env.maxMessageBytes);
    match ReadFrame(b, env.maxMessageBytes)
    case NeedMore =>
    case Fail(cause, code) =>
      FailureCloses(env, c, cause, code);
    case Parsed(f, n) =>
      HandleFrameBounds(env, c, f);
      var r := HandleFrame(env, c, f);
      if !r.rejected && r.core.ready != CLOSED {
        DrainBounds(env, r.core, b[n..]);
      }
  }

  // ---------------------------------------------------------------- sequences of calls

  predicate Reads(s: Socket, call: Call) {
    call.Receives? || (call.Accepts? && call.offered && s.core.ready == CONNECTING)
  }

  /** Where a sequence of calls leaves the socket, and whether the last one that reads input
      did not reject. Nothing stops at a rejection. */
  function MakeAll(env: Env, s: Socket, calls: seq<Call>): (Socket, bool) {
    if calls == [] then (s, true) else
    var k := |calls| - 1;
    var (before, read) := MakeAll(env, s, calls[..k]);
    var o := Make(env, before, calls[k]);
    (o.socket, if Reads(before, calls[k]) then !o.rejected else read)
  }

  // ---------------------------------------------------------------- every call keeps the bounds

  /** What holds between calls, whether or not one rejected. */
  ghost predicate Held(env: Env, s: Socket) {
    && Bounded(s.core, env.maxMessageBytes)
    && (s.core.ready != CLOSED ==> |s.pendingInput| <= env.maxMessageBytes + 14)
    && (s.core.ready == CONNECTING ==> s.buffer == [])
  }

  lemma {:induction false} QuietBounds(c: Core, c': Core, limit: nat)
    requires Bounded(c, limit) && Quiet(c, c')
    ensures Bounded(c', limit)
  {
  }

  lemma {:induction false} ReceiveHolds(env: Env, s: Socket, data: seq<byte>)
    requires Held(env, s)
    ensures var o := ReceiveData(env, s, data);
            Held(env, o.socket) && (!o.rejected ==> Settled(env, o.socket))
  {
    if s.core.ready == CONNECTING {
      FailureCloses(env, s.core, InputOverLimit, 1009);
      hide ProtocolFailure, Deliveries;
    } else if s.core.ready != CLOSED {
      DrainBounds(env, s.core, s.buffer + data);
      DrainSettles(env, s.core, s.buffer + data);
      hide Drain, Bounded;
    }
  }

  lemma {:induction false} EndHolds(env: Env, s: Socket, finished: bool)
    requires Held(env, s)
    ensures Held(env, ReceiveEnd(env, s, finished)) && (Settled(env, s) ==> Settled(env, ReceiveEnd(env, s, finished)))
  {
    if s.core.ready != CLOSED {
      EndReports(env, s, finished);
      hide Deliveries, ReceiveEnd;
    }
  }

  lemma {:induction false} AcceptHolds(env: Env, s: Socket, offered: bool)
    requires Held(env, s)
    ensures var o := Accept(env, s, offered);
            Held(env, o.socket)
            && ((if Reads(s, Accepts(offered)) then !o.rejected else Settled(env, s)) ==> Settled(env, o.socket))
  {
    if s.core.ready == CONNECTING && offered {
      var open := s.(core := s.core.(ready := OPEN));
      assert Held(env, open.(pendingInput := []));
      if s.pendingInput != [] {
        ReceiveHolds(env, open.(pendingInput := []), s.pendingInput);
      }
      hide ReceiveData, Bounded;
    }
  }

  /** Whatever leaves buffer and fragments alone, and opens or closes the socket at most. */
  lemma {:induction false} QuietHolds(env: Env, s: Socket, c: Core)
    requires Held(env, s) && Quiet(s.core, c)
    ensures var t := s.(core := c); Held(env, t) && (Settled(env, s) ==> Settled(env, t))
  {
    QuietBounds(s.core, c, env.maxMessageBytes);
    hide Bounded, Deliveries, Pongs;
  }

  /** Sending, closing and the timer touch neither buffer nor fragments. */
  lemma {:induction false} ApplicationHolds(env: Env, s: Socket, call: Call)
    requires Held(env, s) && (call.Sends? || call.Closes? || call.TimesOut?)
    ensures var t := Make(env, s, call).socket;
            Held(env, t) && (Settled(env, s) ==> Settled(env, t))
  {
    hide Held, Settled, Quiet, CloseSocket, SendMessage, TimeOut;
    match call
    case Sends(text, data) =>
      SendQuiet(env, s.core, text, data);
      QuietHolds(env, s, SendMessage(env, s.core, text, data).core);
    case Closes(code, reason) =>
      CloseQuiet(env, s.core, code, reason);
      QuietHolds(env, s, CloseSocket(env, s.core, code, reason).core);
    case TimesOut =>
      TimeOutQuiet(s.core);
      QuietHolds(env, s, TimeOut(s.core));
  }

  lemma {:induction false} SendQuiet(env: Env, c: Core, text: bool, data: seq<byte>)
    ensures Quiet(c, SendMessage(env, c, text, data).core)
  {
    WriteQuiet(env, c, if text then 0x1 else 0x2, data);
    hide WriteFrame, Deliveries, Pongs;
  }

  lemma {:induction false} TimeOutQuiet(c: Core)
    ensures Quiet(c, TimeOut(c))
  {
    hide Deliveries, Pongs;
    if c.timer {
      LogGrows(c.log, Aborted);
      LogGrows(c.log + [Aborted], Closed(1006, []));
    }
  }

  lemma {:induction false} MakeHolds(env: Env, s: Socket, call: Call, read: bool)
    requires Held(env, s) && (read ==> Settled(env, s))
    ensures var o := Make(env, s, call);
            && Held(env, o.socket)
            && ((if Reads(s, call) then !o.rejected else read) ==> Settled(env, o.socket))
  {
    hide Held, Settled, ReceiveData, ReceiveEnd, Accept, SendMessage, CloseSocket, TimeOut;
    match call
    case Receives(data) => ReceiveHolds(env, s, data);
    case Ends(finished) => EndHolds(env, s, finished);
    case Accepts(offered) => AcceptHolds(env, s, offered);
    case _ => ApplicationHolds(env, s, call);
  }

  lemma {:induction false} AllHold(env: Env, calls: seq<Call>)
    ensures var (s, read) := MakeAll(env, Fresh(), calls);
            Held(env, s) && (read ==> Settled(env, s))
  {
    if calls != [] {
      var k := |calls| - 1;
      AllHold(env, calls[..k]);
      MakeHolds(env, MakeAll(env, Fresh(), calls[..k]).0, calls[k], MakeAll(env, Fresh(), calls[..k]).1);
      hide Held, Settled, Make;
    }
  }

  // ---------------------------------------------------------------- the theorem

  /** However the client cuts its bytes, and whatever calls come in between, the socket holds
      at most the pending limit before it opens and one message of fragments after, and no
      message it ever delivered was over the limit. While the last read has not rejected, it
      holds less than one frame of input: a proper prefix of one, unless it holds a dead length. */
  lemma {:induction false} MemoryBounded(env: Env, calls: seq<Call>)
    requires ValidEnv(env)
    ensures
      var limit := env.maxMessageBytes;
      var (s, read) := MakeAll(env, Fresh(), calls);
      && DeliveriesFit(s.core.log, limit)
      && (s.core.ready != CLOSED ==> |s.pendingInput| <= limit + 14 && FragmentsAgree(s.core, limit))
      && (s.core.ready != CLOSED && read ==>
            && |s.buffer| < limit + 14 && Decode(s.buffer) == Incomplete
            && (Completable(s.buffer) <==> !DeadLength(s.buffer)))
  {
    AllHold(env, calls);
    var (s, read) := MakeAll(env, Fresh(), calls);
    ReadFrameSizes(s.buffer, env.maxMessageBytes);
    ReadFrameRefinesDecode(s.buffer, env.maxMessageBytes);
    if Decode(s.buffer).Incomplete? {
      WaitingIsPrefixUnlessDead(s.buffer);
    }
    hide MakeAll, DeliveriesFit, FragmentsAgree, Wire.ReadFrame, Completable, DeadLength;
  }
}
