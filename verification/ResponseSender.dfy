/** Answering an HTTP/3 request: which frames the native side has accepted by the end, however
    the handler, the body stream, refusals and an abort of the request interleave. */
module ResponseSender {
  import opened Bytes

  datatype Frame = Headers(status: nat, fin: bool) | Data(bytes: seq<byte>) | Fin

  /** What one read of the body stream yields. */
  datatype Item = Chunk(bytes: seq<byte>) | NotBytes | Fails

  datatype Result = Throws | NoResponse | Bodiless(status: nat) | WithBody(status: nat, items: seq<Item>)

  /** The surroundings, by the number of the await: when the request is aborted, if it is;
      which calls the native side refuses or throws on; and whether it refuses every call
      after an abort, as it promises. */
  datatype Env = Env(abortAt: Option<nat>, refused: set<nat>, strict: bool)

  predicate Aborted(env: Env, clock: nat) {
    env.abortAt.Some? && env.abortAt.value <= clock
  }

  predicate Accepts(env: Env, clock: nat) {
    clock !in env.refused && !(env.strict && Aborted(env, clock))
  }

  /** An abort cancels the reader if it is already registered; a cancelled reader reports that
      it is done. */
  predicate Cancelled(env: Env, registered: nat, clock: nat) {
    Aborted(env, clock) && registered <= env.abortAt.value
  }

  /** The frames accepted by the loop of `#sendResponse`, and whether it failed. */
  function SendBody(env: Env, registered: nat, items: seq<Item>, clock: nat): (seq<Frame>, bool) {
    if items == [] || Cancelled(env, registered, clock) then
      if Accepts(env, clock + 1) then ([Fin], false) else ([], true)
    else match items[0]
      case Chunk(bytes) =>
        if bytes == [] then SendBody(env, registered, items[1..], clock + 1)
        else if Accepts(env, clock + 1) then
          var rest := SendBody(env, registered, items[1..], clock + 2);
          ([Data(bytes)] + rest.0, rest.1)
        else ([], true)
      case _ => ([], true)
  }

  function BestEffort500(env: Env, clock: nat): seq<Frame> {
    if Accepts(env, clock) then [Headers(500, true)] else []
  }

  /** `#handleRequest`: all frames accepted for the request. */
  function Respond(env: Env, result: Result): seq<Frame> {
    match result
    case Throws => BestEffort500(env, 1)
    case NoResponse => []
    case Bodiless(status) => if Accepts(env, 1) then [Headers(status, true)] else BestEffort500(env, 2)
    case WithBody(status, items) =>
      if Accepts(env, 1) then [Headers(status, false)] + SendBody(env, 1, items, 2).0
      else BestEffort500(env, 3)
  }

  // ---------------------------------------------------------------- what may be accepted

  predicate Clean(items: seq<Item>) {
    forall i | 0 <= i < |items| :: items[i].Chunk?
  }

  /** The data frames of a body: its chunks, the empty ones left out, up to a defect. */
  function DataFrames(items: seq<Item>): seq<Frame> {
    if items == [] || !items[0].Chunk? then []
    else (if items[0].bytes == [] then [] else [Data(items[0].bytes)]) + DataFrames(items[1..])
  }

  function Payload(frames: seq<Frame>): seq<byte> {
    if frames == [] then []
    else (if frames[0].Data? then frames[0].bytes else []) + Payload(frames[1..])
  }

  function BodyBytes(items: seq<Item>): seq<byte> {
    if items == [] || !items[0].Chunk? then [] else items[0].bytes + BodyBytes(items[1..])
  }

  /** Every body byte is in the data frames, in order. */
  lemma {:induction false} DataFramesCarryTheBody(items: seq<Item>)
    ensures Payload(DataFrames(items)) == BodyBytes(items) && Fin !in DataFrames(items)
  {
    if items != [] && items[0].Chunk? {
      DataFramesCarryTheBody(items[1..]);
      var rest := DataFrames(items[1..]);
      if items[0].bytes != [] {
        assert ([Data(items[0].bytes)] + rest)[1..] == rest;
      } else {
        assert [] + rest == rest;
      }
    }
  }

  /** The loop either sends the whole body and the FIN, or part of the body and no FIN. */
  lemma {:induction false} BodyIsWholeOrUnfinished(env: Env, registered: nat, items: seq<Item>, clock: nat)
    requires env.strict
    ensures var sent := SendBody(env, registered, items, clock);
            if sent.1 then sent.0 <= DataFrames(items)
            else Clean(items) && sent.0 == DataFrames(items) + [Fin]
  {
    if items != [] && !Cancelled(env, registered, clock) && items[0].Chunk? {
      var bytes := items[0].bytes;
      var step := if bytes == [] then clock + 1 else clock + 2;
      BodyIsWholeOrUnfinished(env, registered, items[1..], step);
      var sent := SendBody(env, registered, items[1..], step);
      if !sent.1 {
        assert items == [items[0]] + items[1..];
      }
      if bytes != [] {
        assert [Data(bytes)] + (DataFrames(items[1..]) + [Fin]) == [Data(bytes)] + DataFrames(items[1..]) + [Fin];
      } else {
        assert [] + DataFrames(items[1..]) == DataFrames(items[1..]);
      }
    }
  }

  /** Everything a complete answer with a body consists of. */
  function Whole(status: nat, items: seq<Item>): seq<Frame> {
    [Headers(status, false)] + DataFrames(items) + [Fin]
  }

  /** With a native side that refuses sends after an abort, the accepted frames are a complete
      answer, or a proper prefix of one without FIN, or only a bodiless 500; and a complete
      answer carries the whole body. */
  lemma {:induction false} AnswerIsWholeOrUnfinished(env: Env, result: Result)
    requires env.strict && (result.Bodiless? || result.WithBody?)
    ensures var frames := Respond(env, result);
            || frames == [] || frames == [Headers(500, true)]
            || (result.Bodiless? && frames == [Headers(result.status, true)])
            || (result.WithBody? && frames < Whole(result.status, result.items) && Fin !in frames)
            || (result.WithBody? && Clean(result.items) && frames == Whole(result.status, result.items)
                && Payload(frames) == BodyBytes(result.items))
  {
    if result.WithBody? && Accepts(env, 1) {
      var items, sent := result.items, SendBody(env, 1, result.items, 2);
      BodyIsWholeOrUnfinished(env, 1, items, 2);
      DataFramesCarryTheBody(items);
      var frames := Respond(env, result);
      assert frames[1..] == sent.0;
      if sent.1 {
        assert frames <= [Headers(result.status, false)] + DataFrames(items);
      } else {
        PayloadFin(DataFrames(items));
        assert frames == Whole(result.status, items);
      }
    }
  }

  /** Undisturbed, the loop and the request go all the way. */
  lemma {:induction false} BodyGoesThrough(env: Env, registered: nat, items: seq<Item>, clock: nat)
    requires env.abortAt == None && env.refused == {} && Clean(items)
    ensures SendBody(env, registered, items, clock) == (DataFrames(items) + [Fin], false)
  {
    if items != [] {
      var bytes := items[0].bytes;
      BodyGoesThrough(env, registered, items[1..], if bytes == [] then clock + 1 else clock + 2);
      if bytes != [] {
        assert [Data(bytes)] + (DataFrames(items[1..]) + [Fin]) == [Data(bytes)] + DataFrames(items[1..]) + [Fin];
      } else {
        assert [] + DataFrames(items[1..]) == DataFrames(items[1..]);
      }
    } else {
      assert [] + [Fin] == [Fin];
    }
  }

  /** Without an abort or a refusal, a sound response is answered completely and a failed
      handler with a bodiless 500. */
  lemma {:induction false} UndisturbedAnswerIsWhole(env: Env, result: Result)
    requires env.abortAt == None && env.refused == {}
    requires result.WithBody? ==> Clean(result.items)
    ensures Respond(env, result) ==
      match result
      case Throws => [Headers(500, true)]
      case NoResponse => []
      case Bodiless(status) => [Headers(status, true)]
      case WithBody(status, items) => Whole(status, items)
  {
    if result.WithBody? {
      BodyGoesThrough(env, 1, result.items, 2);
    }
  }

  /** When only the response headers are refused, the client gets a bodiless 500 instead; without a
      response nothing is sent; and for a failed handler nothing but that 500. */
  lemma {:induction false} FailureAnswers500(env: Env, result: Result)
    ensures (result.Bodiless? || result.WithBody?) && env.abortAt == None && env.refused == {1}
            ==> Respond(env, result) == [Headers(500, true)]
    ensures result.NoResponse? ==> Respond(env, result) == []
    ensures result.Throws? ==> Respond(env, result) == [] || Respond(env, result) == [Headers(500, true)]
  {
  }

  lemma {:induction false} PayloadFin(frames: seq<Frame>)
    ensures Payload(frames + [Fin]) == Payload(frames)
  {
    if frames != [] {
      PayloadFin(frames[1..]);
      assert (frames + [Fin])[1..] == frames[1..] + [Fin];
    }
  }

  /** Without that promise any body of two nonempty chunks or more may be cut and look
      complete: the request is aborted after the first chunk, the cancelled reader reports
      that it is done, and the FIN is accepted. */
  lemma {:induction false} RefusalAfterAbortIsNeeded(status: nat, first: seq<byte>, second: seq<byte>, more: seq<Item>)
    requires first != [] && second != []
    ensures var items := [Chunk(first), Chunk(second)] + more; var env := Env(Some(4), {}, false);
            && Respond(env, WithBody(status, items)) == [Headers(status, false), Data(first), Fin]
            && Payload(Respond(env, WithBody(status, items))) == first
            && |first| < |BodyBytes(items)|
  {
    var items, env := [Chunk(first), Chunk(second)] + more, Env(Some(4), {}, false);
    var rest := [Chunk(second)] + more;
    assert items[1..] == rest && rest[1..] == more;
    assert SendBody(env, 1, rest, 4) == ([Fin], false);
    assert SendBody(env, 1, items, 2) == ([Data(first)] + [Fin], false);
    var frames := [Headers(status, false), Data(first), Fin];
    assert frames[1..] == [Data(first), Fin] && frames[1..][1..] == [Fin] && [Fin][1..] == [];
    assert Payload([Fin]) == [] && Payload(frames[1..]) == first + Payload([Fin]);
    assert BodyBytes(items) == first + BodyBytes(rest) && BodyBytes(rest) == second + BodyBytes(more);
  }

  // ---------------------------------------------------------------- the methods

  class Responder {
    const env: Env
    /** Frames the native side has accepted. */
    var frames: seq<Frame>
    var committed: bool
    /** Awaits so far. */
    var clock: nat

    constructor (env: Env)
      ensures this.env == env && frames == [] && !committed && clock == 0
    {
      this.env := env;
      frames, committed, clock := [], false, 0;
    }

    method Send(frame: Frame) returns (accepted: bool)
      modifies this
      ensures clock == old(clock) + 1 && committed == old(committed)
      ensures accepted == Accepts(env, old(clock))
      ensures frames == if accepted then old(frames) + [frame] else old(frames)
    {
      accepted := Accepts(env, clock);
      if accepted {
        frames := frames + [frame];
      }
      clock := clock + 1;
    }

    /** The reading and sending loop. */
    method SendChunks(registered: nat, items: seq<Item>) returns (failed: bool)
      modifies this
      ensures committed == old(committed)
      ensures var sent := SendBody(env, registered, items, old(clock));
              frames == old(frames) + sent.0 && failed == sent.1
    {
      var next := 0;
      assert items[0..] == items;
      ghost var whole := SendBody(env, registered, items, clock);
      while true
        invariant 0 <= next <= |items| && committed == old(committed)
        invariant var rest := SendBody(env, registered, items[next..], clock);
                  old(frames) + whole.0 == frames + rest.0 && whole.1 == rest.1
        decreases |items| - next
      {
        var done := next == |items| || Cancelled(env, registered, clock);
        clock := clock + 1;
        if done {
          break;
        }
        var item := items[next];
        assert items[next..][1..] == items[next + 1..];
        next := next + 1;
        if !item.Chunk? {
          return true;
        }
        if item.bytes != [] {
          ghost var before := frames;
          var accepted := Send(Data(item.bytes));
          if !accepted {
            return true;
          }
          ghost var rest := SendBody(env, registered, items[next..], clock).0;
          Associate(before, [Data(item.bytes)], rest);
        }
      }
      var accepted := Send(Fin);
      failed := !accepted;
    }

    /** `#sendResponse`. */
    method SendResponse(result: Result) returns (failed: bool)
      requires result.Bodiless? || result.WithBody?
      requires frames == [] && !committed && clock == 1
      modifies this
      ensures committed == Accepts(env, 1)
      ensures committed ==> frames == Respond(env, result)
      ensures !committed ==> failed && frames == [] && clock == if result.Bodiless? then 2 else 3
    {
      if result.Bodiless? {
        var accepted := Send(Headers(result.status, true));
        committed := accepted;
        return !accepted;
      }
      var registered := clock;
      var accepted := Send(Headers(result.status, false));
      if !accepted {
        clock := clock + 1;
        return true;
      }
      committed := true;
      failed := SendChunks(registered, result.items);
    }

    /** `#handleRequest`, once the handler has settled. */
    method HandleRequest(result: Result)
      requires frames == [] && !committed && clock == 0
      modifies this
      ensures frames == Respond(env, result)
    {
      clock := 1;
      var failed := result.Throws?;
      if result.Bodiless? || result.WithBody? {
        failed := SendResponse(result);
      }
      if failed && !committed {
        var _ := Send(Headers(500, true));
      }
      committed := false;
    }
  }
}
