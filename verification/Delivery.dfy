/** `attachWebSocketStream`: a promise chain in front of the endpoint.  Events may arrive
    at any time; the operations they queue run one at a time, in arrival order. */
module Delivery {
  import opened Bytes
  import opened Wire
  import opened WebSocketSpec
  import opened WebSocketFacts
  import opened Calls
  import opened Chunking
  import WebSocketConnection

  /** What the stream announces. */
  datatype Event = Data(bytes: seq<byte>) | End | Abort {
    /** The call its operation makes. */
    function Call(): Call {
      match this
      case Data(bytes) => Receives(bytes)
      case End => Ends(true)
      case Abort => Ends(false)
    }
  }

  /** `delivery` as the operations still to run; `destroyed` counts `stream.destroy()`, and
      `refused` says that a call from elsewhere rejected. */
  datatype Chain = Chain(socket: Socket, queued: seq<Event>, failed: bool, destroyed: nat, refused: bool)

  /** An event arrives, the chain reaches its next operation, or the server or the application
      calls the socket in between. */
  datatype Tick = Arrives(event: Event) | Runs | Meanwhile(call: Call)

  function Start(s: Socket): Chain {
    Chain(s, [], false, 0, false)
  }

  function Advance(env: Env, c: Chain, tick: Tick): Chain {
    match tick
    case Arrives(e) => if c.failed then c else c.(queued := c.queued + [e])
    case Runs =>
      if c.queued == [] then c else
      var o := Make(env, c.socket, c.queued[0].Call());
      Chain(o.socket, c.queued[1..], c.failed || o.rejected, c.destroyed + if o.rejected then 1 else 0, c.refused)
    case Meanwhile(call) =>
      var o := Make(env, c.socket, call);
      c.(socket := o.socket, refused := c.refused || o.rejected)
  }

  function AdvanceAll(env: Env, c: Chain, ticks: seq<Tick>): Chain
    decreases |ticks|
  {
    if ticks == [] then c else AdvanceAll(env, Advance(env, c, ticks[0]), ticks[1..])
  }

  /** The calls in the order in which they are made: those from elsewhere at once, those of the
      stream when the chain reaches them, the ones still queued last. */
  function Order(queued: seq<Event>, ticks: seq<Tick>): seq<Call>
    decreases |ticks|
  {
    if ticks == [] then CallsOf(queued)
    else match ticks[0]
      case Arrives(e) => Order(queued + [e], ticks[1..])
      case Runs => if queued == [] then Order([], ticks[1..]) else [queued[0].Call()] + Order(queued[1..], ticks[1..])
      case Meanwhile(call) => [call] + Order(queued, ticks[1..])
  }

  function CallsOf(events: seq<Event>): seq<Call> {
    if events == [] then [] else [events[0].Call()] + CallsOf(events[1..])
  }

  function Arrivals(ticks: seq<Tick>): seq<Event> {
    if ticks == [] then []
    else (if ticks[0].Arrives? then [ticks[0].event] else []) + Arrivals(ticks[1..])
  }

  /** The same calls one after another, with nothing in between. */
  function MakeInOrder(env: Env, s: Socket, calls: seq<Call>): Outcome
    decreases |calls|
  {
    if calls == [] then Outcome(s, false) else
    var o := Make(env, s, calls[0]);
    var rest := MakeInOrder(env, o.socket, calls[1..]);
    Outcome(rest.socket, o.rejected || rest.rejected)
  }

  /** Whatever the schedule, the chain is part-way through the plain sequence: running what is
      queued would end where making all calls in that order ends. */
  lemma {:induction false} ChainKeepsOrder(env: Env, c: Chain, ticks: seq<Tick>)
    ensures var d := AdvanceAll(env, c, ticks);
            && (c.failed ==> d.failed) && (c.refused ==> d.refused)
            && (!d.failed && !d.refused ==>
                  MakeInOrder(env, d.socket, CallsOf(d.queued)) == MakeInOrder(env, c.socket, Order(c.queued, ticks)))
    decreases |ticks|
  {
    hide Make;
    if ticks != [] {
      ChainKeepsOrder(env, Advance(env, c, ticks[0]), ticks[1..]);
      match ticks[0] {
        case Arrives(e) =>
        case Runs =>
          if c.queued != [] {
            var call, rest := c.queued[0].Call(), Order(c.queued[1..], ticks[1..]);
            assert ([call] + rest)[1..] == rest;
          }
        case Meanwhile(call) =>
          var rest := Order(c.queued, ticks[1..]);
          assert ([call] + rest)[1..] == rest;
      }
    }
  }

  ghost predicate RestOf(rest: seq<Event>, queued: seq<Event>) {
    |rest| <= |queued| && rest == queued[|queued| - |rest|..]
  }

  lemma {:induction false} FailureStep(env: Env, c: Chain, tick: Tick)
    requires c.failed <==> c.destroyed > 0
    ensures var d := Advance(env, c, tick);
            && (d.failed <==> d.destroyed > 0) && c.destroyed <= d.destroyed && (c.failed ==> d.failed)
            && (c.failed ==> RestOf(d.queued, c.queued))
  {
    hide Make;
  }

  /** The stream is destroyed when an operation rejects and never otherwise; after that what was
      queued may still run, but nothing more is queued. */
  lemma {:induction false} FailureDestroysTheStream(env: Env, c: Chain, ticks: seq<Tick>)
    requires c.failed <==> c.destroyed > 0
    ensures var d := AdvanceAll(env, c, ticks);
            && (d.failed <==> d.destroyed > 0) && c.destroyed <= d.destroyed
            && (c.failed ==> RestOf(d.queued, c.queued))
    decreases |ticks|
  {
    hide Advance;
    if ticks != [] {
      FailureStep(env, c, ticks[0]);
      FailureDestroysTheStream(env, Advance(env, c, ticks[0]), ticks[1..]);
    }
  }

  // ---------------------------------------------------------------- what the order leaves to matter

  /** The bytes before the first end, and whether that is a clean one. */
  function Input(calls: seq<Call>): (seq<byte>, Option<bool>) {
    if calls == [] then ([], None) else
    match calls[0]
    case Receives(bytes) => var (more, last) := Input(calls[1..]); (bytes + more, last)
    case Ends(finished) => ([], Some(finished))
    case _ => Input(calls[1..])
  }

  lemma {:induction false} InputFirst(call: Call, a: seq<Call>, b: seq<Call>)
    requires Input(a) == Input(b)
    ensures Input([call] + a) == Input([call] + b)
  {
    assert ([call] + a)[1..] == a && ([call] + b)[1..] == b;
  }

  lemma {:induction false} InputSkips(call: Call, rest: seq<Call>)
    requires !call.Receives? && !call.Ends?
    ensures Input([call] + rest) == Input(rest)
  {
    assert ([call] + rest)[1..] == rest;
  }

  /** Calls from elsewhere do not count as input, so the order has the input of the arrivals. */
  lemma {:induction false} OrderKeepsInput(queued: seq<Event>, ticks: seq<Tick>)
    requires forall i | 0 <= i < |ticks| :: ticks[i].Meanwhile? ==> !ticks[i].call.Receives? && !ticks[i].call.Ends?
    ensures Input(Order(queued, ticks)) == Input(CallsOf(queued + Arrivals(ticks)))
    decreases |ticks|
  {
    hide Input;
    if ticks == [] {
      assert queued + [] == queued;
    } else {
      var rest := Arrivals(ticks[1..]);
      match ticks[0]
      case Arrives(e) =>
        OrderKeepsInput(queued + [e], ticks[1..]);
        Associate(queued, [e], rest);
      case Runs =>
        assert [] + rest == rest;
        if queued == [] {
          OrderKeepsInput([], ticks[1..]);
        } else {
          OrderKeepsInput(queued[1..], ticks[1..]);
          var all := queued + rest;
          assert all[1..] == queued[1..] + rest && all[0] == queued[0];
          InputFirst(queued[0].Call(), Order(queued[1..], ticks[1..]), CallsOf(all[1..]));
        }
      case Meanwhile(call) =>
        OrderKeepsInput(queued, ticks[1..]);
        assert [] + rest == rest;
        InputSkips(call, Order(queued, ticks[1..]));
    }
  }

  /** All the bytes in one call, then the end. */
  function AtOnce(env: Env, s: Socket, bytes: seq<byte>, last: Option<bool>): Outcome {
    var o := ReceiveData(env, s, bytes);
    if o.rejected || last.None? then o else Outcome(ReceiveEnd(env, o.socket, last.value), false)
  }

  predicate OnlyStream(calls: seq<Call>) {
    forall i | 0 <= i < |calls| :: calls[i].Receives? || calls[i].Ends?
  }

  lemma {:induction false} EndCloses(env: Env, s: Socket, finished: bool)
    ensures ReceiveEnd(env, s, finished).core.ready == CLOSED
  {
    FailureCloses(env, s.core, EndedInsideFrame, 1002);
  }

  lemma {:induction false} ClosedStaysClosed(env: Env, s: Socket, calls: seq<Call>)
    requires s.core.ready == CLOSED && OnlyStream(calls)
    ensures MakeInOrder(env, s, calls) == Outcome(s, false)
    decreases |calls|
  {
    if calls != [] {
      ClosedStaysClosed(env, s, calls[1..]);
    }
  }

  lemma {:induction false} OrderedIsAtOnce(env: Env, s: Socket, calls: seq<Call>)
    requires Settled(env, s) && OnlyStream(calls) && !MakeInOrder(env, s, calls).rejected
    ensures var (bytes, last) := Input(calls); Same(MakeInOrder(env, s, calls), AtOnce(env, s, bytes, last))
    decreases |calls|
  {
    if calls == [] {
      ReceiveNothing(env, s);
    } else {
      match calls[0]
      case Receives(x) =>
        var (more, _) := Input(calls[1..]);
        ReceiveSettles(env, s, x);
        OrderedIsAtOnce(env, ReceiveData(env, s, x).socket, calls[1..]);
        ReceiveSplit(env, s, x, more);
      case Ends(finished) =>
        ReceiveNothing(env, s);
        EndCloses(env, s, finished);
        ClosedStaysClosed(env, ReceiveEnd(env, s, finished), calls[1..]);
    }
  }

  /** What the stream announced: the bytes before its first end, and whether that end was a clean
      one (`end`) or an abort. */
  function Announced(events: seq<Event>): (seq<byte>, Option<bool>) {
    if events == [] then ([], None) else
    match events[0]
    case Data(bytes) => var (more, last) := Announced(events[1..]); (bytes + more, last)
    case End => ([], Some(true))
    case Abort => ([], Some(false))
  }

  lemma {:induction false} AnnouncedIsInput(events: seq<Event>)
    ensures Input(CallsOf(events)) == Announced(events)
  {
    if events != [] {
      AnnouncedIsInput(events[1..]);
      assert ([events[0].Call()] + CallsOf(events[1..]))[1..] == CallsOf(events[1..]);
    }
  }

  /** When no operation rejects, a stream does to the socket what one `receiveData` call with all
      its bytes does, followed by one `receiveEnd`, clean exactly if the stream ended cleanly. */
  lemma {:induction false} DeliveredAtOnce(env: Env, s: Socket, ticks: seq<Tick>)
    requires Settled(env, s) && Undisturbed(env, s, ticks)
    requires forall i | 0 <= i < |ticks| :: !ticks[i].Meanwhile?
    ensures var (bytes, last) := Announced(Arrivals(ticks));
            Same(Outcome(AdvanceAll(env, Start(s), ticks).socket, false), AtOnce(env, s, bytes, last))
  {
    RunsInOrder(env, s, ticks);
    OnlyStreamOrder([], ticks);
    AnnouncedIsInput(Arrivals(ticks));
    hide AdvanceAll, Arrivals, AtOnce, Settled, Order, MakeInOrder, Input, Announced, CallsOf;
    OrderedIsAtOnce(env, s, Order([], ticks));
  }

  /** Delivery is transparent: when no operation rejects, where the socket ends, and all it did
      on the way, depends only on the concatenated bytes and the end event, not on how they
      were cut, nor on how arrivals and operations interleaved. */
  lemma {:induction false} DeliveryTransparent(env: Env, s: Socket, one: seq<Tick>, two: seq<Tick>)
    requires Settled(env, s) && Announced(Arrivals(one)) == Announced(Arrivals(two))
    requires forall i | 0 <= i < |one| :: !one[i].Meanwhile?
    requires forall i | 0 <= i < |two| :: !two[i].Meanwhile?
    requires Undisturbed(env, s, one) && Undisturbed(env, s, two)
    ensures Same(Outcome(AdvanceAll(env, Start(s), one).socket, false),
                 Outcome(AdvanceAll(env, Start(s), two).socket, false))
  {
    hide AdvanceAll, Arrivals, AtOnce, Settled, Announced, Undisturbed;
    DeliveredAtOnce(env, s, one);
    DeliveredAtOnce(env, s, two);
  }

  /** The chain has run everything, and nothing rejected. */
  ghost predicate Undisturbed(env: Env, s: Socket, ticks: seq<Tick>) {
    var d := AdvanceAll(env, Start(s), ticks); d.queued == [] && !d.failed && !d.refused
  }

  lemma {:induction false} RunsInOrder(env: Env, s: Socket, ticks: seq<Tick>)
    requires Undisturbed(env, s, ticks)
    requires forall i | 0 <= i < |ticks| :: ticks[i].Meanwhile? ==> !ticks[i].call.Receives? && !ticks[i].call.Ends?
    ensures MakeInOrder(env, s, Order([], ticks)) == Outcome(AdvanceAll(env, Start(s), ticks).socket, false)
    ensures Input(Order([], ticks)) == Input(CallsOf(Arrivals(ticks)))
  {
    ChainKeepsOrder(env, Start(s), ticks);
    OrderKeepsInput([], ticks);
    assert [] + Arrivals(ticks) == Arrivals(ticks);
  }

  lemma {:induction false} OnlyStreamOrder(queued: seq<Event>, ticks: seq<Tick>)
    requires forall i | 0 <= i < |ticks| :: !ticks[i].Meanwhile?
    ensures OnlyStream(Order(queued, ticks))
    decreases |ticks|
  {
    if ticks == [] {
      StreamCalls(queued);
    } else {
      match ticks[0]
      case Arrives(e) => OnlyStreamOrder(queued + [e], ticks[1..]);
      case Runs => OnlyStreamOrder(if queued == [] then [] else queued[1..], ticks[1..]);
    }
  }

  lemma {:induction false} StreamCalls(events: seq<Event>)
    ensures OnlyStream(CallsOf(events))
  {
    if events != [] {
      StreamCalls(events[1..]);
    }
  }

  // ---------------------------------------------------------------- opening in between

  /** A socket that has only gathered input. */
  function Gathered(pending: seq<byte>): Socket {
    Fresh().(pendingInput := pending)
  }

  function Opened(env: Env): Socket {
    Accept(env, Fresh(), true).socket
  }

  predicate OnlyReceives(calls: seq<Call>) {
    forall i | 0 <= i < |calls| :: calls[i].Receives?
  }

  /** The `i`-th call opens the socket: before the end, and with no more input than may wait. */
  predicate OpensInTime(env: Env, calls: seq<Call>, i: nat) {
    && i < |calls| && calls[i] == Accepts(true)
    && OnlyReceives(calls[..i]) && OnlyStream(calls[i + 1..])
    && |Input(calls[..i]).0| <= env.maxMessageBytes + 14
  }

  lemma {:induction false} MakeSplits(env: Env, s: Socket, xs: seq<Call>, ys: seq<Call>)
    ensures var first, whole := MakeInOrder(env, s, xs), MakeInOrder(env, s, xs + ys);
            var second := MakeInOrder(env, first.socket, ys);
            whole == Outcome(second.socket, first.rejected || second.rejected)
    decreases |xs|
  {
    hide Make;
    if xs == [] {
      assert xs + ys == ys;
    } else {
      MakeSplits(env, Make(env, s, xs[0]).socket, xs[1..], ys);
      assert (xs + ys)[1..] == xs[1..] + ys;
    }
  }

  lemma {:induction false} InputSplits(xs: seq<Call>, ys: seq<Call>)
    requires OnlyReceives(xs)
    ensures Input(xs).1.None? && Input(xs + ys) == (Input(xs).0 + Input(ys).0, Input(ys).1)
  {
    if xs == [] {
      assert xs + ys == ys;
      assert [] + Input(ys).0 == Input(ys).0;
    } else {
      InputSplits(xs[1..], ys);
      assert (xs + ys)[1..] == xs[1..] + ys;
      Associate(xs[0].data, Input(xs[1..]).0, Input(ys).0);
    }
  }

  lemma {:induction false} PendingGathers(env: Env, pending: seq<byte>, calls: seq<Call>)
    requires OnlyReceives(calls) && |pending + Input(calls).0| <= env.maxMessageBytes + 14
    ensures MakeInOrder(env, Gathered(pending), calls) == Outcome(Gathered(pending + Input(calls).0), false)
    decreases |calls|
  {
    if calls == [] {
      assert pending + [] == pending;
    } else {
      PendingGathers(env, pending + calls[0].data, calls[1..]);
      Associate(pending, calls[0].data, Input(calls[1..]).0);
    }
  }

  /** Opening replays what was gathered as if it arrived now. */
  lemma {:induction false} OpeningReplays(env: Env, pending: seq<byte>)
    ensures Accept(env, Gathered(pending), true) == ReceiveData(env, Opened(env), pending)
    ensures Settled(env, Opened(env))
  {
    if pending == [] {
      ReceiveNothing(env, Opened(env));
    }
  }

  lemma {:induction false} SameEnds(env: Env, a: Outcome, b: Outcome, finished: bool)
    requires Same(a, b) && !a.rejected
    ensures Same(Outcome(ReceiveEnd(env, a.socket, finished), false),
                 Outcome(ReceiveEnd(env, b.socket, finished), false))
  {
  }

  lemma {:induction false} OpensThenRest(env: Env, pending: seq<byte>, after: seq<Call>)
    ensures var o := Accept(env, Gathered(pending), true); var rest := MakeInOrder(env, o.socket, after);
            MakeInOrder(env, Gathered(pending), [Accepts(true)] + after)
            == Outcome(rest.socket, o.rejected || rest.rejected)
  {
    assert ([Accepts(true)] + after)[1..] == after;
  }

  /** Calls that open in time: what they do, in terms of the input before and after the opening. */
  lemma {:induction false} OpeningSplits(env: Env, calls: seq<Call>, i: nat)
    requires OpensInTime(env, calls, i)
    ensures var pending := Input(calls[..i]).0; var (more, last) := Input(calls[i + 1..]);
            var o := ReceiveData(env, Opened(env), pending);
            var rest := MakeInOrder(env, o.socket, calls[i + 1..]);
            && Input(calls) == (pending + more, last)
            && MakeInOrder(env, Fresh(), calls) == Outcome(rest.socket, o.rejected || rest.rejected)
  {
    hide ReceiveData, MakeInOrder, Accept;
    var before, after := calls[..i], calls[i + 1..];
    var pending := Input(before).0;
    assert calls == before + ([Accepts(true)] + after);
    MakeSplits(env, Fresh(), before, [Accepts(true)] + after);
    InputSplits(before, [Accepts(true)] + after);
    assert ([Accepts(true)] + after)[1..] == after;
    assert [] + pending == pending && Gathered([]) == Fresh();
    PendingGathers(env, [], before);
    OpeningReplays(env, pending);
    OpensThenRest(env, pending, after);
  }

  /** Input, opening and the end, in any order that opens in time, do what opening first does. */
  lemma {:induction false} OpenedInTime(env: Env, calls: seq<Call>, i: nat)
    requires OpensInTime(env, calls, i) && !MakeInOrder(env, Fresh(), calls).rejected
    ensures var (bytes, last) := Input(calls);
            Same(MakeInOrder(env, Fresh(), calls), AtOnce(env, Opened(env), bytes, last))
  {
    hide ReceiveData, MakeInOrder, Settled, Input, Opened, ReceiveEnd;
    OpeningSplits(env, calls, i);
    var pending, open := Input(calls[..i]).0, Opened(env);
    var (more, last) := Input(calls[i + 1..]);
    OpeningReplays(env, pending);
    ReceiveSettles(env, open, pending);
    ReceiveSplit(env, open, pending, more);
    var o := ReceiveData(env, open, pending);
    OrderedIsAtOnce(env, o.socket, calls[i + 1..]);
    var one, two := ReceiveData(env, open, pending + more), ReceiveData(env, o.socket, more);
    if !two.rejected && last.Some? {
      SameEnds(env, one, two, last.value);
    }
  }

  /** It does not matter when the server opens the socket, before any input, after some of it
      or after all, as long as it does so before the end and the input may wait: what the
      socket does depends only on the bytes and the end. */
  lemma {:induction false} OpeningTimeIrrelevant(env: Env, one: seq<Tick>, i: nat, two: seq<Tick>, j: nat)
    requires Announced(Arrivals(one)) == Announced(Arrivals(two))
    requires forall k | 0 <= k < |one| :: one[k].Meanwhile? ==> one[k].call == Accepts(true)
    requires forall k | 0 <= k < |two| :: two[k].Meanwhile? ==> two[k].call == Accepts(true)
    requires OpensInTime(env, Order([], one), i) && OpensInTime(env, Order([], two), j)
    requires Undisturbed(env, Fresh(), one) && Undisturbed(env, Fresh(), two)
    ensures Same(Outcome(AdvanceAll(env, Start(Fresh()), one).socket, false),
                 Outcome(AdvanceAll(env, Start(Fresh()), two).socket, false))
  {
    AnnouncedIsInput(Arrivals(one));
    AnnouncedIsInput(Arrivals(two));
    RunsInOrder(env, Fresh(), one);
    RunsInOrder(env, Fresh(), two);
    hide AdvanceAll, Arrivals, AtOnce, Order, MakeInOrder, Input, OpensInTime, Undisturbed, Announced, CallsOf;
    OpenedInTime(env, Order([], one), i);
    OpenedInTime(env, Order([], two), j);
  }

  /** After an end it is too late: a socket that ends before it opens delivers nothing, and
      opening it then changes nothing. */
  lemma {:induction false} EndedBeforeOpening(env: Env, pending: seq<byte>, finished: bool)
    ensures var ended := ReceiveEnd(env, Gathered(pending), finished);
            && ended.core.ready == CLOSED && Deliveries(ended.core.log) == []
            && Accept(env, ended, true) == Outcome(ended, false)
  {
    EndReports(env, Gathered(pending), finished);
  }

  // ---------------------------------------------------------------- the attachment itself

  /** The closure's variables and the stream's callbacks. */
  class Attachment {
    const socket: WebSocketConnection.Connection
    var delivery: seq<Event>
    var failed: bool
    var destroyed: nat
    ghost var refused: bool

    ghost function View(): Chain
      reads this, socket
    {
      Chain(socket.Snapshot(), delivery, failed, destroyed, refused)
    }

    constructor (socket: WebSocketConnection.Connection)
      ensures this.socket == socket && View() == Start(socket.Snapshot())
    {
      this.socket := socket;
      delivery, failed, destroyed, refused := [], false, 0, false;
    }

    /** A `data`, `end` or abort callback. */
    method Deliver(e: Event)
      requires socket.Valid()
      modifies this
      ensures View() == Advance(socket.env, old(View()), Arrives(e))
    {
      if failed {
        return;
      }
      delivery := delivery + [e];
    }

    /** The chain reaches its next operation. */
    method RunNext()
      requires socket.Valid()
      modifies this, socket
      ensures socket.Valid() && View() == Advance(socket.env, old(View()), Runs)
    {
      if delivery == [] {
        return;
      }
      var e, rejected := delivery[0], false;
      delivery := delivery[1..];
      match e {
        case Data(bytes) => rejected := socket.ReceiveData(bytes);
        case End => socket.ReceiveEnd(true);
        case Abort => socket.ReceiveEnd(false);
      }
      if rejected {
        failed := true;
        destroyed := destroyed + 1;
      }
    }

    /** The server opens the socket while the stream is attached. */
    method Open(offered: bool) returns (rejected: bool)
      requires socket.Valid()
      modifies this`refused, socket
      ensures socket.Valid() && View() == Advance(socket.env, old(View()), Meanwhile(Accepts(offered)))
    {
      rejected := socket.Accept(offered);
      refused := refused || rejected;
    }
  }
}
