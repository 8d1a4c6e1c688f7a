/** Received chunks: the settlement of the handler, the timeout, the end of the stream and the
    stop of the server race to complete each one. */
module Receives {
  type Id = nat

  datatype Chunk = Chunk(id: Id, bytes: nat)

  /** A call of the native `completeReceive`, and the chunk on whose behalf it was made. */
  datatype Completion = Completion(chunk: nat, id: Id, bytes: nat, accepted: bool)

  /** What has become of a chunk. `Displaced`: a newer chunk took its place in the timer map. */
  datatype Fate = Pending | Completed | Abandoned | Displaced

  /** `#receiveTimers`, and what the native side sees: chunks in order of delivery, each the
      owner of one timer, and the log of completions. `fates` is history the code does not keep. */
  datatype State = State(timers: map<Id, nat>, chunks: seq<Chunk>, fates: seq<Fate>, log: seq<Completion>)

  datatype Event =
    /** A chunk for a known stream; the handler may throw at once. */
    | Deliver(id: Id, bytes: nat, threw: bool)
    /** A chunk for a stream the server does not know. */
    | Unmatched(id: Id, bytes: nat)
    /** A handler's promise settles, however late. */
    | Settle(chunk: nat, accepted: bool)
    /** A timer runs out. */
    | Fire(chunk: nat)
    | End(id: Id)
    | Stop

  const INITIAL := State(map[], [], [], [])

  function Refated(fates: seq<Fate>, t: nat, f: Fate): (r: seq<Fate>)
    ensures |r| == |fates| && forall i | 0 <= i < |r| :: r[i] == if i == t then f else fates[i]
  {
    if t < |fates| then fates[t := f] else fates
  }

  /** `#finishReceive`, and the timer's own callback: only the timer in the map completes. */
  function Finish(s: State, t: nat, accepted: bool): State {
    if t >= |s.chunks| then s else
    var c := s.chunks[t];
    if c.id !in s.timers || s.timers[c.id] != t then s else
      s.(timers := s.timers - {c.id}, fates := Refated(s.fates, t, Completed),
         log := s.log + [Completion(t, c.id, c.bytes, accepted)])
  }

  /** The stream's timer, if any, leaves the map; its chunk will not be completed. */
  function Unarm(s: State, id: Id, f: Fate): State {
    if id !in s.timers then s else
      s.(timers := s.timers - {id}, fates := Refated(s.fates, s.timers[id], f))
  }

  /** A timer for a new chunk, armed before the handler is called. */
  function Arm(s: State, id: Id, bytes: nat): State {
    State(s.timers[id := |s.chunks|], s.chunks + [Chunk(id, bytes)], s.fates + [Pending], s.log)
  }

  function Reject(s: State, id: Id, bytes: nat): State {
    State(s.timers, s.chunks + [Chunk(id, bytes)], s.fates + [Completed],
          s.log + [Completion(|s.chunks|, id, bytes, false)])
  }

  function StopAll(s: State): State {
    s.(timers := map[], fates := seq(|s.fates|, i requires 0 <= i < |s.fates| =>
                                      if s.fates[i] == Pending then Abandoned else s.fates[i]))
  }

  function Step(s: State, e: Event): State {
    match e
    case Deliver(id, bytes, threw) =>
      var armed := Arm(Unarm(s, id, Displaced), id, bytes);
      if threw then Finish(armed, |s.chunks|, false) else armed
    case Unmatched(id, bytes) => Reject(s, id, bytes)
    case Settle(t, accepted) => Finish(s, t, accepted)
    case Fire(t) => Finish(s, t, false)
    case End(id) => Unarm(s, id, Abandoned)
    case Stop => StopAll(s)
  }

  function Run(events: seq<Event>): State {
    if events == [] then INITIAL else Step(Run(events[..|events| - 1]), events[|events| - 1])
  }

  // ---------------------------------------------------------------- counting

  function Count(log: seq<Completion>, t: nat): nat {
    if log == [] then 0 else Count(log[..|log| - 1], t) + if log[|log| - 1].chunk == t then 1 else 0
  }

  /** Bytes handed over on a stream. */
  function Delivered(chunks: seq<Chunk>, id: Id): nat {
    if chunks == [] then 0 else
    var k := |chunks| - 1;
    Delivered(chunks[..k], id) + if chunks[k].id == id then chunks[k].bytes else 0
  }

  /** Bytes the native side was told are complete. */
  function CompletedBytes(log: seq<Completion>, id: Id): nat {
    if log == [] then 0 else
    var k := |log| - 1;
    CompletedBytes(log[..k], id) + if log[k].id == id then log[k].bytes else 0
  }

  /** Bytes of the chunks with the given fate. */
  function BytesOf(chunks: seq<Chunk>, fates: seq<Fate>, id: Id, f: Fate): nat
    requires |chunks| == |fates|
  {
    if chunks == [] then 0 else
    var k := |chunks| - 1;
    BytesOf(chunks[..k], fates[..k], id, f) + if chunks[k].id == id && fates[k] == f then chunks[k].bytes else 0
  }

  // ---------------------------------------------------------------- the invariant

  ghost predicate TimersOk(s: State)
    requires |s.fates| == |s.chunks|
  {
    && (forall id | id in s.timers ::
          s.timers[id] < |s.chunks| && s.chunks[s.timers[id]].id == id && s.fates[s.timers[id]] == Pending)
    && (forall t | 0 <= t < |s.chunks| && s.fates[t] == Pending ::
          s.chunks[t].id in s.timers && s.timers[s.chunks[t].id] == t)
  }

  ghost predicate LogOk(s: State)
    requires |s.fates| == |s.chunks|
  {
    && (forall i | 0 <= i < |s.log| ::
          s.log[i].chunk < |s.chunks| && s.chunks[s.log[i].chunk] == Chunk(s.log[i].id, s.log[i].bytes))
    && (forall t | 0 <= t < |s.chunks| :: Count(s.log, t) == if s.fates[t] == Completed then 1 else 0)
  }

  ghost predicate BytesOk(s: State)
    requires |s.fates| == |s.chunks|
  {
    forall id: Id :: CompletedBytes(s.log, id) == BytesOf(s.chunks, s.fates, id, Completed)
  }

  ghost predicate Inv(s: State) {
    |s.fates| == |s.chunks| && TimersOk(s) && LogOk(s) && BytesOk(s)
  }

  lemma {:induction false} CountAbsent(log: seq<Completion>, t: nat)
    requires forall i | 0 <= i < |log| :: log[i].chunk != t
    ensures Count(log, t) == 0
  {
    if log != [] {
      CountAbsent(log[..|log| - 1], t);
    }
  }

  /** A new fate moves a chunk's bytes from one sum to another. */
  lemma {:induction false} FateMoves(chunks: seq<Chunk>, fates: seq<Fate>, t: nat, g: Fate, id: Id, f: Fate)
    requires |chunks| == |fates| && t < |chunks|
    ensures BytesOf(chunks, Refated(fates, t, g), id, f)
            == BytesOf(chunks, fates, id, f)
               - (if chunks[t].id == id && fates[t] == f then chunks[t].bytes else 0)
               + (if chunks[t].id == id && g == f then chunks[t].bytes else 0)
  {
    var k := |chunks| - 1;
    var after := Refated(fates, t, g);
    if t == k {
      assert after[..k] == fates[..k];
    } else {
      FateMoves(chunks[..k], fates[..k], t, g, id, f);
      assert after[..k] == Refated(fates[..k], t, g);
    }
  }

  lemma {:induction false} BytesAppend(chunks: seq<Chunk>, fates: seq<Fate>, c: Chunk, g: Fate, id: Id, f: Fate)
    requires |chunks| == |fates|
    ensures BytesOf(chunks + [c], fates + [g], id, f)
            == BytesOf(chunks, fates, id, f) + (if c.id == id && g == f then c.bytes else 0)
  {
    assert (chunks + [c])[..|chunks|] == chunks && (fates + [g])[..|fates|] == fates;
  }

  lemma {:induction false} LogAppend(log: seq<Completion>, c: Completion)
    ensures forall t: nat :: Count(log + [c], t) == Count(log, t) + if c.chunk == t then 1 else 0
    ensures forall id: Id ::
              CompletedBytes(log + [c], id) == CompletedBytes(log, id) + if c.id == id then c.bytes else 0
  {
    assert (log + [c])[..|log|] == log;
  }

  lemma {:induction false} FinishKeeps(s: State, t: nat, accepted: bool)
    requires Inv(s)
    ensures Inv(Finish(s, t, accepted))
  {
    var s' := Finish(s, t, accepted);
    if s' != s {
      var c := s.chunks[t];
      LogAppend(s.log, Completion(t, c.id, c.bytes, accepted));
      forall id: Id ensures CompletedBytes(s'.log, id) == BytesOf(s'.chunks, s'.fates, id, Completed) {
        FateMoves(s.chunks, s.fates, t, Completed, id, Completed);
      }
    }
  }

  lemma {:induction false} UnarmKeeps(s: State, id: Id, f: Fate)
    requires Inv(s) && f != Pending && f != Completed
    ensures Inv(Unarm(s, id, f)) && id !in Unarm(s, id, f).timers
  {
    if id in s.timers {
      var t, s' := s.timers[id], Unarm(s, id, f);
      forall k: Id ensures CompletedBytes(s'.log, k) == BytesOf(s'.chunks, s'.fates, k, Completed) {
        FateMoves(s.chunks, s.fates, t, f, k, Completed);
      }
    }
  }

  lemma {:induction false} ArmKeeps(s: State, id: Id, bytes: nat)
    requires Inv(s) && id !in s.timers
    ensures Inv(Arm(s, id, bytes))
  {
    var s' := Arm(s, id, bytes);
    CountAbsent(s.log, |s.chunks|);
    forall k: Id ensures CompletedBytes(s'.log, k) == BytesOf(s'.chunks, s'.fates, k, Completed) {
      BytesAppend(s.chunks, s.fates, Chunk(id, bytes), Pending, k, Completed);
    }
  }

  lemma {:induction false} RejectKeeps(s: State, id: Id, bytes: nat)
    requires Inv(s)
    ensures Inv(Reject(s, id, bytes))
  {
    var s' := Reject(s, id, bytes);
    CountAbsent(s.log, |s.chunks|);
    LogAppend(s.log, Completion(|s.chunks|, id, bytes, false));
    forall k: Id ensures CompletedBytes(s'.log, k) == BytesOf(s'.chunks, s'.fates, k, Completed) {
      BytesAppend(s.chunks, s.fates, Chunk(id, bytes), Completed, k, Completed);
    }
  }

  lemma {:induction false} SameFateBytes(chunks: seq<Chunk>, a: seq<Fate>, b: seq<Fate>, id: Id, f: Fate)
    requires |chunks| == |a| == |b| && forall i | 0 <= i < |a| :: a[i] == f <==> b[i] == f
    ensures BytesOf(chunks, a, id, f) == BytesOf(chunks, b, id, f)
  {
    if chunks != [] {
      var k := |chunks| - 1;
      SameFateBytes(chunks[..k], a[..k], b[..k], id, f);
    }
  }

  lemma {:induction false} StopKeeps(s: State)
    requires Inv(s)
    ensures Inv(StopAll(s))
  {
    var s' := StopAll(s);
    forall k: Id ensures CompletedBytes(s'.log, k) == BytesOf(s'.chunks, s'.fates, k, Completed) {
      SameFateBytes(s.chunks, s.fates, s'.fates, k, Completed);
    }
  }

  lemma {:induction false} StepKeeps(s: State, e: Event)
    requires Inv(s)
    ensures Inv(Step(s, e))
  {
    hide Inv, Finish, Unarm, Arm, Reject, StopAll;
    match e
    case Deliver(id, bytes, threw) =>
      UnarmKeeps(s, id, Displaced);
      ArmKeeps(Unarm(s, id, Displaced), id, bytes);
      FinishKeeps(Arm(Unarm(s, id, Displaced), id, bytes), |s.chunks|, false);
    case Unmatched(id, bytes) => RejectKeeps(s, id, bytes);
    case Settle(t, accepted) => FinishKeeps(s, t, accepted);
    case Fire(t) => FinishKeeps(s, t, false);
    case End(id) => UnarmKeeps(s, id, Abandoned);
    case Stop => StopKeeps(s);
  }

  lemma {:induction false} RunKeeps(events: seq<Event>)
    ensures Inv(Run(events))
  {
    if events != [] {
      RunKeeps(events[..|events| - 1]);
      StepKeeps(Run(events[..|events| - 1]), events[|events| - 1]);
    }
  }

  // ---------------------------------------------------------------- the theorems

  /** Each chunk is completed at most once, with its own stream and size, whatever the order of
      settlements, timeouts, ends and stops. */
  lemma {:induction false} AtMostOnce(events: seq<Event>, t: nat)
    ensures var s := Run(events);
            && Count(s.log, t) <= 1
            && forall i | 0 <= i < |s.log| && s.log[i].chunk == t ::
                 t < |s.chunks| && s.chunks[t] == Chunk(s.log[i].id, s.log[i].bytes)
  {
    RunKeeps(events);
    var s := Run(events);
    if t >= |s.chunks| {
      CountAbsent(s.log, t);
    }
  }

  /** A late settlement or timer of an old chunk never completes a newer one, nor disturbs it:
      it completes its own chunk if that is the pending one, and otherwise does nothing. */
  lemma {:induction false} LateEventsTouchOnlyTheirChunk(events: seq<Event>, t: nat, accepted: bool)
    ensures var s := Run(events); var s' := Step(s, Settle(t, accepted));
            && Step(s, Fire(t)) == Step(s, Settle(t, false))
            && (if t < |s.chunks| && s.chunks[t].id in s.timers && s.timers[s.chunks[t].id] == t then
                  && s'.log == s.log + [Completion(t, s.chunks[t].id, s.chunks[t].bytes, accepted)]
                  && Count(s'.log, t) == 1 && s'.timers == s.timers - {s.chunks[t].id}
                else s' == s)
  {
    RunKeeps(events);
    StepKeeps(Run(events), Settle(t, accepted));
  }

  /** The native contract: no chunk for a stream one of whose chunks is not yet completed. */
  ghost predicate OnePending(s: State, e: Event) {
    e.Deliver? ==> forall t | 0 <= t < |s.chunks| && s.chunks[t].id == e.id :: Count(s.log, t) > 0
  }

  ghost predicate Contract(events: seq<Event>) {
    forall i | 0 <= i < |events| :: OnePending(Run(events[..i]), events[i])
  }

  /** A stream ended, or the server stopped, after the chunk was handed over. */
  ghost predicate EndedAfter(events: seq<Event>, t: nat) {
    exists i | 0 <= i < |events| :: t < |Run(events[..i]).chunks|
      && (events[i] == Stop || events[i] == End(Run(events[..i]).chunks[t].id))
  }

  ghost predicate Accounted(s: State, events: seq<Event>) {
    forall t | 0 <= t < |s.chunks| :: |s.fates| == |s.chunks| && s.fates[t] != Displaced
      && (s.fates[t] == Abandoned ==> EndedAfter(events, t))
  }

  lemma {:induction false} ChunksStay(s: State, e: Event)
    ensures s.chunks <= Step(s, e).chunks
  {
  }

  /** Only a newer chunk displaces, and only an end or a stop abandons. */
  lemma {:induction false} FateSteps(s: State, e: Event, t: nat)
    requires Inv(s) && OnePending(s, e) && t < |s.chunks| && s.fates[t] != Displaced
    ensures var s' := Step(s, e);
            && |s'.fates| > t && s'.fates[t] != Displaced
            && (s'.fates[t] == Abandoned ==> s.fates[t] == Abandoned || e == Stop || e == End(s.chunks[t].id))
  {
    hide BytesOk;
  }

  lemma {:induction false} NewFate(s: State, e: Event, t: nat)
    requires Inv(s) && |s.chunks| <= t < |Step(s, e).chunks|
    ensures |Step(s, e).fates| > t && Step(s, e).fates[t] in {Pending, Completed}
  {
    hide BytesOk, LogOk;
  }

  lemma {:induction false} EndedStays(events: seq<Event>, t: nat)
    requires events != [] && EndedAfter(events[..|events| - 1], t)
    ensures EndedAfter(events, t)
  {
    var before := events[..|events| - 1];
    var i :| 0 <= i < |before| && t < |Run(before[..i]).chunks|
      && (before[i] == Stop || before[i] == End(Run(before[..i]).chunks[t].id));
    assert before[..i] == events[..i];
  }

  lemma {:induction false} AccountedAlways(events: seq<Event>)
    requires Contract(events)
    ensures Accounted(Run(events), events)
  {
    if events != [] {
      var k := |events| - 1;
      var before, s, e := events[..k], Run(events[..k]), events[k];
      assert forall i | 0 <= i < k :: before[..i] == events[..i];
      AccountedAlways(before);
      RunKeeps(before);
      RunKeeps(events);
      assert OnePending(s, e);
      ChunksStay(s, e);
      assert Run(events) == Step(s, e);
      hide Run, Step, Contract, OnePending, TimersOk, LogOk, BytesOk;
      forall t | 0 <= t < |Run(events).chunks|
        ensures Run(events).fates[t] != Displaced
        ensures Run(events).fates[t] == Abandoned ==> EndedAfter(events, t)
      {
        if t >= |s.chunks| {
          NewFate(s, e, t);
        } else {
          FateSteps(s, e, t);
          if s.fates[t] == Abandoned {
            EndedStays(events, t);
          }
        }
      }
    }
  }

  /** Under the contract every chunk is completed exactly once, or is still pending, or its
      stream ended or the server stopped after it was handed over. */
  lemma {:induction false} ExactlyOnceUnlessEnded(events: seq<Event>, t: nat)
    requires Contract(events) && t < |Run(events).chunks|
    ensures var s := Run(events);
            || Count(s.log, t) == 1
            || (s.chunks[t].id in s.timers && s.timers[s.chunks[t].id] == t)
            || EndedAfter(events, t)
  {
    AccountedAlways(events);
    RunKeeps(events);
  }

  lemma {:induction false} FatesPartition(chunks: seq<Chunk>, fates: seq<Fate>, id: Id)
    requires |chunks| == |fates|
    ensures Delivered(chunks, id) == BytesOf(chunks, fates, id, Completed) + BytesOf(chunks, fates, id, Pending)
                                     + BytesOf(chunks, fates, id, Abandoned) + BytesOf(chunks, fates, id, Displaced)
  {
    if chunks != [] {
      var k := |chunks| - 1;
      FatesPartition(chunks[..k], fates[..k], id);
    }
  }

  lemma {:induction false} NoneOf(chunks: seq<Chunk>, fates: seq<Fate>, id: Id, f: Fate)
    requires |chunks| == |fates| && forall t | 0 <= t < |fates| && chunks[t].id == id :: fates[t] != f
    ensures BytesOf(chunks, fates, id, f) == 0
  {
    if chunks != [] {
      var k := |chunks| - 1;
      NoneOf(chunks[..k], fates[..k], id, f);
    }
  }

  /** What the one pending chunk of a stream weighs. */
  function PendingBytes(s: State, id: Id): nat {
    if id in s.timers && s.timers[id] < |s.chunks| then s.chunks[s.timers[id]].bytes else 0
  }

  lemma {:induction false} OnePendingChunk(s: State, id: Id)
    requires Inv(s)
    ensures BytesOf(s.chunks, s.fates, id, Pending) == PendingBytes(s, id)
  {
    if id in s.timers {
      var t := s.timers[id];
      var rest := Refated(s.fates, t, Abandoned);
      FateMoves(s.chunks, s.fates, t, Abandoned, id, Pending);
      NoneOf(s.chunks, rest, id, Pending);
    } else {
      NoneOf(s.chunks, s.fates, id, Pending);
    }
  }

  /** Conservation, stream by stream: bytes delivered are bytes completed, plus the pending
      chunk, plus what was abandoned; and nothing is abandoned while the stream is not ended
      and the server not stopped. */
  lemma {:induction false} BytesAreConserved(events: seq<Event>, id: Id)
    requires Contract(events)
    ensures var s := Run(events);
            && |s.fates| == |s.chunks|
            && Delivered(s.chunks, id)
               == CompletedBytes(s.log, id) + PendingBytes(s, id) + BytesOf(s.chunks, s.fates, id, Abandoned)
            && (Stop !in events && End(id) !in events ==> BytesOf(s.chunks, s.fates, id, Abandoned) == 0)
  {
    RunKeeps(events);
    AccountedAlways(events);
    var s := Run(events);
    FatesPartition(s.chunks, s.fates, id);
    OnePendingChunk(s, id);
    NoneOf(s.chunks, s.fates, id, Displaced);
    if Stop !in events && End(id) !in events {
      forall t | 0 <= t < |s.chunks| && s.chunks[t].id == id ensures s.fates[t] != Abandoned {
        if EndedAfter(events, t) {
          var i :| 0 <= i < |events| && t < |Run(events[..i]).chunks|
            && (events[i] == Stop || events[i] == End(Run(events[..i]).chunks[t].id));
          ChunkStays(events, i, t);
        }
      }
      NoneOf(s.chunks, s.fates, id, Abandoned);
    }
  }

  lemma {:induction false} ChunkStays(events: seq<Event>, i: nat, t: nat)
    requires i <= |events| && t < |Run(events[..i]).chunks|
    ensures t < |Run(events).chunks| && Run(events).chunks[t] == Run(events[..i]).chunks[t]
  {
    if i < |events| {
      var k := |events| - 1;
      assert events[..k][..i] == events[..i];
      ChunkStays(events[..k], i, t);
      ChunksStay(Run(events[..k]), events[k]);
    } else {
      assert events[..i] == events;
    }
  }

  // ---------------------------------------------------------------- the server's methods

  class Receiver {
    var timers: map<Id, nat>
    var chunks: seq<Chunk>
    var log: seq<Completion>
    ghost var fates: seq<Fate>

    ghost function Contents(): State
      reads this
    {
      State(timers, chunks, fates, log)
    }

    constructor ()
      ensures Contents() == INITIAL
    {
      timers, chunks, log, fates := map[], [], [], [];
    }

    /** `#deliverReceive`: arm a timer, then call the handler. */
    method DeliverReceive(id: Id, bytes: nat, threw: bool) returns (timer: nat)
      requires |fates| == |chunks|
      modifies this
      ensures timer == old(|chunks|) && Contents() == Step(old(Contents()), Deliver(id, bytes, threw))
    {
      timer := |chunks|;
      fates := (if id in timers then Refated(fates, timers[id], Displaced) else fates) + [Pending];
      chunks := chunks + [Chunk(id, bytes)];
      timers := timers[id := timer];
      if threw {
        FinishReceive(timer, false);
      }
    }

    /** `#finishReceive`, and the body of the timer callback. */
    method FinishReceive(timer: nat, accepted: bool)
      requires timer < |chunks|
      modifies this
      ensures Contents() == Finish(old(Contents()), timer, accepted)
    {
      var chunk := chunks[timer];
      if chunk.id !in timers || timers[chunk.id] != timer {
        return;
      }
      timers := timers - {chunk.id};
      fates := Refated(fates, timer, Completed);
      log := log + [Completion(timer, chunk.id, chunk.bytes, accepted)];
    }

    /** `#clearReceiveTimer`, when a request or a stream ends. */
    method ClearReceiveTimer(id: Id)
      modifies this
      ensures Contents() == Step(old(Contents()), End(id))
      ensures timers == old(timers) - {id} && log == old(log) && chunks == old(chunks)
    {
      if id in timers {
        fates := Refated(fates, timers[id], Abandoned);
      }
      timers := timers - {id};
    }

    /** Data for a stream the server does not know is refused at once. */
    method RejectData(id: Id, bytes: nat)
      modifies this
      ensures Contents() == Step(old(Contents()), Unmatched(id, bytes))
    {
      log := log + [Completion(|chunks|, id, bytes, false)];
      chunks, fates := chunks + [Chunk(id, bytes)], fates + [Completed];
    }

    method HandleStop()
      modifies this
      ensures Contents() == Step(old(Contents()), Event.Stop)
      ensures timers == map[] && log == old(log) && chunks == old(chunks)
    {
      fates := StopAll(Contents()).fates;
      timers := map[];
    }
  }
}
