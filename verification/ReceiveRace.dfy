/** The race to complete a received chunk: the first event that concerns it decides, for good. */
module ReceiveRace {
  import opened Receives

  /** Chunks handed over, for known streams and unknown ones. */
  function Handed(events: seq<Event>): nat {
    if events == [] then 0 else
    var k := |events| - 1;
    Handed(events[..k]) + if events[k].Deliver? || events[k].Unmatched? then 1 else 0
  }

  /** What the native side was told about one chunk, in order. */
  function About(log: seq<Completion>, t: nat): seq<Completion> {
    if log == [] then [] else
    var k := |log| - 1;
    About(log[..k], t) + if log[k].chunk == t then [log[k]] else []
  }

  /** The events that can decide about chunk `t` of stream `id`: its own settlement or timer, the
      end of the stream, a stop, or a newer chunk that takes its timer's place. */
  predicate Concerns(e: Event, t: nat, id: Id) {
    match e
    case Deliver(other, _, _) => other == id
    case Unmatched(_, _) => false
    case Settle(chunk, _) => chunk == t
    case Fire(chunk) => chunk == t
    case End(other) => other == id
    case Stop => true
  }

  /** What the deciding event has the native side told: accepted only by the handler's own word. */
  function Verdict(e: Event, t: nat, id: Id, bytes: nat): seq<Completion> {
    match e
    case Settle(_, accepted) => [Completion(t, id, bytes, accepted)]
    case Fire(_) => [Completion(t, id, bytes, false)]
    case _ => []
  }

  // ---------------------------------------------------------------- one event

  ghost predicate Open(s: State, t: nat, id: Id, bytes: nat) {
    && t < |s.chunks| && s.chunks[t] == Chunk(id, bytes)
    && id in s.timers && s.timers[id] == t && About(s.log, t) == []
  }

  /** No timer is the chunk's any more. */
  ghost predicate Decided(s: State, t: nat, told: seq<Completion>) {
    t < |s.chunks| && (forall id | id in s.timers :: s.timers[id] != t) && About(s.log, t) == told
  }

  lemma {:induction false} AboutAppend(log: seq<Completion>, c: Completion, t: nat)
    ensures About(log + [c], t) == About(log, t) + if c.chunk == t then [c] else []
  {
    assert (log + [c])[..|log|] == log;
  }

  lemma {:induction false} AboutNone(log: seq<Completion>, t: nat)
    requires forall i | 0 <= i < |log| :: log[i].chunk != t
    ensures About(log, t) == []
  {
    if log != [] {
      AboutNone(log[..|log| - 1], t);
    }
  }

  /** An event adds at most one completion. */
  lemma {:induction false} AboutStep(s: State, e: Event, t: nat)
    ensures var before, after := s.log, Step(s, e).log;
            if |after| == |before| then after == before
            else |after| == |before| + 1
                 && About(after, t)
                    == About(before, t) + if after[|before|].chunk == t then [after[|before|]] else []
  {
    var before, after := s.log, Step(s, e).log;
    if |after| > |before| {
      assert after == before + [after[|before|]];
      AboutAppend(before, after[|before|], t);
    }
    hide About;
  }

  lemma {:induction false} OpenStays(s: State, e: Event, t: nat, id: Id, bytes: nat)
    requires Inv(s) && Open(s, t, id, bytes) && !Concerns(e, t, id)
    ensures Open(Step(s, e), t, id, bytes)
  {
    hide About, LogOk, BytesOk;
    AboutStep(s, e, t);
  }

  lemma {:induction false} DecidedStays(s: State, e: Event, t: nat, told: seq<Completion>)
    requires Inv(s) && Decided(s, t, told)
    ensures Decided(Step(s, e), t, told)
  {
    hide About, LogOk, BytesOk;
    AboutStep(s, e, t);
  }

  lemma {:induction false} Decides(s: State, e: Event, t: nat, id: Id, bytes: nat)
    requires Inv(s) && Open(s, t, id, bytes) && Concerns(e, t, id)
    ensures Decided(Step(s, e), t, Verdict(e, t, id, bytes))
  {
    hide About, LogOk, BytesOk;
    AboutStep(s, e, t);
  }

  // ---------------------------------------------------------------- whole runs

  lemma {:induction false} HandedIsCounted(events: seq<Event>)
    ensures |Run(events).chunks| == Handed(events)
  {
    if events != [] {
      HandedIsCounted(events[..|events| - 1]);
    }
  }

  /** One more event of a run. */
  lemma {:induction false} RunNext(events: seq<Event>, k: nat)
    requires k < |events|
    ensures Run(events[..k + 1]) == Step(Run(events[..k]), events[k]) && Inv(Run(events[..k]))
  {
    assert events[..k + 1][..k] == events[..k];
    RunKeeps(events[..k]);
  }

  lemma {:induction false} DecidedForGood(events: seq<Event>, i: nat, n: nat, t: nat, told: seq<Completion>)
    requires i <= n <= |events| && Decided(Run(events[..i]), t, told)
    ensures Decided(Run(events[..n]), t, told)
    decreases n
  {
    hide Run, Decided, Step, Inv;
    if i < n {
      DecidedForGood(events, i, n - 1, t, told);
      RunNext(events, n - 1);
      DecidedStays(Run(events[..n - 1]), events[n - 1], t, told);
    }
  }

  lemma {:induction false} OpenUntil(events: seq<Event>, d: nat, n: nat, t: nat, id: Id, bytes: nat)
    requires d < n <= |events| && Open(Run(events[..d + 1]), t, id, bytes)
    requires forall j | d < j < n :: !Concerns(events[j], t, id)
    ensures Open(Run(events[..n]), t, id, bytes)
    decreases n
  {
    hide Run, Open, Step, Inv, Concerns;
    if d + 1 < n {
      OpenUntil(events, d, n - 1, t, id, bytes);
      RunNext(events, n - 1);
      OpenStays(Run(events[..n - 1]), events[n - 1], t, id, bytes);
    }
  }

  /** A chunk whose handler did not throw at once is pending when it has been handed over. */
  lemma {:induction false} HandedOver(s: State, id: Id, bytes: nat)
    requires Inv(s)
    ensures Open(Step(s, Deliver(id, bytes, false)), |s.chunks|, id, bytes)
  {
    AboutNone(s.log, |s.chunks|);
    hide About, BytesOk;
  }

  /** And one that cannot be handled is refused. */
  lemma {:induction false} RefusedNow(s: State, e: Event)
    requires Inv(s) && (e.Unmatched? || (e.Deliver? && e.threw))
    ensures Decided(Step(s, e), |s.chunks|, [Completion(|s.chunks|, e.id, e.bytes, false)])
  {
    var t := |s.chunks|;
    AboutNone(s.log, t);
    AboutAppend(s.log, Completion(t, e.id, e.bytes, false), t);
    hide About, BytesOk;
  }

  // ---------------------------------------------------------------- the theorems

  /** Over every run: of the events after a chunk was handed over, the first that concerns it
      decides. Its settlement completes it with the handler's answer and its timer completes it as
      refused; an end, a stop or a newer chunk leaves it uncompleted; and nothing that comes later
      changes this. Until then it is pending and owns its stream's timer. */
  lemma {:induction false} FirstEventDecides(events: seq<Event>, d: nat, i: nat)
    requires d < i <= |events| && events[d].Deliver? && !events[d].threw
    requires var t, id := Handed(events[..d]), events[d].id;
             && (forall j | d < j < i :: !Concerns(events[j], t, id))
             && (i < |events| ==> Concerns(events[i], t, id))
    ensures var s, t, id, bytes := Run(events), Handed(events[..d]), events[d].id, events[d].bytes;
            && t < |s.chunks| && s.chunks[t] == Chunk(id, bytes)
            && About(s.log, t) == (if i == |events| then [] else Verdict(events[i], t, id, bytes))
            && (i == |events| <==> id in s.timers && s.timers[id] == t)
            && (i < |events| ==> t !in s.timers.Values)
  {
    hide Run, Step, Inv, About, Concerns, Verdict, Handed;
    var t, id, bytes := Handed(events[..d]), events[d].id, events[d].bytes;
    HandedIsCounted(events[..d]);
    RunNext(events, d);
    HandedOver(Run(events[..d]), id, bytes);
    assert events[..|events|] == events;
    OpenUntil(events, d, i, t, id, bytes);
    if i < |events| {
      RunNext(events, i);
      Decides(Run(events[..i]), events[i], t, id, bytes);
      DecidedForGood(events, i + 1, |events|, t, Verdict(events[i], t, id, bytes));
      ChunkStays(events, i, t);
    }
  }

  /** A chunk for an unknown stream, and one whose handler throws at once, is refused once. */
  lemma {:induction false} RefusedAtOnce(events: seq<Event>, d: nat)
    requires d < |events| && (events[d].Unmatched? || (events[d].Deliver? && events[d].threw))
    ensures var s, t := Run(events), Handed(events[..d]);
            && About(s.log, t) == [Completion(t, events[d].id, events[d].bytes, false)]
            && t !in s.timers.Values
  {
    hide Run, Step, Inv, About, Handed;
    var t := Handed(events[..d]);
    HandedIsCounted(events[..d]);
    RunNext(events, d);
    RefusedNow(Run(events[..d]), events[d]);
    assert events[..|events|] == events;
    DecidedForGood(events, d + 1, |events|, t, [Completion(t, events[d].id, events[d].bytes, false)]);
  }

  /** Nothing is completed that was not handed over. */
  lemma {:induction false} OnlyHandedAreCompleted(events: seq<Event>, i: nat)
    requires i < |Run(events).log|
    ensures Run(events).log[i].chunk < Handed(events)
  {
    HandedIsCounted(events);
    RunKeeps(events);
    assert LogOk(Run(events));
  }

  /** An end takes the stream's timer out of the map, and a stop every timer; no chunk handed over
      before is completed by anything that follows. */
  lemma {:induction false} NothingCompletesAfterItsEnd(events: seq<Event>, k: nat, t: nat)
    requires k < |events| && t < |Run(events[..k]).chunks|
    requires events[k] == Stop || events[k] == End(Run(events[..k]).chunks[t].id)
    ensures About(Run(events).log, t) == About(Run(events[..k]).log, t)
    ensures t !in Run(events).timers.Values
    ensures events[k] == Stop ==> Run(events[..k + 1]).timers == map[]
    ensures events[k].End? ==> events[k].id !in Run(events[..k + 1]).timers
  {
    hide Run, About;
    var s, e := Run(events[..k]), events[k];
    RunNext(events, k);
    AboutStep(s, e, t);
    assert Decided(Step(s, e), t, About(s.log, t)) by {
      TimersAreTheirOwn(s);
      hide Inv;
    }
    hide Step, Inv;
    assert events[..|events|] == events;
    DecidedForGood(events, k + 1, |events|, t, About(s.log, t));
  }

  lemma {:induction false} TimersAreTheirOwn(s: State)
    requires Inv(s)
    ensures forall id | id in s.timers :: s.timers[id] < |s.chunks| && s.chunks[s.timers[id]].id == id
  {
  }
}
