/** The chain of calls each process keeps per directory, in `trusted.js`. */
module PendingCalls {
  import opened Bytes

  datatype Status = Waiting | Running | Settled

  /** One call: its directory, and the call whose settlement it waits for. */
  datatype Call = Call(directory: string, after: Option<nat>, status: Status)

  /** The map holds each directory's latest call, until that call has settled. */
  ghost predicate MapOk(pending: map<string, nat>, calls: seq<Call>) {
    && (forall d | d in pending :: pending[d] < |calls| && calls[pending[d]].directory == d
          && forall i | pending[d] < i < |calls| :: calls[i].directory != d)
    && (forall i | 0 <= i < |calls| && calls[i].directory !in pending :: calls[i].status == Settled)
  }

  /** Call `j` waits for the latest earlier call of its directory; with none to wait for, all
      of them have settled. */
  ghost predicate WaitsFor(calls: seq<Call>, j: nat)
    requires j < |calls|
  {
    match calls[j].after
    case None => forall i | 0 <= i < j && calls[i].directory == calls[j].directory :: calls[i].status == Settled
    case Some(p) =>
      && p < j && calls[p].directory == calls[j].directory
      && (forall i | p < i < j :: calls[i].directory != calls[j].directory)
      && (calls[j].status == Waiting || calls[p].status == Settled)
  }

  ghost predicate Valid(pending: map<string, nat>, calls: seq<Call>) {
    MapOk(pending, calls) && forall j | 0 <= j < |calls| :: WaitsFor(calls, j)
  }

  /** Calls of one directory run one at a time and in the order they were made. */
  lemma {:induction false} OneAtATime(pending: map<string, nat>, calls: seq<Call>, i: nat, j: nat)
    requires Valid(pending, calls) && i < j < |calls| && calls[i].directory == calls[j].directory
    requires calls[j].status != Waiting
    ensures calls[i].status == Settled
  {
    assert WaitsFor(calls, j);
    match calls[j].after
    case None =>
    case Some(p) =>
      if i < p {
        OneAtATime(pending, calls, i, p);
      }
  }

  lemma {:induction false} Queued(pending: map<string, nat>, calls: seq<Call>, d: string)
    requires Valid(pending, calls)
    ensures var after := if d in pending then Some(pending[d]) else None;
            Valid(pending[d := |calls|], calls + [Call(d, after, Waiting)])
  {
    var after := if d in pending then Some(pending[d]) else None;
    var calls' := calls + [Call(d, after, Waiting)];
    forall j | 0 <= j < |calls'| ensures WaitsFor(calls', j) {
      if j < |calls| {
        assert WaitsFor(calls, j);
        assert calls'[j] == calls[j];
      }
    }
    hide WaitsFor;
    assert forall i | 0 <= i < |calls| :: calls'[i] == calls[i];
  }

  class Chains {
    var pending: map<string, nat>
    var calls: seq<Call>

    ghost predicate Invariant()
      reads this
    {
      Valid(pending, calls)
    }

    constructor ()
      ensures pending == map[] && calls == [] && Invariant()
    {
      pending := map[];
      calls := [];
    }

    /** `ensureTrustedDevelopmentCertificate`: queue behind the pending call and become it. */
    method Ensure(directory: string) returns (id: nat)
      requires Invariant()
      modifies this
      ensures Invariant() && id == old(|calls|) && pending == old(pending)[directory := id]
      ensures calls == old(calls) +
        [Call(directory, if directory in old(pending) then Some(old(pending[directory])) else None, Waiting)]
    {
      var after := if directory in pending then Some(pending[directory]) else None;
      id := |calls|;
      calls := calls + [Call(directory, after, Waiting)];
      pending := pending[directory := id];
      Queued(old(pending), old(calls), directory);
    }

    /** The call waited for has settled, either way, and the next one starts. */
    method Begin(id: nat)
      requires Invariant() && id < |calls| && calls[id].status == Waiting
      requires calls[id].after.Some? ==> calls[id].after.value < id && calls[calls[id].after.value].status == Settled
      modifies this
      ensures Invariant() && pending == old(pending)
      ensures calls == old(calls)[id := old(calls[id]).(status := Running)]
    {
      calls := calls[id := calls[id].(status := Running)];
      forall j | 0 <= j < |calls| ensures WaitsFor(calls, j) {
        assert WaitsFor(old(calls), j);
      }
    }

    /** A call resolves or rejects. */
    method Settle(id: nat)
      requires Invariant() && id < |calls| && calls[id].status == Running
      modifies this
      ensures Invariant() && pending == old(pending)
      ensures calls == old(calls)[id := old(calls[id]).(status := Settled)]
    {
      calls := calls[id := calls[id].(status := Settled)];
      forall j | 0 <= j < |calls| ensures WaitsFor(calls, j) {
        assert WaitsFor(old(calls), j);
      }
    }

    /** `cleanup`: forget the directory, unless a later call has taken its place. */
    method Cleanup(id: nat)
      requires Invariant() && id < |calls| && calls[id].status == Settled
      modifies this
      ensures Invariant() && calls == old(calls)
      ensures pending == if calls[id].directory in old(pending) && old(pending[calls[id].directory]) == id
                         then old(pending) - {calls[id].directory} else old(pending)
    {
      var directory := calls[id].directory;
      if directory in pending && pending[directory] == id {
        forall i | 0 <= i < |calls| && calls[i].directory == directory ensures calls[i].status == Settled {
          if i < id {
            OneAtATime(pending, calls, i, id);
          }
        }
        pending := pending - {directory};
      }
    }
  }
}
