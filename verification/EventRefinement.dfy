/** The server's objects and maps refine a plain table of what belongs to what. */
module EventRefinement {
  import opened IndexTree
  import opened EventIndex

  /** The open connections, the connection of each request stream and of each session, the
      session of each WebTransport stream, and every session there has been. No objects, no
      indexes, nothing stale. */
  datatype Table = Table(
    connections: set<Id>,
    streams: map<Id, Id>,
    sessions: map<Id, Id>,
    webTransport: map<Id, Id>,
    webSockets: map<Id, Id>,
    created: seq<Id>)

  const EMPTY := Table({}, map[], map[], map[], map[], [])

  function Without(m: map<Id, Id>, owner: Id): map<Id, Id> {
    map k | k in m && m[k] != owner :: m[k]
  }

  /** The streams of sessions that do not belong to the connection. */
  function WithoutEnded(webTransport: map<Id, Id>, sessions: map<Id, Id>, connection: Id): map<Id, Id> {
    map k | k in webTransport && !(webTransport[k] in sessions && sessions[webTransport[k]] == connection) ::
      webTransport[k]
  }

  /** A session goes, and its streams with it. */
  function Drop(t: Table, session: Id): Table {
    t.(sessions := t.sessions - {session}, webTransport := Without(t.webTransport, session))
  }

  /** What each event means for who belongs to whom. */
  function Meaning(t: Table, e: Event): Table {
    match e
    case ConnectionOpened(id) => t.(connections := t.connections + {id})
    case ConnectionEnded(id) =>
      if id !in t.connections then t else
        t.(connections := t.connections - {id}, streams := Without(t.streams, id), sessions := Without(t.sessions, id),
           webTransport := WithoutEnded(t.webTransport, t.sessions, id))
    case Requested(id, connection, Ordinary) =>
      if connection in t.connections && id !in t.webSockets then t.(streams := t.streams[id := connection]) else t
    case Requested(id, connection, WebSocket(true)) =>
      if connection in t.connections && id !in t.webSockets then t.(webSockets := t.webSockets[id := connection]) else t
    case Requested(_, _, _) => t
    case RequestEnded(id) =>
      if id in t.webSockets then t
      else if id in t.sessions then Drop(t, id)
      else t.(streams := t.streams - {id})
    case SessionOpened(id, connection, handled) =>
      if handled && connection in t.connections && (forall k | k in t.sessions :: t.sessions[k] != connection)
      then t.(sessions := t.sessions[id := connection], created := t.created + [id]) else t
    case StreamOpened(id, session) =>
      if session in t.sessions then t.(webTransport := t.webTransport[id := session]) else t
    case StreamEnded(id) => t.(webTransport := t.webTransport - {id})
    case SessionDropped(r) => if r < |t.created| then Drop(t, t.created[r]) else t
    case WebSocketDropped(id) => t.(webSockets := t.webSockets - {id})
    case Stopped => EMPTY.(created := t.created)
  }

  // ---------------------------------------------------------------- the abstraction

  function Named(ids: seq<Id>, n: nat): Id {
    if n < |ids| then ids[n] else 0
  }

  /** Each child under the identifier of its owner. */
  function Names(index: map<Id, Child>, ids: seq<Id>): map<Id, Id> {
    map k | k in index :: Named(ids, index[k].owner)
  }

  function SessionIds(objects: seq<Child>): (ids: seq<Id>)
    ensures |ids| == |objects| && forall r | 0 <= r < |ids| :: ids[r] == objects[r].id
  {
    seq(|objects|, r requires 0 <= r < |objects| => objects[r].id)
  }

  /** The table the server's maps stand for. */
  function Abstract(s: State): Table {
    Table(s.connections.Keys, Names(s.streams, s.connectionIds), Names(s.sessions, s.connectionIds),
          Names(s.webTransportStreams, SessionIds(s.sessionObjects)), s.webSockets, SessionIds(s.sessionObjects))
  }

  lemma {:induction false} NamesWithout(index: map<Id, Child>, ids: seq<Id>, removed: set<Id>, owner: Id)
    requires forall k | k in index :: k in removed <==> Named(ids, index[k].owner) == owner
    ensures Names(index - removed, ids) == Without(Names(index, ids), owner)
  {
  }

  lemma {:induction false} NamesKeep(index: map<Id, Child>, ids: seq<Id>, more: seq<Id>)
    requires forall k | k in index :: index[k].owner < |ids|
    ensures Names(index, ids + more) == Names(index, ids)
  {
  }

  lemma {:induction false} NamesPut(index: map<Id, Child>, ids: seq<Id>, c: Child)
    ensures Names(Put(index, c), ids) == Names(index, ids)[c.id := Named(ids, c.owner)]
  {
  }

  lemma {:induction false} NamesMinus(index: map<Id, Child>, ids: seq<Id>, k: Id)
    ensures Names(index - {k}, ids) == Names(index, ids) - {k}
  {
  }

  // ---------------------------------------------------------------- live objects and their names

  lemma {:induction false} ConnectionNamed(s: State, c: nat)
    requires Inv(s) && c in LiveConnections(s)
    ensures c < |s.connectionIds| && Named(s.connectionIds, c) in s.connections
    ensures s.connections[Named(s.connectionIds, c)] == c
  {
  }

  /** Entries of one connection are the entries under its identifier. */
  lemma {:induction false} OwnersNamed(s: State, id: Id)
    requires Inv(s) && id in s.connections
    ensures forall k | k in s.streams ::
              Named(s.connectionIds, s.streams[k].owner) == id <==> s.streams[k].owner == s.connections[id]
    ensures forall k | k in s.sessions ::
              Named(s.connectionIds, s.sessions[k].owner) == id <==> s.sessions[k].owner == s.connections[id]
  {
    forall k | k in s.streams
      ensures Named(s.connectionIds, s.streams[k].owner) == id <==> s.streams[k].owner == s.connections[id]
    {
      ConnectionNamed(s, s.streams[k].owner);
    }
    forall k | k in s.sessions
      ensures Named(s.connectionIds, s.sessions[k].owner) == id <==> s.sessions[k].owner == s.connections[id]
    {
      ConnectionNamed(s, s.sessions[k].owner);
    }
  }

  lemma {:induction false} StreamsOwned(s: State)
    requires Inv(s)
    ensures forall k | k in s.streams :: s.streams[k].owner < |s.connectionIds|
    ensures forall k | k in s.sessions :: s.sessions[k].owner < |s.connectionIds|
    ensures forall k | k in s.webTransportStreams :: s.webTransportStreams[k].owner < |s.sessionObjects|
  {
  }

  /** A session object's number and its identifier say the same. */
  lemma {:induction false} SessionNamed(s: State, r: nat, k: Id)
    requires Inv(s) && r < |s.sessionObjects| && k in s.webTransportStreams
    ensures var ids := SessionIds(s.sessionObjects);
            var o := s.webTransportStreams[k].owner;
            Named(ids, o) == s.sessionObjects[r].id <==> o == r
  {
    var o := s.webTransportStreams[k].owner;
    assert o < |s.sessionObjects|;
    if o < r {
      assert s.sessionObjects[o].id != s.sessionObjects[r].id;
    } else if r < o {
      assert s.sessionObjects[r].id != s.sessionObjects[o].id;
    }
  }

  // ---------------------------------------------------------------- event by event

  lemma {:induction false} SessionDropRefines(s: State, r: nat)
    requires Inv(s) && r < |s.sessionObjects|
    ensures Abstract(DropSession(s, r)) == Drop(Abstract(s), s.sessionObjects[r].id)
  {
    var id, ids, gone := s.sessionObjects[r].id, SessionIds(s.sessionObjects), ChildIds(s.webTransportOf, {r});
    forall k | k in s.webTransportStreams ensures k in gone <==> Named(ids, s.webTransportStreams[k].owner) == id {
      SessionNamed(s, r, k);
      WebTransportOf(s, r, k);
    }
    hide Inv, ChildIds, Names, Named;
    NamesWithout(s.webTransportStreams, ids, gone, id);
    NamesMinus(s.sessions, s.connectionIds, id);
  }

  lemma {:induction false} WebTransportOf(s: State, r: nat, k: Id)
    requires Inv(s) && r < |s.sessionObjects| && k in s.webTransportStreams
    ensures k in ChildIds(s.webTransportOf, {r}) <==> s.webTransportStreams[k].owner == r
  {
    OwnersTakeTheirOwn(Objects(s.sessions), s.webTransportOf, s.webTransportStreams, s.announced, {r});
    hide ChildIds;
  }

  lemma {:induction false} ConnectionEndRefines(s: State, id: Id)
    requires Inv(s)
    ensures Abstract(EndConnection(s, id)) == Meaning(Abstract(s), ConnectionEnded(id))
  {
    hide Inv, ChildIds, Objects, ConnectionOf, Names;
    if id in s.connections {
      var c := s.connections[id];
      EndedAreTheirOwn(s, id);
      OwnersNamed(s, id);
      NamesWithout(s.streams, s.connectionIds, ChildIds(s.streamsOf, {c}), id);
      NamesWithout(s.sessions, s.connectionIds, ChildIds(s.sessionsOf, {c}), id);
      WebTransportEndRefines(s, id);
    }
  }

  lemma {:induction false} NamesEnded(index: map<Id, Child>, ids: seq<Id>, sessions: map<Id, Id>, gone: set<Id>, id: Id)
    requires forall k | k in index ::
               var name := Named(ids, index[k].owner); k in gone <==> name in sessions && sessions[name] == id
    ensures Names(index - gone, ids) == WithoutEnded(Names(index, ids), sessions, id)
  {
  }

  /** The WebTransport streams of an ended connection, in the table. */
  lemma {:induction false} WebTransportEndRefines(s: State, id: Id)
    requires Inv(s) && id in s.connections
    ensures var t, gone := Abstract(s), ChildIds(s.webTransportOf, Objects(At(s.sessionsOf, s.connections[id])));
            Names(s.webTransportStreams - gone, SessionIds(s.sessionObjects))
            == WithoutEnded(t.webTransport, t.sessions, id)
  {
    hide Inv, ChildIds, Objects, At, Named, SessionIds, WithoutEnded;
    var t, ids := Abstract(s), SessionIds(s.sessionObjects);
    var gone := ChildIds(s.webTransportOf, Objects(At(s.sessionsOf, s.connections[id])));
    forall k | k in s.webTransportStreams
      ensures var name := Named(ids, s.webTransportStreams[k].owner);
              k in gone <==> name in t.sessions && t.sessions[name] == id
    {
      StreamEnds(s, id, k);
    }
    NamesEnded(s.webTransportStreams, ids, t.sessions, gone, id);
  }

  lemma {:induction false} StreamEnds(s: State, id: Id, k: Id)
    requires Inv(s) && id in s.connections && k in s.webTransportStreams
    ensures var t := Abstract(s);
            k in ChildIds(s.webTransportOf, Objects(At(s.sessionsOf, s.connections[id])))
            <==> t.webTransport[k] in t.sessions && t.sessions[t.webTransport[k]] == id
  {
    EndedAreTheirOwn(s, id);
    SessionOfStream(s, k);
    ConnectionNamed(s, s.sessionObjects[s.webTransportStreams[k].owner].owner);
    ConnectionNamed(s, s.connections[id]);
    hide ChildIds, Objects, At;
  }

  lemma {:induction false} SessionOfStream(s: State, k: Id)
    requires Inv(s) && k in s.webTransportStreams
    ensures var r := s.webTransportStreams[k].owner;
            && r < |s.sessionObjects| && s.sessionObjects[r].id in s.sessions
            && s.sessions[s.sessionObjects[r].id] == s.sessionObjects[r]
            && s.sessionObjects[r].owner in LiveConnections(s)
  {
    SessionsAreObjects(s);
    var r := s.webTransportStreams[k].owner;
    assert r in Objects(s.sessions);
    var j :| j in s.sessions && s.sessions[j].number == r;
  }

  lemma {:induction false} ConnectionOpenRefines(s: State, id: Id)
    requires Inv(s)
    ensures Abstract(OpenConnection(s, id)) == Meaning(Abstract(s), ConnectionOpened(id))
  {
    hide Inv, Names, Named, SessionIds;
    if id !in s.connections {
      OwnersKeepNames(s, id);
    } else {
      assert s.connections.Keys + {id} == s.connections.Keys;
    }
  }

  lemma {:induction false} OwnersKeepNames(s: State, id: Id)
    requires Inv(s)
    ensures Names(s.streams, s.connectionIds + [id]) == Names(s.streams, s.connectionIds)
    ensures Names(s.sessions, s.connectionIds + [id]) == Names(s.sessions, s.connectionIds)
  {
    hide Inv, Names;
    StreamsOwned(s);
    NamesKeep(s.streams, s.connectionIds, [id]);
    NamesKeep(s.sessions, s.connectionIds, [id]);
  }

  lemma {:induction false} RequestRefines(s: State, id: Id, connectionId: Id, kind: Kind)
    requires Inv(s) && id !in s.announced
    ensures Abstract(OpenRequest(s, id, connectionId, kind)) == Meaning(Abstract(s), Requested(id, connectionId, kind))
  {
    hide Inv, Names, At;
    if connectionId in s.connections {
      NewIsUnlisted(s, id, s.connections[connectionId]);
      ConnectionIsNamed(s, connectionId);
      NamesPut(s.streams, s.connectionIds, Child(id, s.connections[connectionId], 0));
    }
  }

  lemma {:induction false} ConnectionIsNamed(s: State, id: Id)
    requires Inv(s) && id in s.connections
    ensures Named(s.connectionIds, s.connections[id]) == id
  {
  }

  lemma {:induction false} NewIsUnlisted(s: State, id: Id, c: nat)
    requires Inv(s) && id !in s.announced
    ensures id !in At(s.streamsOf, c)
  {
    if c < |s.streamsOf| {
      assert Listed(s.streamsOf[c], c, s.announced);
    }
  }

  lemma {:induction false} SessionRefines(s: State, id: Id, connectionId: Id, handled: bool)
    requires Inv(s) && id !in s.announced
    ensures Abstract(OpenSession(s, id, connectionId, handled))
            == Meaning(Abstract(s), SessionOpened(id, connectionId, handled))
  {
    hide Inv, At, SessionIds;
    if connectionId in s.connections && handled {
      SessionsListed(s, connectionId);
      OwnersNamed(s, connectionId);
      ConnectionIsNamed(s, connectionId);
      StreamsOwned(s);
      var session := Child(id, s.connections[connectionId], |s.sessionObjects|);
      NamesPut(s.sessions, s.connectionIds, session);
      IdsGrow(s.sessionObjects, session);
      NamesKeep(s.webTransportStreams, SessionIds(s.sessionObjects), [id]);
      NoneOwned(s.sessions, s.connectionIds, s.connections[connectionId], connectionId);
      hide Names;
    }
  }

  lemma {:induction false} NoneOwned(index: map<Id, Child>, ids: seq<Id>, c: nat, id: Id)
    requires forall k | k in index :: Named(ids, index[k].owner) == id <==> index[k].owner == c
    ensures var names := Names(index, ids);
            (forall k | k in index :: index[k].owner != c) <==> (forall k | k in names :: names[k] != id)
  {
    var names := Names(index, ids);
    if k :| k in index && index[k].owner == c {
      assert names[k] == id;
    }
  }

  lemma {:induction false} IdsGrow(objects: seq<Child>, c: Child)
    ensures SessionIds(objects + [c]) == SessionIds(objects) + [c.id]
  {
  }

  lemma {:induction false} StreamRefines(s: State, id: Id, sessionId: Id)
    requires Inv(s) && id !in s.announced
    ensures Abstract(OpenStream(s, id, sessionId)) == Meaning(Abstract(s), StreamOpened(id, sessionId))
  {
    hide Inv, At;
    if sessionId in s.sessions {
      SessionKeepsId(s, sessionId);
      NamesPut(s.webTransportStreams, SessionIds(s.sessionObjects), Child(id, s.sessions[sessionId].number, 0));
      hide Names;
    }
  }

  lemma {:induction false} RequestEndRefines(s: State, id: Id)
    requires Inv(s)
    ensures Abstract(EndRequest(s, id)) == Meaning(Abstract(s), RequestEnded(id))
  {
    hide Inv, At, DropSession, Drop;
    NamesMinus(s.streams, s.connectionIds, id);
    if id in s.sessions {
      SessionKeepsId(s, id);
      SessionDropRefines(s, s.sessions[id].number);
    } else if id !in s.streams {
      assert s.streams - {id} == s.streams;
    }
  }

  // ---------------------------------------------------------------- the theorems

  /** The server's step, seen as a table, is the plain step: whatever stale objects there are. */
  lemma {:induction false} StepRefines(s: State, e: Event)
    requires Inv(s) && Fresh(s, e)
    ensures Abstract(Step(s, e)) == Meaning(Abstract(s), e)
  {
    AnnouncedIsHistory(Handle(s, e), e);
    hide Inv, Abstract, EndConnection, DropSession, OpenRequest, EndRequest, OpenSession, OpenStream, OpenConnection;
    match e
    case ConnectionOpened(id) => ConnectionOpenRefines(s, id);
    case ConnectionEnded(id) => ConnectionEndRefines(s, id);
    case Requested(id, connectionId, kind) => RequestRefines(s, id, connectionId, kind);
    case RequestEnded(id) => RequestEndRefines(s, id);
    case SessionOpened(id, connectionId, handled) => SessionRefines(s, id, connectionId, handled);
    case StreamOpened(id, sessionId) => StreamRefines(s, id, sessionId);
    case _ => RestRefines(s, e);
  }

  lemma {:induction false} AnnouncedIsHistory(s: State, e: Event)
    ensures Abstract(s.(announced := s.announced + Announced(e))) == Abstract(s)
  {
  }

  lemma {:induction false} RestRefines(s: State, e: Event)
    requires Inv(s) && (e.StreamEnded? || e.SessionDropped? || e.WebSocketDropped? || e.Stopped?)
    ensures Abstract(Handle(s, e)) == Meaning(Abstract(s), e)
  {
    hide Inv, DropSession, Drop, Abstract, EndStream, Stop;
    match e {
      case StreamEnded(id) => StreamEndRefines(s, id);
      case SessionDropped(r) =>
        ObjectsAreCreated(s);
        if r < |s.sessionObjects| {
          SessionDropRefines(s, r);
        } else {
          BeyondIsNothing(s, r);
        }
      case WebSocketDropped(id) => WebSocketDropRefines(s, id);
      case Stopped => StopRefines(s);
    }
  }

  lemma {:induction false} ObjectsAreCreated(s: State)
    ensures Abstract(s).created == SessionIds(s.sessionObjects)
  {
    hide Names;
  }

  lemma {:induction false} StreamEndRefines(s: State, id: Id)
    ensures Abstract(EndStream(s, id)) == Meaning(Abstract(s), StreamEnded(id))
  {
    hide Names, SessionIds, At;
    NamesMinus(s.webTransportStreams, SessionIds(s.sessionObjects), id);
    if id !in s.webTransportStreams {
      assert s.webTransportStreams - {id} == s.webTransportStreams;
    }
  }

  lemma {:induction false} WebSocketDropRefines(s: State, id: Id)
    ensures Abstract(s.(webSockets := s.webSockets - {id})) == Meaning(Abstract(s), WebSocketDropped(id))
  {
    hide Names, SessionIds;
  }

  lemma {:induction false} StopRefines(s: State)
    ensures Abstract(Stop(s)) == Meaning(Abstract(s), Stopped)
  {
    hide SessionIds, Emptied;
  }

  lemma {:induction false} BeyondIsNothing(s: State, r: nat)
    requires r >= |s.sessionObjects|
    ensures DropSession(s, r) == s
  {
  }

  function MeaningOf(events: seq<Event>): Table {
    if events == [] then EMPTY else Meaning(MeaningOf(events[..|events| - 1]), events[|events| - 1])
  }

  /** After every sequence of events with fresh identifiers, each map holds exactly what the
      plain table says, under the connection or session it says. */
  lemma {:induction false} MapsMeanTheTable(events: seq<Event>)
    requires AllFresh(events)
    ensures Abstract(Run(events)) == MeaningOf(events)
  {
    if events == [] {
    } else {
      var k := |events| - 1;
      assert forall i | 0 <= i < k :: events[..k][..i] == events[..i];
      MapsMeanTheTable(events[..k]);
      RunKeeps(events[..k]);
      StepRefines(Run(events[..k]), events[k]);
      hide Inv, Step, Abstract, Meaning;
    }
  }
}
