/** The indexes of the HTTP/3 server: global maps that must agree with the tree of
    connections, sessions and streams while native events and late completions interleave. */
module EventIndex {

  import opened Bytes
  import opened IndexTree

  /** The objects, and the maps that index them. Objects are numbered as they are created, and
      a handler may hold one long after the server has dropped it. Connection object `c` has
      identifier `connectionIds[c]` and lists `streamsOf[c]` and `sessionsOf[c]`; session
      object `r` is `sessionObjects[r]` and lists `webTransportOf[r]`. The rest are the
      server's maps, and the identifiers announced so far for requests, sessions and streams. */
  datatype State = State(
    connectionIds: seq<Id>,
    streamsOf: seq<map<Id, Child>>,
    sessionsOf: seq<map<Id, Child>>,
    sessionObjects: seq<Child>,
    webTransportOf: seq<map<Id, Child>>,
    connections: map<Id, nat>,
    streams: map<Id, Child>,
    sessions: map<Id, Child>,
    webTransportStreams: map<Id, Child>,
    webSockets: map<Id, Id>,
    announced: set<Id>)

  /** What a request turns out to be. A malformed one makes the `Stream` constructor throw. */
  datatype Kind = Ordinary | Malformed | WebSocket(opens: bool) | OtherConnect

  /** A native event, or a handler completion that runs later. */
  datatype Event =
    | ConnectionOpened(id: Id)
    | ConnectionEnded(id: Id)
    | Requested(id: Id, connectionId: Id, kind: Kind)
    | RequestEnded(id: Id)
    | SessionOpened(id: Id, connectionId: Id, handled: bool)
    | StreamOpened(id: Id, sessionId: Id)
    | StreamEnded(id: Id)
    /** `#deleteSession`, whenever a decision, a rejection or an end gets to it. */
    | SessionDropped(session: nat)
    | WebSocketDropped(id: Id)
    | Stopped

  const INITIAL := State([], [], [], [], [], map[], map[], map[], map[], map[], {})

  // ---------------------------------------------------------------- the handlers

  /** The object numbers of the sessions in a map. */
  function Objects(listed: map<Id, Child>): set<nat> {
    set k | k in listed :: listed[k].number
  }

  function At(kids: seq<map<Id, Child>>, o: nat): map<Id, Child> {
    if o < |kids| then kids[o] else map[]
  }

  /** `#deleteSession`, on a session object. */
  function DropSession(s: State, r: nat): State {
    if r >= |s.sessionObjects| then s else
    var o := s.sessionObjects[r];
    s.(webTransportStreams := s.webTransportStreams - ChildIds(s.webTransportOf, {r}),
       sessions := s.sessions - {o.id},
       sessionsOf := Replace(s.sessionsOf, o.owner, At(s.sessionsOf, o.owner) - {o.id}))
  }

  function EndConnection(s: State, id: Id): State {
    if id !in s.connections then s else
    var c := s.connections[id];
    s.(streams := s.streams - ChildIds(s.streamsOf, {c}),
       webTransportStreams := s.webTransportStreams - ChildIds(s.webTransportOf, Objects(At(s.sessionsOf, c))),
       sessions := s.sessions - ChildIds(s.sessionsOf, {c}),
       connections := s.connections - {id})
  }

  function OpenRequest(s: State, id: Id, connectionId: Id, kind: Kind): State {
    if connectionId !in s.connections then s else
    var c := s.connections[connectionId];
    if id in At(s.streamsOf, c) || id in s.webSockets then s else
    match kind
    case Ordinary =>
      var stream := Child(id, c, 0);
      s.(streamsOf := Replace(s.streamsOf, c, Put(At(s.streamsOf, c), stream)), streams := Put(s.streams, stream))
    case WebSocket(opens) => if opens then s.(webSockets := s.webSockets[id := connectionId]) else s
    case _ => s
  }

  function EndRequest(s: State, id: Id): State {
    if id in s.webSockets then s
    else if id in s.sessions then DropSession(s, s.sessions[id].number)
    else if id in s.streams then
      var c := s.streams[id].owner;
      s.(streams := s.streams - {id}, streamsOf := Replace(s.streamsOf, c, At(s.streamsOf, c) - {id}))
    else s
  }

  /** One session per connection: further ones are answered 429. */
  function OpenSession(s: State, id: Id, connectionId: Id, handled: bool): State {
    if connectionId !in s.connections || !handled then s else
    var c := s.connections[connectionId];
    if At(s.sessionsOf, c) != map[] then s else
    var session := Child(id, c, |s.sessionObjects|);
    s.(sessionObjects := s.sessionObjects + [session],
       webTransportOf := s.webTransportOf + [map[]],
       sessionsOf := Replace(s.sessionsOf, c, Put(At(s.sessionsOf, c), session)),
       sessions := Put(s.sessions, session))
  }

  function OpenStream(s: State, id: Id, sessionId: Id): State {
    if sessionId !in s.sessions then s else
    var r := s.sessions[sessionId].number;
    var stream := Child(id, r, 0);
    s.(webTransportOf := Replace(s.webTransportOf, r, Put(At(s.webTransportOf, r), stream)),
       webTransportStreams := Put(s.webTransportStreams, stream))
  }

  function EndStream(s: State, id: Id): State {
    if id !in s.webTransportStreams then s else
    var r := s.webTransportStreams[id].owner;
    s.(webTransportStreams := s.webTransportStreams - {id},
       webTransportOf := Replace(s.webTransportOf, r, At(s.webTransportOf, r) - {id}))
  }

  /** What the objects list once the given ones are emptied. */
  function Emptied(kids: seq<map<Id, Child>>, owners: set<nat>): (r: seq<map<Id, Child>>)
    ensures |r| == |kids| && forall o | 0 <= o < |kids| :: r[o] == if o in owners then map[] else kids[o]
  {
    seq(|kids|, o requires 0 <= o < |kids| => if o in owners then map[] else kids[o])
  }

  /** Every live connection is emptied, and every map. */
  function Stop(s: State): State {
    s.(streamsOf := Emptied(s.streamsOf, s.connections.Values),
       sessionsOf := Emptied(s.sessionsOf, s.connections.Values),
       connections := map[], streams := map[], sessions := map[], webTransportStreams := map[], webSockets := map[])
  }

  function OpenConnection(s: State, id: Id): State {
    if id in s.connections then s else
      s.(connectionIds := s.connectionIds + [id], streamsOf := s.streamsOf + [map[]],
         sessionsOf := s.sessionsOf + [map[]], connections := s.connections[id := |s.connectionIds|])
  }

  function Handle(s: State, e: Event): State {
    match e
    case ConnectionOpened(id) => OpenConnection(s, id)
    case ConnectionEnded(id) => EndConnection(s, id)
    case Requested(id, connectionId, kind) => OpenRequest(s, id, connectionId, kind)
    case RequestEnded(id) => EndRequest(s, id)
    case SessionOpened(id, connectionId, handled) => OpenSession(s, id, connectionId, handled)
    case StreamOpened(id, sessionId) => OpenStream(s, id, sessionId)
    case StreamEnded(id) => EndStream(s, id)
    case SessionDropped(r) => DropSession(s, r)
    case WebSocketDropped(id) => s.(webSockets := s.webSockets - {id})
    case Stopped => Stop(s)
  }

  function Announced(e: Event): set<Id> {
    match e
    case Requested(id, _, _) => {id}
    case SessionOpened(id, _, _) => {id}
    case StreamOpened(id, _) => {id}
    case _ => {}
  }

  function Step(s: State, e: Event): State {
    var t := Handle(s, e); t.(announced := t.announced + Announced(e))
  }

  /** The native side never announces an identifier twice. */
  predicate Fresh(s: State, e: Event) {
    Announced(e) !! s.announced
  }

  // ---------------------------------------------------------------- the invariant

  /** Connection objects the server holds. */
  function LiveConnections(s: State): set<nat> {
    s.connections.Values
  }

  ghost predicate ConnectionsOk(connections: map<Id, nat>, ids: seq<Id>) {
    forall id | id in connections :: connections[id] < |ids| && ids[connections[id]] == id
  }

  ghost predicate SessionsOk(objects: seq<Child>, sessionsOf: seq<map<Id, Child>>, announced: set<Id>) {
    && (forall r | 0 <= r < |objects| ::
          objects[r].number == r && objects[r].owner < |sessionsOf| && objects[r].id in announced)
    && (forall a, b | 0 <= a < b < |objects| :: objects[a].id != objects[b].id)
    && (forall o, k | 0 <= o < |sessionsOf| && k in sessionsOf[o] ::
          sessionsOf[o][k].number < |objects| && objects[sessionsOf[o][k].number] == sessionsOf[o][k])
  }

  ghost predicate OneSession(sessionsOf: seq<map<Id, Child>>) {
    forall o, i, j | 0 <= o < |sessionsOf| && i in sessionsOf[o] && j in sessionsOf[o] :: i == j
  }

  /** The three indexes are exactly the disjoint unions of what the live objects list, and no
      connection lists two sessions. */
  ghost predicate Inv(s: State) {
    && |s.streamsOf| == |s.sessionsOf| == |s.connectionIds| && |s.webTransportOf| == |s.sessionObjects|
    && ConnectionsOk(s.connections, s.connectionIds)
    && SessionsOk(s.sessionObjects, s.sessionsOf, s.announced)
    && OneSession(s.sessionsOf)
    && Tree(LiveConnections(s), s.streamsOf, s.streams, s.announced)
    && Tree(LiveConnections(s), s.sessionsOf, s.sessions, s.announced)
    && Tree(Objects(s.sessions), s.webTransportOf, s.webTransportStreams, s.announced)
  }

  lemma {:induction false} StreamsTree(s: State)
    requires Inv(s)
    ensures Tree(LiveConnections(s), s.streamsOf, s.streams, s.announced)
  {
    hide Tree, ConnectionsOk, SessionsOk, OneSession;
  }

  lemma {:induction false} SessionsTree(s: State)
    requires Inv(s)
    ensures Tree(LiveConnections(s), s.sessionsOf, s.sessions, s.announced)
  {
    hide Tree, ConnectionsOk, SessionsOk, OneSession;
  }

  lemma {:induction false} WebTransportTree(s: State)
    requires Inv(s)
    ensures Tree(Objects(s.sessions), s.webTransportOf, s.webTransportStreams, s.announced)
  {
    hide Tree, ConnectionsOk, SessionsOk, OneSession;
  }

  lemma {:induction false} ConnectionIsLive(s: State, id: Id)
    requires Inv(s) && id in s.connections
    ensures s.connections[id] in LiveConnections(s) && s.connections[id] < |s.streamsOf| == |s.sessionsOf|
  {
    hide Tree, SessionsOk, OneSession;
  }

  lemma {:induction false} ConnectionOpenedKeeps(s: State, id: Id)
    requires Inv(s)
    ensures Inv(OpenConnection(s, id))
  {
    if id !in s.connections {
      var s' := OpenConnection(s, id);
      assert LiveConnections(s') == LiveConnections(s) + {|s.streamsOf|} by {
        assert id in s'.connections;
        forall c | c in LiveConnections(s) ensures c in LiveConnections(s') {
          var k :| k in s.connections && s.connections[k] == c;
          assert s'.connections[k] == c;
        }
      }
      AddOwner(LiveConnections(s), s.streamsOf, s.streams, s.announced);
      AddOwner(LiveConnections(s), s.sessionsOf, s.sessions, s.announced);
    }
  }

  /** Without the entry of one connection, its object is no longer live and the others are. */
  lemma {:induction false} EntryRemoved(connections: map<Id, nat>, ids: seq<Id>, id: Id)
    requires ConnectionsOk(connections, ids) && id in connections
    ensures (connections - {id}).Values == connections.Values - {connections[id]}
  {
    var left := connections - {id};
    forall c | c in connections.Values && c != connections[id] ensures c in left.Values {
      var k :| k in connections && connections[k] == c;
      assert left[k] == c;
    }
  }

  /** The session map holds session objects under their identifiers. */
  lemma {:induction false} SessionsAreObjects(s: State)
    requires Inv(s)
    ensures forall k | k in s.sessions ::
              var r := s.sessions[k].number;
              r < |s.sessionObjects| && s.sessionObjects[r] == s.sessions[k] && s.sessions[k].id == k
  {
    forall k | k in s.sessions ensures s.sessions[k].number < |s.sessionObjects|
      && s.sessionObjects[s.sessions[k].number] == s.sessions[k] && s.sessions[k].id == k
    {
      var o := s.sessions[k].owner;
      assert s.sessionsOf[o][k] == s.sessions[k];
      assert Listed(s.sessionsOf[o], o, s.announced);
    }
  }

  /** Removing sessions from the map removes exactly their objects. */
  lemma {:induction false} ObjectsRemoved(s: State, ids: set<Id>, numbers: set<nat>)
    requires Inv(s)
    requires forall r | 0 <= r < |s.sessionObjects| :: r in numbers <==> s.sessionObjects[r].id in ids
    ensures Objects(s.sessions - ids) == Objects(s.sessions) - numbers
  {
    SessionsAreObjects(s);
    hide Inv;
    var left := s.sessions - ids;
    forall r | r in Objects(s.sessions) ensures r in Objects(left) <==> r !in numbers {
      var k :| k in s.sessions && s.sessions[k].number == r;
      if k in left {
        assert left[k].number == r;
      }
    }
  }

  lemma {:induction false} SessionDroppedKeeps(s: State, r: nat)
    requires Inv(s)
    ensures Inv(DropSession(s, r))
  {
    hide Tree, ConnectionsOk, Objects, ChildIds, Listed;
    if r < |s.sessionObjects| {
      var o := s.sessionObjects[r];
      DroppedObject(s, r);
      DroppedChild(s, r);
      SessionsTree(s);
      RemoveChild(LiveConnections(s), s.sessionsOf, s.sessions, s.announced, o.owner, o.id);
      WebTransportTree(s);
      DropOwners(Objects(s.sessions), s.webTransportOf, s.webTransportStreams, s.announced, {r});
    }
  }

  lemma {:induction false} DroppedObject(s: State, r: nat)
    requires Inv(s) && r < |s.sessionObjects|
    ensures Objects(s.sessions - {s.sessionObjects[r].id}) == Objects(s.sessions) - {r}
  {
    hide Tree, ConnectionsOk, Objects, OneSession;
    ObjectsRemoved(s, {s.sessionObjects[r].id}, {r});
  }

  lemma {:induction false} DroppedChild(s: State, r: nat)
    requires Inv(s) && r < |s.sessionObjects|
    ensures var o := s.sessionObjects[r];
            o.owner < |s.sessionsOf| && (o.id in s.sessionsOf[o.owner] || o.id !in s.sessions)
  {
    hide Tree, ConnectionsOk, OneSession, Objects;
    SessionsAreObjects(s);
    var id := s.sessionObjects[r].id;
    if id in s.sessions {
      assert s.sessions[id].number == r;
      SessionIsListed(s, id);
    }
  }

  lemma {:induction false} SessionIsListed(s: State, k: Id)
    requires Inv(s) && k in s.sessions
    ensures var o := s.sessions[k].owner; o < |s.sessionsOf| && k in s.sessionsOf[o]
  {
    hide SessionsOk, OneSession, ConnectionsOk;
    SessionsTree(s);
  }

  lemma {:induction false} ConnectionEndedKeeps(s: State, id: Id)
    requires Inv(s)
    ensures Inv(EndConnection(s, id))
  {
    if id in s.connections {
      var c := s.connections[id];
      EntryRemoved(s.connections, s.connectionIds, id);
      DropOwners(LiveConnections(s), s.streamsOf, s.streams, s.announced, {c});
      DropOwners(LiveConnections(s), s.sessionsOf, s.sessions, s.announced, {c});
      ObjectsRemoved(s, ChildIds(s.sessionsOf, {c}), Objects(s.sessionsOf[c]));
      DropOwners(Objects(s.sessions), s.webTransportOf, s.webTransportStreams, s.announced, Objects(s.sessionsOf[c]));
    }
  }

  lemma {:induction false} RequestedKeeps(s: State, id: Id, connectionId: Id, kind: Kind)
    requires Inv(s) && id !in s.announced
    ensures var t := OpenRequest(s, id, connectionId, kind); Inv(t.(announced := t.announced + {id}))
  {
    hide Inv, At, Replace, Put, Tree, LiveConnections;
    AnnouncedTo(s, id);
    if connectionId in s.connections && kind.Ordinary? {
      var stream := Child(id, s.connections[connectionId], 0);
      ConnectionIsLive(s, connectionId);
      StreamsTree(s);
      AddChild(LiveConnections(s), s.streamsOf, s.streams, s.announced, stream);
      WithStream(s, stream);
    } else {
      IgnoredRequest(s, id, connectionId, kind);
    }
  }

  lemma {:induction false} IgnoredRequest(s: State, id: Id, connectionId: Id, kind: Kind)
    requires !kind.Ordinary? || connectionId !in s.connections
    requires Inv(s.(announced := s.announced + {id}))
    ensures var t := OpenRequest(s, id, connectionId, kind); Inv(t.(announced := t.announced + {id}))
  {
    hide Tree, ConnectionsOk, SessionsOk, OneSession, Objects;
  }

  lemma {:induction false} WithStream(s: State, stream: Child)
    requires Inv(s) && stream.owner in LiveConnections(s) && Inv(s.(announced := s.announced + {stream.id}))
    requires stream.owner < |s.streamsOf|
    requires var listed := Put(s.streamsOf[stream.owner], stream);
             Tree(LiveConnections(s), s.streamsOf[stream.owner := listed], Put(s.streams, stream),
                  s.announced + {stream.id})
    ensures Inv(s.(streamsOf := Replace(s.streamsOf, stream.owner, Put(At(s.streamsOf, stream.owner), stream)),
                   streams := Put(s.streams, stream), announced := s.announced + {stream.id}))
  {
    hide Tree, ConnectionsOk, SessionsOk, OneSession, Put, Objects;
  }

  lemma {:induction false} RequestEndedKeeps(s: State, id: Id)
    requires Inv(s)
    ensures Inv(EndRequest(s, id))
  {
    if id in s.webSockets {
    } else if id in s.sessions {
      SessionDroppedKeeps(s, s.sessions[id].number);
    } else if id in s.streams {
      RemoveChild(LiveConnections(s), s.streamsOf, s.streams, s.announced, s.streams[id].owner, id);
    }
  }

  lemma {:induction false} AddSession(objects: seq<Child>, sessionsOf: seq<map<Id, Child>>, announced: set<Id>,
                                      c: Child)
    requires SessionsOk(objects, sessionsOf, announced) && OneSession(sessionsOf)
    requires c.number == |objects| && c.owner < |sessionsOf| && sessionsOf[c.owner] == map[] && c.id !in announced
    ensures var sessionsOf' := sessionsOf[c.owner := Put(sessionsOf[c.owner], c)];
            SessionsOk(objects + [c], sessionsOf', announced + {c.id}) && OneSession(sessionsOf')
  {
  }

  lemma {:induction false} SessionOpenedKeeps(s: State, id: Id, connectionId: Id, handled: bool)
    requires Inv(s) && id !in s.announced
    ensures var t := OpenSession(s, id, connectionId, handled); Inv(t.(announced := t.announced + {id}))
  {
    hide Tree, ConnectionsOk, Objects, SessionsOk, OneSession, Put;
    AnnouncedTo(s, id);
    if connectionId in s.connections && handled {
      var c := s.connections[connectionId];
      ConnectionIsLive(s, connectionId);
      if s.sessionsOf[c] == map[] {
        var session := Child(id, c, |s.sessionObjects|);
        SessionIsNew(s, id);
        AddSession(s.sessionObjects, s.sessionsOf, s.announced, session);
        SessionsTree(s);
        AddChild(LiveConnections(s), s.sessionsOf, s.sessions, s.announced, session);
        AddOwner(Objects(s.sessions), s.webTransportOf, s.webTransportStreams, s.announced + {id});
        ObjectAdded(s.sessions, session);
      }
    }
  }

  lemma {:induction false} SessionIsNew(s: State, id: Id)
    requires Inv(s) && id !in s.announced
    ensures id !in s.sessions
  {
  }

  lemma {:induction false} ObjectAdded(sessions: map<Id, Child>, c: Child)
    requires c.id !in sessions
    ensures Objects(Put(sessions, c)) == Objects(sessions) + {c.number}
  {
    var more := Put(sessions, c);
    assert more[c.id].number == c.number;
    forall r | r in Objects(sessions) ensures r in Objects(more) {
      var k :| k in sessions && sessions[k].number == r;
      assert more[k].number == r;
    }
  }

  /** Announcing an identifier that the server then ignores changes nothing it relies on. */
  lemma {:induction false} AnnouncedTo(s: State, id: Id)
    requires Inv(s)
    ensures Inv(s.(announced := s.announced + {id}))
  {
    Announcing(LiveConnections(s), s.streamsOf, s.streams, s.announced, {id});
    Announcing(LiveConnections(s), s.sessionsOf, s.sessions, s.announced, {id});
    Announcing(Objects(s.sessions), s.webTransportOf, s.webTransportStreams, s.announced, {id});
    hide Tree, Objects, ConnectionsOk, OneSession;
  }

  lemma {:induction false} StreamOpenedKeeps(s: State, id: Id, sessionId: Id)
    requires Inv(s) && id !in s.announced
    ensures var t := OpenStream(s, id, sessionId); Inv(t.(announced := t.announced + {id}))
  {
    AnnouncedTo(s, id);
    if sessionId in s.sessions {
      SessionsAreObjects(s);
      AddChild(Objects(s.sessions), s.webTransportOf, s.webTransportStreams, s.announced,
               Child(id, s.sessions[sessionId].number, 0));
      assert s.sessions[sessionId].number in Objects(s.sessions);
    }
    hide Tree, Objects, ConnectionsOk, OneSession, SessionsOk, Put;
  }

  lemma {:induction false} StreamEndedKeeps(s: State, id: Id)
    requires Inv(s)
    ensures Inv(EndStream(s, id))
  {
    if id in s.webTransportStreams {
      RemoveChild(Objects(s.sessions), s.webTransportOf, s.webTransportStreams, s.announced,
                  s.webTransportStreams[id].owner, id);
    }
  }

  lemma {:induction false} StoppedKeeps(s: State)
    requires Inv(s)
    ensures Inv(Stop(s))
  {
    var s' := Stop(s);
    Clear(LiveConnections(s), s.streamsOf, s.streams, s.announced, s'.streamsOf);
    Clear(LiveConnections(s), s.sessionsOf, s.sessions, s.announced, s'.sessionsOf);
    Clear(Objects(s.sessions), s.webTransportOf, s.webTransportStreams, s.announced, s.webTransportOf);
    assert LiveConnections(s') == {} && Objects(s'.sessions) == {};
  }

  lemma {:induction false} WebSocketDroppedKeeps(s: State, id: Id)
    requires Inv(s)
    ensures Inv(s.(webSockets := s.webSockets - {id}))
  {
  }

  /** Events that announce nothing. */
  lemma {:induction false} HandleKeeps(s: State, e: Event)
    requires Inv(s) && Announced(e) == {}
    ensures Inv(Handle(s, e))
  {
    hide Inv, DropSession, EndConnection, EndRequest, EndStream, Stop, OpenConnection;
    match e
    case ConnectionOpened(id) => ConnectionOpenedKeeps(s, id);
    case ConnectionEnded(id) => ConnectionEndedKeeps(s, id);
    case RequestEnded(id) => RequestEndedKeeps(s, id);
    case StreamEnded(id) => StreamEndedKeeps(s, id);
    case SessionDropped(r) => SessionDroppedKeeps(s, r);
    case WebSocketDropped(id) => WebSocketDroppedKeeps(s, id);
    case Stopped => StoppedKeeps(s);
    case _ =>
  }

  lemma {:induction false} StepKeeps(s: State, e: Event)
    requires Inv(s) && Fresh(s, e)
    ensures Inv(Step(s, e))
  {
    hide Inv, DropSession, EndConnection, OpenRequest, EndRequest, OpenSession, OpenStream, EndStream, Stop,
         OpenConnection;
    match e
    case Requested(id, connectionId, kind) => RequestedKeeps(s, id, connectionId, kind);
    case SessionOpened(id, connectionId, handled) => SessionOpenedKeeps(s, id, connectionId, handled);
    case StreamOpened(id, sessionId) => StreamOpenedKeeps(s, id, sessionId);
    case _ =>
      HandleKeeps(s, e);
      QuietStep(s, e);
  }

  lemma {:induction false} QuietStep(s: State, e: Event)
    requires Announced(e) == {}
    ensures Step(s, e) == Handle(s, e)
  {
    hide Handle;
    assert Handle(s, e).announced + {} == Handle(s, e).announced;
  }

  // ---------------------------------------------------------------- what an event does

  /** The end of a connection takes its own streams, sessions and their streams out of the
      indexes, and nothing else. */
  lemma {:induction false} ConnectionEndTakesItsOwn(s: State, id: Id)
    requires Inv(s) && id in s.connections
    ensures var c, t := s.connections[id], Step(s, ConnectionEnded(id));
            && t.connections == s.connections - {id}
            && t.streams.Keys == (set k | k in s.streams && s.streams[k].owner != c)
            && t.sessions.Keys == (set k | k in s.sessions && s.sessions[k].owner != c)
            && t.webTransportStreams.Keys
               == (set k | k in s.webTransportStreams && ConnectionOf(s, s.webTransportStreams[k]) != Some(c))
  {
    hide Inv, ChildIds, Objects, ConnectionOf, At;
    EndedAreTheirOwn(s, id);
  }

  lemma {:induction false} EndedAreTheirOwn(s: State, id: Id)
    requires Inv(s) && id in s.connections
    ensures var c := s.connections[id];
            && (forall k | k in s.streams :: k in ChildIds(s.streamsOf, {c}) <==> s.streams[k].owner == c)
            && (forall k | k in s.sessions :: k in ChildIds(s.sessionsOf, {c}) <==> s.sessions[k].owner == c)
            && (forall k | k in s.webTransportStreams ::
                  k in ChildIds(s.webTransportOf, Objects(At(s.sessionsOf, c)))
                  <==> ConnectionOf(s, s.webTransportStreams[k]) == Some(c))
  {
    hide Inv, ChildIds, Objects, Tree, LiveConnections, At, ConnectionOf;
    var c, listed := s.connections[id], At(s.sessionsOf, s.connections[id]);
    StreamsTree(s);
    OwnersTakeTheirOwn(LiveConnections(s), s.streamsOf, s.streams, s.announced, {c});
    SessionsTree(s);
    OwnersTakeTheirOwn(LiveConnections(s), s.sessionsOf, s.sessions, s.announced, {c});
    WebTransportTree(s);
    OwnersTakeTheirOwn(Objects(s.sessions), s.webTransportOf, s.webTransportStreams, s.announced, Objects(listed));
    forall k | k in s.webTransportStreams
      ensures var stream := s.webTransportStreams[k];
              stream.owner in Objects(listed) <==> ConnectionOf(s, stream) == Some(c)
    {
      OwnerIsListed(s, k, id);
    }
  }

  lemma {:induction false} OwnerIsListed(s: State, k: Id, id: Id)
    requires Inv(s) && id in s.connections && k in s.webTransportStreams
    ensures var c, stream := s.connections[id], s.webTransportStreams[k];
            stream.owner in Objects(At(s.sessionsOf, c)) <==> ConnectionOf(s, stream) == Some(c)
  {
    hide SessionsOk, OneSession, Objects;
    LiveSessionIsListed(s, s.webTransportStreams[k].owner, s.connections[id]);
  }

  /** The connection object a WebTransport stream belongs to. */
  function ConnectionOf(s: State, stream: Child): Option<nat> {
    if stream.owner < |s.sessionObjects| then Some(s.sessionObjects[stream.owner].owner) else None
  }

  lemma {:induction false} LiveSessionIsListed(s: State, r: nat, c: nat)
    requires Inv(s) && r in Objects(s.sessions) && c in LiveConnections(s)
    ensures r < |s.sessionObjects| && c < |s.sessionsOf|
    ensures r in Objects(s.sessionsOf[c]) <==> s.sessionObjects[r].owner == c
  {
    SessionsAreObjects(s);
    var k :| k in s.sessions && s.sessions[k].number == r;
    var o := s.sessions[k].owner;
    assert k in s.sessionsOf[o] && s.sessionsOf[o][k].number == r;
    if r in Objects(s.sessionsOf[c]) {
      var j :| j in s.sessionsOf[c] && s.sessionsOf[c][j].number == r;
      assert Listed(s.sessionsOf[c], c, s.announced);
    }
  }

  /** `#deleteSession` takes one live session and its streams out of the indexes, nothing else. */
  lemma {:induction false} SessionDropTakesItsOwn(s: State, r: nat)
    requires Inv(s) && r in Objects(s.sessions)
    ensures var t := Step(s, SessionDropped(r));
            && t.connections == s.connections && t.streams == s.streams
            && t.sessions.Keys == (set k | k in s.sessions && s.sessions[k].number != r)
            && t.webTransportStreams.Keys == (set k | k in s.webTransportStreams && s.webTransportStreams[k].owner != r)
  {
    hide Inv, ChildIds, Objects;
    DroppedAreItsOwn(s, r);
  }

  lemma {:induction false} DroppedAreItsOwn(s: State, r: nat)
    requires Inv(s) && r in Objects(s.sessions)
    ensures r < |s.sessionObjects|
    ensures forall k | k in s.sessions :: k == s.sessionObjects[r].id <==> s.sessions[k].number == r
    ensures forall k | k in s.webTransportStreams ::
              k in ChildIds(s.webTransportOf, {r}) <==> s.webTransportStreams[k].owner == r
  {
    SessionsAreObjects(s);
    OwnersTakeTheirOwn(Objects(s.sessions), s.webTransportOf, s.webTransportStreams, s.announced, {r});
    hide Inv, ChildIds;
  }

  lemma {:induction false} SessionsListed(s: State, connectionId: Id)
    requires Inv(s) && connectionId in s.connections
    ensures var c := s.connections[connectionId];
            At(s.sessionsOf, c) == map[] <==> forall k | k in s.sessions :: s.sessions[k].owner != c
  {
    var c := s.connections[connectionId];
    assert c in LiveConnections(s);
    var listed := At(s.sessionsOf, c);
    if k: Id :| k in listed {
      assert s.sessions[k] == listed[k];
      assert Listed(listed, c, s.announced);
    }
  }

  lemma {:induction false} SessionKeepsId(s: State, id: Id)
    requires Inv(s) && id in s.sessions
    ensures s.sessions[id].number < |s.sessionObjects| && s.sessionObjects[s.sessions[id].number].id == id
  {
    SessionsAreObjects(s);
  }

  // ---------------------------------------------------------------- whole runs

  function Run(events: seq<Event>): State {
    if events == [] then INITIAL else Step(Run(events[..|events| - 1]), events[|events| - 1])
  }

  ghost predicate AllFresh(events: seq<Event>) {
    forall i | 0 <= i < |events| :: Fresh(Run(events[..i]), events[i])
  }

  lemma {:induction false} RunKeeps(events: seq<Event>)
    requires AllFresh(events)
    ensures Inv(Run(events))
  {
    if events == [] {
      assert LiveConnections(INITIAL) == {} && Objects(INITIAL.sessions) == {};
    } else {
      var k := |events| - 1;
      assert forall i | 0 <= i < k :: events[..k][..i] == events[..i];
      RunKeeps(events[..k]);
      StepKeeps(Run(events[..k]), events[k]);
    }
  }

  /** Each global map is exactly the union of what the live objects list, no two objects list
      the same identifier, and no connection lists more than one session. */
  ghost predicate IndexesAgree(s: State) {
    && s.streams.Keys == ChildIds(s.streamsOf, LiveConnections(s))
    && s.sessions.Keys == ChildIds(s.sessionsOf, LiveConnections(s))
    && s.webTransportStreams.Keys == ChildIds(s.webTransportOf, Objects(s.sessions))
    && (forall a, b | a in LiveConnections(s) && b in LiveConnections(s) && a != b ::
          && ChildIds(s.streamsOf, {a}) !! ChildIds(s.streamsOf, {b})
          && ChildIds(s.sessionsOf, {a}) !! ChildIds(s.sessionsOf, {b}))
    && (forall a, b | a in Objects(s.sessions) && b in Objects(s.sessions) && a != b ::
          ChildIds(s.webTransportOf, {a}) !! ChildIds(s.webTransportOf, {b}))
    && (forall c | c in LiveConnections(s) :: c < |s.sessionsOf| && |s.sessionsOf[c]| <= 1)
  }

  /** After every sequence of native events and late completions, the indexes agree. */
  lemma {:induction false} IndexesAlwaysAgree(events: seq<Event>)
    requires AllFresh(events)
    ensures IndexesAgree(Run(events))
  {
    RunKeeps(events);
    var s := Run(events);
    hide Run, AllFresh;
    IndexIsUnion(LiveConnections(s), s.streamsOf, s.streams, s.announced);
    IndexIsUnion(LiveConnections(s), s.sessionsOf, s.sessions, s.announced);
    IndexIsUnion(Objects(s.sessions), s.webTransportOf, s.webTransportStreams, s.announced);
    forall c | c in LiveConnections(s) ensures c < |s.sessionsOf| && |s.sessionsOf[c]| <= 1 {
      AtMostOne(s.sessionsOf[c]);
    }
    hide Tree, ChildIds, Objects, OneSession, ConnectionsOk, SessionsOk;
  }

  lemma {:induction false} AtMostOne(listed: map<Id, Child>)
    requires forall i, j | i in listed && j in listed :: i == j
    ensures |listed| <= 1
  {
    if k: Id :| k in listed {
      assert listed.Keys == {k};
      assert |listed| == |listed.Keys|;
    }
  }

  /** A `#deleteSession` that runs after its session was dropped, or after its connection ended
      and another took its place, touches no map and no live connection. */
  lemma {:induction false} StaleDropIsHarmless(s: State, r: nat)
    requires Inv(s) && r !in Objects(s.sessions)
    ensures var s' := DropSession(s, r);
            && s'.connections == s.connections && s'.streams == s.streams
            && s'.sessions == s.sessions && s'.webTransportStreams == s.webTransportStreams
            && |s'.sessionsOf| == |s.sessionsOf|
            && forall c | c in LiveConnections(s) && c < |s.sessionsOf| :: s'.sessionsOf[c] == s.sessionsOf[c]
  {
    hide Inv, ChildIds, Objects, LiveConnections;
    if r < |s.sessionObjects| {
      var id := s.sessionObjects[r].id;
      StaleIsUnlisted(s, r);
      assert s.sessions - {id} == s.sessions;
      assert s.webTransportStreams - ChildIds(s.webTransportOf, {r}) == s.webTransportStreams;
      forall c | c in LiveConnections(s) && c < |s.sessionsOf| ensures s.sessionsOf[c] - {id} == s.sessionsOf[c] {
      }
    }
  }

  lemma {:induction false} StaleIsUnlisted(s: State, r: nat)
    requires Inv(s) && r !in Objects(s.sessions) && r < |s.sessionObjects|
    ensures var id := s.sessionObjects[r].id;
            id !in s.sessions && forall c | c in LiveConnections(s) && c < |s.sessionsOf| :: id !in s.sessionsOf[c]
    ensures forall k | k in s.webTransportStreams :: k !in ChildIds(s.webTransportOf, {r})
  {
    var id := s.sessionObjects[r].id;
    SessionsAreObjects(s);
    forall k | k in s.webTransportStreams ensures k !in ChildIds(s.webTransportOf, {r}) {
      assert Listed(s.webTransportOf[r], r, s.announced);
    }
  }

  /** Freshness is needed: when the native side announces the identifier of a live stream again
      for another connection, the end of the first connection takes the other's stream out of
      the index. */
  lemma {:induction false} FreshnessIsNeeded(s: State, a: Id, b: Id, k: Id)
    requires Inv(s) && a in s.connections && b in s.connections && a != b
    requires k in s.streamsOf[s.connections[a]] && k !in s.webSockets
    ensures var s' := Step(Step(s, Requested(k, b, Ordinary)), ConnectionEnded(a));
            && s.connections[b] in LiveConnections(s') && s.connections[b] < |s'.streamsOf|
            && k in s'.streamsOf[s.connections[b]] && k !in s'.streams
  {
    hide Inv, Tree, ChildIds, ConnectionsOk;
    var c, d := s.connections[a], s.connections[b];
    ConnectionIsLive(s, a);
    TwoConnections(s, a, b, k);
    var s1 := Step(s, Requested(k, b, Ordinary));
    ListedIsTaken(s1.streamsOf, c, k);
    EntryKept(s.connections, a, b);
  }

  /** Two live connections are two objects, and a stream of one is not listed by the other. */
  lemma {:induction false} TwoConnections(s: State, a: Id, b: Id, k: Id)
    requires Inv(s) && a in s.connections && b in s.connections && a != b && k in At(s.streamsOf, s.connections[a])
    ensures var c, d := s.connections[a], s.connections[b];
            c != d && c < |s.streamsOf| && d < |s.streamsOf| && s.streamsOf[c][k].id == k && k !in s.streamsOf[d]
  {
    hide SessionsOk, OneSession;
    StreamsTree(s);
    assert Listed(s.streamsOf[s.connections[a]], s.connections[a], s.announced);
  }

  lemma {:induction false} ListedIsTaken(kids: seq<map<Id, Child>>, o: nat, k: Id)
    requires o < |kids| && k in kids[o] && kids[o][k].id == k
    ensures k in ChildIds(kids, {o})
  {
  }

  lemma {:induction false} EntryKept(connections: map<Id, nat>, a: Id, b: Id)
    requires a != b && b in connections
    ensures connections[b] in (connections - {a}).Values
  {
    assert (connections - {a})[b] == connections[b];
  }
}
