/** The callbacks of the HTTP/3 server, field by field, against `EventIndex`. */
module EventServer {
  import opened IndexTree
  import opened EventIndex

  function Numbers(listed: map<Id, Child>, keys: set<Id>): set<nat> {
    set k | k in keys && k in listed :: listed[k].number
  }

  function Ids(listed: map<Id, Child>, keys: set<Id>): set<Id> {
    set k | k in keys && k in listed :: listed[k].id
  }

  function Values(connections: map<Id, nat>, keys: set<Id>): set<nat> {
    set k | k in keys && k in connections :: connections[k]
  }

  lemma {:induction false} OneDone(listed: map<Id, Child>, keys: set<Id>, k: Id)
    requires k in listed
    ensures Numbers(listed, keys + {k}) == Numbers(listed, keys) + {listed[k].number}
    ensures Ids(listed, keys + {k}) == Ids(listed, keys) + {listed[k].id}
  {
  }

  lemma {:induction false} OneValue(connections: map<Id, nat>, keys: set<Id>, k: Id)
    requires k in connections
    ensures Values(connections, keys + {k}) == Values(connections, keys) + {connections[k]}
  {
  }

  lemma {:induction false} OneList(kids: seq<map<Id, Child>>, o: nat)
    ensures ChildIds(kids, {o}) == set k | k in At(kids, o) :: At(kids, o)[k].id
  {
  }

  lemma {:induction false} AllListed(kids: seq<map<Id, Child>>, o: nat)
    ensures Numbers(At(kids, o), At(kids, o).Keys) == Objects(At(kids, o))
    ensures Ids(At(kids, o), At(kids, o).Keys) == ChildIds(kids, {o})
  {
    OneList(kids, o);
  }

  lemma {:induction false} NoneDone(kids: seq<map<Id, Child>>, listed: map<Id, Child>)
    ensures ChildIds(kids, Numbers(listed, {})) == {} && Ids(listed, {}) == {}
  {
  }

  lemma {:induction false} OneMore(kids: seq<map<Id, Child>>, owners: set<nat>, o: nat)
    ensures ChildIds(kids, owners + {o}) == ChildIds(kids, owners) + ChildIds(kids, {o})
  {
  }

  /** The loop that takes every listed child out of an index, one by one and in any order. */
  method DeleteEach(listed: map<Id, Child>, index: map<Id, Child>) returns (left: map<Id, Child>)
    ensures left == index - set k | k in listed :: listed[k].id
  {
    left := index;
    var waiting := listed.Keys;
    while waiting != {}
      invariant waiting <= listed.Keys
      invariant left == index - set k | k in listed && k !in waiting :: listed[k].id
    {
      var k :| k in waiting;
      left := left - {listed[k].id};
      waiting := waiting - {k};
    }
  }

  /** The server's maps; the fields of the connection and session objects are kept here by
      object number, as `EventIndex.State` says. */
  class Server {
    var connectionIds: seq<Id>
    var streamsOf: seq<map<Id, Child>>
    var sessionsOf: seq<map<Id, Child>>
    var sessionObjects: seq<Child>
    var webTransportOf: seq<map<Id, Child>>
    var connections: map<Id, nat>
    var streams: map<Id, Child>
    var sessions: map<Id, Child>
    var webTransportStreams: map<Id, Child>
    var webSockets: map<Id, Id>
    ghost var announced: set<Id>

    ghost function Contents(): State
      reads this
    {
      State(connectionIds, streamsOf, sessionsOf, sessionObjects, webTransportOf,
            connections, streams, sessions, webTransportStreams, webSockets, announced)
    }

    constructor ()
      ensures Contents() == INITIAL && Inv(Contents())
    {
      connectionIds, streamsOf, sessionsOf, sessionObjects, webTransportOf := [], [], [], [], [];
      connections, streams, sessions, webTransportStreams, webSockets := map[], map[], map[], map[], map[];
      announced := {};
      new;
      RunKeeps([]);
    }

    /** `#deleteSession`, which may run at any time and more than once. */
    method DeleteSession(r: nat)
      requires r < |sessionObjects|
      modifies this
      ensures Contents() == DropSession(old(Contents()), r)
    {
      var session := sessionObjects[r];
      OneList(webTransportOf, r);
      webTransportStreams := DeleteEach(At(webTransportOf, r), webTransportStreams);
      sessions := sessions - {session.id};
      sessionsOf := Replace(sessionsOf, session.owner, At(sessionsOf, session.owner) - {session.id});
    }

    method HandleConnection(id: Id)
      modifies this
      ensures Contents() == OpenConnection(old(Contents()), id)
    {
      if id in connections {
        return;
      }
      connections := connections[id := |connectionIds|];
      connectionIds := connectionIds + [id];
      streamsOf, sessionsOf := streamsOf + [map[]], sessionsOf + [map[]];
    }

    method HandleConnectionEnd(id: Id)
      modifies this
      ensures Contents() == EndConnection(old(Contents()), id)
    {
      if id !in connections {
        return;
      }
      var c := connections[id];
      OneList(streamsOf, c);
      AllListed(sessionsOf, c);
      hide Numbers, Ids, ChildIds, Objects, At;
      streams := DeleteEach(At(streamsOf, c), streams);
      DropListed(At(sessionsOf, c));
      connections := connections - {id};
    }

    /** The inner loops of the connection end: the streams of each session, then the session. */
    method DropListed(listed: map<Id, Child>)
      modifies this`webTransportStreams, this`sessions
      ensures webTransportStreams == old(webTransportStreams) - ChildIds(webTransportOf, Numbers(listed, listed.Keys))
      ensures sessions == old(sessions) - Ids(listed, listed.Keys)
    {
      hide ChildIds, Numbers, Ids, At;
      var done: set<Id> := {};
      NoneDone(webTransportOf, listed);
      while listed.Keys - done != {}
        invariant done <= listed.Keys
        invariant webTransportStreams == old(webTransportStreams) - ChildIds(webTransportOf, Numbers(listed, done))
        invariant sessions == old(sessions) - Ids(listed, done)
        decreases listed.Keys - done
      {
        var k :| k in listed.Keys - done;
        OneList(webTransportOf, listed[k].number);
        OneMore(webTransportOf, Numbers(listed, done), listed[k].number);
        OneDone(listed, done, k);
        webTransportStreams := DeleteEach(At(webTransportOf, listed[k].number), webTransportStreams);
        sessions := sessions - {listed[k].id};
        done := done + {k};
      }
      assert listed.Keys == done + (listed.Keys - done) == done;
    }

    /** A request; a malformed one makes the `Stream` constructor throw before any map is set. */
    method HandleRequest(id: Id, connectionId: Id, kind: Kind)
      modifies this
      ensures Contents() == OpenRequest(old(Contents()), id, connectionId, kind)
    {
      if connectionId !in connections {
        return;
      }
      var c := connections[connectionId];
      if id in At(streamsOf, c) || id in webSockets {
        return;
      }
      match kind {
        case WebSocket(opens) =>
          if opens {
            webSockets := webSockets[id := connectionId];
          }
        case Ordinary =>
          var stream := Child(id, c, 0);
          streamsOf := Replace(streamsOf, c, Put(At(streamsOf, c), stream));
          streams := Put(streams, stream);
        case _ =>
      }
    }

    method HandleRequestEnd(id: Id)
      requires id in sessions ==> sessions[id].number < |sessionObjects|
      modifies this
      ensures Contents() == EndRequest(old(Contents()), id)
    {
      if id in webSockets {
        return;
      }
      if id in sessions {
        DeleteSession(sessions[id].number);
        return;
      }
      if id in streams {
        var c := streams[id].owner;
        streamsOf := Replace(streamsOf, c, At(streamsOf, c) - {id});
        streams := streams - {id};
      }
    }

    method HandleSession(id: Id, connectionId: Id, handled: bool)
      modifies this
      ensures Contents() == OpenSession(old(Contents()), id, connectionId, handled)
    {
      if connectionId !in connections || !handled {
        return;
      }
      var c := connections[connectionId];
      if |At(sessionsOf, c)| > 0 {
        return;
      }
      var session := Child(id, c, |sessionObjects|);
      sessionObjects, webTransportOf := sessionObjects + [session], webTransportOf + [map[]];
      sessionsOf := Replace(sessionsOf, c, Put(At(sessionsOf, c), session));
      sessions := Put(sessions, session);
    }

    method HandleWebTransportStream(id: Id, sessionId: Id)
      modifies this
      ensures Contents() == OpenStream(old(Contents()), id, sessionId)
    {
      if sessionId !in sessions {
        return;
      }
      var r := sessions[sessionId].number;
      var stream := Child(id, r, 0);
      webTransportOf := Replace(webTransportOf, r, Put(At(webTransportOf, r), stream));
      webTransportStreams := Put(webTransportStreams, stream);
    }

    method HandleWebTransportStreamEnd(id: Id)
      modifies this
      ensures Contents() == EndStream(old(Contents()), id)
    {
      if id !in webTransportStreams {
        return;
      }
      var r := webTransportStreams[id].owner;
      webTransportStreams := webTransportStreams - {id};
      webTransportOf := Replace(webTransportOf, r, At(webTransportOf, r) - {id});
    }

    method HandleStop()
      modifies this
      ensures Contents() == Stop(old(Contents()))
    {
      EmptyConnections();
      connections, streams, sessions, webTransportStreams, webSockets := map[], map[], map[], map[], map[];
    }

    /** The loop that clears each live connection. */
    method EmptyConnections()
      modifies this`streamsOf, this`sessionsOf
      ensures streamsOf == Emptied(old(streamsOf), connections.Values)
      ensures sessionsOf == Emptied(old(sessionsOf), connections.Values)
    {
      var done: set<Id> := {};
      while connections.Keys - done != {}
        invariant done <= connections.Keys
        invariant streamsOf == Emptied(old(streamsOf), Values(connections, done))
        invariant sessionsOf == Emptied(old(sessionsOf), Values(connections, done))
        decreases connections.Keys - done
      {
        var k :| k in connections.Keys - done;
        var c := connections[k];
        OneValue(connections, done, k);
        streamsOf, sessionsOf := Replace(streamsOf, c, map[]), Replace(sessionsOf, c, map[]);
        done := done + {k};
      }
      assert Values(connections, connections.Keys) == connections.Values;
    }

    /** One callback, or one late completion. The indexes agree before it and after it. */
    method Receive(e: Event)
      requires Inv(Contents()) && Fresh(Contents(), e)
      requires e.SessionDropped? ==> e.session < |sessionObjects|
      modifies this
      ensures Inv(Contents()) && Contents() == Step(old(Contents()), e)
    {
      hide Inv, EndConnection, DropSession, OpenRequest, EndRequest, OpenSession, OpenStream, EndStream, Stop,
           OpenConnection;
      StepKeeps(Contents(), e);
      if e.RequestEnded? && e.id in sessions {
        SessionKeepsId(Contents(), e.id);
      }
      match e {
        case ConnectionOpened(id) => HandleConnection(id);
        case ConnectionEnded(id) => HandleConnectionEnd(id);
        case Requested(id, connectionId, kind) => HandleRequest(id, connectionId, kind);
        case RequestEnded(id) => HandleRequestEnd(id);
        case SessionOpened(id, connectionId, handled) => HandleSession(id, connectionId, handled);
        case StreamOpened(id, sessionId) => HandleWebTransportStream(id, sessionId);
        case StreamEnded(id) => HandleWebTransportStreamEnd(id);
        case SessionDropped(r) => DeleteSession(r);
        case WebSocketDropped(id) => webSockets := webSockets - {id};
        case Stopped => HandleStop();
      }
      announced := announced + Announced(e);
    }
  }
}
