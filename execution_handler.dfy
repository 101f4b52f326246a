/**
 * The execution-activity relay: `execution-started` and `execution-result`
 * are checked against this handler's own bindings and re-broadcast to the
 * whole room. They never touch the store.
 */
module ExecutionHandler {
  import opened SessionTypes
  import opened SessionService
  import opened Realtime

  const NOT_IN_SESSION: string := "Not in session"
  const USER_NOT_FOUND: string := "User not found"

  /** The first participant in `users` represented by connection `conn` (`Array.prototype.find`). */
  function FindBySocket(users: seq<User>, conn: ConnId): (r: Option<User>)
    ensures r.None? <==> forall i :: 0 <= i < |users| ==> users[i].socketId != conn
    ensures r.Some? ==> exists i :: 0 <= i < |users| && users[i] == r.value
                          && r.value.socketId == conn
                          && forall j :: 0 <= j < i ==> users[j].socketId != conn
  {
    if users == [] then None
    else if users[0].socketId == conn then Some(users[0])
    else
      var r := FindBySocket(users[1..], conn);
      assert forall i :: 1 <= i < |users| ==> users[i] == users[1..][i - 1];
      r
  }

  class ExecutionHandlers {
    /** Connection to the (existing) session it joined. */
    var socketToSession: map<ConnId, string>
    /** Connection to the participant found for it at join time. */
    var socketToUser: map<ConnId, User>

    constructor ()
      ensures socketToSession == map[] && socketToUser == map[]
    {
      socketToSession := map[];
      socketToUser := map[];
    }

    /**
     * `join-session`: for an existing session, records the session binding,
     * and the participant binding when some participant of that session is
     * represented by `conn`. Otherwise nothing changes.
     */
    method JoinSession(store: SessionStore, conn: ConnId, sessionId: string)
      requires store.Valid()
      modifies this
      ensures sessionId !in store.sessions ==>
                socketToSession == old(socketToSession) && socketToUser == old(socketToUser)
      ensures sessionId in store.sessions ==> socketToSession == old(socketToSession)[conn := sessionId]
      ensures sessionId in store.sessions && (exists u :: u in store.sessions[sessionId].users.Values && u.socketId == conn) ==>
                && conn in socketToUser
                && socketToUser == old(socketToUser)[conn := socketToUser[conn]]
                && socketToUser[conn] in store.sessions[sessionId].users.Values
                && socketToUser[conn].socketId == conn
      ensures sessionId in store.sessions && (forall u :: u in store.sessions[sessionId].users.Values ==> u.socketId != conn) ==>
                socketToUser == old(socketToUser)
    {
      var session := store.GetSession(sessionId);
      if session.Some? {
        socketToSession := socketToSession[conn := sessionId];
        var users, _ := store.GetSessionUsers(sessionId);
        var user := FindBySocket(users, conn);
        if user.Some? {
          socketToUser := socketToUser[conn := user.value];
        }
      }
    }

    /**
     * The check shared by both execution events: the connection must be bound
     * to the declared session, then must have a participant.
     */
    predicate InSession(conn: ConnId, sessionId: string)
      reads this
    {
      conn in socketToSession && socketToSession[conn] != "" && socketToSession[conn] == sessionId
    }

    /** `execution-started`: re-broadcast to the whole room with the participant's id and name. */
    method ExecutionStarted(io: Gateway, conn: ConnId, sessionId: string, code: string, language: Language, now: int)
      modifies io
      ensures io.rooms == old(io.rooms)
      ensures !InSession(conn, sessionId) ==>
                io.outbox == old(io.outbox) + [Emission({conn}, ErrorMessage(NOT_IN_SESSION))]
      ensures InSession(conn, sessionId) && conn !in socketToUser ==>
                io.outbox == old(io.outbox) + [Emission({conn}, ErrorMessage(USER_NOT_FOUND))]
      ensures InSession(conn, sessionId) && conn in socketToUser ==>
                && var user := socketToUser[conn];
                && io.outbox == old(io.outbox) + [Emission(io.Room(sessionId),
                     ExecutionStartedBroadcast(user.id, user.username, code, language, now))]
    {
      if !InSession(conn, sessionId) {
        io.EmitToSocket(conn, ErrorMessage(NOT_IN_SESSION));
        return;
      }
      if conn !in socketToUser {
        io.EmitToSocket(conn, ErrorMessage(USER_NOT_FOUND));
        return;
      }
      var user := socketToUser[conn];
      io.EmitToRoom(sessionId, ExecutionStartedBroadcast(user.id, user.username, code, language, now));
    }

    /** `execution-result`: the same checks; the result is relayed unchanged to the whole room. */
    method ExecutionResultReceived(io: Gateway, conn: ConnId, sessionId: string, result: ExecutionResult, now: int)
      modifies io
      ensures io.rooms == old(io.rooms)
      ensures !InSession(conn, sessionId) ==>
                io.outbox == old(io.outbox) + [Emission({conn}, ErrorMessage(NOT_IN_SESSION))]
      ensures InSession(conn, sessionId) && conn !in socketToUser ==>
                io.outbox == old(io.outbox) + [Emission({conn}, ErrorMessage(USER_NOT_FOUND))]
      ensures InSession(conn, sessionId) && conn in socketToUser ==>
                && var user := socketToUser[conn];
                && io.outbox == old(io.outbox) + [Emission(io.Room(sessionId),
                     ExecutionUpdate(user.id, user.username, result, now))]
    {
      if !InSession(conn, sessionId) {
        io.EmitToSocket(conn, ErrorMessage(NOT_IN_SESSION));
        return;
      }
      if conn !in socketToUser {
        io.EmitToSocket(conn, ErrorMessage(USER_NOT_FOUND));
        return;
      }
      var user := socketToUser[conn];
      io.EmitToRoom(sessionId, ExecutionUpdate(user.id, user.username, result, now));
    }

    /** `disconnect`: forgets both bindings of the connection. */
    method Disconnect(conn: ConnId)
      modifies this
      ensures socketToSession == old(socketToSession) - {conn}
      ensures socketToUser == old(socketToUser) - {conn}
    {
      socketToSession := socketToSession - {conn};
      socketToUser := socketToUser - {conn};
    }
  }
}
