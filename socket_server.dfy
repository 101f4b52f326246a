/**
 * Connection wiring: each inbound event is dispatched to the listeners
 * registered for it, in registration order. Only the session handlers and
 * the code handlers are registered; the execution handlers are not, so
 * execution events reach no listener.
 */
module SocketServer {
  import opened SessionTypes
  import opened SessionService
  import opened Realtime
  import opened SessionHandler
  import opened CodeHandler

  /** The inbound event vocabulary. */
  datatype ClientEvent =
    | JoinSessionRequest(sessionId: string, username: string)
    | LeaveSessionRequest
    | CodeChangeRequest(code: string)
    | LanguageChangeRequest(language: Language)
    | CursorMoveRequest(position: Position)
    | ExecutionStartedRequest(sessionId: string, code: string, language: Language)
    | ExecutionResultRequest(sessionId: string, result: ExecutionResult)
    | DisconnectEvent

  /**
   * Delivers `ev` from connection `conn`. `now` is the clock reading and
   * `newUserId` the identifier the generator would hand out for a join.
   */
  method Dispatch(store: SessionStore, io: Gateway, sessionHandlers: SessionHandlers, codeHandlers: CodeHandlers,
                  conn: ConnId, ev: ClientEvent, now: int, newUserId: string)
    requires store.Valid()
    modifies store, io, sessionHandlers, codeHandlers
    ensures store.Valid()
    // Events with no registered listener change nothing.
    ensures ev.ExecutionStartedRequest? || ev.ExecutionResultRequest? ==>
              && store.sessions == old(store.sessions)
              && io.rooms == old(io.rooms) && io.outbox == old(io.outbox)
              && unchanged(sessionHandlers, codeHandlers)
    // A join for a missing session: only the error to the sender, and the code handlers' binding.
    ensures ev.JoinSessionRequest? && ev.sessionId !in old(store.sessions) ==>
              && store.sessions == old(store.sessions)
              && sessionHandlers.socketToSession == old(sessionHandlers.socketToSession)
              && sessionHandlers.socketToUser == old(sessionHandlers.socketToUser)
              && io.rooms == old(io.rooms)
              && io.outbox == old(io.outbox) + [Emission({conn}, ErrorMessage(SESSION_NOT_FOUND))]
    // A join for an existing session adds a participant under a first-free name and announces it.
    ensures ev.JoinSessionRequest? && ev.sessionId in old(store.sessions) ==>
              && conn in sessionHandlers.socketToUser
              && var sid := ev.sessionId;
              && var user := sessionHandlers.socketToUser[conn];
              && var before := old(store.sessions)[sid];
              && user.id == newUserId && user.socketId == conn
              && IsFirstFreeName(ev.username, UsernamesOf(before.users), user.username)
              && store.sessions == old(store.sessions)[sid :=
                   before.(users := before.users[newUserId := user], lastActivity := now)]
              && sessionHandlers.socketToSession == old(sessionHandlers.socketToSession)[conn := sid]
              && sessionHandlers.socketToUser == old(sessionHandlers.socketToUser)[conn := user]
              && io.rooms == old(io.rooms)[sid := old(io.Room(sid)) + {conn}]
              && io.outbox == old(io.outbox) + [
                   Emission({conn}, SessionJoined(user.id, user.username, store.sessions[sid].users)),
                   Emission(old(io.Room(sid)) - {conn}, UserJoined(user, store.sessions[sid].users))]
    // The code handlers bind on every join, and only disconnect unbinds them.
    ensures ev.JoinSessionRequest? ==>
              codeHandlers.socketToSession == old(codeHandlers.socketToSession)[conn := ev.sessionId]
    ensures ev.LeaveSessionRequest? ==> unchanged(codeHandlers)
    ensures ev.DisconnectEvent? ==> !codeHandlers.Bound(conn) && !sessionHandlers.Bound(conn)
    // Leaving and disconnecting run the same procedure: same bindings, store and notice.
    ensures ev.LeaveSessionRequest? || ev.DisconnectEvent? ==>
              && sessionHandlers.socketToSession ==
                   (if old(sessionHandlers.Bound(conn)) then old(sessionHandlers.socketToSession) - {conn}
                    else old(sessionHandlers.socketToSession))
              && sessionHandlers.socketToUser ==
                   (if old(sessionHandlers.Bound(conn)) then old(sessionHandlers.socketToUser) - {conn}
                    else old(sessionHandlers.socketToUser))
              && !sessionHandlers.Bound(conn)
    ensures (ev.LeaveSessionRequest? || ev.DisconnectEvent?) && !old(sessionHandlers.Bound(conn)) ==>
              store.sessions == old(store.sessions) && io.outbox == old(io.outbox)
    ensures (ev.LeaveSessionRequest? || ev.DisconnectEvent?) && old(sessionHandlers.Bound(conn)) ==>
              && var sid := old(sessionHandlers.socketToSession[conn]);
              && var user := old(sessionHandlers.socketToUser[conn]);
              && store.sessions ==
                   (if sid in old(store.sessions) && user.id in old(store.sessions)[sid].users
                    then old(store.sessions)[sid := old(store.sessions)[sid].(
                           users := old(store.sessions)[sid].users - {user.id}, lastActivity := now)]
                    else old(store.sessions))
              && user.id !in store.UsersOf(sid)
              && io.outbox == old(io.outbox) + [
                   Emission(old(io.Room(sid)) - {conn}, UserLeft(user.id, user.username, store.UsersOf(sid)))]
    // An explicit leave unsubscribes the connection from its session's room only.
    ensures ev.LeaveSessionRequest? ==>
              io.rooms == (if old(sessionHandlers.Bound(conn))
                           then old(io.rooms)[old(sessionHandlers.socketToSession[conn]) :=
                                  old(io.Room(sessionHandlers.socketToSession[conn])) - {conn}]
                           else old(io.rooms))
    // A disconnected connection is in no room.
    ensures ev.DisconnectEvent? ==> forall name :: name in io.rooms ==> conn !in io.rooms[name]
    // ... while every other connection keeps its rooms and its code binding.
    ensures ev.DisconnectEvent? ==> forall name :: io.Room(name) == old(io.Room(name)) - {conn}
    ensures ev.DisconnectEvent? ==> codeHandlers.socketToSession == old(codeHandlers.socketToSession) - {conn}
    // Code changes: the code handlers' gating, write-through and relay.
    ensures ev.CodeChangeRequest? || ev.LanguageChangeRequest? || ev.CursorMoveRequest? ==>
              && unchanged(sessionHandlers, codeHandlers)
              && io.rooms == old(io.rooms)
    ensures (ev.CodeChangeRequest? || ev.LanguageChangeRequest?) && !codeHandlers.Bound(conn) ==>
              && store.sessions == old(store.sessions)
              && io.outbox == old(io.outbox) + [Emission({conn}, ErrorMessage(NOT_IN_A_SESSION))]
    ensures ev.CodeChangeRequest? && codeHandlers.Bound(conn) ==>
              && var sid := codeHandlers.socketToSession[conn];
              && (sid !in old(store.sessions) ==>
                    && store.sessions == old(store.sessions)
                    && io.outbox == old(io.outbox) + [Emission({conn}, ErrorMessage(FAILED_TO_UPDATE_CODE))])
              && (sid in old(store.sessions) ==>
                    && store.sessions == old(store.sessions)[sid := old(store.sessions)[sid].(code := ev.code, lastActivity := now)]
                    && io.outbox == old(io.outbox) + [Emission(io.Room(sid) - {conn}, CodeUpdate(ev.code, conn))])
    ensures ev.LanguageChangeRequest? && codeHandlers.Bound(conn) ==>
              && var sid := codeHandlers.socketToSession[conn];
              && (sid !in old(store.sessions) ==>
                    && store.sessions == old(store.sessions)
                    && io.outbox == old(io.outbox) + [Emission({conn}, ErrorMessage(FAILED_TO_UPDATE_LANGUAGE))])
              && (sid in old(store.sessions) ==>
                    && store.sessions == old(store.sessions)[sid := old(store.sessions)[sid].(language := ev.language, lastActivity := now)]
                    && io.outbox == old(io.outbox) + [Emission(io.Room(sid), LanguageUpdate(ev.language, conn))])
    // Cursor moves never write the store, and reach the rest of the room only when bound.
    ensures ev.CursorMoveRequest? ==>
              && store.sessions == old(store.sessions)
              && io.outbox == old(io.outbox) + (if codeHandlers.Bound(conn)
                   then [Emission(io.Room(codeHandlers.socketToSession[conn]) - {conn}, CursorUpdate(conn, ev.position))]
                   else [])
  {
    match ev
    case JoinSessionRequest(sessionId, username) =>
      sessionHandlers.JoinSession(store, io, conn, sessionId, username, newUserId, now);
      codeHandlers.JoinSession(conn, sessionId);
    case LeaveSessionRequest =>
      sessionHandlers.HandleUserLeaving(store, io, conn, now);
    case CodeChangeRequest(code) =>
      codeHandlers.CodeChange(store, io, conn, code, now);
    case LanguageChangeRequest(language) =>
      codeHandlers.LanguageChange(store, io, conn, language, now);
    case CursorMoveRequest(position) =>
      codeHandlers.CursorMove(io, conn, position);
    case ExecutionStartedRequest(_, _, _) =>
    case ExecutionResultRequest(_, _) =>
    case DisconnectEvent =>
      io.LeaveAll(conn);
      assert forall name :: io.Room(name) - {conn} == old(io.Room(name)) - {conn};
      sessionHandlers.HandleUserLeaving(store, io, conn, now);
      codeHandlers.Disconnect(conn);
  }
}
