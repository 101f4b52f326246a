/**
 * The editing handlers: `code-change`, `language-change` and `cursor-move`.
 * They keep their own connection-to-session map, set on every `join-session`
 * (whether or not the session exists) and cleared only on `disconnect`.
 */
module CodeHandler {
  import opened SessionTypes
  import opened SessionService
  import opened Realtime

  const NOT_IN_A_SESSION: string := "Not in a session"
  const FAILED_TO_UPDATE_CODE: string := "Failed to update code"
  const FAILED_TO_UPDATE_LANGUAGE: string := "Failed to update language"

  class CodeHandlers {
    /** Connection to the session id it last asked to join. */
    var socketToSession: map<ConnId, string>

    constructor ()
      ensures socketToSession == map[]
    {
      socketToSession := map[];
    }

    /** A binding to the empty id counts as none, as the handlers test it for truthiness. */
    predicate Bound(conn: ConnId)
      reads this
    {
      conn in socketToSession && socketToSession[conn] != ""
    }

    /** `join-session`: records the binding unconditionally. */
    method JoinSession(conn: ConnId, sessionId: string)
      modifies this
      ensures socketToSession == old(socketToSession)[conn := sessionId]
    {
      socketToSession := socketToSession[conn := sessionId];
    }

    /**
     * `code-change`: writes the buffer through to the store and forwards it to
     * the rest of the room, naming the sender by its connection id; failures
     * are reported to the sender only and nothing is broadcast.
     */
    method CodeChange(store: SessionStore, io: Gateway, conn: ConnId, code: string, now: int)
      requires store.Valid()
      modifies store, io
      ensures store.Valid()
      ensures io.rooms == old(io.rooms)
      ensures !Bound(conn) ==>
                && store.sessions == old(store.sessions)
                && io.outbox == old(io.outbox) + [Emission({conn}, ErrorMessage(NOT_IN_A_SESSION))]
      ensures Bound(conn) && socketToSession[conn] !in old(store.sessions) ==>
                && store.sessions == old(store.sessions)
                && io.outbox == old(io.outbox) + [Emission({conn}, ErrorMessage(FAILED_TO_UPDATE_CODE))]
      ensures Bound(conn) && socketToSession[conn] in old(store.sessions) ==>
                && var sid := socketToSession[conn];
                && store.sessions == old(store.sessions)[sid := old(store.sessions)[sid].(code := code, lastActivity := now)]
                && store.sessions[sid].code == code
                && io.outbox == old(io.outbox) + [Emission(io.Room(sid) - {conn}, CodeUpdate(code, conn))]
    {
      if !Bound(conn) {
        io.EmitToSocket(conn, ErrorMessage(NOT_IN_A_SESSION));
        return;
      }
      var sessionId := socketToSession[conn];

      var updated := store.UpdateSessionCode(sessionId, code, now);
      if !updated {
        io.EmitToSocket(conn, ErrorMessage(FAILED_TO_UPDATE_CODE));
        return;
      }

      io.EmitToOthers(sessionId, conn, CodeUpdate(code, conn));
    }

    /**
     * `language-change`: the same gating as `code-change`, but the update goes
     * to the whole room, the sender included.
     */
    method LanguageChange(store: SessionStore, io: Gateway, conn: ConnId, language: Language, now: int)
      requires store.Valid()
      modifies store, io
      ensures store.Valid()
      ensures io.rooms == old(io.rooms)
      ensures !Bound(conn) ==>
                && store.sessions == old(store.sessions)
                && io.outbox == old(io.outbox) + [Emission({conn}, ErrorMessage(NOT_IN_A_SESSION))]
      ensures Bound(conn) && socketToSession[conn] !in old(store.sessions) ==>
                && store.sessions == old(store.sessions)
                && io.outbox == old(io.outbox) + [Emission({conn}, ErrorMessage(FAILED_TO_UPDATE_LANGUAGE))]
      ensures Bound(conn) && socketToSession[conn] in old(store.sessions) ==>
                && var sid := socketToSession[conn];
                && store.sessions == old(store.sessions)[sid := old(store.sessions)[sid].(language := language, lastActivity := now)]
                && io.outbox == old(io.outbox) + [Emission(io.Room(sid), LanguageUpdate(language, conn))]
    {
      if !Bound(conn) {
        io.EmitToSocket(conn, ErrorMessage(NOT_IN_A_SESSION));
        return;
      }
      var sessionId := socketToSession[conn];

      var updated := store.UpdateSessionLanguage(sessionId, language, now);
      if !updated {
        io.EmitToSocket(conn, ErrorMessage(FAILED_TO_UPDATE_LANGUAGE));
        return;
      }

      io.EmitToRoom(sessionId, LanguageUpdate(language, conn));
    }

    /** `cursor-move`: forwarded to the rest of the room when bound, silently dropped otherwise. */
    method CursorMove(io: Gateway, conn: ConnId, position: Position)
      modifies io
      ensures io.rooms == old(io.rooms)
      ensures !Bound(conn) ==> io.outbox == old(io.outbox)
      ensures Bound(conn) ==>
                io.outbox == old(io.outbox) + [Emission(io.Room(socketToSession[conn]) - {conn}, CursorUpdate(conn, position))]
    {
      if !Bound(conn) {
        return;
      }
      var sessionId := socketToSession[conn];
      io.EmitToOthers(sessionId, conn, CursorUpdate(conn, position));
    }

    /** `disconnect`: forgets the connection. */
    method Disconnect(conn: ConnId)
      modifies this
      ensures socketToSession == old(socketToSession) - {conn}
      ensures !Bound(conn)
    {
      socketToSession := socketToSession - {conn};
    }
  }
}
