/**
 * The broadcast layer the handlers talk to, made explicit: a map from room
 * name (a session id) to the connections subscribed to it, and an outbox of
 * every event sent, each with the set of connections it was addressed to.
 */
module Realtime {
  import opened SessionTypes

  datatype Position = Position(line: int, column: int)

  datatype ExecutionStatus = Idle | Running | Success | Error | Timeout

  /** An execution report relayed between participants without interpretation. */
  datatype ExecutionResult = ExecutionResult(
    status: ExecutionStatus,
    output: Option<string>,
    error: Option<string>,
    executionTime: Option<real>,
    timestamp: int)

  /**
   * The events the server emits. Participant lists are carried as the
   * participant map at the time of sending.
   */
  datatype ServerEvent =
    | ErrorMessage(message: string)
    | SessionJoined(userId: string, username: string, users: map<string, User>)
    | UserJoined(user: User, users: map<string, User>)
    | UserLeft(userId: string, username: string, users: map<string, User>)
    | CodeUpdate(code: string, userId: string)
    | LanguageUpdate(language: Language, userId: string)
    | CursorUpdate(userId: string, position: Position)
    | ExecutionStartedBroadcast(userId: string, username: string, code: string, language: Language, timestamp: int)
    | ExecutionUpdate(userId: string, username: string, result: ExecutionResult, timestamp: int)

  /** One event sent to a set of connections. */
  datatype Emission = Emission(recipients: set<ConnId>, event: ServerEvent)

  class Gateway {
    var rooms: map<string, set<ConnId>>
    var outbox: seq<Emission>

    constructor ()
      ensures rooms == map[] && outbox == []
    {
      rooms := map[];
      outbox := [];
    }

    /** The connections subscribed to room `name`. */
    function Room(name: string): set<ConnId>
      reads this
    {
      if name in rooms then rooms[name] else {}
    }

    /** `socket.join(name)`. */
    method Join(conn: ConnId, name: string)
      modifies this
      ensures rooms == old(rooms)[name := old(Room(name)) + {conn}]
      ensures outbox == old(outbox)
    {
      rooms := rooms[name := Room(name) + {conn}];
    }

    /** `socket.leave(name)`. */
    method Leave(conn: ConnId, name: string)
      modifies this
      ensures rooms == old(rooms)[name := old(Room(name)) - {conn}]
      ensures outbox == old(outbox)
    {
      rooms := rooms[name := Room(name) - {conn}];
    }

    /** What the transport does when a connection closes: it leaves every room. */
    method LeaveAll(conn: ConnId)
      modifies this
      ensures rooms.Keys == old(rooms).Keys
      ensures forall name :: name in rooms ==> rooms[name] == old(rooms)[name] - {conn}
      ensures outbox == old(outbox)
    {
      rooms := map name | name in rooms :: rooms[name] - {conn};
    }

    /** `socket.emit(e)`: to the sender only. */
    method EmitToSocket(conn: ConnId, e: ServerEvent)
      modifies this
      ensures rooms == old(rooms)
      ensures outbox == old(outbox) + [Emission({conn}, e)]
    {
      outbox := outbox + [Emission({conn}, e)];
    }

    /** `socket.to(name).emit(e)`: to the room, except the sender. */
    method EmitToOthers(name: string, conn: ConnId, e: ServerEvent)
      modifies this
      ensures rooms == old(rooms)
      ensures outbox == old(outbox) + [Emission(old(Room(name)) - {conn}, e)]
    {
      outbox := outbox + [Emission(Room(name) - {conn}, e)];
    }

    /** `io.to(name).emit(e)`: to the whole room, the sender included if subscribed. */
    method EmitToRoom(name: string, e: ServerEvent)
      modifies this
      ensures rooms == old(rooms)
      ensures outbox == old(outbox) + [Emission(old(Room(name)), e)]
    {
      outbox := outbox + [Emission(Room(name), e)];
    }
  }
}
