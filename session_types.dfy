/** Data shapes shared by the session store, the sweeper and the socket handlers. */
module SessionTypes {

  datatype Option<+T> = None | Some(value: T)

  /** The closed set of editor languages a session may use. */
  datatype Language = JavaScript | TypeScript | Python | Java | Go | Cpp

  /** The identifier of one live connection (a socket id). */
  type ConnId = string

  /** A participant of a session; `socketId` is the connection that represents it. */
  datatype User = User(id: string, username: string, socketId: ConnId)

  /**
   * A session: language, shared buffer, participants keyed by participant id,
   * and two timestamps in integer milliseconds.
   */
  datatype Session = Session(
    id: string,
    language: Language,
    code: string,
    users: map<string, User>,
    createdAt: int,
    lastActivity: int)

  /** The read-only snapshot handed to the HTTP layer. */
  datatype SessionMetadata = SessionMetadata(
    sessionId: string,
    language: Language,
    userCount: nat,
    sessionExists: bool)

  /** Every participant is stored under its own id. */
  ghost predicate UsersKeyed(users: map<string, User>)
  {
    forall uid :: uid in users ==> users[uid].id == uid
  }

  /** The display names currently taken in a participant map. */
  ghost function UsernamesOf(users: map<string, User>): set<string>
  {
    set u | u in users.Values :: u.username
  }
}
