/**
 * The `join-session`, `leave-session` and `disconnect` handlers that bind a
 * connection to a session and a participant, with their own binding maps.
 */
module SessionHandler {
  import opened SessionTypes
  import opened Listing
  import opened SessionService
  import opened Realtime

  const SESSION_NOT_FOUND: string := "Session not found"

  // ---------------------------------------------------------------------
  // Display-name de-duplication
  // ---------------------------------------------------------------------

  function DigitChar(d: nat): char
    requires d < 10
  {
    "0123456789"[d]
  }

  /** The decimal spelling of `n`, as a template literal renders a number. */
  function DecimalString(n: nat): (r: string)
    ensures |r| >= 1
    ensures n < 10 <==> |r| == 1
    decreases n
  {
    if n < 10 then [DigitChar(n)] else DecimalString(n / 10) + [DigitChar(n % 10)]
  }

  /** Different numbers have different decimal spellings. */
  lemma {:induction false} DecimalStringInjective(a: nat, b: nat)
    requires DecimalString(a) == DecimalString(b)
    ensures a == b
    decreases a
  {
    var s := DecimalString(a);
    if a >= 10 && b >= 10 {
      assert DecimalString(a / 10) == s[..|s| - 1] == DecimalString(b / 10);
      DecimalStringInjective(a / 10, b / 10);
      assert DigitChar(a % 10) == s[|s| - 1] == DigitChar(b % 10);
    }
  }

  /** The candidate name `name-k`. */
  function Suffixed(name: string, k: nat): string
  {
    name + "-" + DecimalString(k)
  }

  /** Different suffixes give different candidates, none equal to the bare name. */
  lemma SuffixedInjective(name: string, j: nat, k: nat)
    ensures Suffixed(name, j) != name
    ensures Suffixed(name, j) == Suffixed(name, k) ==> j == k
  {
    if Suffixed(name, j) == Suffixed(name, k) {
      var n := |name| + 1;
      assert DecimalString(j) == Suffixed(name, j)[n..] == Suffixed(name, k)[n..] == DecimalString(k);
      DecimalStringInjective(j, k);
    }
  }

  /**
   * If `name` and all of `name-2` .. `name-(c-1)` are taken, at least `c - 1`
   * names are taken: the bound behind the termination of the suffix search.
   */
  lemma {:induction false} TakenSuffixesBound(name: string, c: nat, taken: set<string>)
    requires 2 <= c
    requires name in taken
    requires forall j :: 2 <= j < c ==> Suffixed(name, j) in taken
    ensures c - 1 <= |taken|
    decreases c
  {
    if c > 2 {
      var last := Suffixed(name, c - 1);
      var rest := taken - {last};
      SuffixedInjective(name, c - 1, c - 1);
      forall j | 2 <= j < c - 1
        ensures Suffixed(name, j) in rest
      {
        SuffixedInjective(name, j, c - 1);
      }
      TakenSuffixesBound(name, c - 1, rest);
    }
  }

  /**
   * `name` is the display name assigned to a participant asking for
   * `requested` when the names in `taken` are in use: the request itself when
   * it is free, else `requested-k` for the least k >= 2 that is free.
   */
  ghost predicate IsFirstFreeName(requested: string, taken: set<string>, name: string)
  {
    && name !in taken
    && (requested !in taken ==> name == requested)
    && (requested in taken ==>
          exists k :: 2 <= k && name == Suffixed(requested, k)
                      && forall j :: 2 <= j < k ==> Suffixed(requested, j) in taken)
  }

  /** The assigned display name is determined by the request and the taken names. */
  lemma FirstFreeNameUnique(requested: string, taken: set<string>, a: string, b: string)
    requires IsFirstFreeName(requested, taken, a) && IsFirstFreeName(requested, taken, b)
    ensures a == b
  {
    if requested in taken {
      var ka :| 2 <= ka && a == Suffixed(requested, ka)
                && forall j :: 2 <= j < ka ==> Suffixed(requested, j) in taken;
      var kb :| 2 <= kb && b == Suffixed(requested, kb)
                && forall j :: 2 <= j < kb ==> Suffixed(requested, j) in taken;
      assert !(ka < kb) && !(kb < ka);
    }
  }

  /**
   * The suffix search of the join handler over the existing display names:
   * the result is free, equals the request when that is free, and otherwise
   * is the first free `requested-k`, with k at most one more than the number
   * of existing names.
   */
  method ResolveUsername(username: string, existing: seq<string>) returns (finalName: string)
    ensures IsFirstFreeName(username, Elements(existing), finalName)
    ensures finalName !in existing
    ensures username in existing ==>
              exists k :: 2 <= k <= |existing| + 1 && finalName == Suffixed(username, k)
  {
    finalName := username;
    if username in existing {
      var counter := 2;
      ElementsBound(existing);
      while Suffixed(username, counter) in existing
        invariant 2 <= counter <= |existing| + 1
        invariant forall j :: 2 <= j < counter ==> Suffixed(username, j) in existing
        decreases |existing| + 1 - counter
      {
        TakenSuffixesBound(username, counter + 1, Elements(existing));
        counter := counter + 1;
      }
      finalName := Suffixed(username, counter);
    }
  }

  /** The display names of a list of participants, in the same order. */
  function Usernames(users: seq<User>): seq<string>
  {
    seq(|users|, i requires 0 <= i < |users| => users[i].username)
  }

  /**
   * The display name a participant asking for `username` gets in session
   * `sessionId`: the suffix search over the names of its current participants.
   */
  method ChooseUsername(store: SessionStore, sessionId: string, username: string) returns (finalUsername: string)
    requires store.Valid() && sessionId in store.sessions
    ensures IsFirstFreeName(username, UsernamesOf(store.sessions[sessionId].users), finalUsername)
    ensures finalUsername != username ==>
              exists k :: 2 <= k <= |store.sessions[sessionId].users| + 1 && finalUsername == Suffixed(username, k)
  {
    var existingUsers, _ := store.GetSessionUsers(sessionId);
    var existingUsernames := Usernames(existingUsers);
    finalUsername := ResolveUsername(username, existingUsernames);
    ListedUsernames(existingUsers, store.sessions[sessionId].users);
  }

  /** The names of a listing of participants are exactly the participants' display names. */
  lemma ListedUsernames(users: seq<User>, m: map<string, User>)
    requires Lists(users, m)
    ensures Elements(Usernames(users)) == UsernamesOf(m)
  {
    var names := Usernames(users);
    forall x | x in UsernamesOf(m)
      ensures x in Elements(names)
    {
      var u :| u in m.Values && u.username == x;
      var i :| 0 <= i < |users| && users[i] == u;
      assert names[i] == x;
    }
  }

  // ---------------------------------------------------------------------
  // The handlers
  // ---------------------------------------------------------------------

  class SessionHandlers {
    /** Connection to the session it joined. */
    var socketToSession: map<ConnId, string>
    /** Connection to the participant created for it. */
    var socketToUser: map<ConnId, User>

    constructor ()
      ensures socketToSession == map[] && socketToUser == map[]
    {
      socketToSession := map[];
      socketToUser := map[];
    }

    /** The leaving procedure acts only for a connection with a non-empty session binding and a participant. */
    predicate Bound(conn: ConnId)
      reads this
    {
      conn in socketToSession && socketToSession[conn] != "" && conn in socketToUser
    }

    /**
     * `join-session`: checks the session, picks a free display name, adds a
     * participant bound to `conn` (its id `newUserId` comes from the
     * identifier generator), records both bindings, subscribes `conn` to the
     * room, replies with the participant list and tells the rest of the room.
     * A connection that is already bound is re-bound; its previous
     * participant stays in the store.
     */
    method JoinSession(store: SessionStore, io: Gateway, conn: ConnId, sessionId: string,
                       username: string, newUserId: string, now: int)
      requires store.Valid()
      modifies this, store, io
      ensures store.Valid()
      ensures sessionId !in old(store.sessions) ==>
                && store.sessions == old(store.sessions)
                && socketToSession == old(socketToSession)
                && socketToUser == old(socketToUser)
                && io.rooms == old(io.rooms)
                && io.outbox == old(io.outbox) + [Emission({conn}, ErrorMessage(SESSION_NOT_FOUND))]
      ensures sessionId in old(store.sessions) ==>
                && conn in socketToUser
                && var user := socketToUser[conn];
                && var before := old(store.sessions)[sessionId];
                && user.id == newUserId && user.socketId == conn
                && IsFirstFreeName(username, UsernamesOf(before.users), user.username)
                && store.sessions == old(store.sessions)[sessionId :=
                     before.(users := before.users[newUserId := user], lastActivity := now)]
                && socketToSession == old(socketToSession)[conn := sessionId]
                && socketToUser == old(socketToUser)[conn := user]
                && io.rooms == old(io.rooms)[sessionId := old(io.Room(sessionId)) + {conn}]
                && io.outbox == old(io.outbox) + [
                     Emission({conn}, SessionJoined(user.id, user.username, store.sessions[sessionId].users)),
                     Emission(old(io.Room(sessionId)) - {conn}, UserJoined(user, store.sessions[sessionId].users))]
    {
      var session := store.GetSession(sessionId);
      if session.None? {
        io.EmitToSocket(conn, ErrorMessage(SESSION_NOT_FOUND));
        return;
      }

      var finalUsername := ChooseUsername(store, sessionId, username);

      var user := User(newUserId, finalUsername, conn);
      var _ := store.AddUserToSession(sessionId, user, now);

      socketToSession := socketToSession[conn := sessionId];
      socketToUser := socketToUser[conn := user];

      io.Join(conn, sessionId);
      assert io.Room(sessionId) - {conn} == old(io.Room(sessionId)) - {conn};

      io.EmitToSocket(conn, SessionJoined(user.id, finalUsername, store.UsersOf(sessionId)));
      io.EmitToOthers(sessionId, conn, UserJoined(user, store.UsersOf(sessionId)));
    }

    /**
     * The procedure run on both `leave-session` and `disconnect`: for a bound
     * connection, remove its participant, unsubscribe it, tell the remaining
     * room members with the updated list, and clear both bindings; otherwise
     * do nothing.
     */
    method HandleUserLeaving(store: SessionStore, io: Gateway, conn: ConnId, now: int)
      requires store.Valid()
      modifies this, store, io
      ensures store.Valid()
      ensures !old(Bound(conn)) ==>
                && store.sessions == old(store.sessions)
                && socketToSession == old(socketToSession)
                && socketToUser == old(socketToUser)
                && io.rooms == old(io.rooms)
                && io.outbox == old(io.outbox)
      ensures old(Bound(conn)) ==>
                && var sid := old(socketToSession[conn]);
                && var user := old(socketToUser[conn]);
                && store.sessions ==
                     (if sid in old(store.sessions) && user.id in old(store.sessions)[sid].users
                      then old(store.sessions)[sid := old(store.sessions)[sid].(
                             users := old(store.sessions)[sid].users - {user.id}, lastActivity := now)]
                      else old(store.sessions))
                && user.id !in store.UsersOf(sid)
                && io.rooms == old(io.rooms)[sid := old(io.Room(sid)) - {conn}]
                && io.outbox == old(io.outbox) + [
                     Emission(old(io.Room(sid)) - {conn}, UserLeft(user.id, user.username, store.UsersOf(sid)))]
                && socketToSession == old(socketToSession) - {conn}
                && socketToUser == old(socketToUser) - {conn}
    {
      if Bound(conn) {
        var sessionId := socketToSession[conn];
        var user := socketToUser[conn];

        var _ := store.RemoveUserFromSession(sessionId, user.id, now);

        io.Leave(conn, sessionId);
        assert io.Room(sessionId) - {conn} == old(io.Room(sessionId)) - {conn};

        io.EmitToOthers(sessionId, conn, UserLeft(user.id, user.username, store.UsersOf(sessionId)));

        socketToSession := socketToSession - {conn};
        socketToUser := socketToUser - {conn};
      }
    }
  }
}
