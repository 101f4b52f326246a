/**
 * The authoritative in-memory session store. Every mutator looks the session
 * up by id and reports absence with `false` instead of failing; readers never
 * fail. Timestamps are passed in as `now` (integer milliseconds).
 */
module SessionService {
  import opened SessionTypes
  import opened Listing

  class SessionStore {
    /** Session id to session record. */
    var sessions: map<string, Session>

    /** Every session is stored under its own id, and so is every participant. */
    ghost predicate Valid()
      reads this
    {
      forall id :: id in sessions ==> sessions[id].id == id && UsersKeyed(sessions[id].users)
    }

    constructor ()
      ensures Valid() && sessions == map[]
    {
      sessions := map[];
    }

    /** The participants of session `id`, or none when it is unknown. */
    function UsersOf(id: string): map<string, User>
      reads this
    {
      if id in sessions then sessions[id].users else map[]
    }

    /**
     * Creates an empty session with the given language under `id`, which the
     * caller draws from the identifier generator.
     */
    method CreateSession(id: string, language: Language, now: int) returns (s: Session)
      requires Valid()
      modifies this
      ensures Valid()
      ensures s.id == id && s.language == language && s.code == ""
      ensures s.users == map[] && s.createdAt == now && s.lastActivity == s.createdAt
      ensures GetSession(id) == Some(s)
      ensures sessions == old(sessions)[id := s]
    {
      s := Session(id, language, "", map[], now, now);
      sessions := sessions[id := s];
    }

    /** The session stored under `id`, if any. */
    function GetSession(id: string): (r: Option<Session>)
      reads this
      requires Valid()
      ensures r.Some? <==> id in sessions
      ensures r.Some? ==> r.value.id == id && UsersKeyed(r.value.users)
      ensures r.Some? ==> r.value == sessions[id]
    {
      if id in sessions then Some(sessions[id]) else None
    }

    /** A snapshot that has a fixed "absent" shape for an unknown id. */
    function GetSessionMetadata(id: string): (md: SessionMetadata)
      reads this
      requires Valid()
      ensures md.sessionId == id
      ensures md.sessionExists <==> id in sessions
      ensures id !in sessions ==> md.language == JavaScript && md.userCount == 0
      ensures id in sessions ==> md.language == sessions[id].language
      ensures md.userCount == |UsersOf(id)|
    {
      if id !in sessions then
        SessionMetadata(id, JavaScript, 0, false)
      else
        var s := sessions[id];
        SessionMetadata(s.id, s.language, |s.users|, true)
    }

    /** Replaces the buffer of session `id` wholesale (last writer wins). */
    method UpdateSessionCode(id: string, code: string, now: int) returns (ok: bool)
      requires Valid()
      modifies this
      ensures Valid()
      ensures ok <==> id in old(sessions)
      ensures !ok ==> sessions == old(sessions)
      ensures ok ==> sessions == old(sessions)[id := old(sessions)[id].(code := code, lastActivity := now)]
    {
      if id !in sessions {
        return false;
      }
      sessions := sessions[id := sessions[id].(code := code, lastActivity := now)];
      ok := true;
    }

    /** Replaces the language of session `id`. */
    method UpdateSessionLanguage(id: string, language: Language, now: int) returns (ok: bool)
      requires Valid()
      modifies this
      ensures Valid()
      ensures ok <==> id in old(sessions)
      ensures !ok ==> sessions == old(sessions)
      ensures ok ==> sessions == old(sessions)[id := old(sessions)[id].(language := language, lastActivity := now)]
    {
      if id !in sessions {
        return false;
      }
      sessions := sessions[id := sessions[id].(language := language, lastActivity := now)];
      ok := true;
    }

    /** Inserts `user` into session `id`, overwriting a participant with the same id. */
    method AddUserToSession(id: string, user: User, now: int) returns (ok: bool)
      requires Valid()
      modifies this
      ensures Valid()
      ensures ok <==> id in old(sessions)
      ensures !ok ==> sessions == old(sessions)
      ensures ok ==> sessions == old(sessions)[id := old(sessions)[id].(users := old(sessions)[id].users[user.id := user], lastActivity := now)]
      ensures ok ==> |old(sessions)[id].users| <= |sessions[id].users| <= |old(sessions)[id].users| + 1
    {
      if id !in sessions {
        return false;
      }
      var s := sessions[id];
      sessions := sessions[id := s.(users := s.users[user.id := user], lastActivity := now)];
      ok := true;
    }

    /** Removes participant `userId`; only an actual removal touches `lastActivity`. */
    method RemoveUserFromSession(id: string, userId: string, now: int) returns (removed: bool)
      requires Valid()
      modifies this
      ensures Valid()
      ensures removed <==> id in old(sessions) && userId in old(sessions)[id].users
      ensures !removed ==> sessions == old(sessions)
      ensures removed ==> sessions == old(sessions)[id := old(sessions)[id].(users := old(sessions)[id].users - {userId}, lastActivity := now)]
      ensures removed ==> |sessions[id].users| == |old(sessions)[id].users| - 1
    {
      if id !in sessions {
        return false;
      }
      var s := sessions[id];
      removed := userId in s.users;
      if removed {
        sessions := sessions[id := s.(users := s.users - {userId}, lastActivity := now)];
      }
    }

    /**
     * The participants of session `id` in some order, each once; `ks` is the
     * order of their ids. Empty for an unknown id.
     */
    method GetSessionUsers(id: string) returns (users: seq<User>, ghost ks: seq<string>)
      requires Valid()
      ensures id !in sessions ==> users == []
      ensures ListsByKeys(users, ks, UsersOf(id))
      ensures Lists(users, UsersOf(id))
      ensures forall u :: u in users ==> u.id in UsersOf(id) && UsersOf(id)[u.id] == u
      ensures forall i, j :: 0 <= i < j < |users| ==> users[i] != users[j]
    {
      if id !in sessions {
        return [], [];
      }
      users, ks := ListValues(sessions[id].users);
    }

    /** Deletes session `id`; reports whether it was there. */
    method DeleteSession(id: string) returns (ok: bool)
      requires Valid()
      modifies this
      ensures Valid()
      ensures ok <==> id in old(sessions)
      ensures sessions == old(sessions) - {id}
      ensures GetSession(id) == None
    {
      ok := id in sessions;
      sessions := sessions - {id};
    }

    /** Every stored session, in some order, each once; `ks` is the order of their ids. */
    method GetAllSessions() returns (all: seq<Session>, ghost ks: seq<string>)
      requires Valid()
      ensures ListsByKeys(all, ks, sessions)
      ensures Lists(all, sessions)
      ensures forall s :: s in all ==> s.id in sessions && sessions[s.id] == s
      ensures forall i, j :: 0 <= i < j < |all| ==> all[i] != all[j]
    {
      all, ks := ListValues(sessions);
    }

    /** Bumps `lastActivity`; a no-op for an unknown id. */
    method TouchSession(id: string, now: int)
      requires Valid()
      modifies this
      ensures Valid()
      ensures id !in old(sessions) ==> sessions == old(sessions)
      ensures id in old(sessions) ==> sessions == old(sessions)[id := old(sessions)[id].(lastActivity := now)]
    {
      if id in sessions {
        sessions := sessions[id := sessions[id].(lastActivity := now)];
      }
    }
  }
}
