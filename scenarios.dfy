/**
 * Client methods that use only the handlers' contracts to derive the
 * outcomes of short event sequences.
 */
module Scenarios {
  import opened SessionTypes
  import opened SessionService
  import opened Realtime
  import opened SessionHandler
  import opened CodeHandler

  /** With one participant present, the taken names are just that participant's. */
  lemma OneParticipantNames(users: map<string, User>, id: string, u: User)
    requires users == map[id := u]
    ensures UsernamesOf(users) == {u.username}
  {
    assert users[id] == u;
    assert forall v :: v in users.Values ==> v == u;
    assert users.Values == {u};
  }

  /** When only `n` is taken, a second participant asking for `n` is named `n-2`. */
  lemma SecondJoinGetsSuffix2(n: string, name: string)
    requires IsFirstFreeName(n, {n}, name)
    ensures name == n + "-2"
  {
    var k :| 2 <= k && name == Suffixed(n, k)
             && forall j :: 2 <= j < k ==> Suffixed(n, j) in {n};
    SuffixedInjective(n, 2, 2);
    assert k == 2;
    assert DecimalString(2) == "2";
  }

  /** "Ada" joins twice from two connections: the second gets "Ada-2" and the first hears of it. */
  method DuplicateUsernameScenario()
  {
    var store := new SessionStore();
    var io := new Gateway();
    var sessions := new SessionHandlers();
    var _ := store.CreateSession("s", Python, 0);

    sessions.JoinSession(store, io, "c1", "s", "Ada", "u1", 1);
    var first := sessions.socketToUser["c1"];
    assert io.Room("s") == {"c1"};
    OneParticipantNames(store.sessions["s"].users, "u1", first);

    sessions.JoinSession(store, io, "c2", "s", "Ada", "u2", 2);
    var second := sessions.socketToUser["c2"];
    SecondJoinGetsSuffix2("Ada", second.username);
    assert second.username == "Ada-2";

    // The first connection receives `user-joined` with both participants.
    var joined := io.outbox[|io.outbox| - 1];
    assert joined == Emission({"c1"}, UserJoined(second, map["u1" := first, "u2" := second]));
  }

  /** A connection that never joined moves its cursor: nothing is sent and nothing changes. */
  method CursorBeforeJoinScenario()
  {
    var store := new SessionStore();
    var io := new Gateway();
    var code := new CodeHandlers();
    code.CursorMove(io, "c1", Position(0, 0));
    assert io.outbox == [] && store.sessions == map[];
  }

  /** Two bound connections: a code change reaches the other one only, and is stored. */
  method CodeChangeScenario()
  {
    var store := new SessionStore();
    var io := new Gateway();
    var sessions := new SessionHandlers();
    var code := new CodeHandlers();
    var _ := store.CreateSession("s", JavaScript, 0);
    sessions.JoinSession(store, io, "a", "s", "A", "ua", 1);
    assert "s" in store.sessions && io.Room("s") == {"a"};
    sessions.JoinSession(store, io, "b", "s", "B", "ub", 2);
    assert "s" in store.sessions && io.Room("s") == {"a", "b"};
    code.JoinSession("a", "s");
    code.JoinSession("b", "s");
    assert code.Bound("a") && code.socketToSession["a"] == "s";

    code.CodeChange(store, io, "a", "x=1", 3);
    assert io.outbox[|io.outbox| - 1] == Emission({"b"}, CodeUpdate("x=1", "a"));
    assert store.GetSession("s").value.code == "x=1";
  }
}
