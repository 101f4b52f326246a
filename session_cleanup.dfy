/**
 * The lifecycle sweeper: a periodic pass that evicts sessions older than an
 * hour, and sessions without participants older than five minutes. Age is
 * measured from `createdAt`. The real timer is modelled by an `active` flag
 * and an explicit `Tick(store, now)`.
 */
module SessionCleanup {
  import opened SessionTypes
  import opened SessionService

  const SESSION_TTL_MS: int := 60 * 60 * 1000
  const EMPTY_SESSION_TTL_MS: int := 5 * 60 * 1000
  const CLEANUP_INTERVAL_MS: int := 10 * 60 * 1000

  function Age(s: Session, now: int): int
  {
    now - s.createdAt
  }

  predicate IsExpired(s: Session, now: int)
  {
    Age(s, now) > SESSION_TTL_MS
  }

  predicate IsEmptyAndOld(s: Session, now: int)
  {
    |s.users| == 0 && Age(s, now) > EMPTY_SESSION_TTL_MS
  }

  /** The eviction rule applied to each session by one sweep. */
  predicate ShouldEvict(s: Session, now: int)
  {
    IsExpired(s, now) || IsEmptyAndOld(s, now)
  }

  /** The store contents after one sweep at time `now`. */
  function Sweep(m: map<string, Session>, now: int): (r: map<string, Session>)
    ensures forall id :: id in r ==> id in m && r[id] == m[id]
    ensures forall id :: id in r ==> !IsExpired(r[id], now) && !IsEmptyAndOld(r[id], now)
    ensures forall id :: id in m && !ShouldEvict(m[id], now) ==> id in r
  {
    map id | id in m && !ShouldEvict(m[id], now) :: m[id]
  }

  /** The store contents after sweeps at each of `times`, in order. */
  function SweepAll(m: map<string, Session>, times: seq<int>): map<string, Session>
    decreases |times|
  {
    if times == [] then m else SweepAll(Sweep(m, times[0]), times[1..])
  }

  /** A session with a participant, not older than an hour at any sweep, survives them all untouched. */
  lemma {:induction false} OccupiedSessionSurvives(m: map<string, Session>, id: string, times: seq<int>)
    requires id in m && |m[id].users| > 0
    requires forall i :: 0 <= i < |times| ==> Age(m[id], times[i]) <= SESSION_TTL_MS
    ensures id in SweepAll(m, times) && SweepAll(m, times)[id] == m[id]
    decreases |times|
  {
    if times != [] {
      var m' := Sweep(m, times[0]);
      assert !ShouldEvict(m[id], times[0]);
      assert id in m' && m'[id] == m[id];
      OccupiedSessionSurvives(m', id, times[1..]);
    }
  }

  /** A session older than the hard TTL at some sweep is gone afterwards, whatever its participants. */
  lemma {:induction false} ExpiredSessionGone(m: map<string, Session>, id: string, times: seq<int>, i: nat)
    requires i < |times|
    requires id in m && IsExpired(m[id], times[i])
    ensures id !in SweepAll(m, times)
    decreases |times|
  {
    var m' := Sweep(m, times[0]);
    if i == 0 {
      assert id !in m';
      SweptStaysGone(m', id, times[1..]);
    } else if id in m' {
      ExpiredSessionGone(m', id, times[1..], i - 1);
    } else {
      SweptStaysGone(m', id, times[1..]);
    }
  }

  /** Sweeps never bring a session back. */
  lemma {:induction false} SweptStaysGone(m: map<string, Session>, id: string, times: seq<int>)
    requires id !in m
    ensures id !in SweepAll(m, times)
    decreases |times|
  {
    if times != [] {
      SweptStaysGone(Sweep(m, times[0]), id, times[1..]);
    }
  }

  /** Both thresholds are strict: a session exactly at a TTL is kept. */
  lemma ThresholdsAreStrict(s: Session, now: int)
    requires (Age(s, now) == SESSION_TTL_MS && |s.users| > 0) || Age(s, now) == EMPTY_SESSION_TTL_MS
    ensures !ShouldEvict(s, now)
  {
  }

  /** Eviction depends only on `createdAt` and the participant count. */
  lemma EvictionIgnoresActivity(s: Session, now: int, language: Language, code: string, lastActivity: int)
    ensures ShouldEvict(s.(language := language, code := code, lastActivity := lastActivity), now)
        == ShouldEvict(s, now)
  {
  }

  /** A session due for eviction stays due as time passes. */
  lemma EvictionIsMonotone(s: Session, now: int, later: int)
    requires now <= later && ShouldEvict(s, now)
    ensures ShouldEvict(s, later)
  {
  }

  /** A second sweep at the same instant removes nothing more. */
  lemma SweepIsIdempotent(m: map<string, Session>, now: int)
    ensures Sweep(Sweep(m, now), now) == Sweep(m, now)
  {
  }

  /** The store after evicting, among the sessions whose ids are in `seen`, those due at `now`. */
  ghost function EvictSeen(m: map<string, Session>, seen: set<string>, now: int): map<string, Session>
  {
    map id | id in m && !(id in seen && ShouldEvict(m[id], now)) :: m[id]
  }

  /** Looking at one more session either evicts it or leaves the store as it was. */
  lemma EvictSeenStep(m: map<string, Session>, seen: set<string>, s: Session, now: int)
    requires s.id in m && m[s.id] == s
    ensures EvictSeen(m, seen + {s.id}, now) ==
              if ShouldEvict(s, now) then EvictSeen(m, seen, now) - {s.id} else EvictSeen(m, seen, now)
  {
  }

  /** Once every session has been looked at, the result is the sweep. */
  lemma EvictSeenAll(m: map<string, Session>, seen: set<string>, now: int)
    requires m.Keys <= seen
    ensures EvictSeen(m, seen, now) == Sweep(m, now)
  {
  }

  class SessionCleanupService {
    /** True while a periodic timer is registered (`cleanupInterval !== null`). */
    var active: bool

    constructor ()
      ensures !active
    {
      active := false;
    }

    /** Registers the periodic timer (the model keeps one flag; see README on a second call). */
    method Start()
      modifies this
      ensures active
    {
      active := true;
    }

    /** Releases the timer; a no-op when none is registered. */
    method Stop()
      modifies this
      ensures !active
      ensures !old(active) ==> unchanged(this)
    {
      if active {
        active := false;
      }
    }

    /** One firing of the timer: a sweep while the service runs, nothing once stopped. */
    method Tick(store: SessionStore, now: int)
      requires store.Valid()
      modifies store
      ensures store.Valid()
      ensures active ==> store.sessions == Sweep(old(store.sessions), now)
      ensures !active ==> store.sessions == old(store.sessions)
    {
      if active {
        CleanupSessions(store, now);
      }
    }

    /** One pass over a snapshot of all sessions, deleting those due for eviction. */
    method CleanupSessions(store: SessionStore, now: int)
      requires store.Valid()
      modifies store
      ensures store.Valid()
      ensures store.sessions == Sweep(old(store.sessions), now)
    {
      var all, _ := store.GetAllSessions();
      ghost var m0 := store.sessions;
      ghost var seen: set<string> := {};
      var i := 0;
      while i < |all|
        invariant 0 <= i <= |all|
        invariant store.Valid()
        invariant forall j :: 0 <= j < i ==> all[j].id in seen
        invariant store.sessions == EvictSeen(m0, seen, now)
      {
        var s := all[i];
        EvictSeenStep(m0, seen, s, now);
        if ShouldEvict(s, now) {
          var _ := store.DeleteSession(s.id);
        }
        seen := seen + {s.id};
        i := i + 1;
      }
      forall id | id in m0
        ensures id in seen
      {
        assert m0[id] in all;
      }
      EvictSeenAll(m0, seen, now);
    }
  }
}
