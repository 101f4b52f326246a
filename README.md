# Real-time session coordinator, modelled in Dafny

This project models the coordinator behind a collaborative code editor.
Participants join a shared session from their own connections. Edits,
language switches and cursor positions are relayed to everyone else in
the session. Sessions are kept in memory and evicted by a periodic sweep.
Execution output is cut down before it is displayed.

The model has these parts:

- `SessionTypes` holds the values: `User`, `Session` (participants keyed by
  their id), `SessionMetadata` and `Language`.
- `SessionService.SessionStore` is the in-memory store, a class whose
  `sessions` map the operations update in place. `Valid()` says that every
  session is keyed by its own id and every participant by theirs.
- `SessionCleanup` holds the eviction rule (`ShouldEvict`, `Sweep`) and the
  sweeper class `SessionCleanupService`. Its loop is proved to leave the store
  at exactly `Sweep(old store, now)`.
- `Realtime.Gateway` stands for the transport. It has room memberships and an
  outbox that records every emission with its set of recipients. That makes
  "sent to the rest of the room" and "sent to the sender only" statable.
- `SessionHandler`, `CodeHandler` and `ExecutionHandler` are the three groups
  of connection event handlers. Each keeps its own connection-to-session map
  (and, for two of them, a connection-to-participant map) as class fields.
- `SocketServer.Dispatch` routes one inbound event to the handlers registered
  for it, in registration order.
- `OutputLimiter` is the output truncation used by the browser-side runner.
- `Scenarios` derives the outcome of short event sequences from the handler
  contracts alone. Examples are the duplicate name "Ada" becoming "Ada-2", and
  a cursor move before any join being dropped.

Clock readings (`now`) and generated identifiers (`newUserId`, the session
`id`) are parameters of the operations that use them.

Choices that follow the code:

- A connection bound to the empty session id counts as unbound. The handlers
  test their bindings for truthiness, and the empty string is falsy.
- When a connection closes, the transport removes it from every room before
  the `disconnect` listeners run. `Dispatch` therefore calls `LeaveAll` first.
  As a result, a disconnect removes the connection from every room, including
  the room of a session it joined earlier, while a `leave-session` removes it
  only from the room of its current session.
- The execution handlers are modelled, but the connection setup
  (`apps/backend/src/socket/index.ts:19-20`) registers only the session and
  code handlers. `Dispatch` therefore gives `execution-started` and
  `execution-result` no effect.
- Sessions are evicted by age since creation. Activity does not matter
  (`EvictionIgnoresActivity`).
- The duplicate-name search gives the bound `k <= n + 1`, where `n` is the
  number of current participants.

## Model

| member | source | states |
|---|---|---|
| `SessionService.SessionStore.constructor` | apps/backend/src/services/session.service.ts:5 | the store starts empty and valid |
| `SessionService.SessionStore.CreateSession` | apps/backend/src/services/session.service.ts:10-25 | the new session has the given id and language, empty code, no participants, and both timestamps equal to `now`; it is stored under its id and the other sessions are unchanged |
| `SessionService.SessionStore.GetSession` | apps/backend/src/services/session.service.ts:30-32 | `Some` of the stored session exactly when the id is present, `None` otherwise |
| `SessionService.SessionStore.GetSessionMetadata` | apps/backend/src/services/session.service.ts:37-55 | for a missing id: no session, zero participants and JavaScript; otherwise the session's language and participant count |
| `SessionService.SessionStore.UpdateSessionCode` | apps/backend/src/services/session.service.ts:60-69 | returns true exactly when the session exists; then only that session's code and activity time change, and otherwise nothing changes |
| `SessionService.SessionStore.UpdateSessionLanguage` | apps/backend/src/services/session.service.ts:74-83 | the same as the code update, for the language |
| `SessionService.SessionStore.AddUserToSession` | apps/backend/src/services/session.service.ts:88-97 | for an existing session: stores the participant under their id (overwriting one with the same id) and touches the session; the participant count grows by at most one; for a missing session it returns false and nothing changes |
| `SessionService.SessionStore.RemoveUserFromSession` | apps/backend/src/services/session.service.ts:102-113 | true exactly when the session existed and held that participant id; then only that participant is removed and the session is touched |
| `SessionService.SessionStore.GetSessionUsers` | apps/backend/src/services/session.service.ts:118-125 | the result lists the session's participants, each exactly once, in the order of a ghost enumeration of their ids with the i-th participant stored under the i-th id; it is empty for a missing session; the store is unchanged |
| `Listing.ListValues` | apps/backend/src/services/session.service.ts:124 | the result lists the value under each key exactly once: a key order enumerating every key once, with the i-th value under the i-th key; so its elements are exactly the map's values and its length the number of keys |
| `SessionService.SessionStore.DeleteSession` | apps/backend/src/services/session.service.ts:130-132 | removes the id, returning whether it was present; the other sessions are unchanged |
| `SessionService.SessionStore.GetAllSessions` | apps/backend/src/services/session.service.ts:137-139 | the result lists every stored session exactly once, in the order of a ghost enumeration of their ids with the i-th session stored under the i-th id |
| `SessionService.SessionStore.TouchSession` | apps/backend/src/services/session.service.ts:144-149 | sets the activity time of an existing session and changes nothing else; a missing id is ignored |
| `SessionCleanup.Sweep` | apps/backend/src/services/session-cleanup.service.ts:30-37 | the survivors are unchanged sessions of the input; none is older than the TTL, and none is both empty and older than the empty TTL; every session that meets neither condition survives |
| `SessionCleanup.OccupiedSessionSurvives` | apps/backend/src/services/session-cleanup.service.ts:31-36 | a session with a participant survives any run of sweeps, untouched, as long as it is not older than an hour at any of them |
| `SessionCleanup.ExpiredSessionGone` | apps/backend/src/services/session-cleanup.service.ts:31-37 | once any sweep runs at a time when a session is older than an hour, the session is absent after all later sweeps |
| `SessionCleanup.SweptStaysGone` | apps/backend/src/services/session-cleanup.service.ts:30-37 | sweeps never bring back a session id that is absent |
| `SessionCleanup.ThresholdsAreStrict` | apps/backend/src/services/session-cleanup.service.ts:31-36 | a session exactly one hour old, or an empty one exactly five minutes old, is kept: both comparisons are strict |
| `SessionCleanup.EvictionIgnoresActivity` | apps/backend/src/services/session-cleanup.service.ts:31-34 | the eviction decision is the same whatever the session's code, language and last-activity time |
| `SessionCleanup.EvictionIsMonotone` | apps/backend/src/services/session-cleanup.service.ts:31-34 | a session due for eviction at some time stays due at every later time |
| `SessionCleanup.SweepIsIdempotent` | apps/backend/src/services/session-cleanup.service.ts:30-37 | a second sweep at the same time changes nothing |
| `SessionCleanup.SessionCleanupService.constructor` | apps/backend/src/services/session-cleanup.service.ts:8 | no timer is registered at first |
| `SessionCleanup.SessionCleanupService.Start` | apps/backend/src/services/session-cleanup.service.ts:10-15 | afterwards the periodic sweep is registered |
| `SessionCleanup.SessionCleanupService.Stop` | apps/backend/src/services/session-cleanup.service.ts:17-23 | afterwards no sweep is registered; stopping a stopped service changes nothing |
| `SessionCleanup.SessionCleanupService.Tick` | apps/backend/src/services/session-cleanup.service.ts:12-14 | one timer firing sweeps the store while the service runs, and changes nothing once it is stopped |
| `SessionCleanup.SessionCleanupService.CleanupSessions` | apps/backend/src/services/session-cleanup.service.ts:25-50 | the loop over a snapshot of all sessions, deleting each due one, leaves the store equal to `Sweep` of the old store at `now` |
| `Realtime.Gateway.Join` | apps/backend/src/socket/handlers/session.handler.ts:48 | adds the connection to the room and sends nothing |
| `Realtime.Gateway.Leave` | apps/backend/src/socket/handlers/session.handler.ts:89 | removes the connection from the room and sends nothing |
| `Realtime.Gateway.EmitToSocket` | apps/backend/src/socket/handlers/session.handler.ts:16 | appends one emission addressed to the sender alone |
| `Realtime.Gateway.EmitToOthers` | apps/backend/src/socket/handlers/session.handler.ts:58-61 | appends one emission addressed to the room minus the sender |
| `Realtime.Gateway.EmitToRoom` | apps/backend/src/socket/handlers/code.handler.ts:56-59 | appends one emission addressed to the whole room, the sender included |
| `SessionHandler.DecimalString` | apps/backend/src/socket/handlers/session.handler.ts:27 | the decimal spelling is non-empty, and a single character exactly for numbers below ten |
| `SessionHandler.DecimalStringInjective` | apps/backend/src/socket/handlers/session.handler.ts:27 | different counters are spelled differently |
| `SessionHandler.SuffixedInjective` | apps/backend/src/socket/handlers/session.handler.ts:27-30 | `name-k` never equals `name`, and different `k` give different candidates |
| `SessionHandler.TakenSuffixesBound` | apps/backend/src/socket/handlers/session.handler.ts:25-29 | if `name` and `name-2` .. `name-(c-1)` are all taken, at least `c-1` names are taken, so the counter search ends |
| `SessionHandler.FirstFreeNameUnique` | apps/backend/src/socket/handlers/session.handler.ts:20-31 | the requested name and the taken names determine the assigned display name |
| `SessionHandler.ResolveUsername` | apps/backend/src/socket/handlers/session.handler.ts:21-31 | the result is not among the existing names; it is the request when that is free, else `request-k` for the least free `k >= 2`, with `k <= n+1` for `n` existing names |
| `SessionHandler.ListedUsernames` | apps/backend/src/socket/handlers/session.handler.ts:22-23 | the display names mapped from a listing of the participants are exactly the participants' display names, which is the set the suffix search checks against |
| `SessionHandler.ChooseUsername` | apps/backend/src/socket/handlers/session.handler.ts:20-31 | the chosen name is the first free name with respect to the session's current participants' names |
| `SessionHandler.SessionHandlers.constructor` | apps/backend/src/socket/handlers/session.handler.ts:7-8 | both binding maps start empty |
| `SessionHandler.SessionHandlers.JoinSession` | apps/backend/src/socket/handlers/session.handler.ts:12-64 | a missing session: "Session not found" to the sender only, and no other change; otherwise a participant with the generated id, a first-free display name and this connection is added; both bindings are set; the connection joins the room; `session-joined` goes to the sender and `user-joined` to the earlier room members, both with the updated participant map |
| `SessionHandler.SessionHandlers.HandleUserLeaving` | apps/backend/src/socket/handlers/session.handler.ts:80-104 | an unbound connection changes nothing; a bound one has its participant removed, leaves the room, and `user-left` with the updated participants goes to the rest of the room; both bindings are cleared |
| `CodeHandler.CodeHandlers.constructor` | apps/backend/src/socket/handlers/code.handler.ts:6 | the binding map starts empty |
| `CodeHandler.CodeHandlers.JoinSession` | apps/backend/src/socket/handlers/code.handler.ts:10-12 | binds the connection to the requested id whether or not the session exists |
| `CodeHandler.CodeHandlers.CodeChange` | apps/backend/src/socket/handlers/code.handler.ts:15-36 | unbound: "Not in a session" to the sender; missing session: "Failed to update code" to the sender; otherwise the store holds the new code and `code-update` goes to the rest of the room only |
| `CodeHandler.CodeHandlers.LanguageChange` | apps/backend/src/socket/handlers/code.handler.ts:39-60 | the same gating; on success the language is stored and `language-update` goes to the whole room, the sender included |
| `CodeHandler.CodeHandlers.CursorMove` | apps/backend/src/socket/handlers/code.handler.ts:63-75 | bound: `cursor-update` goes to the rest of the room; unbound: nothing is sent; never writes the store |
| `CodeHandler.CodeHandlers.Disconnect` | apps/backend/src/socket/handlers/code.handler.ts:78-80 | the connection's binding is removed |
| `ExecutionHandler.FindBySocket` | apps/backend/src/socket/handlers/execution.handler.ts:26 | `None` exactly when no listed participant has the connection; otherwise the first one that has it |
| `ExecutionHandler.ExecutionHandlers.constructor` | apps/backend/src/socket/handlers/execution.handler.ts:6-7 | both binding maps start empty |
| `ExecutionHandler.ExecutionHandlers.JoinSession` | apps/backend/src/socket/handlers/execution.handler.ts:20-31 | for a missing session nothing changes; otherwise the session binding is set, and the participant binding is set to a participant of that session with this connection when one exists |
| `ExecutionHandler.ExecutionHandlers.ExecutionStarted` | apps/backend/src/socket/handlers/execution.handler.ts:34-60 | not bound to the declared session: "Not in session" to the sender; no participant: "User not found" to the sender; otherwise the start notice goes to the whole room |
| `ExecutionHandler.ExecutionHandlers.ExecutionResultReceived` | apps/backend/src/socket/handlers/execution.handler.ts:63-87 | the same checks; the result is relayed unchanged to the whole room |
| `ExecutionHandler.ExecutionHandlers.Disconnect` | apps/backend/src/socket/handlers/execution.handler.ts:90-93 | both bindings of the connection are removed |
| `SocketServer.Dispatch` | apps/backend/src/socket/index.ts:15-25 | per event, the effect of the listeners registered for it: a join as the session handlers' join plus the code handlers' binding; leave and disconnect as the same leaving procedure (participant removed, `user-left` to the rest of the room, bindings cleared), with a disconnect also removing the connection from every room and from the code handlers, while every other connection keeps its rooms and code binding; code, language and cursor events as the code handlers state them; execution events change nothing |
| `OutputLimiter.NewlineCountPrefix` | apps/frontend/src/workers/utils/output-limiter.ts:33-34 | a prefix has no more line breaks than the whole text, so the character cap keeps the line cap |
| `OutputLimiter.Split` | apps/frontend/src/workers/utils/output-limiter.ts:17-18 | splitting on line breaks gives one more piece than there are breaks, and no piece holds a break |
| `OutputLimiter.JoinSplit` | apps/frontend/src/workers/utils/output-limiter.ts:17-27 | joining the pieces of a split with line breaks gives back the text |
| `OutputLimiter.JoinPrefix` | apps/frontend/src/workers/utils/output-limiter.ts:27 | joining the first pieces gives a prefix of joining all of them |
| `OutputLimiter.JoinAt` | apps/frontend/src/workers/utils/output-limiter.ts:27 | joining all pieces is joining the first `k`, one line break, and joining the rest, so the kept lines are followed by a break in the text |
| `OutputLimiter.JoinNewlines` | apps/frontend/src/workers/utils/output-limiter.ts:27 | joining `n` break-free pieces puts exactly `n-1` breaks in the result |
| `OutputLimiter.LineCapped` | apps/frontend/src/workers/utils/output-limiter.ts:26-30 | the text itself when it has at most 1000 lines; otherwise the prefix holding exactly 999 line breaks that stops right before the 1000th break, i.e. exactly the first 1000 lines |
| `OutputLimiter.Capped` | apps/frontend/src/workers/utils/output-limiter.ts:26-37 | a prefix of the line-capped text, of exactly 100000 characters when that is longer and all of it otherwise; it has at most 1000 lines, and is the text itself when the text is within both limits |
| `OutputLimiter.TruncateOutput` | apps/frontend/src/workers/utils/output-limiter.ts:11-45 | empty input comes back as is with zero stats; otherwise the stats are the input's line count and length; truncation happens exactly when a limit is exceeded; an untruncated text is unchanged; a truncated one is the capped text plus the marker |
| `OutputLimiter.TruncatedShape` | apps/frontend/src/workers/utils/output-limiter.ts:26-42 | truncated output is a prefix of the input within both limits, followed by the marker naming one of the two limits |
| `OutputLimiter.SmallOutputUnchanged` | apps/frontend/src/workers/utils/output-limiter.ts:21-44 | output within both limits is shown unchanged and not marked truncated |
| `Scenarios.SecondJoinGetsSuffix2` | apps/backend/tests/socket.handlers.test.ts:81-115 | for any name `n`, when only `n` is taken, the name assigned to a second participant asking for `n` is `n-2` |

## Left out

- Identifier generation (`generateUserId`, `generateSessionId`) is left out. Ids are parameters, and when an id collides the store overwrites, as the code does.
- `Date.now()`, `new Date()` and the `setInterval` timer are left out. Times are integer milliseconds passed in as `now`, and a timer firing is an explicit `Tick`.
- SessionCleanup.SessionCleanupService.Start: the model keeps one flag. So a second `start()`, which in the code registers a second timer and loses the handle of the first, is not modelled.
- Logging (`console.log`) and the sweeper's `cleanedCount`, which is only logged, are left out.
- The order of participant lists is not modelled. The code lists them in map insertion order. `GetSessionUsers` and `GetAllSessions` promise each entry once, in unspecified order, and event payloads carry the participant map itself.
- Aliasing of session objects is not modelled. The code hands out the stored session object itself. Sessions here are values, and every change goes through the store.
- Each `char` stands for one UTF-16 code unit, as JavaScript's `length`, `split` and `substring` count them. Dafny characters are Unicode scalar values, so text with surrogate code units (characters outside the Basic Multilingual Plane) is not represented: that such a character counts twice towards the character limit, and that the character cut can split a surrogate pair, is not modelled.
- The socket.io transport is not part of this model: delivery, acknowledgements, reconnection and the CORS setup. Only room membership and the recipients of each emission are modelled.
- The HTTP routes and controller, the code executors, the worker and the user interface are not part of this model.
- ExecutionHandler.ExecutionHandlers.JoinSession: when several participants of the session share the connection (a connection that joined the same session twice keeps its earlier participant), the code binds the earliest inserted one; the model does not keep insertion order, so it promises only some participant with that connection.
- Inbound socket payloads are taken to have their declared types. The code does not check them, so a `language-change` or `execution-started` carrying a language outside the six is stored or relayed as is; the model's closed `Language` type cannot represent that.
- `ExecutionResult.executionTime` is a `real` relayed unchanged. No floating-point arithmetic is modelled.
