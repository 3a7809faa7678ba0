# LetsCube room sessions and user reducer, in Dafny

LetsCube lets speedcubers race in shared rooms. This project models two parts of it.

- **The room session coordinator** (`server/socket/index.js`). The socket server keeps:
  - room documents, found by access code;
  - for each connection, its logged-in user (if any) and its current room (if any).

  Its handlers let a connection:
  - join a room;
  - submit a result for an attempt;
  - create a room;
  - fetch a room by id;
  - delete its room or request a new scramble, if it is the room's admin;
  - leave its room, or disconnect.

  In `socket_server.dfy` this is the class `SocketServer.Coordinator`, with three fields:
  - `rooms`: the registry, from access code to room;
  - `conns`: the connection records;
  - `log`: every event sent out, with its audience. The audiences are the sender, the others in a room, everyone in a room, or everyone. The log makes statements like "errors go only to the connection that caused them" provable.

  Each `socket.on` handler is a method. Its `ensures` gives the new registry, connections and log in terms of the old ones, via pure per-room steps in `rooms.dfy`. Those steps are: joining, leaving with the admin hand-over, recording a result, and creating a room. The lemmas about them are in `rooms.dfy` too.
- **The client's user reducer** (`app/store/user/reducer.js`), in `user_reducer.dfy`. A JavaScript object is a map from property names to values. `Reduce` is the reducer: a lookup in its table of two handlers (USER_CHANGED, USER_FETCHING) that returns a fresh merged object. The lemmas state what each action does to each property.

How the model reads the code:
- A room document is saved and re-read as one shared value. Every change to it is committed at once, and `findOne`/`findById` are registry reads.
- Promise callbacks, and the callback handed to `newAttempt`, run in program order, as if at once.
- `room.doneWithScramble()` and `room.newAttempt()` belong to the Room schema, whose code is not part of this model. They are the parameter `Rooms.AttemptHooks`: a predicate on the room, and an operation that returns the new attempt list and the attempt it announces.
- `bcrypt.hashSync` is the parameter `hash`.
- `attachUser` is the user passed to `OnConnection`.
- The id and access code of a new room are parameters. The store must make them fresh.

The model follows the code in three behaviours a reader might not expect:
- Joining checks no password, even for a private room.
- Creating a room does not add the creator to its users or make them admin. Only a later JOIN_ROOM does that.
- Nothing in the handlers keeps the result keys of an attempt among the room's users. Results from users who have since left stay in place.

## Model

| member | source | states |
|---|---|---|
| `Rooms.NewRoom` | server/socket/index.js:114-122 | A created room is private exactly when a non-empty password is given. It stores the password's hash exactly when it is private. It starts with no users, no admin and no attempts, so it meets the admin invariant. |
| `Rooms.Without` | server/socket/index.js:224 | The filter keeps exactly the users whose id differs from the leaver's. It never grows the list, and it returns the list itself when no entry has that id. |
| `Rooms.Departed` | server/socket/index.js:224-241 | After a leave, a user remains exactly when they were there and have another id. If users remain, the first one is admin; otherwise there is no admin. The admin invariant holds, and no other field changes. |
| `Rooms.RecordResult` | server/socket/index.js:94 | The submitted result becomes the user's entry in that attempt. Every other user's entry, the attempt's id and scrambles, every other attempt and every other room field stay as they were. |
| `Rooms.Joined` | server/socket/index.js:55-71 | A logged-in join appends the user to `users`. The joiner becomes admin exactly when the room had no users; otherwise the admin is kept. The attempts become `newAttempt`'s list exactly when the room with the joiner pushed is done, and stay as they were otherwise. The admin invariant is preserved, and every other field is kept. |
| `Rooms.AfterLeave` | server/socket/index.js:223-244 | The leave's whole effect on the room: the same users and admin as `Departed`, so the leaver's id is gone and the admin invariant holds. The attempts become `newAttempt`'s list exactly when users remain and are done, and stay as they were otherwise. Every other field is kept. |
| `Rooms.WithoutDistributes` | server/socket/index.js:224 | Filtering a concatenation is concatenating the filtered parts, so the remaining users keep their order. |
| `Rooms.NextAdminIsEarliestRemaining` | server/socket/index.js:224-229 | The new admin after a leave is the earliest entry of the old list that is not the leaver's, even when the leaver was not admin. |
| `Rooms.DepartIdempotent` | server/socket/index.js:224-229 | Leaving a second time changes nothing more. |
| `Rooms.RejoinDuplicates` | server/socket/index.js:56 | Joining twice leaves two more entries for the user in `users`. The push does not check for duplicates. |
| `Rooms.LaterResultWins` | server/socket/index.js:94 | A later submission for the same attempt and user overwrites the earlier one. |
| `Rooms.SubmissionsCommute` | server/socket/index.js:94 | Submissions by different users, or to different attempts, give the same room in either order. |
| `Rooms.AdminCheckAsWritten` | server/socket/index.js:193 | The admin test as written throws a TypeError exactly when the room has no admin. Otherwise it grants exactly when the admin's id is the user's, which is the corrected `IsAdmin`, and denies every other user. |
| `Rooms.AdminCheckAgreesWhenAdminPresent` | server/socket/index.js:193 | The check as written throws exactly when the room has no admin. When there is an admin, it grants exactly what the corrected `IsAdmin` grants. |
| `Rooms.CreatedRoomAdminCheckThrows` | server/socket/index.js:114-118 | A just-created room has no admin. The check as written throws for its creator, and the corrected test denies them. |
| `Rooms.SoleLeaverAdminCheckThrows` | server/socket/index.js:240-242 | After the last user leaves, the admin is cleared. The check as written throws, and the corrected test denies. |
| `SocketServer.ReplaceRoomKeepsRegistryValid` | server/socket/index.js:56-67 | Saving a room under its own code, with its id kept and the admin invariant holding, keeps the registry invariant and the set of access codes. |
| `SocketServer.GuardFailures` | server/socket/index.js:203-221 | The combined guard sends nothing exactly when the connection has both a user and a room. Without a user it sends exactly the 403 "Must be logged in" error. With a user but no room it sends exactly the 400 "Have be in a room" error. Errors go to the sender only. |
| `SocketServer.AdminFailures` | server/socket/index.js:190-201 | `checkAdmin` sends nothing to the room's admin. To a connection in a room it does not administer, it sends exactly the 403 "Must be admin of room" error. Otherwise it sends exactly the guard's errors. Every error goes to the sender only. |
| `SocketServer.JoinEvents` | server/socket/index.js:54-71 | A join first sends the room, with the joiner pushed, back to the joiner, then USER_JOIN with the joiner to the others in the room. Then, in this order, the NEW_ATTEMPT broadcast, sent exactly when the room is done after the push, and the UPDATE_ADMIN broadcast, sent exactly when the room was empty. Nothing else is sent, and errors go to the joiner only. |
| `SocketServer.SubmitEvents` | server/socket/index.js:95-105 | An accepted submission first sends NEW_RESULT with the attempt id, the user id and the result. It then sends NEW_ATTEMPT exactly when the room is done, and nothing else. Everything goes to the whole room, and none of it is an error. |
| `SocketServer.LeaveEvents` | server/socket/index.js:226-236 | A leave first tells the others the leaver's id. If users remain, the second event tells the room the new admin, the first remaining user. A third and last event, NEW_ATTEMPT, follows exactly when the remaining users are done. If none remain, nothing else is sent. |
| `SocketServer.Coordinator.constructor` | server/socket/index.js:23-34 | The server starts on the stored rooms, with no connections and nothing sent. |
| `SocketServer.Coordinator.OnConnection` | server/socket/index.js:34-40 | A new connection has the user `attachUser` found and no room. It receives the room list and nothing else changes. |
| `SocketServer.Coordinator.IsLoggedIn` | server/socket/index.js:203-211 | Passes exactly when the connection has a user; otherwise it sends the 403 error. |
| `SocketServer.Coordinator.IsInRoom` | server/socket/index.js:213-221 | Passes exactly when the connection has a room; otherwise it sends the 400 error. |
| `SocketServer.Coordinator.IsLoggedInAndInRoom` | server/socket/index.js:81-83 | Passes exactly when the connection has both. The room check runs only after the login check passes, so at most one error is sent. |
| `SocketServer.Coordinator.CheckAdmin` | server/socket/index.js:190-201 | Passes exactly when the connection's user is the admin of its room, using the corrected test. It sends the errors `AdminFailures` lists. |
| `SocketServer.Coordinator.SendNewScramble` | server/socket/index.js:246-250 | The room takes the attempt list from `newAttempt`, and the whole room hears of the new attempt. |
| `SocketServer.Coordinator.OnJoinRoom` | server/socket/index.js:43-77 | An unknown access code sends a 404 error to the caller only and changes nothing. An anonymous caller only receives the room. A logged-in caller is joined via `Joined`, the room becomes the caller's, and the events are `JoinEvents`. The registry invariant is kept. |
| `SocketServer.Coordinator.JoinAsMember` | server/socket/index.js:55-71 | The logged-in path of a join: the room becomes `Joined`, the connection's room becomes the joined one, and the events are `JoinEvents`. |
| `SocketServer.Coordinator.OnSubmitResult` | server/socket/index.js:79-107 | Without a user and a room, it sends the guard's error and changes nothing. An attempt index out of range sends a 400 error and changes nothing. Otherwise the room becomes `RecordResult`, followed by a new attempt when everyone is done, and the events are `SubmitEvents`. |
| `SocketServer.Coordinator.AcceptResult` | server/socket/index.js:94-105 | The accepted path of a submission: the recorded room, then a new attempt if the room is done. |
| `SocketServer.Coordinator.OnCreateRoom` | server/socket/index.js:109-132 | An anonymous caller gets a 403 error and nothing changes. Otherwise the room `NewRoom` builds is registered and becomes the caller's room, and the caller gets ROOM_CREATED, FORCE_JOIN and JOIN in that order. |
| `SocketServer.Coordinator.OnFetchRoom` | server/socket/index.js:135-147 | The room with the given id goes to the caller alone; if there is none, a 404 error does. |
| `SocketServer.Coordinator.OnDeleteRoom` | server/socket/index.js:150-166 | Anyone but the admin gets `checkAdmin`'s errors, and the registry is unchanged. For another room's id, the admin gets a 403 error and the room stays. Otherwise the room leaves the registry, the caller's connection leaves it, and everyone hears of it. |
| `SocketServer.Coordinator.OnRequestScramble` | server/socket/index.js:168-174 | Only the room's admin gets a new attempt, announced to the room. Anyone else gets `checkAdmin`'s errors, and nothing changes. |
| `SocketServer.Coordinator.LeaveRoom` | server/socket/index.js:223-244 | The room becomes `AfterLeave` and the events are `LeaveEvents`. The connection leaves the room exactly when users remain. |
| `SocketServer.Coordinator.Depart` | server/socket/index.js:224-243 | The body of `leaveRoom()`: the room becomes `AfterLeave`, the events are `LeaveEvents`, and the connection leaves the room exactly when users remain. |
| `SocketServer.Coordinator.HandOverAdmin` | server/socket/index.js:228-239 | Where users remain: the first becomes admin and the room hears of it, a new attempt follows when the room is done, and the connection's room is cleared. |
| `SocketServer.Coordinator.OnLeaveRoom` | server/socket/index.js:184-188 | Behind both guards, the result is `LeaveRoom`'s: the new registry, the new log, and the connections with only the leaver's room changed. Afterwards the leaver's id is not in `users`, and the connection still has the room exactly when no users remain. |
| `SocketServer.Coordinator.OnDisconnect` | server/socket/index.js:176-182 | The same as a leave, and then the connection record is dropped. |
| `UserReducer.Assign` | app/store/user/reducer.js:19 | `Object.assign` copies the source's properties over the target's. The result has the properties of both, and the source's value wins. |
| `UserReducer.Reducers` | app/store/user/reducer.js:17-27 | The table has an entry exactly for USER_CHANGED and USER_FETCHING. |
| `UserReducer.Apply` | app/store/user/reducer.js:18-26 | The USER_FETCHING entry adds `fetching` to the state's properties and sets it to true. The USER_CHANGED entry adds `fetching` and the user's properties; each of the user's properties gets the user's value, and `fetching` is false unless the user carries it. Either way, every other property of the state keeps its value. |
| `UserReducer.Reduce` | app/store/user/reducer.js:30-36 | No action removes a property from the state, or from `INITIAL_STATE` when the state is absent. |
| `UserReducer.UnhandledKeepsState` | app/store/user/reducer.js:31-35 | An action type with no table entry returns the state unchanged. |
| `UserReducer.AbsentStateIsInitial` | app/store/user/reducer.js:6-30 | An absent state is `INITIAL_STATE`, which is fetching and has an undefined id. An unhandled action then returns `INITIAL_STATE`. |
| `UserReducer.FetchingSetsOnlyTheFlag` | app/store/user/reducer.js:23-26 | USER_FETCHING sets `fetching` to true and leaves every other property exactly as it was. |
| `UserReducer.FetchingIdempotent` | app/store/user/reducer.js:23-26 | USER_FETCHING twice is the same as once. |
| `UserReducer.ChangedMergesUser` | app/store/user/reducer.js:18-22 | USER_CHANGED gives each property of `action.user` its value there and keeps every other property of the state. `fetching` becomes false unless `action.user` carries its own. |
| `UserReducer.ChangedWithoutUser` | app/store/user/reducer.js:18-22 | USER_CHANGED without a user only clears `fetching`. |
| `UserReducer.ChangedIdempotent` | app/store/user/reducer.js:18-22 | Applying the same USER_CHANGED twice is the same as once. |
| `UserReducer.ChangedOverridesFetching` | app/store/user/reducer.js:18-26 | USER_FETCHING followed by USER_CHANGED is the same as USER_CHANGED alone. |

## Left out

- The socket.io transport, room subscription (`socket.join` and its callback) and the middleware chain are not modelled. An entry of `log` names the connection or the room topic it is sent to, not who is subscribed to that topic. Every joiner is subscribed at :54, anonymous ones too, but only a logged-in joiner gets a `room` (:57, :72-73). Nothing unsubscribes a connection when its room is cleared (:163, :238), so it keeps receiving that room's broadcasts.
- The push of a join at :56 is saved only when the room was empty (:66-68), or by a later save of the same document. The model commits it at once.
- `attachUser` (an asynchronous database lookup) is not modelled. The connection's user is an input of `OnConnection`.
- Mongoose is not modelled: per-connection copies of a room document, the timing of `save()`, and failed or interleaved promises. Each handler runs to completion before the next, and the registry is the one shared copy.
- A connection whose room another connection has deleted is not modelled faithfully. In the code it keeps working on its own stale document. In the model, every handler drops it after the guards while the deleted room's access code stays unused. If a later room takes that access code, the model treats the stale connection as a member of the new room: it can submit to it, leave it (resetting its admin) or, as its admin, delete it.
- SocketServer.Coordinator.OnCreateRoom: the Room schema is not part of this model. `NewRoom` reads its defaults as no admin and no attempts, and the Findings row rests on that reading. The id, access code and password hash come from the store and from `bcrypt`, and are parameters.
- `room.doneWithScramble()` and `room.newAttempt()` (Room schema, not part of this model) are parameters. `newAttempt` is taken to change only the attempt list.
- SocketServer.Coordinator.OnSubmitResult: an attempt id is an integer, whereas the code indexes `attempts` with whatever the client sends. Results are keyed by the numeric user id rather than its string form.
- SocketServer.LeaveEvents: the NEW_ATTEMPT broadcast after a leave (:233-235) is logged as if `newAttempt` called back at once. If it calls back later, `socket.room` has already been cleared at :238, the broadcast at :257 throws, and nothing is sent.
- Concurrency and console logging are not modelled.
- UserReducer.Reduce: property order and inherited (prototype) properties of JavaScript objects are not modelled. Action types are a datatype, because the constants of `./actions` are not part of this model.
- The React components, the room action creators and the deployment configuration are not modelled. They have no server or reducer logic.

## Findings

| source | as written | input that shows it | evidently intended | confidence | as-written member | corrected member |
|---|---|---|---|---|---|---|
| server/socket/index.js:193 | `checkAdmin` reads `socket.room.admin.id` even when the room has no admin. That throws a TypeError inside the handler. | The creator of a just-created room sends DELETE_ROOM or REQUEST_SCRAMBLE: the room has `admin` unset and `users` empty (:114-130). Or the sole member leaves, which clears `admin` but keeps `socket.room` (:240-242), and then sends REQUEST_SCRAMBLE. | A room without an admin denies the request like any non-admin. | medium, not executed (the Room schema's defaults are not part of this model) | `Rooms.AdminCheckAsWritten`, shown by `Rooms.CreatedRoomAdminCheckThrows` and `Rooms.SoleLeaverAdminCheckThrows` | `Rooms.IsAdmin`, proved in `Rooms.AdminCheckAgreesWhenAdminPresent` and `SocketServer.Coordinator.CheckAdmin` |
