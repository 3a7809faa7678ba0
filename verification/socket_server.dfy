/**
 * The room session coordinator of server/socket/index.js: one `Coordinator` holds the room
 * registry (access code to room document), the record of every open connection (its
 * optional user and optional current room) and the log of every event sent out. Each
 * `socket.on` handler is a method; `emit`, `broadcast`, `broadcastToAllInRoom` and
 * `broadcastToEveryone` append to the log with the audience they reach.
 */
module SocketServer {
  import opened Wrappers
  import opened Rooms

  type ConnId = nat

  /** `socket.user` and `socket.room`; the room is named by its access code. */
  datatype Conn = Conn(user: Option<User>, room: Option<AccessCode>)

  /** The audience of an outgoing event. */
  datatype Scope =
    | ToSender(conn: ConnId)                              // socket.emit
    | ToOthersInRoom(code: AccessCode, except: ConnId)    // socket.broadcast.to(code)
    | ToRoom(code: AccessCode)                            // io.in(code)
    | ToEveryone                                          // io.emit

  /** Protocol event names the handlers send or quote in error payloads. */
  datatype Message =
    | UpdateRooms | Join | UserJoin | UpdateAdmin | NewResult | NewAttempt | UserLeft
    | RoomCreated | ForceJoin | UpdateRoom | RoomDeleted | Error
    | SubmitResult | FetchRoom | DeleteRoom

  datatype Payload =
    | ErrorInfo(statusCode: nat, event: Option<Message>, message: string)
    | RoomData(room: Room)
    | RoomList(rooms: set<Room>)
    | UserData(user: User)
    | UserIdData(id: UserId)
    | ResultData(attemptId: int, userId: UserId, result: Solve)
    | AttemptData(attempt: Attempt)
    | RoomIdData(roomId: RoomId)

  datatype Event = Event(scope: Scope, message: Message, payload: Payload)

  function Failure(c: ConnId, statusCode: nat, event: Option<Message>, text: string): Event {
    Event(ToSender(c), Error, ErrorInfo(statusCode, event, text))
  }

  // The error events of the handlers, each to the sender alone.
  function NotLoggedIn(c: ConnId): Event { Failure(c, 403, None, "Must be logged in") }
  function NotInRoom(c: ConnId): Event { Failure(c, 400, None, "Have be in a room") }
  function NotAdmin(c: ConnId): Event { Failure(c, 403, None, "Must be admin of room") }
  function NotOwnRoom(c: ConnId): Event {
    Failure(c, 403, Some(DeleteRoom), "Must be admin of your own room")
  }
  function InvalidAttemptId(c: ConnId): Event {
    Failure(c, 400, Some(SubmitResult), "Invalid ID for attempt submission")
  }
  function NoSuchAccessCode(c: ConnId, code: AccessCode): Event {
    Failure(c, 404, None, "Could not find room with accessCode " + code)
  }
  function NoSuchRoomId(c: ConnId, id: RoomId): Event {
    Failure(c, 404, Some(FetchRoom), "Could not find room with id " + id)
  }

  /** Every error event in `events` goes to connection `c` alone. */
  predicate ErrorsOnlyTo(events: seq<Event>, c: ConnId) {
    forall e :: e in events && e.message == Error ==> e.scope == ToSender(c)
  }

  /** Registry invariant: each room is filed under its own access code, ids are unique, and
      every room has an admin exactly when it has users, that admin being one of them. */
  predicate RegistryValid(rooms: map<AccessCode, Room>) {
    && (forall k :: k in rooms ==> rooms[k].accessCode == k && AdminConsistent(rooms[k]))
    && (forall k, k' :: k in rooms && k' in rooms && rooms[k].id == rooms[k'].id ==> k == k')
  }

  /** Replacing a room by one with the same code and id that keeps the room invariant keeps
      the registry invariant. */
  lemma ReplaceRoomKeepsRegistryValid(rooms: map<AccessCode, Room>, code: AccessCode, r: Room)
    requires RegistryValid(rooms) && code in rooms
    requires r.accessCode == code && r.id == rooms[code].id && AdminConsistent(r)
    ensures RegistryValid(rooms[code := r])
    ensures rooms[code := r].Keys == rooms.Keys
  {
  }

  lemma AppendAssoc(a: seq<Event>, b: seq<Event>, c: seq<Event>)
    ensures a + b + c == a + (b + c)
  {
  }

  /** A second write to the same key replaces the first. */
  lemma OverwriteRoom(rooms: map<AccessCode, Room>, code: AccessCode, first: Room, second: Room)
    ensures rooms[code := first][code := second] == rooms[code := second]
  {
  }

  /** The errors `isLoggedIn() && isInRoom()` sends: at most one, as `&&` short-circuits. */
  function GuardFailures(c: ConnId, conn: Conn): (es: seq<Event>)
    ensures es == [] <==> conn.user.Some? && conn.room.Some?
    ensures conn.user.None? ==> es == [NotLoggedIn(c)]
    ensures conn.user.Some? && conn.room.None? ==> es == [NotInRoom(c)]
    ensures ErrorsOnlyTo(es, c)
  {
    if conn.user.None? then [NotLoggedIn(c)]
    else if conn.room.None? then [NotInRoom(c)]
    else []
  }

  /** A logged-in connection whose current room is still in the registry. */
  predicate Active(conn: Conn, rooms: map<AccessCode, Room>) {
    conn.user.Some? && conn.room.Some? && conn.room.value in rooms
  }

  /** `checkAdmin()` with the corrected admin test: true only for the room's admin. */
  predicate HoldsAdmin(conn: Conn, rooms: map<AccessCode, Room>) {
    Active(conn, rooms) && IsAdmin(rooms[conn.room.value], conn.user.value)
  }

  /** The errors `checkAdmin()` sends. */
  function AdminFailures(c: ConnId, conn: Conn, rooms: map<AccessCode, Room>): (es: seq<Event>)
    ensures HoldsAdmin(conn, rooms) ==> es == []
    ensures Active(conn, rooms) && !HoldsAdmin(conn, rooms) ==> es == [NotAdmin(c)]
    ensures !Active(conn, rooms) ==> es == GuardFailures(c, conn)
    ensures ErrorsOnlyTo(es, c)
  {
    GuardFailures(c, conn) +
    if Active(conn, rooms) && !IsAdmin(rooms[conn.room.value], conn.user.value)
    then [NotAdmin(c)] else []
  }

  /** The NEW_ATTEMPT broadcast of `sendNewScramble`. */
  function AttemptAnnouncement(r: Room, hooks: AttemptHooks, code: AccessCode): Event {
    Event(ToRoom(code), NewAttempt, AttemptData(hooks.newAttempt(r).1))
  }

  /** The broadcast of the `if (room.doneWithScramble()) sendNewScramble()` step. */
  function MaybeAnnouncement(r: Room, hooks: AttemptHooks, code: AccessCode): seq<Event> {
    if hooks.doneWithScramble(r) then [AttemptAnnouncement(r, hooks, code)] else []
  }

  /** What a logged-in join sends: the room to the joiner, the joiner to the others, then
      the new attempt and the new admin to the whole room when they happen. */
  function JoinEvents(r: Room, u: User, hooks: AttemptHooks, code: AccessCode, c: ConnId): (es: seq<Event>)
    ensures ErrorsOnlyTo(es, c)
    ensures |es| >= 2 && es[0] == Event(ToSender(c), Join, RoomData(AddMember(r, u)))
    ensures es[1] == Event(ToOthersInRoom(code, c), UserJoin, UserData(u))
    ensures var pushed := AddMember(r, u);
      hooks.doneWithScramble(pushed) <==> AttemptAnnouncement(pushed, hooks, code) in es
    ensures (r.users == [] <==> Event(ToRoom(code), UpdateAdmin, UserData(u)) in es)
    ensures |es| == 2 + (if hooks.doneWithScramble(AddMember(r, u)) then 1 else 0)
                      + (if r.users == [] then 1 else 0)
    ensures hooks.doneWithScramble(AddMember(r, u)) ==>
      es[2] == AttemptAnnouncement(AddMember(r, u), hooks, code)
    ensures r.users == [] ==> es[|es| - 1] == Event(ToRoom(code), UpdateAdmin, UserData(u))
  {
    var pushed := AddMember(r, u);
    [Event(ToSender(c), Join, RoomData(pushed)), Event(ToOthersInRoom(code, c), UserJoin, UserData(u))]
    + MaybeAnnouncement(pushed, hooks, code)
    + (if |pushed.users| == 1 then [Event(ToRoom(code), UpdateAdmin, UserData(u))] else [])
  }

  /** What an accepted submission sends: the result to the whole room, then the new attempt
      if the room is done. */
  function SubmitEvents(recorded: Room, attemptId: int, uid: UserId, result: Solve,
                        hooks: AttemptHooks, code: AccessCode): (es: seq<Event>)
    ensures forall e :: e in es ==> e.scope == ToRoom(code) && e.message != Error
    ensures |es| == (if hooks.doneWithScramble(recorded) then 2 else 1)
    ensures es[0] == Event(ToRoom(code), NewResult, ResultData(attemptId, uid, result))
    ensures |es| == 2 ==> es[1] == AttemptAnnouncement(recorded, hooks, code)
  {
    [Event(ToRoom(code), NewResult, ResultData(attemptId, uid, result))]
    + MaybeAnnouncement(recorded, hooks, code)
  }

  /** What a leave sends: the leaver's id to the others; if users remain, the new admin and
      possibly the new attempt to the whole room. */
  function LeaveEvents(r: Room, uid: UserId, hooks: AttemptHooks, code: AccessCode, c: ConnId): (es: seq<Event>)
    ensures ErrorsOnlyTo(es, c)
    ensures |es| >= 1 && es[0] == Event(ToOthersInRoom(code, c), UserLeft, UserIdData(uid))
    ensures Departed(r, uid).users != [] ==>
      Event(ToRoom(code), UpdateAdmin, UserData(Departed(r, uid).users[0])) in es
    ensures Departed(r, uid).users != [] ==>
      (hooks.doneWithScramble(Departed(r, uid)) <==> AttemptAnnouncement(Departed(r, uid), hooks, code) in es)
    ensures Departed(r, uid).users == [] ==> |es| == 1
    ensures Departed(r, uid).users != [] ==>
      && |es| == (if hooks.doneWithScramble(Departed(r, uid)) then 3 else 2)
      && es[1] == Event(ToRoom(code), UpdateAdmin, UserData(Departed(r, uid).users[0]))
    ensures |es| == 3 ==> es[2] == AttemptAnnouncement(Departed(r, uid), hooks, code)
  {
    var left := Departed(r, uid);
    [Event(ToOthersInRoom(code, c), UserLeft, UserIdData(uid))]
    + if left.users != [] then
        [Event(ToRoom(code), UpdateAdmin, UserData(left.users[0]))] + MaybeAnnouncement(left, hooks, code)
      else []
  }

  class Coordinator {
    var rooms: map<AccessCode, Room>
    var conns: map<ConnId, Conn>
    var log: seq<Event>

    ghost predicate Valid()
      reads this`rooms
    {
      RegistryValid(rooms)
    }

    /** A server started on the rooms already stored, with no connection yet. */
    constructor (stored: map<AccessCode, Room>)
      requires RegistryValid(stored)
      ensures Valid()
      ensures rooms == stored && conns == map[] && log == []
    {
      rooms := stored;
      conns := map[];
      log := [];
    }

    /** 'connection': the new socket carries the user `attachUser` found, and gets the room list. */
    method OnConnection(c: ConnId, user: Option<User>)
      requires Valid() && c !in conns
      modifies this`rooms, this`conns, this`log
      ensures Valid() && rooms == old(rooms)
      ensures conns == old(conns)[c := Conn(user, None)]
      ensures log == old(log) + [Event(ToSender(c), UpdateRooms, RoomList(rooms.Values))]
    {
      conns := conns[c := Conn(user, None)];
      log := log + [Event(ToSender(c), UpdateRooms, RoomList(rooms.Values))];
    }

    /** `isLoggedIn()`: reports the connection's user, with a 403 error when there is none. */
    method IsLoggedIn(c: ConnId) returns (ok: bool)
      requires c in conns
      modifies this`log
      ensures ok <==> conns[c].user.Some?
      ensures log == old(log) + (if ok then [] else [NotLoggedIn(c)])
    {
      ok := conns[c].user.Some?;
      if !ok {
        log := log + [NotLoggedIn(c)];
      }
    }

    /** `isInRoom()`: reports the connection's room, with a 400 error when there is none. */
    method IsInRoom(c: ConnId) returns (ok: bool)
      requires c in conns
      modifies this`log
      ensures ok <==> conns[c].room.Some?
      ensures log == old(log) + (if ok then [] else [NotInRoom(c)])
    {
      ok := conns[c].room.Some?;
      if !ok {
        log := log + [NotInRoom(c)];
      }
    }

    /** `!isLoggedIn() || !isInRoom()` negated: both guards, the second only if the first passes. */
    method IsLoggedInAndInRoom(c: ConnId) returns (ok: bool)
      requires c in conns
      modifies this`log
      ensures ok <==> conns[c].user.Some? && conns[c].room.Some?
      ensures log == old(log) + GuardFailures(c, conns[c])
    {
      ok := IsLoggedIn(c);
      if ok {
        ok := IsInRoom(c);
      }
    }

    /** `checkAdmin()`: passes only for the admin of the connection's room; 403 otherwise. */
    method CheckAdmin(c: ConnId) returns (ok: bool)
      requires c in conns
      modifies this`log
      ensures ok <==> HoldsAdmin(conns[c], rooms)
      ensures log == old(log) + AdminFailures(c, conns[c], rooms)
    {
      ok := IsLoggedInAndInRoom(c);
      if !ok {
        return;
      }
      var code := conns[c].room.value;
      if code !in rooms {
        ok := false;
        return;
      }
      if !IsAdmin(rooms[code], conns[c].user.value) {
        log := log + [NotAdmin(c)];
        ok := false;
      }
    }

    /** `sendNewScramble()`: the room takes the attempt list `newAttempt` gives; its users hear of it. */
    method SendNewScramble(code: AccessCode, hooks: AttemptHooks)
      requires code in rooms
      modifies this`rooms, this`log
      ensures rooms == old(rooms)[code := WithNewAttempt(old(rooms[code]), hooks)]
      ensures log == old(log) + [AttemptAnnouncement(old(rooms[code]), hooks, code)]
    {
      var room := rooms[code];
      rooms := rooms[code := WithNewAttempt(room, hooks)];
      log := log + [AttemptAnnouncement(room, hooks, code)];
    }

    /**
     * JOIN_ROOM. An unknown code gets a 404 error and changes nothing. An anonymous
     * connection only receives the room. A logged-in one is pushed onto `users` (even when
     * already there), makes the room its own, and becomes admin if it is the only entry.
     */
    method OnJoinRoom(c: ConnId, code: AccessCode, hooks: AttemptHooks)
      requires Valid() && c in conns
      modifies this`rooms, this`conns, this`log
      ensures Valid()
      ensures code !in old(rooms) ==>
        && rooms == old(rooms) && conns == old(conns)
        && log == old(log) + [NoSuchAccessCode(c, code)]
      ensures code in old(rooms) && old(conns[c].user).None? ==>
        && rooms == old(rooms) && conns == old(conns)
        && log == old(log) + [Event(ToSender(c), Join, RoomData(old(rooms[code])))]
      ensures code in old(rooms) && old(conns[c].user).Some? ==>
        var u := old(conns[c].user.value);
        && rooms == old(rooms)[code := Joined(old(rooms[code]), u, hooks)]
        && conns == old(conns)[c := old(conns[c]).(room := Some(code))]
        && log == old(log) + JoinEvents(old(rooms[code]), u, hooks, code, c)
      ensures ErrorsOnlyTo(log[|old(log)|..], c)
    {
      if code !in rooms {
        log := log + [NoSuchAccessCode(c, code)];
        return;
      }
      var room := rooms[code];
      var conn := conns[c];
      if conn.user.Some? {
        ghost var before := rooms;
        JoinAsMember(c, code, hooks);
        ReplaceRoomKeepsRegistryValid(before, code, Joined(before[code], conn.user.value, hooks));
      } else {
        log := log + [Event(ToSender(c), Join, RoomData(room))];
      }
    }

    /** The logged-in path of JOIN_ROOM: lines 55-71. */
    method JoinAsMember(c: ConnId, code: AccessCode, hooks: AttemptHooks)
      requires c in conns && code in rooms && conns[c].user.Some?
      modifies this`rooms, this`conns, this`log
      ensures var u := old(conns[c].user.value);
        && rooms == old(rooms)[code := Joined(old(rooms[code]), u, hooks)]
        && conns == old(conns)[c := old(conns[c]).(room := Some(code))]
        && log == old(log) + JoinEvents(old(rooms[code]), u, hooks, code, c)
    {
      var room := rooms[code];
      var conn := conns[c];
      var u := conn.user.value;
      ghost var before, sent := rooms, log;
      room := AddMember(room, u);
      rooms := rooms[code := room];
      conns := conns[c := conn.(room := Some(code))];
      var greeting := [Event(ToSender(c), Join, RoomData(room)), Event(ToOthersInRoom(code, c), UserJoin, UserData(u))];
      log := log + greeting;
      if hooks.doneWithScramble(room) {
        SendNewScramble(code, hooks);
        OverwriteRoom(before, code, room, WithNewAttempt(room, hooks));
      }
      ghost var refreshed := MaybeNewAttempt(room, hooks);
      ghost var announced := MaybeAnnouncement(room, hooks, code);
      assert rooms == before[code := refreshed];
      assert log == sent + greeting + announced;
      var crowned: seq<Event> := [];
      if |rooms[code].users| == 1 {
        rooms := rooms[code := rooms[code].(admin := Some(u))];
        crowned := [Event(ToRoom(code), UpdateAdmin, UserData(u))];
        log := log + crowned;
        OverwriteRoom(before, code, refreshed, refreshed.(admin := Some(u)));
      }
      assert rooms == before[code := Joined(before[code], u, hooks)];
      assert JoinEvents(before[code], u, hooks, code, c) == greeting + announced + crowned;
      AppendAssoc(sent, greeting, announced);
      AppendAssoc(sent, greeting + announced, crowned);
    }

    /**
     * SUBMIT_RESULT. Needs a user and a room (else the guard's error); an attempt index
     * out of range gets a 400 error. Otherwise the user's result for that attempt is set,
     * the room hears of it, and a new attempt follows when everyone is done.
     */
    method OnSubmitResult(c: ConnId, attemptId: int, result: Solve, hooks: AttemptHooks)
      requires Valid() && c in conns
      modifies this`rooms, this`log
      ensures Valid() && conns == old(conns)
      ensures !Active(old(conns[c]), old(rooms)) ==>
        rooms == old(rooms) && log == old(log) + GuardFailures(c, old(conns[c]))
      ensures Active(old(conns[c]), old(rooms)) ==>
        var code := old(conns[c].room.value);
        var uid := old(conns[c].user.value.id);
        if !(0 <= attemptId < |old(rooms[code].attempts)|) then
          && rooms == old(rooms)
          && log == old(log) + [InvalidAttemptId(c)]
        else
          var recorded := RecordResult(old(rooms[code]), attemptId, uid, result);
          && rooms == old(rooms)[code := MaybeNewAttempt(recorded, hooks)]
          && log == old(log) + SubmitEvents(recorded, attemptId, uid, result, hooks, code)
      ensures ErrorsOnlyTo(log[|old(log)|..], c)
    {
      var ok := IsLoggedInAndInRoom(c);
      if !ok {
        return;
      }
      var code := conns[c].room.value;
      if code !in rooms {
        return;
      }
      var room := rooms[code];
      if !(0 <= attemptId < |room.attempts|) {
        log := log + [InvalidAttemptId(c)];
        return;
      }
      AcceptResult(c, code, attemptId, result, hooks);
    }

    /** The accepted path of SUBMIT_RESULT: lines 94-105. */
    method AcceptResult(c: ConnId, code: AccessCode, attemptId: nat, result: Solve, hooks: AttemptHooks)
      requires Valid() && c in conns && conns[c].user.Some?
      requires code in rooms && attemptId < |rooms[code].attempts|
      modifies this`rooms, this`log
      ensures Valid()
      ensures var recorded := RecordResult(old(rooms[code]), attemptId, conns[c].user.value.id, result);
        && rooms == old(rooms)[code := MaybeNewAttempt(recorded, hooks)]
        && log == old(log) + SubmitEvents(recorded, attemptId, conns[c].user.value.id, result, hooks, code)
    {
      var uid := conns[c].user.value.id;
      ghost var before, sent := rooms, log;
      var room := RecordResult(rooms[code], attemptId, uid, result);
      rooms := rooms[code := room];
      var reported := [Event(ToRoom(code), NewResult, ResultData(attemptId, uid, result))];
      log := log + reported;
      if hooks.doneWithScramble(room) {
        SendNewScramble(code, hooks);
        OverwriteRoom(before, code, room, WithNewAttempt(room, hooks));
      }
      assert rooms == before[code := MaybeNewAttempt(room, hooks)];
      assert log == sent + reported + MaybeAnnouncement(room, hooks, code);
      AppendAssoc(sent, reported, MaybeAnnouncement(room, hooks, code));
      ReplaceRoomKeepsRegistryValid(before, code, MaybeNewAttempt(room, hooks));
      assert rooms.Keys == before.Keys;
    }

    /**
     * CREATE_ROOM. Needs a user (else 403). The new room, private exactly when a non-empty
     * password is given, has no users and no admin; everyone hears of it and the creator's
     * connection makes it its room. `id` and `code` are the ones the store assigns.
     */
    method OnCreateRoom(c: ConnId, name: string, password: Option<string>,
                        id: RoomId, code: AccessCode, hash: string -> string)
      requires Valid() && c in conns
      requires code !in rooms && forall k :: k in rooms ==> rooms[k].id != id
      modifies this`rooms, this`conns, this`log
      ensures Valid()
      ensures old(conns[c].user).None? ==>
        && rooms == old(rooms) && conns == old(conns)
        && log == old(log) + [NotLoggedIn(c)]
      ensures old(conns[c].user).Some? ==>
        var room := NewRoom(id, code, name, password, hash);
        && rooms == old(rooms)[code := room]
        && conns == old(conns)[c := old(conns[c]).(room := Some(code))]
        && log == old(log) + [Event(ToEveryone, RoomCreated, RoomData(room)),
                              Event(ToSender(c), ForceJoin, RoomData(room)),
                              Event(ToSender(c), Join, RoomData(room))]
      ensures ErrorsOnlyTo(log[|old(log)|..], c)
    {
      var ok := IsLoggedIn(c);
      if !ok {
        return;
      }
      var room := NewRoom(id, code, name, password, hash);
      rooms := rooms[code := room];
      log := log + [Event(ToEveryone, RoomCreated, RoomData(room)), Event(ToSender(c), ForceJoin, RoomData(room))];
      conns := conns[c := conns[c].(room := Some(code))];
      log := log + [Event(ToSender(c), Join, RoomData(room))];
    }

    /** FETCH_ROOM: the room with that id goes to the caller alone, or a 404 error does. */
    method OnFetchRoom(c: ConnId, id: RoomId)
      requires Valid() && c in conns
      modifies this`log
      ensures forall k :: k in rooms && rooms[k].id == id ==>
        log == old(log) + [Event(ToSender(c), UpdateRoom, RoomData(rooms[k]))]
      ensures (forall k :: k in rooms ==> rooms[k].id != id) ==>
        log == old(log) + [NoSuchRoomId(c, id)]
    {
      if k :| k in rooms && rooms[k].id == id {
        log := log + [Event(ToSender(c), UpdateRoom, RoomData(rooms[k]))];
      } else {
        log := log + [NoSuchRoomId(c, id)];
      }
    }

    /**
     * DELETE_ROOM. Only the admin of the connection's room may delete, and only that room
     * (403 otherwise, the registry unchanged). The room leaves the registry, the caller's
     * connection leaves the room, and everyone hears of it.
     */
    method OnDeleteRoom(c: ConnId, id: RoomId)
      requires Valid() && c in conns
      modifies this
      ensures Valid()
      ensures !HoldsAdmin(old(conns[c]), old(rooms)) ==>
        && rooms == old(rooms) && conns == old(conns)
        && log == old(log) + AdminFailures(c, old(conns[c]), old(rooms))
      ensures HoldsAdmin(old(conns[c]), old(rooms)) ==>
        var code := old(conns[c].room.value);
        if old(rooms[code].id) != id then
          && rooms == old(rooms) && conns == old(conns)
          && log == old(log) + [NotOwnRoom(c)]
        else
          && rooms == old(rooms) - {code}
          && conns == old(conns)[c := old(conns[c]).(room := None)]
          && log == old(log) + [Event(ToEveryone, RoomDeleted, RoomIdData(id))]
      ensures ErrorsOnlyTo(log[|old(log)|..], c)
    {
      var ok := CheckAdmin(c);
      if !ok {
        return;
      }
      var code := conns[c].room.value;
      if rooms[code].id != id {
        log := log + [NotOwnRoom(c)];
        return;
      }
      rooms := rooms - {code};
      conns := conns[c := conns[c].(room := None)];
      log := log + [Event(ToEveryone, RoomDeleted, RoomIdData(id))];
    }

    /** REQUEST_SCRAMBLE: the admin forces a new attempt; anyone else gets the admin check's error. */
    method OnRequestScramble(c: ConnId, hooks: AttemptHooks)
      requires Valid() && c in conns
      modifies this`rooms, this`log
      ensures Valid() && conns == old(conns)
      ensures !HoldsAdmin(old(conns[c]), old(rooms)) ==>
        rooms == old(rooms) && log == old(log) + AdminFailures(c, old(conns[c]), old(rooms))
      ensures HoldsAdmin(old(conns[c]), old(rooms)) ==>
        var code := old(conns[c].room.value);
        && rooms == old(rooms)[code := WithNewAttempt(old(rooms[code]), hooks)]
        && log == old(log) + [AttemptAnnouncement(old(rooms[code]), hooks, code)]
      ensures ErrorsOnlyTo(log[|old(log)|..], c)
    {
      var ok := CheckAdmin(c);
      if !ok {
        return;
      }
      SendNewScramble(conns[c].room.value, hooks);
    }

    /**
     * `leaveRoom()`: every entry of the user leaves `users`; the others hear of it. If
     * users remain, the first becomes admin, the room hears of it, a new attempt follows
     * when everyone left is done, and the connection leaves the room. If none remain, the
     * admin is cleared and the connection keeps the room.
     */
    method LeaveRoom(c: ConnId, hooks: AttemptHooks)
      requires Valid() && c in conns && conns[c].user.Some? && conns[c].room.Some?
      modifies this`rooms, this`conns, this`log
      ensures Valid()
      ensures !Active(old(conns[c]), old(rooms)) ==>
        rooms == old(rooms) && conns == old(conns) && log == old(log)
      ensures Active(old(conns[c]), old(rooms)) ==>
        var code := old(conns[c].room.value);
        var uid := old(conns[c].user.value.id);
        var remaining := Departed(old(rooms[code]), uid).users != [];
        && rooms == old(rooms)[code := AfterLeave(old(rooms[code]), uid, hooks)]
        && conns == old(conns)[c := old(conns[c]).(room := if remaining then None else Some(code))]
        && log == old(log) + LeaveEvents(old(rooms[code]), uid, hooks, code, c)
    {
      var code := conns[c].room.value;
      if code !in rooms {
        return;
      }
      ghost var before, uid := rooms, conns[c].user.value.id;
      Depart(c, code, hooks);
      ReplaceRoomKeepsRegistryValid(before, code, AfterLeave(before[code], uid, hooks));
    }

    /** The body of `leaveRoom()` for a room that is in the registry: lines 224-243. */
    method Depart(c: ConnId, code: AccessCode, hooks: AttemptHooks)
      requires c in conns && code in rooms && conns[c].user.Some? && conns[c].room == Some(code)
      modifies this`rooms, this`conns, this`log
      ensures var uid := old(conns[c].user.value.id);
        var remaining := Departed(old(rooms[code]), uid).users != [];
        && rooms == old(rooms)[code := AfterLeave(old(rooms[code]), uid, hooks)]
        && conns == old(conns)[c := old(conns[c]).(room := if remaining then None else Some(code))]
        && log == old(log) + LeaveEvents(old(rooms[code]), uid, hooks, code, c)
    {
      var uid := conns[c].user.value.id;
      ghost var before, sent, linked := rooms, log, conns;
      ghost var left := Departed(before[code], uid);
      var room := rooms[code].(users := Without(rooms[code].users, uid));
      rooms := rooms[code := room];
      var farewell := [Event(ToOthersInRoom(code, c), UserLeft, UserIdData(uid))];
      log := log + farewell;
      if |room.users| > 0 {
        assert room.(admin := Some(room.users[0])) == left;
        HandOverAdmin(c, code, hooks);
        OverwriteRoom(before, code, room, MaybeNewAttempt(left, hooks));
        assert rooms == before[code := AfterLeave(before[code], uid, hooks)];
        ghost var rest := [Event(ToRoom(code), UpdateAdmin, UserData(left.users[0]))]
                          + MaybeAnnouncement(left, hooks, code);
        assert LeaveEvents(before[code], uid, hooks, code, c) == farewell + rest;
        AppendAssoc(sent, farewell, rest);
      } else {
        rooms := rooms[code := room.(admin := None)];
        OverwriteRoom(before, code, room, room.(admin := None));
        assert LeaveEvents(before[code], uid, hooks, code, c) == farewell;
        assert left.users == [] && conns == linked;
        assert room.(admin := None) == left == AfterLeave(before[code], uid, hooks);
        assert linked[c].(room := Some(code)) == linked[c];
      }
    }

    /**
     * The branch of `leaveRoom()` where users remain: the first becomes admin and the room
     * hears of it, a new attempt follows when everyone left is done, and the connection
     * leaves the room.
     */
    method HandOverAdmin(c: ConnId, code: AccessCode, hooks: AttemptHooks)
      requires c in conns && code in rooms && rooms[code].users != []
      modifies this`rooms, this`conns, this`log
      ensures var crowned := old(rooms[code]).(admin := Some(old(rooms[code]).users[0]));
        && rooms == old(rooms)[code := MaybeNewAttempt(crowned, hooks)]
        && conns == old(conns)[c := old(conns[c]).(room := None)]
        && log == old(log) + ([Event(ToRoom(code), UpdateAdmin, UserData(crowned.users[0]))]
                              + MaybeAnnouncement(crowned, hooks, code))
    {
      ghost var before, sent := rooms, log;
      var room := rooms[code].(admin := Some(rooms[code].users[0]));
      rooms := rooms[code := room];
      var told := [Event(ToRoom(code), UpdateAdmin, UserData(room.users[0]))];
      log := log + told;
      if hooks.doneWithScramble(room) {
        SendNewScramble(code, hooks);
        OverwriteRoom(before, code, room, WithNewAttempt(room, hooks));
      }
      AppendAssoc(sent, told, MaybeAnnouncement(room, hooks, code));
      conns := conns[c := conns[c].(room := None)];
    }

    /**
     * LEAVE_ROOM: `leaveRoom()` behind both guards. Afterwards the leaver's id is nowhere in
     * `users`, and the connection has left the room exactly when users remain.
     */
    method OnLeaveRoom(c: ConnId, hooks: AttemptHooks)
      requires Valid() && c in conns
      modifies this`rooms, this`conns, this`log
      ensures Valid() && c in conns
      ensures !Active(old(conns[c]), old(rooms)) ==>
        rooms == old(rooms) && conns == old(conns) && log == old(log) + GuardFailures(c, old(conns[c]))
      ensures Active(old(conns[c]), old(rooms)) ==>
        var code := old(conns[c].room.value);
        var uid := old(conns[c].user.value.id);
        var remaining := Departed(old(rooms[code]), uid).users != [];
        && rooms == old(rooms)[code := AfterLeave(old(rooms[code]), uid, hooks)]
        && log == old(log) + LeaveEvents(old(rooms[code]), uid, hooks, code, c)
        && conns == old(conns)[c := old(conns[c]).(room := if remaining then None else Some(code))]
        && (forall u :: u in rooms[code].users ==> u.id != uid)
        && (rooms[code].users != [] <==> conns[c].room.None?)
      ensures ErrorsOnlyTo(log[|old(log)|..], c)
    {
      var ok := IsLoggedInAndInRoom(c);
      if ok {
        assert GuardFailures(c, conns[c]) == [] && log == old(log);
        LeaveRoom(c, hooks);
      }
    }

    /** DISCONNECT: as LEAVE_ROOM, after which the transport drops the connection. */
    method OnDisconnect(c: ConnId, hooks: AttemptHooks)
      requires Valid() && c in conns
      modifies this`rooms, this`conns, this`log
      ensures Valid() && conns == old(conns) - {c}
      ensures !Active(old(conns[c]), old(rooms)) ==>
        rooms == old(rooms) && log == old(log) + GuardFailures(c, old(conns[c]))
      ensures Active(old(conns[c]), old(rooms)) ==>
        var code := old(conns[c].room.value);
        var uid := old(conns[c].user.value.id);
        && rooms == old(rooms)[code := AfterLeave(old(rooms[code]), uid, hooks)]
        && log == old(log) + LeaveEvents(old(rooms[code]), uid, hooks, code, c)
        && (forall u :: u in rooms[code].users ==> u.id != uid)
      ensures ErrorsOnlyTo(log[|old(log)|..], c)
    {
      var ok := IsLoggedInAndInRoom(c);
      if ok {
        assert GuardFailures(c, conns[c]) == [] && log == old(log);
        LeaveRoom(c, hooks);
      }
      conns := conns - {c};
    }
  }
}
