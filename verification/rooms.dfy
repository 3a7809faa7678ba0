/**
 * Room documents as the socket handlers of server/socket/index.js see them, and the
 * steps those handlers apply to one room: adding and removing members, electing the
 * admin, recording a result and appending an attempt.
 */
module Rooms {
  import opened Wrappers

  type UserId = nat
  type RoomId = string
  type AccessCode = string

  /** The logged-in user attached to a connection; the handlers only compare its id. */
  datatype User = User(id: UserId, name: string)

  /** A submitted result `{time, penalties}`; the server stores and forwards it unread. */
  datatype Solve = Solve(time: int, penalties: seq<string>)

  /** One attempt of a room: its id, its scrambles and the results keyed by user id. */
  datatype Attempt = Attempt(id: nat, scrambles: seq<string>, results: map<UserId, Solve>)

  datatype Room = Room(
    id: RoomId,
    accessCode: AccessCode,
    name: string,
    isPrivate: bool,
    passwordHash: Option<string>,
    users: seq<User>,
    admin: Option<User>,
    attempts: seq<Attempt>)

  /**
   * `room.doneWithScramble()` and `room.newAttempt(cb)` belong to the Room model, whose
   * code is not part of this model. They are parameters: a predicate on the room, and an
   * operation giving the room's new attempt list and the attempt handed to the callback.
   */
  datatype AttemptHooks = AttemptHooks(
    doneWithScramble: Room -> bool,
    newAttempt: Room -> (seq<Attempt>, Attempt))

  /** The room invariant: no admin exactly when there are no users, and the admin is a user. */
  predicate AdminConsistent(r: Room) {
    && (r.admin.None? <==> r.users == [])
    && (r.admin.Some? ==> r.admin.value in r.users)
  }

  /** The room a create request builds: private exactly when a non-empty password is given. */
  function NewRoom(id: RoomId, code: AccessCode, name: string, password: Option<string>,
                   hash: string -> string): (r: Room)
    ensures r.isPrivate <==> password.Some? && password.value != ""
    ensures r.passwordHash.Some? <==> r.isPrivate
    ensures r.isPrivate ==> r.passwordHash == Some(hash(password.value))
    ensures r.users == [] && r.admin.None? && r.attempts == []
    ensures r.id == id && r.accessCode == code && r.name == name
    ensures AdminConsistent(r)
  {
    var isPrivate := password.Some? && password.value != "";
    Room(id, code, name, isPrivate, if isPrivate then Some(hash(password.value)) else None,
         [], None, [])
  }

  /** `users.filter(i => i.id !== uid)`: every user whose id differs, in their order. */
  function Without(users: seq<User>, uid: UserId): (r: seq<User>)
    ensures forall u :: u in r <==> u in users && u.id != uid
    ensures |r| <= |users|
    ensures (forall i :: 0 <= i < |users| ==> users[i].id != uid) ==> r == users
  {
    if users == [] then []
    else if users[0].id == uid then Without(users[1..], uid)
    else [users[0]] + Without(users[1..], uid)
  }

  /** A logged-in joiner is pushed onto `users`, even when already present. */
  function AddMember(r: Room, u: User): Room {
    r.(users := r.users + [u])
  }

  /** After a join, a room whose user list has exactly one entry makes the joiner admin. */
  function ClaimAdminIfAlone(r: Room, u: User): Room {
    if |r.users| == 1 then r.(admin := Some(u)) else r
  }

  /**
   * The room after the user with id `uid` leaves: all of its entries are filtered out;
   * the first remaining user becomes admin, or the admin is cleared when none remain.
   */
  function Departed(r: Room, uid: UserId): (r': Room)
    ensures forall u :: u in r'.users <==> u in r.users && u.id != uid
    ensures r'.users != [] ==> r'.admin == Some(r'.users[0])
    ensures r'.users == [] ==> r'.admin.None?
    ensures AdminConsistent(r')
    ensures r'.(users := r.users, admin := r.admin) == r
  {
    var rest := Without(r.users, uid);
    r.(users := rest, admin := if |rest| > 0 then Some(rest[0]) else None)
  }

  /** `attempts[i].results.set(uid, s)`: one entry of one attempt set, everything else kept. */
  function RecordResult(r: Room, i: nat, uid: UserId, s: Solve): (r': Room)
    requires i < |r.attempts|
    ensures |r'.attempts| == |r.attempts|
    ensures uid in r'.attempts[i].results && r'.attempts[i].results[uid] == s
    ensures forall v :: v != uid ==>
      (v in r'.attempts[i].results <==> v in r.attempts[i].results) &&
      (v in r.attempts[i].results ==> r'.attempts[i].results[v] == r.attempts[i].results[v])
    ensures r'.attempts[i].id == r.attempts[i].id
    ensures r'.attempts[i].scrambles == r.attempts[i].scrambles
    ensures forall j :: 0 <= j < |r.attempts| && j != i ==> r'.attempts[j] == r.attempts[j]
    ensures r'.(attempts := r.attempts) == r
  {
    var a := r.attempts[i];
    r.(attempts := r.attempts[i := a.(results := a.results[uid := s])])
  }

  /** `sendNewScramble`: the room with the attempt list `newAttempt` produces. */
  function WithNewAttempt(r: Room, hooks: AttemptHooks): Room {
    r.(attempts := hooks.newAttempt(r).0)
  }

  /** The `if (room.doneWithScramble()) sendNewScramble()` step the handlers share. */
  function MaybeNewAttempt(r: Room, hooks: AttemptHooks): Room {
    if hooks.doneWithScramble(r) then WithNewAttempt(r, hooks) else r
  }

  /**
   * The room after a logged-in join: the user is appended, a new attempt follows if the
   * room is then done, and the user becomes admin if it is the only entry.
   */
  function Joined(r: Room, u: User, hooks: AttemptHooks): (r': Room)
    ensures r'.users == r.users + [u]
    ensures r'.admin == if r.users == [] then Some(u) else r.admin
    ensures AdminConsistent(r) ==> AdminConsistent(r')
    ensures var pushed := AddMember(r, u);
      r'.attempts == if hooks.doneWithScramble(pushed) then hooks.newAttempt(pushed).0 else r.attempts
    ensures r'.id == r.id && r'.accessCode == r.accessCode && r'.name == r.name
    ensures r'.isPrivate == r.isPrivate && r'.passwordHash == r.passwordHash
  {
    ClaimAdminIfAlone(MaybeNewAttempt(AddMember(r, u), hooks), u)
  }

  /**
   * The room after a leave: `Departed`, then a new attempt if users remain and they are
   * all done.
   */
  function AfterLeave(r: Room, uid: UserId, hooks: AttemptHooks): (r': Room)
    ensures forall u :: u in r'.users <==> u in r.users && u.id != uid
    ensures r'.users == Departed(r, uid).users && r'.admin == Departed(r, uid).admin
    ensures AdminConsistent(r')
    ensures var left := Departed(r, uid);
      r'.attempts == if left.users != [] && hooks.doneWithScramble(left)
                     then hooks.newAttempt(left).0 else r.attempts
    ensures r'.id == r.id && r'.accessCode == r.accessCode && r'.name == r.name
    ensures r'.isPrivate == r.isPrivate && r'.passwordHash == r.passwordHash
  {
    var left := Departed(r, uid);
    if left.users != [] then MaybeNewAttempt(left, hooks) else left
  }

  /** The corrected admin test: the room has an admin and it has the user's id. */
  predicate IsAdmin(r: Room, u: User) {
    r.admin.Some? && r.admin.value.id == u.id
  }

  /** What `socket.room.admin.id !== socket.user.id` does as written. */
  datatype AdminVerdict = Granted | Denied | ThrowsTypeError

  function AdminCheckAsWritten(r: Room, u: User): (v: AdminVerdict)
    ensures v == ThrowsTypeError <==> r.admin.None?
    ensures v == Granted <==> IsAdmin(r, u)
    ensures v == Denied <==> r.admin.Some? && !IsAdmin(r, u)
  {
    match r.admin
    case None => ThrowsTypeError
    case Some(a) => if a.id != u.id then Denied else Granted
  }

  // ---------------------------------------------------------------------------
  // Lemmas
  // ---------------------------------------------------------------------------

  /**
   * The filter keeps the order of the remaining users: filtering a concatenation is
   * concatenating the filtered parts.
   */
  lemma {:induction false} WithoutDistributes(s: seq<User>, t: seq<User>, uid: UserId)
    ensures Without(s + t, uid) == Without(s, uid) + Without(t, uid)
  {
    if s != [] {
      assert (s + t)[1..] == s[1..] + t;
      WithoutDistributes(s[1..], t, uid);
    } else {
      assert s + t == t;
    }
  }

  /**
   * The admin picked after a leave is the earliest-joined remaining user: the first entry
   * of the old list whose id is not the leaver's.
   */
  lemma {:induction false} NextAdminIsEarliestRemaining(r: Room, uid: UserId, i: nat)
    requires i < |r.users| && r.users[i].id != uid
    requires forall j :: 0 <= j < i ==> r.users[j].id == uid
    ensures Departed(r, uid).admin == Some(r.users[i])
  {
    WithoutSkipsPrefix(r.users, uid, i);
  }

  lemma {:induction false} WithoutSkipsPrefix(users: seq<User>, uid: UserId, i: nat)
    requires i < |users| && users[i].id != uid
    requires forall j :: 0 <= j < i ==> users[j].id == uid
    ensures |Without(users, uid)| > 0 && Without(users, uid)[0] == users[i]
  {
    if i > 0 {
      WithoutSkipsPrefix(users[1..], uid, i - 1);
    }
  }

  /** Leaving twice is leaving once: the second filter finds nothing to remove. */
  lemma DepartIdempotent(r: Room, uid: UserId)
    ensures Departed(Departed(r, uid), uid) == Departed(r, uid)
  {
  }

  /** Two joins by the same user leave two entries for that user in `users`. */
  lemma RejoinDuplicates(r: Room, u: User, hooks: AttemptHooks)
    ensures multiset(Joined(Joined(r, u, hooks), u, hooks).users)[u] == multiset(r.users)[u] + 2
  {
  }

  /** A later submission for the same attempt and user replaces the earlier one. */
  lemma LaterResultWins(r: Room, i: nat, uid: UserId, first: Solve, second: Solve)
    requires i < |r.attempts|
    ensures RecordResult(RecordResult(r, i, uid, first), i, uid, second)
         == RecordResult(r, i, uid, second)
  {
    var a := r.attempts[i];
    assert a.results[uid := first][uid := second] == a.results[uid := second];
  }

  /** Submissions by different users, or to different attempts, do not interfere. */
  lemma SubmissionsCommute(r: Room, i: nat, u1: UserId, s1: Solve, j: nat, u2: UserId, s2: Solve)
    requires i < |r.attempts| && j < |r.attempts| && (i != j || u1 != u2)
    ensures RecordResult(RecordResult(r, i, u1, s1), j, u2, s2)
         == RecordResult(RecordResult(r, j, u2, s2), i, u1, s1)
  {
    if i == j {
      var a := r.attempts[i];
      assert a.results[u1 := s1][u2 := s2] == a.results[u2 := s2][u1 := s1];
    }
  }

  /** Where the written check does not throw, it agrees with the corrected `IsAdmin`. */
  lemma AdminCheckAgreesWhenAdminPresent(r: Room, u: User)
    ensures AdminCheckAsWritten(r, u) != ThrowsTypeError <==> r.admin.Some?
    ensures r.admin.Some? ==> (IsAdmin(r, u) <==> AdminCheckAsWritten(r, u) == Granted)
  {
  }

  /** A freshly created room has no admin, so the written check throws on its creator. */
  lemma CreatedRoomAdminCheckThrows(id: RoomId, code: AccessCode, name: string,
                                    password: Option<string>, hash: string -> string, u: User)
    ensures AdminCheckAsWritten(NewRoom(id, code, name, password, hash), u) == ThrowsTypeError
    ensures !IsAdmin(NewRoom(id, code, name, password, hash), u)
  {
  }

  /** After the last user leaves, the admin is cleared and the written check throws. */
  lemma SoleLeaverAdminCheckThrows(r: Room, u: User)
    requires forall v :: v in r.users ==> v.id == u.id
    ensures AdminCheckAsWritten(Departed(r, u.id), u) == ThrowsTypeError
    ensures !IsAdmin(Departed(r, u.id), u)
  {
  }
}
