/** User accounts, session cookies and their revocation. Rows are never deleted, so a
    user's id is the position of the row. */
module Sessions {
  import opened Common
  import opened Text

  datatype User = User(name: string, hash: string, admin: bool, active: bool, version: nat)

  /** What the signed session cookie carries. */
  datatype Cookie = Cookie(uid: nat, version: nat)

  /* ---------------- rows ---------------- */

  /** The row of a username, under the NOCASE collation of its column. */
  function Find(users: seq<User>, name: string): (r: Option<nat>)
    ensures r.Some? ==> r.value < |users| && Lowered(users[r.value].name) == Lowered(name)
    ensures r.None? ==> forall i :: 0 <= i < |users| ==> Lowered(users[i].name) != Lowered(name)
  {
    if users == [] then None
    else
      var last := |users| - 1;
      if Lowered(users[last].name) == Lowered(name) then Some(last) else Find(users[..last], name)
  }

  function IsActiveAdmin(u: User): nat { if u.admin && u.active then 1 else 0 }

  function ActiveAdmins(users: seq<User>): nat {
    if users == [] then 0 else ActiveAdmins(users[..|users| - 1]) + IsActiveAdmin(users[|users| - 1])
  }

  lemma {:induction false} CountAfterUpdate(users: seq<User>, id: nat, u: User)
    requires id < |users|
    ensures ActiveAdmins(users[id := u]) == ActiveAdmins(users) - IsActiveAdmin(users[id]) + IsActiveAdmin(u)
    ensures ActiveAdmins(users) >= IsActiveAdmin(users[id])
  {
    var last, changed := |users| - 1, users[id := u];
    if id < last {
      CountAfterUpdate(users[..last], id, u);
      assert changed[..last] == users[..last][id := u];
    } else {
      assert changed[..last] == users[..last];
    }
  }

  function Create(users: seq<User>, name: string, hash: string, admin: bool): seq<User> {
    if Find(users, name).Some? then users else users + [User(name, hash, admin, true, 0)]
  }

  function WithPassword(users: seq<User>, id: nat, hash: string): seq<User> {
    if id < |users| then users[id := users[id].(hash := hash, version := users[id].version + 1)] else users
  }

  function Deactivated(u: User): User { u.(active := false, version := u.version + 1) }

  predicate LastAdmin(users: seq<User>, id: nat) {
    id < |users| && IsActiveAdmin(users[id]) == 1 && ActiveAdmins(users) <= 1
  }

  function WithActive(users: seq<User>, id: nat, active: bool): seq<User> {
    if id >= |users| || (!active && LastAdmin(users, id)) then users
    else users[id := if active then users[id].(active := true) else Deactivated(users[id])]
  }

  function WithAdmin(users: seq<User>, id: nat, admin: bool): seq<User> {
    if id >= |users| || (!admin && LastAdmin(users, id)) then users
    else users[id := users[id].(admin := admin)]
  }

  datatype Outcome = Done | NotFound | LastAdminError

  function Verdict(users: seq<User>, id: nat, on: bool): Outcome {
    if id >= |users| then NotFound else if !on && LastAdmin(users, id) then LastAdminError else Done
  }

  class UsersRepo {
    var rows: seq<User>

    constructor ()
      ensures rows == []
    {
      rows := [];
    }

    /** None stands for the integrity error of a taken username. */
    method CreateUser(name: string, hash: string, admin: bool) returns (id: Option<nat>)
      modifies this
      ensures rows == Create(old(rows), name, hash, admin)
      ensures id == if Find(old(rows), name).Some? then None else Some(|old(rows)|)
    {
      var taken := Find(rows, name);
      if taken.Some? {
        return None;
      }
      rows := rows + [User(name, hash, admin, true, 0)];
      return Some(|rows| - 1);
    }

    method SetPassword(id: nat, hash: string)
      modifies this
      ensures rows == WithPassword(old(rows), id, hash)
    {
      if id < |rows| {
        rows := rows[id := rows[id].(hash := hash, version := rows[id].version + 1)];
      }
    }

    method SetActive(id: nat, active: bool) returns (r: Outcome)
      modifies this
      ensures rows == WithActive(old(rows), id, active) && r == Verdict(old(rows), id, active)
    {
      if id >= |rows| {
        return NotFound;
      }
      var user := rows[id];
      if !active && user.admin && user.active && ActiveAdmins(rows) <= 1 {
        return LastAdminError;
      }
      if active {
        rows := rows[id := user.(active := true)];
      } else {
        rows := rows[id := user.(active := false, version := user.version + 1)];
      }
      return Done;
    }

    method SetAdmin(id: nat, admin: bool) returns (r: Outcome)
      modifies this
      ensures rows == WithAdmin(old(rows), id, admin) && r == Verdict(old(rows), id, admin)
    {
      if id >= |rows| {
        return NotFound;
      }
      var user := rows[id];
      if !admin && user.admin && user.active && ActiveAdmins(rows) <= 1 {
        return LastAdminError;
      }
      rows := rows[id := user.(admin := admin)];
      return Done;
    }

    /** The session user of a request, and the session that is sent back. */
    method Resolve(session: Option<Cookie>) returns (user: Option<nat>, kept: Option<Cookie>)
      ensures user == if session.Some? && Accepts(rows, session.value) then Some(session.value.uid) else None
      ensures kept == if user.Some? then session else None
    {
      if session.None? {
        return None, None;
      }
      var c := session.value;
      if c.uid >= |rows| {
        return None, None;
      }
      if !rows[c.uid].active {
        return None, None;
      }
      if rows[c.uid].version != c.version {
        return None, None;
      }
      return Some(c.uid), session;
    }
  }

  predicate Accepts(users: seq<User>, c: Cookie) {
    c.uid < |users| && users[c.uid].active && users[c.uid].version == c.version
  }

  /* ---------------- whole runs ---------------- */

  /** A login first reads the row, then verifies the password elsewhere, and only then
      issues the cookie, from the row as it was read. */
  datatype Read = Read(uid: nat, active: bool, version: nat)

  datatype State = State(users: seq<User>, seen: seq<Read>, cookies: set<Cookie>)

  datatype Op =
    | Register(name: string, hash: string, open: bool)
    | AdminCreate(name: string, hash: string, admin: bool)
    | LoginRead(name: string)
    | LoginFinish(read: nat, verified: bool)
    | SetPassword(id: nat, hash: string)
    | SetActive(id: nat, active: bool)
    | SetAdmin(id: nat, admin: bool)

  function Apply(s: State, op: Op): State {
    match op
    case Register(name, hash, open) =>
      var bootstrap := ActiveAdmins(s.users) == 0;
      if (!bootstrap && !open) || Find(s.users, name).Some? then s
      else s.(users := Create(s.users, name, hash, bootstrap), cookies := s.cookies + {Cookie(|s.users|, 0)})
    case AdminCreate(name, hash, admin) => s.(users := Create(s.users, name, hash, admin))
    case LoginRead(name) =>
      var id := Find(s.users, name);
      if id.None? then s
      else
        var u := s.users[id.value];
        s.(seen := s.seen + [Read(id.value, u.active, u.version)])
    case LoginFinish(k, verified) =>
      if k < |s.seen| && verified && s.seen[k].active
      then s.(cookies := s.cookies + {Cookie(s.seen[k].uid, s.seen[k].version)})
      else s
    case SetPassword(id, hash) => s.(users := WithPassword(s.users, id, hash))
    case SetActive(id, active) => s.(users := WithActive(s.users, id, active))
    case SetAdmin(id, admin) => s.(users := WithAdmin(s.users, id, admin))
  }

  function After(s: State, ops: seq<Op>): State {
    if ops == [] then s else Apply(After(s, ops[..|ops| - 1]), ops[|ops| - 1])
  }

  /** A row changes as told, and no other row does. */
  predicate Becomes(users: seq<User>, later: seq<User>, id: nat, u: User) {
    && |later| == |users| && id < |users| && later[id] == u
    && forall i :: 0 <= i < |users| && i != id ==> later[i] == users[i]
  }

  predicate OnlyAdmin(users: seq<User>, id: nat) {
    && id < |users| && users[id].admin && users[id].active
    && forall i :: 0 <= i < |users| && i != id ==> !(users[i].admin && users[i].active)
  }

  lemma {:induction false} NoAdmins(users: seq<User>)
    ensures ActiveAdmins(users) == 0 <==> forall i :: 0 <= i < |users| ==> !(users[i].admin && users[i].active)
  {
    if users != [] {
      var last := |users| - 1;
      NoAdmins(users[..last]);
      assert forall i :: 0 <= i < last ==> users[..last][i] == users[i];
    }
  }

  lemma LastAdminExactly(users: seq<User>, id: nat)
    requires id < |users|
    ensures LastAdmin(users, id) <==> OnlyAdmin(users, id)
  {
    var without := users[id := users[id].(admin := false)];
    CountAfterUpdate(users, id, users[id].(admin := false));
    NoAdmins(without);
    if OnlyAdmin(users, id) {
      assert forall i :: 0 <= i < |without| ==> !(without[i].admin && without[i].active);
    }
    if LastAdmin(users, id) {
      assert ActiveAdmins(without) == 0;
      forall i | 0 <= i < |users| && i != id ensures !(users[i].admin && users[i].active) {
        assert without[i] == users[i];
      }
    }
  }

  /** What the account operations write: a new password is stored and ends the sessions, a
      deactivation ends them too, activation and the admin flag do not; the only active
      administrator is neither deactivated nor demoted. */
  lemma OperationsExactly(s: State, id: nat, hash: string, flag: bool)
    requires id < |s.users|
    ensures var u := s.users[id];
            && Becomes(s.users, Apply(s, SetPassword(id, hash)).users, id, u.(hash := hash, version := u.version + 1))
            && Becomes(s.users, Apply(s, SetActive(id, true)).users, id, u.(active := true))
            && Becomes(s.users, Apply(s, SetActive(id, false)).users, id,
                       if OnlyAdmin(s.users, id) then u else u.(active := false, version := u.version + 1))
            && Becomes(s.users, Apply(s, SetAdmin(id, flag)).users, id,
                       if !flag && OnlyAdmin(s.users, id) then u else u.(admin := flag))
  {
    LastAdminExactly(s.users, id);
  }

  predicate Taken(users: seq<User>, name: string) {
    exists i :: 0 <= i < |users| && Lowered(users[i].name) == Lowered(name)
  }

  /** Registration makes an administrator exactly when there is no active one, and starts a
      session for the new row; it needs a free name, and open registration but for the
      first administrator. */
  lemma RegisterExactly(s: State, name: string, hash: string, open: bool, admin: bool)
    ensures var first := forall i :: 0 <= i < |s.users| ==> !(s.users[i].admin && s.users[i].active);
            Apply(s, Register(name, hash, open)) ==
              if (open || first) && !Taken(s.users, name)
              then s.(users := s.users + [User(name, hash, first, true, 0)],
                      cookies := s.cookies + {Cookie(|s.users|, 0)})
              else s
    ensures Apply(s, AdminCreate(name, hash, admin)) ==
              if Taken(s.users, name) then s else s.(users := s.users + [User(name, hash, admin, true, 0)])
  {
    NoAdmins(s.users);
  }

  /** A login remembers the row it read, and starts a session for that row, of the version
      it had then, exactly when the password verifies and the row was active. */
  lemma LoginExactly(s: State, name: string, k: nat, verified: bool)
    ensures var t := Apply(s, LoginRead(name));
            && t.users == s.users && t.cookies == s.cookies
            && (!Taken(s.users, name) ==> t == s)
            && (Taken(s.users, name) ==>
                  exists i :: 0 <= i < |s.users| && Lowered(s.users[i].name) == Lowered(name)
                    && t.seen == s.seen + [Read(i, s.users[i].active, s.users[i].version)])
    ensures Apply(s, LoginFinish(k, verified)) ==
              if k < |s.seen| && verified && s.seen[k].active
              then s.(cookies := s.cookies + {Cookie(s.seen[k].uid, s.seen[k].version)})
              else s
  {}

  const NO_USERS := State([], [], {})

  predicate Bounded(users: seq<User>, uid: nat, version: nat) {
    uid < |users| && version <= users[uid].version
  }

  /** No cookie and no row read by a login is ahead of its user, and usernames are
      distinct up to case. */
  ghost predicate Inv(s: State) {
    && (forall c :: c in s.cookies ==> Bounded(s.users, c.uid, c.version))
    && (forall i :: 0 <= i < |s.seen| ==> Bounded(s.users, s.seen[i].uid, s.seen[i].version))
    && (forall i, j :: 0 <= i < j < |s.users| ==> Lowered(s.users[i].name) != Lowered(s.users[j].name))
  }

  /** Rows stay, keep their names, and their versions never fall. */
  ghost predicate Grows(users: seq<User>, later: seq<User>) {
    && |users| <= |later|
    && forall i :: 0 <= i < |users| ==> later[i].name == users[i].name && later[i].version >= users[i].version
  }

  lemma StepGrows(s: State, op: Op)
    ensures Grows(s.users, Apply(s, op).users)
  {}

  lemma {:induction false} RunGrows(s: State, ops: seq<Op>)
    ensures Grows(s.users, After(s, ops).users)
  {
    if ops != [] {
      RunGrows(s, ops[..|ops| - 1]);
      StepGrows(After(s, ops[..|ops| - 1]), ops[|ops| - 1]);
    }
  }

  lemma StepKeepsInv(s: State, op: Op)
    requires Inv(s)
    ensures Inv(Apply(s, op))
  {
    StepGrows(s, op);
  }

  lemma {:induction false} EveryRunKeepsInv(ops: seq<Op>)
    ensures Inv(After(NO_USERS, ops))
  {
    if ops != [] {
      EveryRunKeepsInv(ops[..|ops| - 1]);
      StepKeepsInv(After(NO_USERS, ops[..|ops| - 1]), ops[|ops| - 1]);
    }
  }

  /** The operations that end the sessions of a user: a password change, and a
      deactivation that is not refused. */
  predicate Revokes(s: State, op: Op, uid: nat) {
    uid < |s.users| &&
    match op
    case SetPassword(id, _) => id == uid
    case SetActive(id, active) => id == uid && !active && !LastAdmin(s.users, uid)
    case _ => false
  }

  function Revocations(s: State, ops: seq<Op>, uid: nat): nat {
    if ops == [] then 0
    else
      var front := ops[..|ops| - 1];
      Revocations(s, front, uid) + if Revokes(After(s, front), ops[|ops| - 1], uid) then 1 else 0
  }

  lemma StepVersion(s: State, op: Op, uid: nat)
    requires uid < |s.users|
    ensures uid < |Apply(s, op).users|
    ensures Apply(s, op).users[uid].version == s.users[uid].version + if Revokes(s, op, uid) then 1 else 0
  {}

  /** The version of a row counts its revocations. */
  lemma {:induction false} VersionCountsRevocations(s: State, ops: seq<Op>, uid: nat)
    requires uid < |s.users|
    ensures uid < |After(s, ops).users|
    ensures After(s, ops).users[uid].version == s.users[uid].version + Revocations(s, ops, uid)
  {
    if ops != [] {
      VersionCountsRevocations(s, ops[..|ops| - 1], uid);
      StepVersion(After(s, ops[..|ops| - 1]), ops[|ops| - 1], uid);
    }
  }

  /** A cookie of the current version is accepted later exactly while the account is
      active and nothing in between revoked it. */
  lemma AcceptedExactlyWhen(s: State, ops: seq<Op>, uid: nat)
    requires uid < |s.users|
    ensures uid < |After(s, ops).users|
    ensures Accepts(After(s, ops).users, Cookie(uid, s.users[uid].version))
       <==> After(s, ops).users[uid].active && Revocations(s, ops, uid) == 0
  {
    VersionCountsRevocations(s, ops, uid);
  }

  /** After a password change or deactivation no cookie issued before it, and none
      issued later by a login that had already read the row, is accepted in any later
      state, whatever happens in between, reactivation included. */
  lemma EarlierSessionsStayRevoked(before: seq<Op>, op: Op, uid: nat, ops: seq<Op>)
    requires Revokes(After(NO_USERS, before), op, uid)
    ensures var s := After(NO_USERS, before);
            var users := After(Apply(s, op), ops).users;
            && (forall c :: c in s.cookies && c.uid == uid ==> !Accepts(users, c))
            && (forall i :: 0 <= i < |s.seen| && s.seen[i].uid == uid ==>
                  !Accepts(users, Cookie(uid, s.seen[i].version)))
  {
    var s := After(NO_USERS, before);
    EveryRunKeepsInv(before);
    StepVersion(s, op, uid);
    VersionCountsRevocations(Apply(s, op), ops, uid);
  }

  /* ---------------- administrators ---------------- */

  lemma CountAfterCreate(users: seq<User>, u: User)
    ensures ActiveAdmins(users + [u]) == ActiveAdmins(users) + IsActiveAdmin(u)
  {
    assert (users + [u])[..|users|] == users;
  }

  lemma StepKeepsAdmin(s: State, op: Op)
    requires ActiveAdmins(s.users) > 0
    ensures ActiveAdmins(Apply(s, op).users) > 0
  {
    match op
    case Register(name, hash, open) => CountAfterCreate(s.users, User(name, hash, false, true, 0));
    case AdminCreate(name, hash, admin) => CountAfterCreate(s.users, User(name, hash, admin, true, 0));
    case SetPassword(id, hash) =>
      if id < |s.users| { CountAfterUpdate(s.users, id, WithPassword(s.users, id, hash)[id]); }
    case SetActive(id, active) =>
      if id < |s.users| { CountAfterUpdate(s.users, id, WithActive(s.users, id, active)[id]); }
    case SetAdmin(id, admin) =>
      if id < |s.users| { CountAfterUpdate(s.users, id, WithAdmin(s.users, id, admin)[id]); }
    case _ =>
  }

  /** Once there is an active administrator, there always is one. */
  lemma {:induction false} AnAdminRemains(s: State, ops: seq<Op>)
    requires ActiveAdmins(s.users) > 0
    ensures ActiveAdmins(After(s, ops).users) > 0
  {
    if ops != [] {
      AnAdminRemains(s, ops[..|ops| - 1]);
      StepKeepsAdmin(After(s, ops[..|ops| - 1]), ops[|ops| - 1]);
    }
  }

  /** ... so that from then on nobody registers as an administrator. */
  lemma BootstrapIsOver(s: State, ops: seq<Op>, name: string, hash: string, open: bool)
    requires ActiveAdmins(s.users) > 0
    ensures var now := After(s, ops);
            ActiveAdmins(Apply(now, Register(name, hash, open)).users) == ActiveAdmins(now.users)
  {
    AnAdminRemains(s, ops);
    CountAfterCreate(After(s, ops).users, User(name, hash, false, true, 0));
  }

  /** A deactivation or demotion is refused exactly when it would take away the only
      active administrators there are. */
  lemma RefusedExactlyWhen(users: seq<User>, id: nat)
    requires id < |users|
    ensures Verdict(users, id, false) == LastAdminError
       <==> ActiveAdmins(users) > 0 && ActiveAdmins(users[id := Deactivated(users[id])]) == 0
    ensures Verdict(users, id, false) == LastAdminError
       <==> ActiveAdmins(users) > 0 && ActiveAdmins(users[id := users[id].(admin := false)]) == 0
  {
    CountAfterUpdate(users, id, Deactivated(users[id]));
    CountAfterUpdate(users, id, users[id].(admin := false));
  }
}
