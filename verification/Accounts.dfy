/** Users, sessions and the capability policy of the platform's API. */
module Accounts {
  import opened Wrappers
  import opened Text

  // ---- capabilities ------------------------------------------------------------------------

  datatype Cap = Read | Operate | Admin | Queue | Ingest

  function RoleCaps(role: string): set<Cap> {
    if role == "admin" then {Read, Operate, Admin, Queue, Ingest}
    else if role == "member" then {Read, Operate}
    else if role == "viewer" then {Read}
    else {}
  }

  function ScopeCaps(scope: string): set<Cap> {
    if scope == "runner" then {Queue, Ingest} else if scope == "ingest" then {Ingest}
    else if scope == "readonly" then {Read} else {}
  }

  datatype Policy = Public | Authed | AnyOf(caps: set<Cap>)

  function RequiredCaps(verb: string, path: string): Policy {
    if !StartsWith(path, "/api/") then Public
    else if path in {"/api/health", "/api/auth/login", "/api/auth/logout"} then Public
    else if path in {"/api/auth/me", "/api/auth/change-password"} then Authed
    else if path == "/api/scan/runs/claim" then AnyOf({Queue})
    else if StartsWith(path, "/api/scan/runs/") && EndsWith(path, "/complete") then AnyOf({Queue})
    else if path in {"/api/malware/cursor", "/api/malware/match"} then AnyOf({Queue})
    else if path == "/api/ingest" || StartsWith(path, "/api/sync/") then AnyOf({Ingest})
    else if path == "/api/scanner/config" then AnyOf({Queue, Operate})
    else if StartsWith(path, "/api/demo/") then AnyOf({Admin})
    else if StartsWith(path, "/api/admin/users") then AnyOf({Admin})
    else if StartsWith(path, "/api/admin/tokens") then AnyOf({Operate})
    else if verb == "GET" then AnyOf({Read}) else AnyOf({Operate})
  }

  predicate Permits(policy: Policy, caps: set<Cap>) {
    match policy case Public => true case Authed => true case AnyOf(needed) => needed * caps != {}
  }

  /** A viewer or a read-only token gets through no capability check of a mutation, on any path, and
      only an admin role, never a token, gets through to the user administration. */
  lemma PolicyLimits(verb: string, path: string, rest: string, role: string, scope: string)
    ensures verb != "GET" && RequiredCaps(verb, path).AnyOf? ==>
              !Permits(RequiredCaps(verb, path), RoleCaps("viewer")) &&
              !Permits(RequiredCaps(verb, path), ScopeCaps("readonly"))
    ensures var users := RequiredCaps(verb, "/api/admin/users" + rest);
            (Permits(users, RoleCaps(role)) <==> role == "admin") && !Permits(users, ScopeCaps(scope))
  {
    var full := "/api/admin/users" + rest;
    assert full[5] == 'a' && full[6] == 'd';
    assert StartsWith(full, "/api/") && StartsWith(full, "/api/admin/users");
    assert !StartsWith(full, "/api/scan/runs/") && !StartsWith(full, "/api/sync/") && !StartsWith(full, "/api/demo/") by {
      assert "/api/scan/runs/"[5] == 's' && "/api/sync/"[5] == 's' && "/api/demo/"[5] == 'd';
    }
    assert RequiredCaps(verb, full) == AnyOf({Admin}) by {
      assert "/api/auth/me"[6] == 'u' && "/api/auth/change-password"[6] == 'u';
      assert "/api/auth/login"[6] == 'u' && "/api/auth/logout"[6] == 'u';
    }
    assert Admin in {Admin} * RoleCaps("admin");
  }

  // ---- tables ------------------------------------------------------------------------------

  /** Passwords stand for their hashes: a password verifies exactly against its own hash. */
  datatype User = User(username: string, role: string, disabled: bool, password: string)

  datatype Session = Session(user: string, expires: int)

  datatype Tables = Tables(users: map<string, User>, sessions: map<string, Session>)

  const ROLES := {"admin", "member", "viewer"}
  const MIN_PASSWORD := 8
  const SESSION_TTL := 43200

  function EnabledAdmins(users: map<string, User>): set<string> {
    set id | id in users && users[id].role == "admin" && !users[id].disabled
  }

  predicate UsernameTaken(users: map<string, User>, username: string) {
    exists id :: id in users && users[id].username == username
  }

  predicate CreateRefused(t: Tables, username: string, password: string, role: string) {
    username == "" || role !in ROLES || |password| < MIN_PASSWORD || UsernameTaken(t.users, username)
  }

  function Created(t: Tables, id: string, username: string, password: string, role: string): Tables {
    if CreateRefused(t, username, password, role) then t
    else t.(users := t.users[id := User(username, role, false, password)])
  }

  /** What an update asks for. An empty password asks for none. */
  datatype Change = Change(role: Option<string>, disabled: Option<bool>, password: Option<string>)

  predicate Demotes(c: Change) {
    (c.role.Some? && c.role.value != "admin") || c.disabled == Some(true)
  }

  predicate NewPassword(c: Change) {
    c.password.Some? && c.password.value != ""
  }

  /** The guard: the target is the last enabled admin and would stop being one. */
  predicate RemovesLastAdmin(t: Tables, id: string, c: Change) {
    Demotes(c) && id in EnabledAdmins(t.users) && |EnabledAdmins(t.users)| <= 1
  }

  predicate UpdateRefused(t: Tables, id: string, c: Change) {
    || RemovesLastAdmin(t, id, c)
    || (c.role.Some? && c.role.value !in ROLES)
    || (NewPassword(c) && |c.password.value| < MIN_PASSWORD)
  }

  function ChangedUser(u: User, c: Change): User {
    User(u.username, if c.role.Some? then c.role.value else u.role,
         if c.disabled.Some? then c.disabled.value else u.disabled,
         if NewPassword(c) then c.password.value else u.password)
  }

  function WithoutSessionsOf(sessions: map<string, Session>, user: string): map<string, Session> {
    map sid | sid in sessions && sessions[sid].user != user :: sessions[sid]
  }

  function Changed(t: Tables, id: string, c: Change): Tables {
    Tables(if id in t.users then t.users[id := ChangedUser(t.users[id], c)] else t.users,
           if c.disabled == Some(true) || NewPassword(c) then WithoutSessionsOf(t.sessions, id) else t.sessions)
  }

  function Updated(t: Tables, id: string, c: Change): Tables {
    if UpdateRefused(t, id, c) then t else Changed(t, id, c)
  }

  function Deleted(t: Tables, id: string): Tables {
    Tables(t.users - {id}, WithoutSessionsOf(t.sessions, id))
  }

  predicate LoginValid(users: map<string, User>, id: string, username: string, password: string) {
    id in users && users[id].username == username && !users[id].disabled && users[id].password == password
  }

  function SessionCreated(t: Tables, user: string, sid: string, now: int): Tables {
    if user in t.users then t.(sessions := t.sessions[sid := Session(user, now + SESSION_TTL)]) else t
  }

  /** The session names an existing, enabled user and has not expired. */
  predicate Resolves(t: Tables, sid: string, now: int) {
    sid in t.sessions && t.sessions[sid].user in t.users &&
    !t.users[t.sessions[sid].user].disabled && now < t.sessions[sid].expires
  }

  /** Asking for the principal drops a session that is expired or whose user is disabled. */
  function Looked(t: Tables, sid: string, now: int): Tables {
    if sid in t.sessions && t.sessions[sid].user in t.users && !Resolves(t, sid, now)
    then t.(sessions := t.sessions - {sid}) else t
  }

  ghost predicate UniqueNames(users: map<string, User>) {
    forall a, b :: a in users && b in users && users[a].username == users[b].username ==> a == b
  }

  // ---- what takes effect ---------------------------------------------------------------------

  /** The row has what was asked for, and otherwise what it had. */
  ghost predicate TookEffect(before: User, after: User, c: Change) {
    && after.username == before.username
    && (match c.role case Some(role) => after.role == role case None => after.role == before.role)
    && (match c.disabled case Some(d) => after.disabled == d case None => after.disabled == before.disabled)
    && (match c.password
        case Some(p) => if p == "" then after.password == before.password else after.password == p
        case None => after.password == before.password)
  }

  /** Nobody but the user is affected: not the other rows, nor the sessions of others. */
  ghost predicate OthersKept(before: Tables, after: Tables, user: string) {
    && (forall id :: id != user ==> (id in after.users <==> id in before.users))
    && (forall id :: id != user && id in before.users ==> after.users[id] == before.users[id])
    && (forall sid :: sid in after.sessions ==> sid in before.sessions && after.sessions[sid] == before.sessions[sid])
    && (forall sid :: sid in before.sessions && before.sessions[sid].user != user ==> sid in after.sessions)
  }

  ghost predicate NoSessions(t: Tables, user: string) {
    forall sid :: sid in t.sessions ==> t.sessions[sid].user != user
  }

  ghost predicate SessionsKept(before: Tables, after: Tables) {
    forall sid :: sid in before.sessions ==> sid in after.sessions
  }

  /** This password, and no other, logs the user in. */
  ghost predicate OnlyPassword(t: Tables, user: string, password: string) {
    user in t.users && forall given ::
      LoginValid(t.users, user, t.users[user].username, given) <==> given == password && !t.users[user].disabled
  }

  /** What an update does to the tables: the row changes as asked, disabling and a new password end the
      sessions of the user, and a new password is the only one that logs in afterwards. */
  lemma ChangeTakesEffect(t: Tables, id: string, c: Change)
    ensures var t' := Changed(t, id, c);
      && OthersKept(t, t', id) && (id in t'.users <==> id in t.users)
      && (id in t.users ==> TookEffect(t.users[id], t'.users[id], c))
      && (if c.disabled == Some(true) || (c.password.Some? && c.password.value != "") then NoSessions(t', id)
          else SessionsKept(t, t'))
    ensures id in t.users && c.password.Some? && c.password.value != "" ==>
              OnlyPassword(Changed(t, id, c), id, c.password.value)
  {
  }

  class Store {
    var users: map<string, User>
    var sessions: map<string, Session>

    function View(): Tables
      reads this
    {
      Tables(users, sessions)
    }

    constructor ()
      ensures View() == Tables(map[], map[])
    {
      users, sessions := map[], map[];
    }

    method CreateUser(freshId: string, username: string, password: string, role: string) returns (ok: bool)
      requires freshId !in users
      modifies this`users
      ensures ok <==> !CreateRefused(old(View()), username, password, role)
      ensures View() == Created(old(View()), freshId, username, password, role)
      ensures forall id :: id in old(users) ==> id in users && users[id] == old(users)[id]
      ensures old(UniqueNames(users)) ==> UniqueNames(users)
    {
      if username == "" || role !in ROLES || |password| < MIN_PASSWORD {
        return false;
      }
      if exists id :: id in users && users[id].username == username {
        return false;
      }
      users := users[freshId := User(username, role, false, password)];
      ok := true;
    }

    method UpdateUser(id: string, c: Change) returns (ok: bool)
      modifies this
      ensures ok <==> !UpdateRefused(old(View()), id, c)
      ensures View() == Updated(old(View()), id, c)
      ensures OthersKept(old(View()), View(), id) && (id in users <==> id in old(users))
      ensures ok && id in users ==> TookEffect(old(users)[id], users[id], c)
      ensures ok && (c.disabled == Some(true) || NewPassword(c)) ==> NoSessions(View(), id)
      ensures !ok ==> View() == old(View())
      ensures ok && id in users && NewPassword(c) ==> OnlyPassword(View(), id, c.password.value)
    {
      ChangeTakesEffect(View(), id, c);
      if (c.role.Some? && c.role.value != "admin") || c.disabled == Some(true) {
        var admins := |set a | a in users && users[a].role == "admin" && !users[a].disabled|;
        if id in users && users[id].role == "admin" && !users[id].disabled && admins <= 1 {
          return false;
        }
      }
      if c.role.Some? && c.role.value !in ROLES {
        return false;
      }
      if NewPassword(c) && |c.password.value| < MIN_PASSWORD {
        return false;
      }
      if id in users {
        users := users[id := ChangedUser(users[id], c)];
      }
      if c.disabled == Some(true) || NewPassword(c) {
        sessions := map sid | sid in sessions && sessions[sid].user != id :: sessions[sid];
      }
      ok := true;
    }

    method DeleteUser(id: string) returns (deleted: bool)
      modifies this
      ensures deleted <==> id in old(users)
      ensures View() == Deleted(old(View()), id)
    {
      deleted := id in users;
      users := users - {id};
      sessions := map sid | sid in sessions && sessions[sid].user != id :: sessions[sid];
    }

    method VerifyLogin(username: string, password: string) returns (id: Option<string>)
      ensures id.Some? ==> LoginValid(users, id.value, username, password)
      ensures id.None? && UniqueNames(users) ==> forall other :: !LoginValid(users, other, username, password)
    {
      if exists id :: id in users && users[id].username == username {
        var found :| found in users && users[found].username == username;
        if users[found].disabled || users[found].password != password {
          return None;
        }
        return Some(found);
      }
      id := None;
    }

    method CreateSession(user: string, freshSid: string, now: int)
      requires user in users
      modifies this`sessions
      ensures View() == SessionCreated(old(View()), user, freshSid, now)
      ensures !users[user].disabled ==> Resolves(View(), freshSid, now)
    {
      sessions := sessions[freshSid := Session(user, now + SESSION_TTL)];
    }

    method GetSessionPrincipal(sid: string, now: int) returns (user: Option<string>)
      modifies this`sessions
      ensures View() == Looked(old(View()), sid, now)
      ensures user == if Resolves(old(View()), sid, now) then Some(old(sessions)[sid].user) else None
    {
      if sid !in sessions || sessions[sid].user !in users {
        return None;
      }
      if sessions[sid].expires <= now || users[sessions[sid].user].disabled {
        sessions := sessions - {sid};
        return None;
      }
      user := Some(sessions[sid].user);
    }

    method DeleteSession(sid: string)
      modifies this`sessions
      ensures View() == old(View()).(sessions := old(sessions) - {sid})
    {
      sessions := sessions - {sid};
    }
  }

  // ---- the last admin ------------------------------------------------------------------------

  lemma OtherRemains(s: set<string>, x: string)
    requires s != {} && (x in s ==> |s| > 1)
    ensures exists y :: y in s && y != x
  {
    if x in s {
      assert |s - {x}| == |s| - 1;
      var y :| y in s - {x};
    } else {
      var y :| y in s;
    }
  }

  /** An applied update leaves an enabled admin exactly when the guard, asked about the very tables
      the update is applied to, lets it pass. */
  lemma GuardIsExact(t: Tables, id: string, c: Change)
    requires EnabledAdmins(t.users) != {}
    ensures EnabledAdmins(Changed(t, id, c).users) != {} <==> !RemovesLastAdmin(t, id, c)
  {
    var before, after := EnabledAdmins(t.users), EnabledAdmins(Changed(t, id, c).users);
    assert before - {id} <= after;
    if RemovesLastAdmin(t, id, c) {
      var only :| only in before;
      assert |before - {id}| == |before| - 1 == 0;
      assert forall a :: a in after ==> a in before - {id};
    } else if id in before && !Demotes(c) {
      assert id in after;
    } else {
      OtherRemains(before, id);
    }
  }

  /** There is no guard on deleting: it leaves an enabled admin exactly when the deleted user is not the
      only one. */
  lemma DeleteIsExact(t: Tables, id: string)
    requires EnabledAdmins(t.users) != {}
    ensures EnabledAdmins(Deleted(t, id).users) != {} <==> EnabledAdmins(t.users) != {id}
  {
    assert EnabledAdmins(Deleted(t, id).users) == EnabledAdmins(t.users) - {id};
    if EnabledAdmins(t.users) != {id} {
      var other :| other in EnabledAdmins(t.users) && other != id;
      assert other in EnabledAdmins(Deleted(t, id).users);
    }
  }
}
