/** Whole runs of the user administration: any number of requests at once, each transaction one atomic
    step. A request is between its steps while it is in flight. */
module AccountProtocol {
  import opened Wrappers
  import opened Accounts

  /** What a request still has to do. `LoggedIn` has checked a password and has no session yet; an update
      has `passed` once its guard let it through; `seen` is how many demotions and deletions had been
      written when the request was let in, or passed its guard. */
  datatype Flight =
    | LoggedIn(user: string)
    | Updating(id: string, change: Change, passed: bool, seen: nat)
    | Deleting(caller: Option<string>, id: string, seen: nat)
    | Creating(username: string, password: string, role: string)
    | Changing(user: string, username: string, newPassword: string, verified: bool)

  /** `open` means authentication is switched off. `used` remembers every id ever issued, and
      `removals` counts the demotions and deletions written. */
  datatype World = World(
    t: Tables, open: bool, clock: int, used: set<string>, flights: map<nat, Flight>, removals: nat)

  datatype Ask =
    | Update(id: string, change: Change)
    | Delete(id: string)
    | Create(username: string, password: string, role: string)

  /** `cookie` is the session a request comes with and `csrf` whether its token matched. `at` is the time
      the session is looked up for and `issued` the time a new one is issued for, both read before the
      step, any time before. */
  datatype Step =
    | Tick(to: int)
    | Verify(k: nat, user: string, username: string, password: string)
    | Issue(k: nat, sid: string, issued: int)
    | Logout(cookie: string)
    | Look(cookie: string, at: int)
    | Admit(k: nat, cookie: string, at: int, csrf: bool, ask: Ask)
    | AskPassword(k: nat, cookie: string, at: int, csrf: bool, newPassword: string)
    | CheckOld(k: nat, found: string, oldPassword: string)
    | Guard(k: nat)
    | Write(k: nat, newId: string)
    | Drop(k: nat)

  /** The user behind a cookie. */
  function Caller(w: World, cookie: string, at: int): Option<string> {
    if !w.open && Resolves(w.t, cookie, at) then Some(w.t.sessions[cookie].user) else None
  }

  /** The middleware lets the request through to a handler of the user administration. */
  predicate AdminCaller(w: World, cookie: string, at: int, csrf: bool) {
    w.open ||
    (csrf && Caller(w, cookie, at).Some? && Admin in RoleCaps(w.t.users[Caller(w, cookie, at).value].role))
  }

  predicate CanWrite(f: Flight) {
    match f
    case LoggedIn(_) => false
    case Updating(_, _, passed, _) => passed
    case Deleting(_, _, _) => true
    case Creating(_, _, _) => true
    case Changing(_, _, _, verified) => verified
  }

  ghost predicate Enabled(w: World, s: Step) {
    match s
    case Tick(to) => w.clock <= to
    case Verify(k, user, username, password) =>
      k !in w.flights && LoginValid(w.t.users, user, username, password)
    case Issue(k, sid, issued) =>
      k in w.flights && w.flights[k].LoggedIn? && sid !in w.used && issued <= w.clock
    case Logout(_) => true
    case Look(_, at) => at <= w.clock
    case Admit(k, cookie, at, csrf, ask) =>
      k !in w.flights && at <= w.clock && AdminCaller(w, cookie, at, csrf) &&
      (ask.Delete? ==> Caller(w, cookie, at) != Some(ask.id))
    case AskPassword(k, cookie, at, csrf, newPassword) =>
      k !in w.flights && at <= w.clock && csrf && Caller(w, cookie, at).Some? && |newPassword| >= MIN_PASSWORD
    case CheckOld(k, found, oldPassword) =>
      k in w.flights && w.flights[k].Changing? && LoginValid(w.t.users, found, w.flights[k].username, oldPassword)
    case Guard(k) => k in w.flights && w.flights[k].Updating? && !w.flights[k].passed
    case Write(k, id) => k in w.flights && CanWrite(w.flights[k]) && (w.flights[k].Creating? ==> id !in w.used)
    case Drop(k) => k in w.flights
  }

  const NO_CHANGE := Change(None, None, None)

  /** The tables after the write a request was let through for; `id` is a fresh user id. */
  function Written(t: Tables, f: Flight, id: string): Tables {
    match f
    case LoggedIn(_) => t
    case Updating(target, change, _, _) => Changed(t, target, change)
    case Deleting(_, target, _) => Deleted(t, target)
    case Creating(username, password, role) => Created(t, id, username, password, role)
    case Changing(user, _, newPassword, _) => Changed(t, user, NO_CHANGE.(password := Some(newPassword)))
  }

  /** It demotes, disables or deletes somebody. */
  predicate Removes(f: Flight) {
    f.Deleting? || (f.Updating? && Demotes(f.change))
  }

  function Admitted(ask: Ask, caller: Option<string>, seen: nat): Flight {
    match ask
    case Update(id, change) => Updating(id, change, false, seen)
    case Delete(id) => Deleting(caller, id, seen)
    case Create(username, password, role) => Creating(username, password, role)
  }

  ghost function Next(w: World, s: Step): World
    requires Enabled(w, s)
  {
    match s
    case Tick(to) => w.(clock := to)
    case Verify(k, user, _, _) => w.(flights := w.flights[k := LoggedIn(user)])
    case Issue(k, sid, issued) =>
      w.(t := SessionCreated(w.t, w.flights[k].user, sid, issued), used := w.used + {sid}, flights := w.flights - {k})
    case Logout(cookie) => w.(t := w.t.(sessions := w.t.sessions - {cookie}))
    case Look(cookie, at) => w.(t := Looked(w.t, cookie, at))
    case Admit(k, cookie, at, csrf, ask) =>
      w.(flights := w.flights[k := Admitted(ask, Caller(w, cookie, at), w.removals)])
    case AskPassword(k, cookie, at, csrf, newPassword) =>
      var user := Caller(w, cookie, at).value;
      w.(flights := w.flights[k := Changing(user, w.t.users[user].username, newPassword, false)])
    case CheckOld(k, _, _) => w.(flights := w.flights[k := w.flights[k].(verified := true)])
    case Guard(k) =>
      var f := w.flights[k];
      w.(flights := if UpdateRefused(w.t, f.id, f.change) then w.flights - {k}
                    else w.flights[k := f.(passed := true, seen := w.removals)])
    case Write(k, id) =>
      var f := w.flights[k];
      w.(t := Written(w.t, f, id), used := if f.Creating? then w.used + {id} else w.used,
         flights := if f.Changing? then w.flights[k := LoggedIn(f.user)] else w.flights - {k},
         removals := if Removes(f) then w.removals + 1 else w.removals)
    case Drop(k) => w.(flights := w.flights - {k})
  }

  ghost predicate Possible(w: World, es: seq<Step>)
    decreases |es|
  {
    es == [] || (Enabled(w, es[0]) && Possible(Next(w, es[0]), es[1..]))
  }

  ghost function After(w: World, es: seq<Step>): World
    requires Possible(w, es)
    decreases |es|
  {
    if es == [] then w else After(Next(w, es[0]), es[1..])
  }

  // ---- the invariant -------------------------------------------------------------------------

  /** Every id was issued, sessions belong to users, and new passwords are long enough. */
  ghost predicate Issued(w: World) {
    && (forall id :: id in w.t.users ==> id in w.used)
    && (forall sid :: sid in w.t.sessions ==> sid in w.used && w.t.sessions[sid].user in w.t.users)
    && (forall k :: k in w.flights && w.flights[k].Changing? ==> |w.flights[k].newPassword| >= MIN_PASSWORD)
  }

  /** The platform at its start: whatever users it was seeded with, and no sessions. */
  ghost predicate Initial(w: World) {
    (forall id :: id in w.t.users ==> id in w.used) && w.t.sessions == map[] && w.flights == map[]
  }

  lemma StepKeepsIssued(w: World, s: Step)
    requires Enabled(w, s) && Issued(w)
    ensures Issued(Next(w, s)) && w.used <= Next(w, s).used
  {
  }

  lemma {:induction false} IssuedAlways(w: World, es: seq<Step>)
    requires Issued(w) && Possible(w, es)
    ensures Issued(After(w, es)) && w.used <= After(w, es).used
    decreases |es|
  {
    if es != [] {
      StepKeepsIssued(w, es[0]);
      IssuedAlways(Next(w, es[0]), es[1..]);
    }
  }

  // ---- what a write does ---------------------------------------------------------------------

  predicate GoodPassword(p: string) {
    |p| >= 8
  }

  predicate GoodRole(role: string) {
    role == "admin" || role == "member" || role == "viewer"
  }

  /** The effect on the tables of the write a request was let through for. */
  ghost predicate TakesEffect(t: Tables, t': Tables, f: Flight, id: string) {
    match f
    case LoggedIn(_) => t' == t
    case Updating(user, change, _, _) =>
      OthersKept(t, t', user) && (user in t'.users <==> user in t.users) &&
      (user in t.users ==> TookEffect(t.users[user], t'.users[user], change)) &&
      (if change.disabled == Some(true) || (change.password.Some? && change.password.value != "")
       then NoSessions(t', user) else SessionsKept(t, t'))
    case Deleting(_, user, _) => OthersKept(t, t', user) && user !in t'.users && NoSessions(t', user)
    case Creating(username, password, role) =>
      SessionsKept(t, t') && OthersKept(t, t', id) &&
      (id in t'.users <==> username != "" && GoodRole(role) && GoodPassword(password) && !UsernameTaken(t.users, username)) &&
      (id in t'.users ==> t'.users[id] == User(username, role, false, password))
    case Changing(user, _, newPassword, _) =>
      OthersKept(t, t', user) && NoSessions(t', user) && (user in t'.users <==> user in t.users) &&
      (user in t.users ==> SameButPassword(t.users[user], t'.users[user]) && OnlyPassword(t', user, newPassword))
  }

  predicate SameButPassword(u: User, v: User) {
    v.username == u.username && v.role == u.role && v.disabled == u.disabled
  }

  /** Whatever else is going on, a write does to the tables what the request asked for, to its user alone. */
  lemma WriteTakesEffect(w: World, k: nat, id: string)
    requires Issued(w) && Enabled(w, Write(k, id))
    ensures TakesEffect(w.t, Next(w, Write(k, id)).t, w.flights[k], id)
  {
    var f := w.flights[k];
    if f.Updating? {
      ChangeTakesEffect(w.t, f.id, f.change);
    } else if f.Changing? {
      ChangeTakesEffect(w.t, f.user, NO_CHANGE.(password := Some(f.newPassword)));
    }
  }

  /** A session is for the user whose password was checked, lasts twelve hours from the time it is issued
      for, and leaves everything else as it was. */
  lemma IssueGivesSession(w: World, k: nat, sid: string, issued: int, now: int)
    requires Issued(w) && Enabled(w, Issue(k, sid, issued))
    ensures var user, t, t' := w.flights[k].user, w.t, Next(w, Issue(k, sid, issued)).t;
      && t'.users == t.users && (forall other :: other in t.sessions ==> other in t'.sessions)
      && (forall other :: other in t'.sessions && other != sid ==> other in t.sessions && t'.sessions[other] == t.sessions[other])
      && (sid in t'.sessions <==> user in t.users) && (sid in t'.sessions ==> t'.sessions[sid].user == user)
      && (Resolves(t', sid, now) <==> user in t.users && !t.users[user].disabled && now < issued + 12 * 60 * 60)
  {
  }

  // ---- users stay well formed ----------------------------------------------------------------

  predicate GoodUser(u: User) {
    u.username != "" && GoodRole(u.role) && GoodPassword(u.password)
  }

  predicate GoodFlight(f: Flight) {
    && (f.Updating? && f.passed && f.change.role.Some? ==> GoodRole(f.change.role.value))
    && (f.Updating? && f.passed && NewPassword(f.change) ==> GoodPassword(f.change.password.value))
    && (f.Changing? ==> GoodPassword(f.newPassword))
  }

  /** Every user has a name of its own, a known role and a password that is long enough. */
  ghost predicate GoodUsers(w: World) {
    && (forall id :: id in w.t.users ==> GoodUser(w.t.users[id])) && UniqueNames(w.t.users)
    && (forall k :: k in w.flights ==> GoodFlight(w.flights[k]))
  }

  lemma WriteKeepsUsers(w: World, k: nat, id: string)
    requires GoodUsers(w) && Issued(w) && Enabled(w, Write(k, id))
    ensures GoodUsers(Next(w, Write(k, id)))
  {
  }

  lemma StepKeepsUsers(w: World, s: Step)
    requires GoodUsers(w) && Issued(w) && Enabled(w, s)
    ensures GoodUsers(Next(w, s))
  {
    if s.Write? {
      WriteKeepsUsers(w, s.k, s.newId);
    } else {
      assert Next(w, s).t.users == w.t.users;
    }
  }

  /** In every interleaving: however updates, password changes and creations overlap. */
  lemma {:induction false} UsersStayGood(w: World, es: seq<Step>)
    requires GoodUsers(w) && Issued(w) && Possible(w, es)
    ensures GoodUsers(After(w, es))
    decreases |es|
  {
    if es != [] {
      StepKeepsUsers(w, es[0]);
      StepKeepsIssued(w, es[0]);
      UsersStayGood(Next(w, es[0]), es[1..]);
    }
  }

  // ---- the last admin ------------------------------------------------------------------------

  ghost predicate HasAdmin(w: World) {
    EnabledAdmins(w.t.users) != {}
  }

  /** The write leaves an enabled admin: an update passes its guard on the very tables it changes, and a
      delete does not hit the only one. */
  ghost predicate SafeWrite(w: World, s: Step) {
    s.Write? && s.k in w.flights ==>
      match w.flights[s.k]
      case Updating(id, change, _, _) => !RemovesLastAdmin(w.t, id, change)
      case Deleting(_, id, _) => EnabledAdmins(w.t.users) != {id}
      case _ => true
  }

  ghost predicate SafeWrites(w: World, es: seq<Step>)
    requires Possible(w, es)
    decreases |es|
  {
    es == [] || (SafeWrite(w, es[0]) && SafeWrites(Next(w, es[0]), es[1..]))
  }

  ghost predicate AdminThroughout(w: World, es: seq<Step>)
    requires Possible(w, es)
    decreases |es|
  {
    HasAdmin(w) && (es == [] || AdminThroughout(Next(w, es[0]), es[1..]))
  }

  /** Writes that demote, disable or delete nobody lose no enabled admin. */
  lemma HarmlessWrite(w: World, k: nat, id: string)
    requires Enabled(w, Write(k, id)) && Issued(w) && !Removes(w.flights[k])
    ensures EnabledAdmins(w.t.users) <= EnabledAdmins(Next(w, Write(k, id)).t.users)
  {
  }

  lemma StepKeepsAdminIff(w: World, s: Step)
    requires Enabled(w, s) && Issued(w) && HasAdmin(w)
    ensures HasAdmin(Next(w, s)) <==> SafeWrite(w, s)
  {
    if s.Write? {
      var f := w.flights[s.k];
      if f.Updating? {
        GuardIsExact(w.t, f.id, f.change);
      } else if f.Deleting? {
        DeleteIsExact(w.t, f.id);
      } else {
        HarmlessWrite(w, s.k, s.newId);
      }
    }
  }

  /** Over all interleavings of requests an enabled admin remains throughout exactly when every update
      passes its guard on the tables it is written to, and no delete hits the only enabled admin. */
  lemma {:induction false} AdminRemainsIff(w: World, es: seq<Step>)
    requires Issued(w) && HasAdmin(w) && Possible(w, es)
    ensures AdminThroughout(w, es) <==> SafeWrites(w, es)
    decreases |es|
  {
    if es != [] {
      StepKeepsAdminIff(w, es[0]);
      StepKeepsIssued(w, es[0]);
      if SafeWrite(w, es[0]) {
        AdminRemainsIff(Next(w, es[0]), es[1..]);
      }
    }
  }

  // ---- what callers can do -------------------------------------------------------------------

  /** Since a demotion passed its guard, and since a delete was let in for a user, no other demotion or
      deletion has been written. */
  ghost predicate Undisturbed(w: World, es: seq<Step>)
    requires Possible(w, es)
    decreases |es|
  {
    es == [] ||
    ((es[0].Write? && Removes(w.flights[es[0].k]) ==> Fresh(w, w.flights[es[0].k])) &&
     Undisturbed(Next(w, es[0]), es[1..]))
  }

  predicate Fresh(w: World, f: Flight) {
    (f.Updating? ==> f.seen == w.removals) && (f.Deleting? ==> f.seen == w.removals && f.caller.Some?)
  }

  /** What a request has seen still stands so long as nobody else has demoted or deleted. */
  ghost predicate Stands(w: World, f: Flight) {
    match f
    case Updating(id, change, passed, seen) =>
      seen <= w.removals && (passed && seen == w.removals ==> !RemovesLastAdmin(w.t, id, change))
    case Deleting(caller, id, seen) =>
      seen <= w.removals &&
      (caller.Some? && seen == w.removals ==> caller.value in EnabledAdmins(w.t.users) && caller.value != id)
    case _ => true
  }

  ghost predicate AllStand(w: World) {
    forall k :: k in w.flights ==> Stands(w, w.flights[k])
  }

  lemma MoreAdmins(t: Tables, t': Tables, id: string, c: Change)
    requires EnabledAdmins(t.users) != {} && EnabledAdmins(t.users) <= EnabledAdmins(t'.users)
    requires !RemovesLastAdmin(t, id, c)
    ensures !RemovesLastAdmin(t', id, c)
  {
    var before, after := EnabledAdmins(t.users), EnabledAdmins(t'.users);
    if id in after && |after| <= 1 {
      assert |after - {id}| == 0;
      var a :| a in before;
      assert a in after && a !in after - {id};
      assert before == {id};
    }
  }

  lemma OtherStaysStanding(w: World, s: Step, f: Flight)
    requires Enabled(w, s) && Issued(w) && HasAdmin(w) && Stands(w, f)
    ensures Stands(Next(w, s), f)
  {
    if s.Write? && !Removes(w.flights[s.k]) {
      HarmlessWrite(w, s.k, s.newId);
      if f.Updating? && !RemovesLastAdmin(w.t, f.id, f.change) {
        MoreAdmins(w.t, Next(w, s).t, f.id, f.change);
      }
    }
  }

  lemma StepKeepsStanding(w: World, s: Step)
    requires Enabled(w, s) && Issued(w) && HasAdmin(w) && AllStand(w)
    ensures AllStand(Next(w, s))
  {
    var w' := Next(w, s);
    forall k | k in w'.flights
      ensures Stands(w', w'.flights[k])
    {
      if k in w.flights && w'.flights[k] == w.flights[k] {
        OtherStaysStanding(w, s, w.flights[k]);
      }
    }
  }

  lemma FreshIsSafe(w: World, s: Step)
    requires Enabled(w, s) && AllStand(w) && HasAdmin(w)
    requires s.Write? && Removes(w.flights[s.k]) ==> Fresh(w, w.flights[s.k])
    ensures SafeWrite(w, s)
  {
    if s.Write? && Removes(w.flights[s.k]) {
      assert Stands(w, w.flights[s.k]);
    }
  }

  /** Undisturbed requests never remove the last enabled admin. */
  lemma {:induction false} UndisturbedKeepsAdmin(w: World, es: seq<Step>)
    requires Issued(w) && HasAdmin(w) && AllStand(w) && Possible(w, es) && Undisturbed(w, es)
    ensures AdminThroughout(w, es)
    decreases |es|
  {
    if es != [] {
      FreshIsSafe(w, es[0]);
      StepKeepsAdminIff(w, es[0]);
      StepKeepsIssued(w, es[0]);
      StepKeepsStanding(w, es[0]);
      UndisturbedKeepsAdmin(Next(w, es[0]), es[1..]);
    }
  }

  predicate AsksRemoval(ask: Ask) {
    ask.Delete? || (ask.Update? && Demotes(ask.change))
  }

  /** Authentication is on, and nothing in flight demotes or deletes. */
  ghost predicate Alone(w: World) {
    !w.open && forall k :: k in w.flights ==> !Removes(w.flights[k])
  }

  /** A request that would demote or delete is let in only while no other such one is in flight. */
  ghost predicate OneRemovalAtATime(w: World, es: seq<Step>)
    requires Possible(w, es)
    decreases |es|
  {
    es == [] ||
    ((es[0].Admit? && AsksRemoval(es[0].ask) ==> Alone(w)) &&
     OneRemovalAtATime(Next(w, es[0]), es[1..]))
  }

  ghost predicate OneInFlight(w: World) {
    && (forall k, l :: k in w.flights && l in w.flights && Removes(w.flights[k]) && Removes(w.flights[l]) ==> k == l)
    && (forall k :: k in w.flights && Removes(w.flights[k]) ==> Fresh(w, w.flights[k]))
  }

  lemma StepKeepsOneInFlight(w: World, s: Step)
    requires Enabled(w, s) && OneInFlight(w)
    requires s.Admit? && AsksRemoval(s.ask) ==> Alone(w)
    ensures OneInFlight(Next(w, s))
  {
  }

  lemma {:induction false} OneAtATimeIsUndisturbed(w: World, es: seq<Step>)
    requires Possible(w, es) && OneInFlight(w) && OneRemovalAtATime(w, es)
    ensures Undisturbed(w, es)
    decreases |es|
  {
    if es != [] {
      StepKeepsOneInFlight(w, es[0]);
      OneAtATimeIsUndisturbed(Next(w, es[0]), es[1..]);
    }
  }

  /** With authentication on, and demotions and deletions one after the other, whatever else goes on at
      the same time: from the start on an enabled admin always remains. */
  lemma AnAdminAlwaysRemains(start: World, es: seq<Step>)
    requires Initial(start) && HasAdmin(start) && Possible(start, es) && OneRemovalAtATime(start, es)
    ensures AdminThroughout(start, es)
  {
    OneAtATimeIsUndisturbed(start, es);
    UndisturbedKeepsAdmin(start, es);
  }

  // ---- races that lock everybody out -----------------------------------------------------------

  const Ann := User("ann", "admin", false, "password")
  const Bob := User("bob", "admin", false, "password")

  /** A fresh installation with its first admin. */
  const Seeded := World(Tables(map["a" := Ann], map[]), false, 0, {"a"}, map[], 0)

  /** Two admins, each logged in. */
  const TwoAdmins := World(
    Tables(map["a" := Ann, "b" := Bob], map["s" := Session("a", SESSION_TTL), "t" := Session("b", SESSION_TTL)]),
    false, 0, {"a", "b", "s", "t"}, map[], 0)

  lemma Prepend(w: World, s: Step, es: seq<Step>)
    requires Enabled(w, s) && Possible(Next(w, s), es)
    ensures Possible(w, [s] + es) && After(w, [s] + es) == After(Next(w, s), es)
  {
    assert ([s] + es)[1..] == es;
  }

  lemma {:induction false} Join(w: World, es: seq<Step>, more: seq<Step>)
    requires Possible(w, es) && Possible(After(w, es), more)
    ensures Possible(w, es + more) && After(w, es + more) == After(After(w, es), more)
    decreases |es|
  {
    if es == [] {
      assert es + more == more;
    } else {
      Join(Next(w, es[0]), es[1..], more);
      assert es + more == [es[0]] + (es[1..] + more);
      Prepend(w, es[0], es[1..] + more);
    }
  }

  lemma TwoSteps(w: World, s: Step, t: Step)
    requires Enabled(w, s) && Enabled(Next(w, s), t)
    ensures Possible(w, [s, t]) && After(w, [s, t]) == Next(Next(w, s), t)
  {
    Prepend(Next(w, s), t, []);
    assert [t] + [] == [t] && [s] + [t] == [s, t];
    Prepend(w, s, [t]);
  }

  lemma LogIn(w: World, k: nat, user: string, u: User, sid: string) returns (es: seq<Step>)
    requires user in w.t.users && w.t.users[user] == u && !u.disabled && k !in w.flights && sid !in w.used
    ensures Possible(w, es)
    ensures After(w, es) == w.(t := w.t.(sessions := w.t.sessions[sid := Session(user, w.clock + SESSION_TTL)]),
                               used := w.used + {sid})
  {
    var s, t := Verify(k, user, u.username, u.password), Issue(k, sid, w.clock);
    var w1 := Next(w, s);
    assert w1.flights - {k} == w.flights;
    TwoSteps(w, s, t);
    es := [s, t];
  }

  /** From a fresh installation two admins can come to be logged in. */
  lemma SetUp() returns (es: seq<Step>)
    ensures Possible(Seeded, es) && After(Seeded, es) == TwoAdmins
  {
    var first := LogIn(Seeded, 0, "a", Ann, "s");
    var w1 := After(Seeded, first);
    assert w1.t == Tables(map["a" := Ann], map["s" := Session("a", SESSION_TTL)]);
    var s, t := Admit(0, "s", 0, true, Create("bob", "password", "admin")), Write(0, "b");
    assert !UsernameTaken(w1.t.users, "bob");
    var w2 := Next(w1, s);
    assert w2.flights - {0} == map[];
    TwoSteps(w1, s, t);
    var w3 := Next(w2, t);
    assert w3.t.users == map["a" := Ann, "b" := Bob];
    var last := LogIn(w3, 0, "b", Bob, "t");
    Join(Seeded, first, [s, t]);
    Join(Seeded, first + [s, t], last);
    es := first + [s, t] + last;
    var w := After(Seeded, es);
    assert w.t.sessions == TwoAdmins.t.sessions && w.used == TwoAdmins.used;
  }

  lemma FourSteps(w: World, a: Step, b: Step, c: Step, d: Step)
    requires Enabled(w, a) && Enabled(Next(w, a), b) && Enabled(Next(Next(w, a), b), c)
    requires Enabled(Next(Next(Next(w, a), b), c), d)
    ensures Possible(w, [a, b] + [c, d]) && After(w, [a, b] + [c, d]) == Next(Next(Next(Next(w, a), b), c), d)
  {
    TwoSteps(w, a, b);
    TwoSteps(Next(Next(w, a), b), c, d);
    Join(w, [a, b], [c, d]);
  }

  /** The only two enabled admins are logged in, and no request is in flight. */
  ghost predicate TwoLoggedIn(w: World, a: string, b: string, s: string, t: string) {
    && !w.open && w.flights == map[] && a != b && EnabledAdmins(w.t.users) == {a, b}
    && Resolves(w.t, s, w.clock) && w.t.sessions[s].user == a
    && Resolves(w.t, t, w.clock) && w.t.sessions[t].user == b
  }

  const DEMOTE := NO_CHANGE.(role := Some("member"))

  /** Either way the user is no enabled admin any more, and the others are what they were. */
  lemma AdminsLeft(t: Tables, id: string)
    ensures EnabledAdmins(Deleted(t, id).users) == EnabledAdmins(t.users) - {id}
    ensures EnabledAdmins(Changed(t, id, DEMOTE).users) == EnabledAdmins(t.users) - {id}
  {
  }

  lemma OneOfTwo(a: string, b: string)
    requires a != b
    ensures {a, b} - {b} == {a} && {a, b} - {a} == {b} && |{a, b}| == 2
  {
  }

  /** Two admins who delete each other: both are let in while the other is there, and nothing is checked
      when the deletes are written. */
  lemma MutualDeletesLockOut(w: World, a: string, b: string, s: string, t: string)
    requires TwoLoggedIn(w, a, b, s, t)
    ensures var es := [Admit(0, s, w.clock, true, Delete(b)), Admit(1, t, w.clock, true, Delete(a))] + [Write(0, ""), Write(1, "")];
            Possible(w, es) && !HasAdmin(After(w, es))
  {
    var e, f := Admit(0, s, w.clock, true, Delete(b)), Admit(1, t, w.clock, true, Delete(a));
    var w2 := Next(Next(w, e), f);
    assert w2.t == w.t;
    var w3 := Next(w2, Write(0, ""));
    AdminsLeft(w.t, b);
    OneOfTwo(a, b);
    FourSteps(w, e, f, Write(0, ""), Write(1, ""));
    DeleteIsExact(w3.t, a);
  }

  lemma DemotionPasses(t: Tables, a: string, b: string)
    requires a != b && EnabledAdmins(t.users) == {a, b}
    ensures !UpdateRefused(t, a, DEMOTE) && !UpdateRefused(t, b, DEMOTE)
    ensures EnabledAdmins(Changed(t, a, DEMOTE).users) == {b} && EnabledAdmins(Changed(t, b, DEMOTE).users) == {a}
  {
    OneOfTwo(a, b);
    AdminsLeft(t, a);
    AdminsLeft(t, b);
  }

  /** A delete let in before its caller is demoted: the demotion passed its guard on the very tables it
      changed, and the delete then hits the only admin left. */
  lemma DeleteByDemotedLocksOut(w: World, a: string, b: string, s: string, t: string)
    requires TwoLoggedIn(w, a, b, s, t)
    ensures var es := [Admit(0, t, w.clock, true, Delete(a)), Admit(1, s, w.clock, true, Update(b, DEMOTE))]
                      + [Guard(1), Write(1, "")] + [Write(0, "")];
            Possible(w, es) && !HasAdmin(After(w, es))
  {
    var e, f := Admit(0, t, w.clock, true, Delete(a)), Admit(1, s, w.clock, true, Update(b, DEMOTE));
    DemotionPasses(w.t, a, b);
    var w4 := Next(Next(Next(Next(w, e), f), Guard(1)), Write(1, ""));
    assert w4.t == Changed(w.t, b, DEMOTE);
    assert w4.flights[0] == Deleting(Some(b), a, w.removals);
    FourSteps(w, e, f, Guard(1), Write(1, ""));
    Prepend(w4, Write(0, ""), []);
    assert [Write(0, "")] + [] == [Write(0, "")];
    Join(w, [e, f] + [Guard(1), Write(1, "")], [Write(0, "")]);
    DeleteIsExact(w4.t, a);
  }

  /** Two admins who demote each other: both pass the guard before either update is written. */
  lemma MutualDemotionsLockOut(w: World, a: string, b: string, s: string, t: string)
    requires TwoLoggedIn(w, a, b, s, t)
    ensures var es := [Admit(0, s, w.clock, true, Update(b, DEMOTE)), Admit(1, t, w.clock, true, Update(a, DEMOTE))]
                      + [Guard(0), Guard(1)] + [Write(0, ""), Write(1, "")];
            Possible(w, es) && !HasAdmin(After(w, es))
  {
    var e, f := Admit(0, s, w.clock, true, Update(b, DEMOTE)), Admit(1, t, w.clock, true, Update(a, DEMOTE));
    DemotionPasses(w.t, a, b);
    var w4 := Next(Next(Next(Next(w, e), f), Guard(0)), Guard(1));
    assert w4.t == w.t;
    assert w4.flights == map[0 := Updating(b, DEMOTE, true, w.removals), 1 := Updating(a, DEMOTE, true, w.removals)];
    FourSteps(w, e, f, Guard(0), Guard(1));
    TwoSteps(w4, Write(0, ""), Write(1, ""));
    Join(w, [e, f] + [Guard(0), Guard(1)], [Write(0, ""), Write(1, "")]);
    var w5 := Next(w4, Write(0, ""));
    assert EnabledAdmins(w5.t.users) == {a};
    GuardIsExact(w5.t, a, DEMOTE);
  }

  lemma TwoAdminsLoggedIn()
    ensures TwoLoggedIn(TwoAdmins, "a", "b", "s", "t")
  {
    assert EnabledAdmins(TwoAdmins.t.users) == {"a", "b"};
  }

  /** All three happen: each has a run from a fresh installation. */
  lemma LockOutsHappen() returns (deletes: seq<Step>, demoted: seq<Step>, demotions: seq<Step>)
    ensures Possible(Seeded, deletes) && !HasAdmin(After(Seeded, deletes)) && !SafeWrites(Seeded, deletes)
    ensures Possible(Seeded, demoted) && !HasAdmin(After(Seeded, demoted)) && !SafeWrites(Seeded, demoted)
    ensures Possible(Seeded, demotions) && !HasAdmin(After(Seeded, demotions)) && !SafeWrites(Seeded, demotions)
  {
    var start := SetUp();
    TwoAdminsLoggedIn();
    var w := TwoAdmins;
    deletes := [Admit(0, "s", w.clock, true, Delete("b")), Admit(1, "t", w.clock, true, Delete("a"))] + [Write(0, ""), Write(1, "")];
    demoted := [Admit(0, "t", w.clock, true, Delete("a")), Admit(1, "s", w.clock, true, Update("b", DEMOTE))]
               + [Guard(1), Write(1, "")] + [Write(0, "")];
    demotions := [Admit(0, "s", w.clock, true, Update("b", DEMOTE)), Admit(1, "t", w.clock, true, Update("a", DEMOTE))]
                 + [Guard(0), Guard(1)] + [Write(0, ""), Write(1, "")];
    MutualDeletesLockOut(w, "a", "b", "s", "t");
    DeleteByDemotedLocksOut(w, "a", "b", "s", "t");
    MutualDemotionsLockOut(w, "a", "b", "s", "t");
    LockedOut(start, deletes);
    LockedOut(start, demoted);
    LockedOut(start, demotions);
    deletes, demoted, demotions := start + deletes, start + demoted, start + demotions;
  }

  lemma {:induction false} ThroughoutAtEnd(w: World, es: seq<Step>)
    requires Possible(w, es) && AdminThroughout(w, es)
    ensures HasAdmin(After(w, es))
    decreases |es|
  {
    if es != [] {
      ThroughoutAtEnd(Next(w, es[0]), es[1..]);
    }
  }

  lemma LockedOut(start: seq<Step>, es: seq<Step>)
    requires Possible(Seeded, start) && Possible(After(Seeded, start), es) && !HasAdmin(After(After(Seeded, start), es))
    ensures Possible(Seeded, start + es) && !HasAdmin(After(Seeded, start + es)) && !SafeWrites(Seeded, start + es)
  {
    Join(Seeded, start, es);
    assert "a" in EnabledAdmins(Seeded.t.users);
    AdminRemainsIff(Seeded, start + es);
    if SafeWrites(Seeded, start + es) {
      ThroughoutAtEnd(Seeded, start + es);
    }
  }

  // ---- sessions ------------------------------------------------------------------------------

  /** The write disables the user, gives it another password, or deletes it. */
  ghost predicate Revokes(w: World, s: Step, user: string) {
    s.Write? && s.k in w.flights &&
    match w.flights[s.k]
    case Updating(id, change, _, _) => id == user && (change.disabled == Some(true) || NewPassword(change))
    case Deleting(_, id, _) => id == user
    case Changing(id, _, _, _) => id == user
    case _ => false
  }

  ghost predicate Ends(w: World, s: Step, sid: string)
    requires sid in w.t.sessions
  {
    || Revokes(w, s, w.t.sessions[sid].user)
    || (s.Logout? && s.cookie == sid)
    || (s.Tick? && w.t.sessions[sid].expires <= s.to)
  }

  /** In every interleaving since the start, a live session stays live through the next step unless that
      step ends it: nothing else does. */
  lemma SessionEndsExactly(start: World, es: seq<Step>, s: Step, sid: string)
    requires Initial(start) && Possible(start, es) && Enabled(After(start, es), s)
    requires Resolves(After(start, es).t, sid, After(start, es).clock)
    ensures var w := After(start, es); Resolves(Next(w, s).t, sid, Next(w, s).clock) <==> !Ends(w, s, sid)
  {
    IssuedAlways(start, es);
    StepEnds(After(start, es), s, sid);
  }

  lemma StepEnds(w: World, s: Step, sid: string)
    requires Issued(w) && Enabled(w, s) && Resolves(w.t, sid, w.clock)
    ensures Resolves(Next(w, s).t, sid, Next(w, s).clock) <==> !Ends(w, s, sid)
  {
  }

  lemma RevokedIsGone(w: World, s: Step, sid: string)
    requires Enabled(w, s) && Issued(w)
    requires sid in w.t.sessions && Revokes(w, s, w.t.sessions[sid].user)
    ensures sid !in Next(w, s).t.sessions && sid in Next(w, s).used
  {
  }

  lemma {:induction false} GoneStaysGone(w: World, es: seq<Step>, sid: string)
    requires Possible(w, es) && sid !in w.t.sessions && sid in w.used
    ensures sid !in After(w, es).t.sessions
    decreases |es|
  {
    if es != [] {
      GoneStaysGone(Next(w, es[0]), es[1..], sid);
    }
  }

  /** In every interleaving since the start: a session issued before its user was disabled, deleted or
      given another password never resolves again, whatever follows and whenever it is asked about. */
  lemma RevokedSessionNeverResolves(start: World, before: seq<Step>, s: Step, after: seq<Step>, sid: string, now: int)
    requires Initial(start) && Possible(start, before) && Enabled(After(start, before), s)
    requires var w := After(start, before); sid in w.t.sessions && Revokes(w, s, w.t.sessions[sid].user)
    requires Possible(Next(After(start, before), s), after)
    ensures !Resolves(After(Next(After(start, before), s), after).t, sid, now)
  {
    var w := After(start, before);
    IssuedAlways(start, before);
    RevokedIsGone(w, s, sid);
    GoneStaysGone(Next(w, s), after, sid);
  }

  /** Only sessions issued before: a login that checked the old password just before a change of
      password is given its session after it, and that one is live. */
  lemma LoginOutrunsRevocation(w: World, k: nat, user: string, s: Step, sid: string)
    requires k in w.flights && w.flights[k] == LoggedIn(user) && Enabled(w, s) && s.Write? && s.k != k
    requires Revokes(w, s, user) && user in Next(w, s).t.users && !Next(w, s).t.users[user].disabled
    requires sid !in Next(w, s).used
    ensures var w' := Next(w, s); var issue := Issue(k, sid, w'.clock);
            Enabled(w', issue) && Resolves(Next(w', issue).t, sid, w'.clock) && Next(w', issue).t.sessions[sid].user == user
  {
  }
}
