/** Who gets through the capability check of which route. */
module AccessPolicy {
  import opened Accounts
  import opened Text

  lemma PermitsIff(needed: set<Cap>, caps: set<Cap>)
    ensures Permits(AnyOf(needed), caps) <==> exists c :: c in needed && c in caps
  {
    if c :| c in needed && c in caps {
      assert c in needed * caps;
    }
    if Permits(AnyOf(needed), caps) {
      var c :| c in needed * caps;
      assert c in needed && c in caps;
    }
  }

  /** Exactly these roles, and exactly these token scopes, get through. */
  ghost predicate OpenTo(policy: Policy, roles: set<string>, scopes: set<string>) {
    && (forall role :: Permits(policy, RoleCaps(role)) <==> role in roles)
    && (forall scope :: Permits(policy, ScopeCaps(scope)) <==> scope in scopes)
  }

  lemma PermitsOne(c: Cap, caps: set<Cap>)
    ensures Permits(AnyOf({c}), caps) <==> c in caps
  {
    PermitsIff({c}, caps);
  }

  lemma MayOne(c: Cap, roles: set<string>, scopes: set<string>)
    requires forall role :: c in RoleCaps(role) <==> role in roles
    requires forall scope :: c in ScopeCaps(scope) <==> scope in scopes
    ensures OpenTo(AnyOf({c}), roles, scopes)
  {
    forall role {
      PermitsOne(c, RoleCaps(role));
    }
    forall scope {
      PermitsOne(c, ScopeCaps(scope));
    }
  }

  /** The roles and scopes that have each capability. */
  lemma WhoMay()
    ensures OpenTo(AnyOf({Read}), {"admin", "member", "viewer"}, {"readonly"})
    ensures OpenTo(AnyOf({Operate}), {"admin", "member"}, {})
    ensures OpenTo(AnyOf({Admin}), {"admin"}, {})
    ensures OpenTo(AnyOf({Queue}), {"admin"}, {"runner"})
    ensures OpenTo(AnyOf({Ingest}), {"admin"}, {"runner", "ingest"})
  {
    MayOne(Read, {"admin", "member", "viewer"}, {"readonly"});
    MayOne(Operate, {"admin", "member"}, {});
    MayOne(Admin, {"admin"}, {});
    MayOne(Queue, {"admin"}, {"runner"});
    MayOne(Ingest, {"admin"}, {"runner", "ingest"});
  }

  /** The scanner's settings are open to runners and to people who may operate. */
  lemma WhoMayEither()
    ensures OpenTo(AnyOf({Queue, Operate}), {"admin", "member"}, {"runner"})
  {
    forall name: string
      ensures Permits(AnyOf({Queue, Operate}), RoleCaps(name)) <==> name in {"admin", "member"}
      ensures Permits(AnyOf({Queue, Operate}), ScopeCaps(name)) <==> name in {"runner"}
    {
      PermitsIff({Queue, Operate}, RoleCaps(name));
      PermitsIff({Queue, Operate}, ScopeCaps(name));
    }
  }

  /** What the single routes need. */
  lemma FixedRoutes(verb: string)
    ensures RequiredCaps(verb, "/api/health") == Public && RequiredCaps(verb, "/api/auth/login") == Public
    ensures RequiredCaps(verb, "/api/auth/logout") == Public
    ensures RequiredCaps(verb, "/api/auth/me") == Authed && RequiredCaps(verb, "/api/auth/change-password") == Authed
    ensures RequiredCaps(verb, "/api/scan/runs/claim") == AnyOf({Queue})
    ensures RequiredCaps(verb, "/api/malware/cursor") == AnyOf({Queue})
    ensures RequiredCaps(verb, "/api/malware/match") == AnyOf({Queue})
    ensures RequiredCaps(verb, "/api/ingest") == AnyOf({Ingest})
  {
  }

  lemma SettingsRoute(verb: string)
    ensures RequiredCaps(verb, "/api/scanner/config") == AnyOf({Queue, Operate})
  {
    assert "/api/scanner/config"[9] == 'n' && "/api/scan/runs/"[9] == '/';
    assert !StartsWith("/api/scanner/config", "/api/scan/runs/");
    assert !StartsWith("/api/scanner/config", "/api/sync/") by {
      assert "/api/scanner/config"[6] == 'c' && "/api/sync/"[6] == 'y';
    }
  }

  /** Claiming and completing a run is the queue's business, completing any run. */
  lemma CompleteRoute(verb: string, run: string)
    ensures RequiredCaps(verb, "/api/scan/runs/" + run + "/complete") == AnyOf({Queue})
  {
    var path := "/api/scan/runs/" + run + "/complete";
    assert path[5] == 's' && path[6] == 'c' && path[7] == 'a' && path[8] == 'n';
    assert StartsWith(path, "/api/") && StartsWith(path, "/api/scan/runs/");
    assert path[|path| - 9..] == "/complete";
    assert EndsWith(path, "/complete");
    assert "/api/health"[5] == 'h' && "/api/auth/login"[5] == 'a' && "/api/auth/logout"[5] == 'a';
    assert "/api/auth/me"[5] == 'a' && "/api/auth/change-password"[5] == 'a';
  }

  lemma SyncRoute(verb: string, rest: string)
    ensures RequiredCaps(verb, "/api/sync/" + rest) == AnyOf({Ingest})
  {
    var path := "/api/sync/" + rest;
    assert path[5] == 's' && path[6] == 'y';
    assert StartsWith(path, "/api/") && StartsWith(path, "/api/sync/");
    assert "/api/scan/runs/"[6] == 'c' && "/api/scan/runs/claim"[6] == 'c';
  }

  lemma DemoRoute(verb: string, rest: string)
    ensures RequiredCaps(verb, "/api/demo/" + rest) == AnyOf({Admin})
  {
    var path := "/api/demo/" + rest;
    assert path[5] == 'd';
    assert StartsWith(path, "/api/") && StartsWith(path, "/api/demo/");
    assert "/api/scan/runs/"[5] == 's' && "/api/sync/"[5] == 's';
  }

  lemma TokenRoute(verb: string, rest: string)
    ensures RequiredCaps(verb, "/api/admin/tokens" + rest) == AnyOf({Operate})
  {
    var path := "/api/admin/tokens" + rest;
    assert path[5] == 'a' && path[6] == 'd' && path[11] == 't';
    assert StartsWith(path, "/api/") && StartsWith(path, "/api/admin/tokens");
    assert "/api/scan/runs/"[5] == 's' && "/api/sync/"[5] == 's' && "/api/demo/"[5] == 'd' && "/api/admin/users"[11] == 'u';
    assert "/api/auth/login"[6] == 'u' && "/api/auth/logout"[6] == 'u' && "/api/auth/me"[6] == 'u';
    assert "/api/auth/change-password"[6] == 'u';
  }

  /** Every route under another letter: reading needs one capability, everything else another. */
  lemma OtherRoute(verb: string, c: char, rest: string)
    requires c !in {'a', 'd', 'h', 'i', 'm', 's'}
    ensures RequiredCaps(verb, "/api/" + ([c] + rest)) == AnyOf({if verb == "GET" then Read else Operate})
  {
    var path := "/api/" + ([c] + rest);
    assert path[5] == c && StartsWith(path, "/api/");
    assert "/api/health"[5] == 'h' && "/api/auth/login"[5] == 'a' && "/api/auth/logout"[5] == 'a';
    assert "/api/auth/me"[5] == 'a' && "/api/auth/change-password"[5] == 'a' && "/api/scan/runs/claim"[5] == 's';
    assert "/api/scan/runs/"[5] == 's' && "/api/sync/"[5] == 's' && "/api/demo/"[5] == 'd';
    assert "/api/malware/cursor"[5] == 'm' && "/api/malware/match"[5] == 'm' && "/api/ingest"[5] == 'i';
    assert "/api/scanner/config"[5] == 's' && "/api/admin/users"[5] == 'a' && "/api/admin/tokens"[5] == 'a';
  }

  /** Nothing outside the API needs anything. */
  lemma OutsideIsPublic(verb: string, path: string)
    ensures !("/api/" <= path) ==> RequiredCaps(verb, path) == Public
  {
  }
}
