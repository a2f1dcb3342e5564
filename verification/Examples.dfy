/** What can go wrong, each time at the end of an admissible run from a freshly migrated
    database: one command takes two drones off line, a session survives its own logout,
    decisions and logins leave no audit row. */
module Examples {
  import opened Model
  import opened Sessions
  import opened ApiKeys
  import opened KeyCli
  import opened Login
  import opened Permissions
  import opened OrgChain
  import opened Rbac
  import opened AuditLog
  import opened Requests
  import opened Guard
  import opened System
  import opened EndToEnd
  import LoginAudit

  type Roles = map<int, string>

  const ONE_ORG: Orgs := map[1 := Org("fleet", "Fleet", None)]

  lemma RunUnfolds(rt: Runtime, st: Store, now: Time, es: seq<Event>)
    requires es != []
    ensures Run(rt, st, es) == Run(rt, Step(rt, st, es[0]), es[1..])
    ensures Admissible(rt, st, now, es) <==>
              now <= es[0].at && Fresh(rt, st, es[0].op) && Admissible(rt, Step(rt, st, es[0]), es[0].at, es[1..])
  {
  }

  /** With nothing stored but the rows of four tables, the schema comes down to those. */
  lemma FirstRowsAreOk(st: Store)
    requires st.sessions == map[] && st.keys == map[] && st.audit == [] && IsSeed(st.roles)
    requires EmailsUnique(st.users) && OrgSlugsUnique(st.orgs) && DroneSlugsUnique(st.drones)
    requires forall o :: o in st.orgs ==> OrgFits(st.orgs[o])
    requires forall u :: u in st.users ==> UserFits(st.users[u]) && st.users[u].orgId in st.orgs
    requires forall d :: d in st.drones ==> Fits(st.drones[d].slug, SLUG_WIDTH)
    requires forall g :: g in st.grants ==> g.user in st.users && g.org in st.orgs && g.role in st.roles
    requires forall u :: u in st.users ==> SameLockout(st.users[u], None)
    ensures MayAdminister(Migrated(st.roles), st)
  {
  }

  // ---------- a shared prefix ----------

  function TwoDrones(roles: Roles): Store {
    Migrated(roles).(orgs := ONE_ORG, drones := map[1 := Drone(1, "alpha", true), 2 := Drone(1, "bravo", true)])
  }

  /** Each drone gets a key; the draws share their prefix. */
  function TwoMints(roles: Roles, prefix: string, a: string, b: string): seq<Event> {
    [Event(1, Administer(TwoDrones(roles))),
     Event(2, OnKeys(MintKey("fleet", "alpha", "", Draw(prefix, a, 10)))),
     Event(3, OnKeys(MintKey("fleet", "bravo", "", Draw(prefix, b, 20))))]
  }

  lemma DronesMayBeAdded(roles: Roles)
    requires IsSeed(roles)
    ensures MayAdminister(Migrated(roles), TwoDrones(roles))
  {
    assert "alpha"[0] != "bravo"[0];
    FirstRowsAreOk(TwoDrones(roles));
  }

  lemma DroneFound(st: Store, drone: Uuid, slug: string)
    requires st.orgs == TwoDrones(st.roles).orgs && st.drones == TwoDrones(st.roles).drones
    requires (drone == 1 && slug == "alpha") || (drone == 2 && slug == "bravo")
    ensures TargetOf(st, "fleet", slug) == Found(drone)
  {
    assert IsOrgSlug(st, 1, "fleet") && IsDroneSlug(st, drone, 1, slug);
    assert "alpha"[0] == 'a' && "bravo"[0] == 'b';
    TargetIsUnique(st, "fleet", slug, Found(drone));
  }

  function KeyRow(rt: Runtime, drone: Uuid, prefix: string, secret: string): ApiKey {
    ApiKey(drone, prefix, rt.digest(PrintKey(prefix, secret)), "", None, None)
  }

  function OneKey(rt: Runtime, roles: Roles, prefix: string, a: string): Store {
    TwoDrones(roles).(keys := map[10 := KeyRow(rt, 1, prefix, a)])
  }

  function BothKeys(rt: Runtime, roles: Roles, prefix: string, a: string, b: string): Store {
    TwoDrones(roles).(keys := map[10 := KeyRow(rt, 1, prefix, a), 20 := KeyRow(rt, 2, prefix, b)])
  }

  lemma FirstMint(rt: Runtime, roles: Roles, prefix: string, a: string)
    ensures AfterMint(rt, TwoDrones(roles), "fleet", "alpha", "", Draw(prefix, a, 10)) == OneKey(rt, roles, prefix, a)
  {
    DroneFound(TwoDrones(roles), 1, "alpha");
    assert ActiveKeysOf(TwoDrones(roles), 1) == {};
  }

  lemma SecondMint(rt: Runtime, roles: Roles, prefix: string, a: string, b: string)
    ensures AfterMint(rt, OneKey(rt, roles, prefix, a), "fleet", "bravo", "", Draw(prefix, b, 20)) ==
            BothKeys(rt, roles, prefix, a, b)
  {
    var st := OneKey(rt, roles, prefix, a);
    DroneFound(st, 2, "bravo");
    assert ActiveKeysOf(st, 2) == {};
  }

  lemma RunOfThree(rt: Runtime, st: Store, now: Time, es: seq<Event>)
    requires |es| == 3
    ensures var one := Step(rt, st, es[0]);
            var two := Step(rt, one, es[1]);
            && Run(rt, st, es) == Step(rt, two, es[2])
            && (Admissible(rt, st, now, es) <==>
                  && now <= es[0].at <= es[1].at <= es[2].at
                  && Fresh(rt, st, es[0].op) && Fresh(rt, one, es[1].op) && Fresh(rt, two, es[2].op))
  {
    var one := Step(rt, st, es[0]);
    var two := Step(rt, one, es[1]);
    assert es[1..][0] == es[1] && es[1..][1..] == [es[2]] && [es[2]][1..] == [];
    RunUnfolds(rt, st, now, es);
    RunUnfolds(rt, one, es[0].at, es[1..]);
    RunUnfolds(rt, two, es[1].at, [es[2]]);
    assert Admissible(rt, Step(rt, two, es[2]), es[2].at, []);
    assert Run(rt, Step(rt, two, es[2]), []) == Step(rt, two, es[2]);
  }

  lemma TwoMintsRun(rt: Runtime, roles: Roles, prefix: string, a: string, b: string)
    requires IsSeed(roles) && IsDraw(prefix, a) && IsDraw(prefix, b)
    requires rt.digest(PrintKey(prefix, a)) != rt.digest(PrintKey(prefix, b))
    ensures Admissible(rt, Migrated(roles), 0, TwoMints(roles, prefix, a, b))
    ensures Run(rt, Migrated(roles), TwoMints(roles, prefix, a, b)) == BothKeys(rt, roles, prefix, a, b)
  {
    var es := TwoMints(roles, prefix, a, b);
    var one := OneKey(rt, roles, prefix, a);
    DronesMayBeAdded(roles);
    FirstMint(rt, roles, prefix, a);
    SecondMint(rt, roles, prefix, a, b);
    assert Step(rt, Migrated(roles), es[0]) == TwoDrones(roles);
    assert Step(rt, TwoDrones(roles), es[1]) == one;
    assert Step(rt, one, es[2]) == BothKeys(rt, roles, prefix, a, b);
    RunOfThree(rt, Migrated(roles), 0, es);
  }

  /** Any two draws with one prefix will do, if their hashes differ: the run is admissible and
      keeps the invariant, and revoking the one prefix revokes the keys of both drones. */
  lemma SharedPrefixRevokesBoth(rt: Runtime, roles: Roles, prefix: string, a: string, b: string, now: Time)
    requires IsSeed(roles) && IsDraw(prefix, a) && IsDraw(prefix, b)
    requires rt.digest(PrintKey(prefix, a)) != rt.digest(PrintKey(prefix, b))
    ensures Admissible(rt, Migrated(roles), 0, TwoMints(roles, prefix, a, b))
    ensures var st := Run(rt, Migrated(roles), TwoMints(roles, prefix, a, b));
            && Inv(st, 3) && ActiveKeysOf(st, 1) == {10} && ActiveKeysOf(st, 2) == {20}
            && var after := RevokeKeys(st, ActiveKeysWith(st, prefix), now);
               ActiveKeysOf(after, 1) == {} && ActiveKeysOf(after, 2) == {}
  {
    TwoMintsRun(rt, roles, prefix, a, b);
    ReachableStoresAreOk(rt, roles, 0, TwoMints(roles, prefix, a, b));
    assert ActiveKeysWith(BothKeys(rt, roles, prefix, a, b), prefix) == {10, 20};
  }

  // ---------- a user, and a session ----------

  const PILOT := User("pilot@fleet", "stored", "Pilot", 1, true, None, 0, None)

  /** One user, with the admin role at the one org. */
  function Staffed(roles: Roles): Store {
    Migrated(roles).(orgs := ONE_ORG, users := map[1 := PILOT], grants := map[GrantKey(1, 1, 6) := Grant(None, None)])
  }

  function Hire(roles: Roles): Event {
    Event(1, Administer(Staffed(roles)))
  }

  lemma Hired(rt: Runtime, roles: Roles)
    requires IsSeed(roles)
    ensures Step(rt, Migrated(roles), Hire(roles)) == Staffed(roles)
    ensures Admissible(rt, Migrated(roles), 0, [Hire(roles)])
    ensures Run(rt, Migrated(roles), [Hire(roles)]) == Staffed(roles)
  {
    FirstRowsAreOk(Staffed(roles));
    RunUnfolds(rt, Migrated(roles), 0, [Hire(roles)]);
    RunOfOne(rt, Migrated(roles), Hire(roles));
    assert [Hire(roles)][1..] == [];
  }

  /** One step after the user is added. */
  lemma HiredThen(rt: Runtime, roles: Roles, e: Event)
    requires IsSeed(roles) && e.at >= 1 && !e.op.OnKeys?
    ensures Admissible(rt, Migrated(roles), 0, [Hire(roles), e])
    ensures Run(rt, Migrated(roles), [Hire(roles), e]) == Step(rt, Staffed(roles), e)
    ensures Inv(Step(rt, Staffed(roles), e), e.at)
  {
    var es := [Hire(roles), e];
    Hired(rt, roles);
    RunUnfolds(rt, Migrated(roles), 0, es);
    assert es[1..] == [e];
    RunUnfolds(rt, Staffed(roles), 1, [e]);
    assert [e][1..] == [];
    RunOfOne(rt, Staffed(roles), e);
    ReachableStoresAreOk(rt, roles, 0, es);
  }

  /** The user opens a session with token `token` over the bearer transport. */
  function SignIn(roles: Roles, token: string): seq<Event> {
    [Hire(roles), Event(2, OnSessions(OpenSession(1, Bearer, None, token, 10)))]
  }

  function SignedIn(rt: Runtime, roles: Roles, token: string): Store {
    Staffed(roles).(sessions := map[10 := FreshSession(1, Bearer, rt.digest(token), None, 2)])
  }

  lemma SignInRun(rt: Runtime, roles: Roles, token: string)
    requires IsSeed(roles)
    ensures Admissible(rt, Migrated(roles), 0, SignIn(roles, token))
    ensures Run(rt, Migrated(roles), SignIn(roles, token)) == SignedIn(rt, roles, token)
    ensures Inv(SignedIn(rt, roles, token), 2)
  {
    HiredThen(rt, roles, SignIn(roles, token)[1]);
    assert Step(rt, Staffed(roles), SignIn(roles, token)[1]) == SignedIn(rt, roles, token);
  }

  // ---------- a bearer logout ----------

  /** With its token in the header the user is logged out with a 200, and the token works on,
      for as long as the session would have lived anyway. */
  lemma BearerLogoutLeavesSessionAlive(rt: Runtime, roles: Roles, token: string, at: Time)
    requires IsSeed(roles)
    requires rt.lower("bearer") == "bearer" && rt.strip(token) == token && token != ""
    requires 2 <= at <= 2 + IDLE_TIMEOUT
    ensures Admissible(rt, Migrated(roles), 0, SignIn(roles, token))
    ensures var st := Run(rt, Migrated(roles), SignIn(roles, token));
            var header := Some("bearer" + " " + token);
            && Inv(st, 2)
            && AuthOutcome(rt, st, Credential(rt, None, header), at, Some(1))
            && Authenticates(rt, AfterLogout(rt, st, None, header, 1, at), token, at, 1)
  {
    var st, header := SignedIn(rt, roles, token), Some("bearer" + " " + token);
    SignInRun(rt, roles, token);
    BearerHeader(rt, "bearer", token, "");
    assert Accepts(rt, st, token, at, 10) && OwnedByActive(st, 10, 1);
    LogoutInvalidatesIffCookie(rt, st, None, header, 1, at);
  }

  // ---------- decisions without a row ----------

  lemma OneOrgHasNoAncestors(orgs: Orgs, target: Uuid, n: nat)
    requires orgs == ONE_ORG
    ensures Ancestor(orgs, target, n) == if n == 0 && target == 1 then Some(1) else None
  {
  }

  /** The user is an admin at the one org, and nothing else. */
  predicate OnlyAnAdmin(st: Store) {
    && st.orgs == ONE_ORG && st.grants == map[GrantKey(1, 1, 6) := Grant(None, None)]
    && 6 in st.roles && st.roles[6] == "admin"
  }

  lemma AdminDecisions(st: Store, names: seq<string>, target: Uuid)
    requires OnlyAnAdmin(st)
    ensures Allowed(st, 1, names, target) <==> target == 1 && "admin" in names
  {
    forall n: nat
      ensures MatchAt(st, 1, names, target, n) <==> n == 0 && target == 1 && "admin" in names
    {
      OneOrgHasNoAncestors(st.orgs, target, n);
      assert "admin" in names ==> ActiveGrant(st, 1, 1, 6, names);
    }
    assert MatchAt(st, 1, names, target, 0) <==> target == 1 && "admin" in names;
  }

  const GRANTED := CheckResult(true, Some(6), Some(1), Some("admin"), "granted_via_" + "admin")

  lemma AdminIsGranted(catalog: Catalog, st: Store, p: Permission, agent: Option<string>)
    requires OnlyAnAdmin(st) && 1 in st.users && "admin" in RolesWithPermission(catalog, p)
    ensures Decides(catalog, st, 1, p, 1, agent, Granted(1), GRANTED)
  {
    var names := RolesWithPermission(catalog, p);
    OneOrgHasNoAncestors(st.orgs, 1, 0);
    assert ActiveGrant(st, 1, 1, 6, names);
    assert ClosestMatch(st, 1, names, 1, 0);
  }

  lemma AdminIsRejected(catalog: Catalog, st: Store, p: Permission, target: Uuid, agent: Option<string>)
    requires OnlyAnAdmin(st) && 1 in st.users && RolesWithPermission(catalog, p) != []
    requires target == 1 ==> "admin" !in RolesWithPermission(catalog, p)
    requires !Recordable(st, target, agent)
    ensures forall access, r :: Decides(catalog, st, 1, p, target, agent, access, r) <==>
              access == Access.Rejected && r == Denied("no_matching_role_grant")
  {
    AdminDecisions(st, RolesWithPermission(catalog, p), target);
  }

  /** A denied request whose user agent is too long, or whose target does not exist, is
      answered by a 500 and leaves no row. */
  lemma DenyRowIsRejected(rt: Runtime, roles: Roles, catalog: Catalog, token: string, p: Permission, target: Uuid,
                          agent: Option<string>)
    requires IsSeed(roles) && catalog == ROLE_PERMISSIONS
    requires target == 1 ==> p !in ADMIN_BUNDLE
    requires target != 1 || !FitsIfAny(agent, USER_AGENT_WIDTH)
    ensures Admissible(rt, Migrated(roles), 0, SignIn(roles, token))
    ensures var st := Run(rt, Migrated(roles), SignIn(roles, token));
            && Inv(st, 2)
            && (forall access, r :: Decides(catalog, st, 1, p, target, agent, access, r) <==>
                  access == Access.Rejected && r == Denied("no_matching_role_grant"))
  {
    var st := SignedIn(rt, roles, token);
    SignInRun(rt, roles, token);
    AdminsAndDevelopers(catalog, p);
    PlatformPermissionsNeedPlatformRoles(catalog, p);
    AdminIsRejected(catalog, st, p, target, agent);
  }

  /** An allowed request whose handler does not commit leaves no row; nor does any handler, if
      the user agent is too long. */
  lemma AllowRowIsLost(rt: Runtime, roles: Roles, catalog: Catalog, token: string, p: Permission,
                       agent: Option<string>, handler: seq<Action>)
    requires IsSeed(roles) && catalog == ROLE_PERMISSIONS && p in ADMIN_BUNDLE && WritesNoDecisions(handler)
    requires !SavesFirst(handler) || !FitsIfAny(agent, USER_AGENT_WIDTH)
    ensures Admissible(rt, Migrated(roles), 0, SignIn(roles, token))
    ensures var st := Run(rt, Migrated(roles), SignIn(roles, token));
            var row := DecisionRow(1, p, 1, GRANTED, agent);
            && Inv(st, 2)
            && Decides(catalog, st, 1, p, 1, agent, Granted(1), GRANTED)
            && !(st.audit + [row] <= Acts(Txn(WithAudit(st, row), st), handler).committed.audit)
  {
    var st := SignedIn(rt, roles, token);
    SignInRun(rt, roles, token);
    AdminsAndDevelopers(catalog, p);
    AdminIsGranted(catalog, st, p, agent);
    RowDoesNotLand(st, DecisionRow(1, p, 1, GRANTED, agent), handler);
  }

  lemma RowDoesNotLand(st: Store, row: AuditRow, handler: seq<Action>)
    requires IsDecision(row) && WritesNoDecisions(handler)
    requires !SavesFirst(handler) || !AuditRowFits(row)
    ensures !(st.audit + [row] <= Acts(Txn(WithAudit(st, row), st), handler).committed.audit)
  {
    PendingRowDurableIffLands(st, WithAudit(st, row), row, handler);
    if !AuditRowFits(row) {
      UnfitRowLandsNothing(WithAudit(st, row), handler, row);
    }
  }

  // ---------- logins without a row ----------

  /** The request names the user. */
  predicate NamesPilot(rt: Runtime, request: Attempt) {
    rt.Normalize(request.email) == PILOT.email
  }

  lemma PilotIsClaimed(rt: Runtime, roles: Roles, request: Attempt)
    requires NamesPilot(rt, request)
    ensures Claimed(rt, Staffed(roles), request) == Some(1)
  {
    assert HasEmail(Staffed(roles), 1, PILOT.email);
  }

  /** A wrong password sent with too long a user agent is counted, but not on record. */
  lemma GuessLeavesNoRow(rt: Runtime, roles: Roles, request: Attempt, at: Time)
    requires IsSeed(roles) && NamesPilot(rt, request) && at >= 1
    requires !rt.verifyPassword(request.password, PILOT.passwordHash) && !FitsIfAny(request.agent, USER_AGENT_WIDTH)
    ensures var guess := LoginAudit.CommitEvent(request, at);
            var st := Run(rt, Migrated(roles), [Hire(roles), guess]);
            && Admissible(rt, Migrated(roles), 0, [Hire(roles), guess]) && Inv(st, at)
            && st == AfterLoginRoute(rt, Staffed(roles), request, at)
            && 1 in st.users && st.users[1].failedLoginCount == 1 && st.audit == []
  {
    var st, a := Staffed(roles), LoginAudit.CookieLogin(request);
    PilotIsClaimed(rt, roles, request);
    PilotIsClaimed(rt, roles, a);
    FailureIsLoggedIffAgentFits(rt, st, request, at);
    LoginRowOk(rt, st, a, at);
    HiredThen(rt, roles, LoginAudit.CommitEvent(request, at));
    assert Step(rt, st, LoginAudit.CommitEvent(request, at)) == AfterLogin(rt, st, a, at);
  }

  lemma PilotLogsIn(rt: Runtime, roles: Roles, request: Attempt, at: Time)
    requires NamesPilot(rt, request) && rt.verifyPassword(request.password, PILOT.passwordHash)
    requires !rt.needsRehash(PILOT.passwordHash) && FitsIfAny(request.agent, USER_AGENT_WIDTH)
    ensures LoginOutcome(rt, Staffed(roles), LoginAudit.CookieLogin(request), at) ==
            LoginSuccess(1, request.raw, request.sid)
  {
    PilotIsClaimed(rt, roles, LoginAudit.CookieLogin(request));
  }

  /** A login that dies between its two commits leaves a session and no row. */
  lemma DeadLoginLeavesNoRow(rt: Runtime, roles: Roles, request: Attempt, at: Time)
    requires IsSeed(roles) && NamesPilot(rt, request) && at >= 1
    requires rt.verifyPassword(request.password, PILOT.passwordHash) && !rt.needsRehash(PILOT.passwordHash)
    requires FitsIfAny(request.agent, USER_AGENT_WIDTH)
    ensures var start := LoginAudit.Start(Staffed(roles));
            var moves := [LoginAudit.LoginCommit(0, request, at), LoginAudit.Die(0)];
            var w := LoginAudit.Play(rt, start, moves);
            && w.st == Run(rt, Migrated(roles), [Hire(roles), LoginAudit.CommitEvent(request, at)])
            && Inv(w.st, at) && w.inFlight == map[] && w.st.audit == []
            && LoginAudit.LogsIn(rt, start, moves[0], 1)
            && request.sid in w.st.sessions && w.st.sessions[request.sid].userId == 1
  {
    var st, a := Staffed(roles), LoginAudit.CookieLogin(request);
    var moves := [LoginAudit.LoginCommit(0, request, at), LoginAudit.Die(0)];
    var w := LoginAudit.Next(rt, LoginAudit.Start(st), moves[0]);
    PilotLogsIn(rt, roles, request, at);
    LoginSessions(rt, st, a, at);
    LoginFrame(rt, st, a, at);
    HiredThen(rt, roles, LoginAudit.CommitEvent(request, at));
    assert Step(rt, st, LoginAudit.CommitEvent(request, at)) == AfterLogin(rt, st, a, at);
    assert moves[1..] == [LoginAudit.Die(0)];
    LoginAudit.PlayOne(rt, w, moves[1]);
    assert w.inFlight - {0} == map[];
  }
}
