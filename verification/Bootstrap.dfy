/** First-deploy bootstrap: the root org, its first user, and two grants, all or nothing. */
module Bootstrap {
  import opened Model
  import opened Permissions
  import opened OrgChain
  import opened Rbac

  /** `uid` and `salt` are random draws. */
  datatype Request = Request(orgId: Uuid, email: string, password: string, name: string, uid: Uuid, salt: nat)

  /** `TextTooLong` is an email or a name its column cannot hold. */
  datatype Failure =
    | AdminRoleMissing | OrgSlugTaken | EmailTaken | PasswordEmpty | TextTooLong | UserIdTaken | DeveloperRoleMissing

  /** The function's `True`, its `False`, and the exceptions. */
  datatype Result = Performed | NoOp | Raised(failure: Failure)

  ghost predicate IsRole(st: Store, role: int, name: string) {
    role in st.roles && st.roles[role] == name
  }

  ghost predicate HasActiveAdmin(st: Store, orgId: Uuid) {
    exists key: GrantKey :: IsAdminGrant(st, key, orgId)
  }

  ghost predicate IsAdminGrant(st: Store, key: GrantKey, orgId: Uuid) {
    key in st.grants && key.org == orgId && IsRole(st, key.role, "admin") && st.grants[key].revokedAt.None?
  }

  ghost predicate OrgSlugClash(st: Store, orgId: Uuid) {
    orgId !in st.orgs && exists o :: o in st.orgs && st.orgs[o].slug == "specter"
  }

  ghost predicate EmailInUse(st: Store, email: string) {
    exists u :: u in st.users && st.users[u].email == email
  }

  /** The first obstacle, in the order the code meets them. */
  ghost function Outcome(rt: Runtime, st: Store, q: Request): Result {
    if forall role :: !IsRole(st, role, "admin") then Raised(AdminRoleMissing)
    else if HasActiveAdmin(st, q.orgId) then NoOp
    else if OrgSlugClash(st, q.orgId) then Raised(OrgSlugTaken)
    else
      var obstacle := UserObstacle(rt, st, q);
      if obstacle.Some? then Raised(obstacle.value) else Performed
  }

  /** What stands in the way of creating the user, once the org exists. */
  ghost function UserObstacle(rt: Runtime, st: Store, q: Request): Option<Failure> {
    if EmailInUse(st, rt.Normalize(q.email)) then Some(EmailTaken)
    else if q.password == "" then Some(PasswordEmpty)
    else if !UserFits(FirstUser(rt, q)) then Some(TextTooLong)
    else if q.uid in st.users then Some(UserIdTaken)
    else if forall role :: !IsRole(st, role, "developer") then Some(DeveloperRoleMissing)
    else None
  }

  lemma ObstacleIgnoresOrgs(rt: Runtime, st: Store, orgs: Orgs, q: Request)
    ensures UserObstacle(rt, st.(orgs := orgs), q) == UserObstacle(rt, st, q)
  {
    var st' := st.(orgs := orgs);
    assert EmailInUse(st', rt.Normalize(q.email)) == EmailInUse(st, rt.Normalize(q.email));
    assert forall role :: IsRole(st', role, "developer") == IsRole(st, role, "developer");
  }

  function RootOrg(): Org {
    Org("specter", "Specter", None)
  }

  function WithRootOrg(orgs: Orgs, orgId: Uuid): Orgs {
    if orgId in orgs then orgs else orgs[orgId := RootOrg()]
  }

  function FirstUser(rt: Runtime, q: Request): User {
    User(rt.Normalize(q.email), rt.hashPassword(q.password, q.salt), rt.strip(q.name), q.orgId, true, None, 0, None)
  }

  /** `after` is `st` with the org if it was missing, the user, and the two grants. */
  ghost predicate Extends(rt: Runtime, st: Store, q: Request, after: Store) {
    && after.orgs == WithRootOrg(st.orgs, q.orgId)
    && after.users == st.users[q.uid := FirstUser(rt, q)]
    && (exists admin, developer :: GrantsBoth(st, q, after, admin, developer))
    && after == st.(orgs := after.orgs, users := after.users, grants := after.grants)
  }

  ghost predicate GrantsBoth(st: Store, q: Request, after: Store, admin: int, developer: int) {
    && IsRole(st, admin, "admin") && IsRole(st, developer, "developer")
    && after.grants == st.grants[GrantKey(q.uid, q.orgId, admin) := Grant(None, None)]
                                [GrantKey(q.uid, q.orgId, developer) := Grant(None, None)]
  }

  method FindRole(roles: map<int, string>, name: string) returns (role: Option<int>)
    ensures role.Some? ==> role.value in roles && roles[role.value] == name
    ensures role.None? ==> forall r :: r in roles ==> roles[r] != name
  {
    if r :| r in roles && roles[r] == name {
      role := Some(r);
    } else {
      role := None;
    }
  }

  /** Adds the root org if it is missing; `false` is the slug's uniqueness violation. */
  method EnsureOrg(db: Db, orgId: Uuid) returns (ok: bool)
    modifies db
    ensures ok <==> !OrgSlugClash(old(db.working), orgId)
    ensures db.Unsaved(if ok then old(db.working).(orgs := WithRootOrg(old(db.working).orgs, orgId))
                       else old(db.committed))
  {
    if orgId !in db.working.orgs {
      if o :| o in db.working.orgs && db.working.orgs[o].slug == "specter" {
        db.Rollback();
        return false;
      }
      db.working := db.working.(orgs := db.working.orgs[orgId := RootOrg()]);
    }
    return true;
  }

  method Bootstrap(rt: Runtime, db: Db, q: Request) returns (r: Result)
    requires RoleNamesUnique(db.working.roles)
    modifies db
    ensures r == Outcome(rt, old(db.working), q)
    ensures r.Performed? ==> Extends(rt, old(db.working), q, db.working) && db.Persisted(db.working)
    ensures r.NoOp? ==> db.Unsaved(old(db.working))
    ensures r.Raised? ==> db.Unsaved(old(db.committed))
  {
    ghost var st := db.working;
    var admin := FindRole(db.working.roles, "admin");
    if admin.None? {
      db.Rollback();
      return Raised(AdminRoleMissing);
    }
    assert IsRole(st, admin.value, "admin");
    assert forall role :: IsRole(st, role, "admin") ==> role == admin.value;
    if key :| key in db.working.grants && key.org == q.orgId && key.role == admin.value
              && db.working.grants[key].revokedAt.None? {
      assert IsAdminGrant(st, key, q.orgId);
      return NoOp;
    }
    assert !HasActiveAdmin(st, q.orgId);
    var ok := EnsureOrg(db, q.orgId);
    if !ok {
      return Raised(OrgSlugTaken);
    }
    ghost var withOrg := db.working;
    ObstacleIgnoresOrgs(rt, st, withOrg.orgs, q);
    var obstacle := AddFirstUser(rt, db, q, admin.value);
    if obstacle.None? {
      ghost var developer :| GrantsBoth(withOrg, q, db.working, admin.value, developer);
      assert GrantsBoth(st, q, db.working, admin.value, developer);
    }
    r := if obstacle.Some? then Raised(obstacle.value) else Performed;
  }

  /** The user and both grants, and the one commit. */
  method AddFirstUser(rt: Runtime, db: Db, q: Request, admin: int) returns (obstacle: Option<Failure>)
    requires IsRole(db.working, admin, "admin")
    modifies db
    ensures obstacle == UserObstacle(rt, old(db.working), q)
    ensures obstacle.Some? ==> db.Unsaved(old(db.committed))
    ensures obstacle.None? ==>
              && db.Persisted(db.working)
              && db.working == old(db.working).(users := old(db.working).users[q.uid := FirstUser(rt, q)],
                                                grants := db.working.grants)
              && exists developer :: GrantsBoth(old(db.working), q, db.working, admin, developer)
  {
    ghost var st := db.working;
    var email := rt.Normalize(q.email);
    if u :| u in db.working.users && db.working.users[u].email == email {
      assert EmailInUse(st, email);
      db.Rollback();
      return Some(EmailTaken);
    }
    assert !EmailInUse(st, email);
    if q.password == "" {
      db.Rollback();
      return Some(PasswordEmpty);
    }
    if !UserFits(FirstUser(rt, q)) {
      db.Rollback();
      return Some(TextTooLong);
    }
    if q.uid in db.working.users {
      db.Rollback();
      return Some(UserIdTaken);
    }
    db.working := db.working.(users := db.working.users[q.uid := FirstUser(rt, q)]);
    var developer := FindRole(db.working.roles, "developer");
    if developer.None? {
      db.Rollback();
      return Some(DeveloperRoleMissing);
    }
    assert IsRole(st, developer.value, "developer");
    GrantRoles(db, q.uid, q.orgId, [admin, developer.value]);
    GrantTwo(st.grants, q.uid, q.orgId, admin, developer.value);
    db.Commit();
    assert GrantsBoth(st, q, db.working, admin, developer.value);
    return None;
  }

  method GrantRoles(db: Db, uid: Uuid, org: Uuid, roles: seq<int>)
    modifies db
    ensures db.Unsaved(old(db.working).(grants := GrantEach(old(db.working).grants, uid, org, roles)))
  {
    for i := 0 to |roles|
      invariant db.committed == old(db.committed) && db.history == old(db.history)
      invariant db.working == old(db.working).(grants := GrantEach(old(db.working).grants, uid, org, roles[..i]))
    {
      db.working := db.working.(grants := db.working.grants[GrantKey(uid, org, roles[i]) := Grant(None, None)]);
      assert roles[..i + 1][..i] == roles[..i];
    }
    assert roles[..|roles|] == roles;
  }

  function GrantEach(grants: map<GrantKey, Grant>, uid: Uuid, org: Uuid, roles: seq<int>): map<GrantKey, Grant> {
    if roles == [] then grants
    else GrantEach(grants, uid, org, roles[..|roles| - 1])[GrantKey(uid, org, roles[|roles| - 1]) := Grant(None, None)]
  }

  lemma GrantTwo(grants: map<GrantKey, Grant>, uid: Uuid, org: Uuid, a: int, b: int)
    ensures GrantEach(grants, uid, org, [a, b]) ==
            grants[GrantKey(uid, org, a) := Grant(None, None)][GrantKey(uid, org, b) := Grant(None, None)]
  {
    assert [a, b][..1] == [a] && [a][..0] == [];
    assert GrantEach(grants, uid, org, [a]) == grants[GrantKey(uid, org, a) := Grant(None, None)];
  }

  // ---------- what the script promises ----------

  /** A repeat, by anyone and with any arguments for the same org, does nothing. */
  lemma RepeatIsNoOp(rt: Runtime, st: Store, q: Request, after: Store, q': Request)
    requires Outcome(rt, st, q).Performed? && Extends(rt, st, q, after)
    requires q'.orgId == q.orgId
    ensures Outcome(rt, after, q') == NoOp
  {
    var admin, developer :| GrantsBoth(st, q, after, admin, developer);
    assert IsRole(after, admin, "admin");
    assert IsAdminGrant(after, GrantKey(q.uid, q.orgId, admin), q.orgId);
  }

  lemma BootstrapKeepsSchema(rt: Runtime, st: Store, q: Request, after: Store)
    requires SchemaOk(st) && Outcome(rt, st, q).Performed? && Extends(rt, st, q, after)
    ensures SchemaOk(after)
  {
    var admin, developer :| GrantsBoth(st, q, after, admin, developer);
    BootstrapKeepsUnique(rt, st, q, after);
    BootstrapKeepsReferences(rt, st, q, after, admin, developer);
    BootstrapKeepsTexts(rt, st, q, after);
    MoreRowsKeepAudit(st, after);
  }

  lemma BootstrapKeepsUnique(rt: Runtime, st: Store, q: Request, after: Store)
    requires SchemaOk(st) && Outcome(rt, st, q).Performed? && Extends(rt, st, q, after)
    ensures EmailsUnique(after.users) && OrgSlugsUnique(after.orgs)
  {
    assert !EmailInUse(st, rt.Normalize(q.email)) && !OrgSlugClash(st, q.orgId);
  }

  lemma BootstrapKeepsReferences(rt: Runtime, st: Store, q: Request, after: Store, admin: int, developer: int)
    requires ForeignKeys(st) && Extends(rt, st, q, after) && GrantsBoth(st, q, after, admin, developer)
    ensures ForeignKeys(after)
  {
  }

  lemma BootstrapKeepsTexts(rt: Runtime, st: Store, q: Request, after: Store)
    requires TextsFit(st) && Outcome(rt, st, q).Performed? && Extends(rt, st, q, after)
    ensures TextsFit(after)
  {
    assert UserFits(FirstUser(rt, q)) && OrgFits(RootOrg());
  }

  /** Exactly what the first user may do: the permissions bundled for admins or developers,
      at the orgs that reach the root org within ten parent links, and nothing else. */
  lemma FirstUserReach(catalog: Catalog, rt: Runtime, st: Store, q: Request, after: Store, p: Permission, target: Uuid)
    requires catalog == ROLE_PERMISSIONS
    requires SchemaOk(st) && Outcome(rt, st, q).Performed? && Extends(rt, st, q, after)
    ensures Allowed(after, q.uid, RolesWithPermission(catalog, p), target) <==>
              (p in ADMIN_BUNDLE || p in DEVELOPER_BUNDLE) && ReachesWithinCap(after.orgs, target, q.orgId)
  {
    var names := RolesWithPermission(catalog, p);
    var admin, developer :| GrantsBoth(st, q, after, admin, developer);
    HoldsOnlyBootstrapGrants(st, after, q, admin, developer, names);
    var bundled := p in ADMIN_BUNDLE || p in DEVELOPER_BUNDLE;
    assert bundled <==> "admin" in names || "developer" in names by {
      AdminsAndDevelopers(catalog, p);
    }
    if Allowed(after, q.uid, names, target) {
      var n: nat :| n <= MAX_HIERARCHY_DEPTH && MatchAt(after, q.uid, names, target, n);
      assert ReachesWithinCap(after.orgs, target, Ancestor(after.orgs, target, n).value);
    }
    if bundled && ReachesWithinCap(after.orgs, target, q.orgId) {
      var n: nat :| n <= MAX_HIERARCHY_DEPTH && Ancestor(after.orgs, target, n) == Some(q.orgId);
      assert MatchAt(after, q.uid, names, target, n);
    }
  }

  lemma HoldsOnlyBootstrapGrants(st: Store, after: Store, q: Request, admin: int, developer: int, names: seq<string>)
    requires ForeignKeys(st) && q.uid !in st.users
    requires GrantsBoth(st, q, after, admin, developer) && after.roles == st.roles
    ensures forall o :: Holds(after, q.uid, o, names) <==>
              o == q.orgId && ("admin" in names || "developer" in names)
  {
    forall o
      ensures Holds(after, q.uid, o, names) <==> o == q.orgId && ("admin" in names || "developer" in names)
    {
      if Holds(after, q.uid, o, names) {
        var role :| ActiveGrant(after, q.uid, o, role, names);
        assert GrantKey(q.uid, o, role) !in st.grants;
      }
      if o == q.orgId && "admin" in names {
        assert ActiveGrant(after, q.uid, o, admin, names);
      }
      if o == q.orgId && "developer" in names {
        assert ActiveGrant(after, q.uid, o, developer, names);
      }
    }
  }

  // ---------- the same, in the columns of the tables ----------

  /** Which exit is taken. Revoked admin grants do not count. */
  lemma ExitsInColumns(rt: Runtime, st: Store, q: Request)
    ensures var r, email, name := Outcome(rt, st, q), rt.lower(rt.strip(q.email)), rt.strip(q.name);
            && (r == Raised(AdminRoleMissing) <==> forall role :: role in st.roles ==> st.roles[role] != "admin")
            && (r == NoOp <==> exists key: GrantKey ::
                  && key in st.grants && key.org == q.orgId && st.grants[key].revokedAt.None?
                  && key.role in st.roles && st.roles[key.role] == "admin")
            && (r == Performed <==>
                  && (exists role :: role in st.roles && st.roles[role] == "admin")
                  && (exists role :: role in st.roles && st.roles[role] == "developer")
                  && (forall key: GrantKey ::
                        (&& key in st.grants && key.org == q.orgId
                         && key.role in st.roles && st.roles[key.role] == "admin") ==> st.grants[key].revokedAt.Some?)
                  && (q.orgId in st.orgs || forall o :: o in st.orgs ==> st.orgs[o].slug != "specter")
                  && (forall u :: u in st.users ==> st.users[u].email != email)
                  && q.password != "" && q.uid !in st.users
                  && |email| <= 254 && |name| <= 120 && '\0' !in email && '\0' !in name)
            && (r == Raised(OrgSlugTaken) ==>
                  q.orgId !in st.orgs && exists o :: o in st.orgs && st.orgs[o].slug == "specter")
            && (r == Raised(EmailTaken) ==> exists u :: u in st.users && st.users[u].email == email)
            && (r == Raised(PasswordEmpty) ==> q.password == "")
            && (r == Raised(TextTooLong) ==>
                  !(|email| <= 254 && |name| <= 120 && '\0' !in email && '\0' !in name))
            && (r == Raised(UserIdTaken) ==> q.uid in st.users)
            && (r == Raised(DeveloperRoleMissing) ==> forall role :: role in st.roles ==> st.roles[role] != "developer")
  {
    assert rt.Normalize(q.email) == rt.lower(rt.strip(q.email));
    forall role | role in st.roles
      ensures st.roles[role] == "admin" ==> IsRole(st, role, "admin")
      ensures st.roles[role] == "developer" ==> IsRole(st, role, "developer")
    {
    }
    forall key: GrantKey | key in st.grants && key.org == q.orgId && st.grants[key].revokedAt.None?
                           && key.role in st.roles && st.roles[key.role] == "admin"
      ensures IsAdminGrant(st, key, q.orgId)
    {
    }
    assert EmailInUse(st, rt.lower(rt.strip(q.email))) <==>
             exists u :: u in st.users && st.users[u].email == rt.lower(rt.strip(q.email));
  }

  /** What it stores. */
  lemma BootstrapRowsInColumns(rt: Runtime, st: Store, q: Request, after: Store)
    requires Extends(rt, st, q, after)
    ensures after.users == st.users[q.uid := User(
              rt.lower(rt.strip(q.email)), rt.hashPassword(q.password, q.salt), rt.strip(q.name), q.orgId, true,
              None, 0, None)]
    ensures after.orgs == if q.orgId in st.orgs then st.orgs else st.orgs[q.orgId := Org("specter", "Specter", None)]
    ensures exists admin, developer ::
              && admin in st.roles && st.roles[admin] == "admin"
              && developer in st.roles && st.roles[developer] == "developer"
              && after.grants == st.grants[GrantKey(q.uid, q.orgId, admin) := Grant(None, None)]
                                          [GrantKey(q.uid, q.orgId, developer) := Grant(None, None)]
    ensures after.roles == st.roles && after.sessions == st.sessions && after.drones == st.drones
            && after.keys == st.keys && after.audit == st.audit
  {
    var admin, developer :| GrantsBoth(st, q, after, admin, developer);
  }
}
