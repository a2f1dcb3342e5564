/** The permission check: does this user hold, at the target org or above it, an active
    grant of a role that bundles the permission? */
module Rbac {
  import opened Model
  import opened Permissions
  import opened OrgChain

  datatype CheckResult = CheckResult(
    allowed: bool, matchedRole: Option<int>, matchedOrg: Option<Uuid>,
    matchedRoleName: Option<string>, reason: string)

  function Denied(reason: string): CheckResult {
    CheckResult(false, None, None, None, reason)
  }

  // ---------- what the check means ----------

  /** `user` holds an active grant, at `org`, of the role with id `role`, whose name is in `names`. */
  predicate ActiveGrant(st: Store, user: Uuid, org: Uuid, role: int, names: seq<string>) {
    var key := GrantKey(user, org, role);
    key in st.grants && st.grants[key].revokedAt.None? && role in st.roles && st.roles[role] in names
  }

  ghost predicate Holds(st: Store, user: Uuid, org: Uuid, names: seq<string>) {
    exists role :: ActiveGrant(st, user, org, role, names)
  }

  ghost predicate MatchAt(st: Store, user: Uuid, names: seq<string>, target: Uuid, n: nat) {
    var a := Ancestor(st.orgs, target, n);
    a.Some? && Holds(st, user, a.value, names)
  }

  /** The decision, as a statement about the org tree. */
  ghost predicate Allowed(st: Store, user: Uuid, names: seq<string>, target: Uuid) {
    exists n: nat :: n <= MAX_HIERARCHY_DEPTH && MatchAt(st, user, names, target, n)
  }

  /** `n` is the smallest depth at which the user matches. */
  ghost predicate ClosestMatch(st: Store, user: Uuid, names: seq<string>, target: Uuid, n: nat) {
    && n <= MAX_HIERARCHY_DEPTH
    && MatchAt(st, user, names, target, n)
    && forall m: nat :: m < n ==> !MatchAt(st, user, names, target, m)
  }

  /** The answers the query may give: `LIMIT 1` after `ORDER BY depth` leaves open which of
      several roles at the closest org is named. */
  ghost predicate MayAnswer(st: Store, user: Uuid, names: seq<string>, target: Uuid, r: CheckResult) {
    if r.allowed then
      && r.matchedOrg.Some? && r.matchedRole.Some?
      && ActiveGrant(st, user, r.matchedOrg.value, r.matchedRole.value, names)
      && r.matchedRoleName == Some(st.roles[r.matchedRole.value])
      && r.reason == "granted_via_" + st.roles[r.matchedRole.value]
      && exists n: nat :: ClosestMatch(st, user, names, target, n) && Ancestor(st.orgs, target, n) == r.matchedOrg
    else
      && !Allowed(st, user, names, target)
      && r == Denied(if names == [] then "permission_not_in_any_role" else "no_matching_role_grant")
  }

  // ---------- the query ----------

  /** The `WHERE` and `ON` conditions joining a grant row to a chain row. */
  predicate Joins(st: Store, user: Uuid, names: seq<string>, key: GrantKey, org: Uuid)
    requires key in st.grants
  {
    key.org == org && key.user == user && ActiveGrant(st, user, key.org, key.role, names)
  }

  /** `best` is a closest match among the joined rows of `keys` with the whole chain. */
  ghost predicate Closest(st: Store, user: Uuid, names: seq<string>, keys: seq<GrantKey>, chain: seq<ChainRow>,
                          best: Option<(nat, GrantKey)>)
    requires forall key :: key in keys ==> key in st.grants
  {
    && (best.Some? ==> best.value.0 < |chain| && best.value.1 in st.grants
                       && Joins(st, user, names, best.value.1, chain[best.value.0].id))
    && (forall i, d :: 0 <= i < |keys| && 0 <= d < |chain| && Joins(st, user, names, keys[i], chain[d].id) ==>
          best.Some? && best.value.0 <= d)
  }

  /** The joined rows in any order, then the first of the least depth. */
  method ClosestGrant(st: Store, user: Uuid, names: seq<string>, chain: seq<ChainRow>)
    returns (best: Option<(nat, GrantKey)>)
    ensures best.Some? ==> best.value.0 < |chain| && best.value.1 in st.grants
                           && Joins(st, user, names, best.value.1, chain[best.value.0].id)
    ensures forall key, d :: key in st.grants && 0 <= d < |chain| && Joins(st, user, names, key, chain[d].id) ==>
              best.Some? && best.value.0 <= d
  {
    var keys := Scan(st.grants.Keys);
    best := None;
    for i := 0 to |keys|
      invariant Closest(st, user, names, keys[..i], chain, best)
    {
      for d := 0 to |chain|
        invariant Closest(st, user, names, keys[..i], chain, best)
        invariant forall e :: 0 <= e < d && Joins(st, user, names, keys[i], chain[e].id) ==>
                  best.Some? && best.value.0 <= e
      {
        if Joins(st, user, names, keys[i], chain[d].id) && (best.None? || d < best.value.0) {
          best := Some((d, keys[i]));
        }
      }
      assert keys[..i + 1] == keys[..i] + [keys[i]];
    }
    assert keys[..|keys|] == keys;
  }

  lemma ChainHoldsMatches(st: Store, user: Uuid, names: seq<string>, target: Uuid, chain: seq<ChainRow>, n: nat)
    requires IsChain(st.orgs, target, chain)
    requires n <= MAX_HIERARCHY_DEPTH && MatchAt(st, user, names, target, n)
    ensures n < |chain| && exists key :: key in st.grants && Joins(st, user, names, key, chain[n].id)
  {
    if |chain| <= n {
      AncestorsAreContiguous(st.orgs, target, |chain|, n);
      assert false;
    }
    assert RowAt(st.orgs, target, n) == [chain[n]];
    var role :| ActiveGrant(st, user, chain[n].id, role, names);
    assert Joins(st, user, names, GrantKey(user, chain[n].id, role), chain[n].id);
  }

  method CheckPermission(catalog: Catalog, db: Db, user: Uuid, permission: Permission, target: Uuid)
    returns (r: CheckResult)
    ensures MayAnswer(db.working, user, RolesWithPermission(catalog, permission), target, r)
    ensures r.allowed ==> target in db.working.orgs && ReachesWithinCap(db.working.orgs, target, r.matchedOrg.value)
    ensures r.allowed <==> exists n: nat, key: GrantKey ::
              && n <= 10 && Ancestor(db.working.orgs, target, n) == Some(key.org)
              && key in db.working.grants && db.working.grants[key].revokedAt.None? && key.user == user
              && key.role in db.working.roles
              && db.working.roles[key.role] in RolesWithPermission(catalog, permission)
  {
    AllowedIsAGrantRow(db.working, user, RolesWithPermission(catalog, permission), target);
    var names := RolesWithPermission(catalog, permission);
    if names == [] {
      return Denied("permission_not_in_any_role");
    }
    var st := db.working;
    var chain, _ := OrgChainRows(st.orgs, target);
    var best := ClosestGrant(st, user, names, chain);
    forall n: nat | n <= MAX_HIERARCHY_DEPTH && MatchAt(st, user, names, target, n)
      ensures best.Some? && best.value.0 <= n
    {
      ChainHoldsMatches(st, user, names, target, chain, n);
    }
    if best.None? {
      return Denied("no_matching_role_grant");
    }
    var n, key := best.value.0, best.value.1;
    assert RowAt(st.orgs, target, n) == [chain[n]];
    assert ActiveGrant(st, user, chain[n].id, key.role, names);
    assert ClosestMatch(st, user, names, target, n);
    AncestorsAreContiguous(st.orgs, target, 0, n);
    var name := st.roles[key.role];
    r := CheckResult(true, Some(key.role), Some(key.org), Some(name), "granted_via_" + name);
  }

  // ---------- what the source promises about it ----------

  lemma GrantRowAllows(st: Store, user: Uuid, names: seq<string>, target: Uuid, n: nat, key: GrantKey)
    requires n <= 10 && Ancestor(st.orgs, target, n) == Some(key.org)
    requires key in st.grants && st.grants[key].revokedAt.None? && key.user == user
    requires key.role in st.roles && st.roles[key.role] in names
    ensures Allowed(st, user, names, target)
  {
    assert key == GrantKey(user, key.org, key.role);
    assert ActiveGrant(st, user, key.org, key.role, names);
    assert MatchAt(st, user, names, target, n);
  }

  lemma AllowedHasGrantRow(st: Store, user: Uuid, names: seq<string>, target: Uuid) returns (n: nat, key: GrantKey)
    requires Allowed(st, user, names, target)
    ensures n <= 10 && Ancestor(st.orgs, target, n) == Some(key.org)
    ensures key in st.grants && st.grants[key].revokedAt.None? && key.user == user
    ensures key.role in st.roles && st.roles[key.role] in names
  {
    n :| n <= MAX_HIERARCHY_DEPTH && MatchAt(st, user, names, target, n);
    var o := Ancestor(st.orgs, target, n).value;
    var role :| ActiveGrant(st, user, o, role, names);
    key := GrantKey(user, o, role);
  }

  /** The decision in the columns of `user_roles`, `roles` and `orgs`. */
  lemma AllowedIsAGrantRow(st: Store, user: Uuid, names: seq<string>, target: Uuid)
    ensures Allowed(st, user, names, target) <==> exists n: nat, key: GrantKey ::
              && n <= 10 && Ancestor(st.orgs, target, n) == Some(key.org)
              && key in st.grants && st.grants[key].revokedAt.None? && key.user == user
              && key.role in st.roles && st.roles[key.role] in names
  {
    if Allowed(st, user, names, target) {
      var n, key := AllowedHasGrantRow(st, user, names, target);
    }
    forall n: nat, key: GrantKey | && n <= 10 && Ancestor(st.orgs, target, n) == Some(key.org)
                                   && key in st.grants && st.grants[key].revokedAt.None? && key.user == user
                                   && key.role in st.roles && st.roles[key.role] in names
      ensures Allowed(st, user, names, target)
    {
      GrantRowAllows(st, user, names, target, n, key);
    }
  }

  /** The grant an allow names, in the same columns: it is active, eligible and this user's, and
      no such grant lies closer to the target. */
  lemma AnswerIsAGrantRow(st: Store, user: Uuid, names: seq<string>, target: Uuid, r: CheckResult)
    requires MayAnswer(st, user, names, target, r)
    ensures !r.allowed ==>
              r == CheckResult(false, None, None, None,
                               if names == [] then "permission_not_in_any_role" else "no_matching_role_grant")
    ensures r.allowed ==> r.matchedOrg.Some? && r.matchedRole.Some?
    ensures r.allowed ==>
              var key := GrantKey(user, r.matchedOrg.value, r.matchedRole.value);
              && key in st.grants && st.grants[key].revokedAt.None?
              && key.role in st.roles && st.roles[key.role] in names
              && r.matchedRoleName == Some(st.roles[key.role])
              && r.reason == "granted_via_" + st.roles[key.role]
              && exists n: nat ::
                   && n <= 10 && Ancestor(st.orgs, target, n) == r.matchedOrg
                   && forall m: nat, k: GrantKey ::
                        (&& Ancestor(st.orgs, target, m) == Some(k.org)
                         && k in st.grants && st.grants[k].revokedAt.None? && k.user == user
                         && k.role in st.roles && st.roles[k.role] in names) ==> n <= m
  {
    if r.allowed {
      var n: nat :| ClosestMatch(st, user, names, target, n) && Ancestor(st.orgs, target, n) == r.matchedOrg;
      forall m: nat, k: GrantKey | Ancestor(st.orgs, target, m) == Some(k.org)
                                   && k in st.grants && st.grants[k].revokedAt.None? && k.user == user
                                   && k.role in st.roles && st.roles[k.role] in names
        ensures n <= m
      {
        assert k == GrantKey(user, k.org, k.role);
        assert ActiveGrant(st, user, k.org, k.role, names);
        assert MatchAt(st, user, names, target, m);
      }
    }
  }

  function WithoutRevoked(grants: map<GrantKey, Grant>): map<GrantKey, Grant> {
    map key | key in grants && grants[key].revokedAt.None? :: grants[key]
  }

  /** "A role revocation must take effect immediately": for every decision a revoked grant is as
      good as none. */
  lemma RevokedIsAbsent(st: Store, user: Uuid, names: seq<string>, target: Uuid)
    ensures Allowed(st, user, names, target) <==>
            Allowed(st.(grants := WithoutRevoked(st.grants)), user, names, target)
  {
    var st' := st.(grants := WithoutRevoked(st.grants));
    forall o, role
      ensures ActiveGrant(st, user, o, role, names) <==> ActiveGrant(st', user, o, role, names)
    {
    }
    SameGrantsDecideAlike(st, st', user, names, target);
    SameGrantsDecideAlike(st', st, user, names, target);
  }

  lemma SameGrantsDecideAlike(st: Store, st': Store, user: Uuid, names: seq<string>, target: Uuid)
    requires st.orgs == st'.orgs
    requires forall o, role :: ActiveGrant(st, user, o, role, names) ==> ActiveGrant(st', user, o, role, names)
    ensures Allowed(st, user, names, target) ==> Allowed(st', user, names, target)
  {
    if Allowed(st, user, names, target) {
      var n: nat :| n <= MAX_HIERARCHY_DEPTH && MatchAt(st, user, names, target, n);
      var role :| ActiveGrant(st, user, Ancestor(st.orgs, target, n).value, role, names);
      assert ActiveGrant(st', user, Ancestor(st.orgs, target, n).value, role, names);
      assert MatchAt(st', user, names, target, n);
    }
  }

  /** Revoking one grant leaves allowed exactly what another active grant allows; so it turns an
      allow that rests on this grant alone into a deny. */
  lemma ScopeOfOneRevocation(st: Store, key: GrantKey, at: Time, user: Uuid, names: seq<string>, target: Uuid)
    requires key in st.grants
    ensures Allowed(st.(grants := st.grants[key := st.grants[key].(revokedAt := Some(at))]), user, names, target) <==>
              exists n: nat, k: GrantKey ::
                && n <= 10 && Ancestor(st.orgs, target, n) == Some(k.org)
                && k in st.grants && k != key && st.grants[k].revokedAt.None? && k.user == user
                && k.role in st.roles && st.roles[k.role] in names
  {
    var st' := st.(grants := st.grants[key := st.grants[key].(revokedAt := Some(at))]);
    AllowedIsAGrantRow(st', user, names, target);
    assert forall k: GrantKey :: k in st'.grants && st'.grants[k].revokedAt.None? <==>
                                   k in st.grants && k != key && st.grants[k].revokedAt.None?;
  }

  /** The decision and the matched org are functions of the state, the decision is
      `Allowed`, and whenever it is allowed there is a role to name. */
  lemma DecisionIsDetermined(st: Store, user: Uuid, names: seq<string>, target: Uuid, r: CheckResult, r': CheckResult)
    requires MayAnswer(st, user, names, target, r) && MayAnswer(st, user, names, target, r')
    ensures r.allowed == Allowed(st, user, names, target) == r'.allowed
    ensures r.matchedOrg == r'.matchedOrg
  {
    if r.allowed && r'.allowed {
      var n: nat :| ClosestMatch(st, user, names, target, n) && Ancestor(st.orgs, target, n) == r.matchedOrg;
      var n': nat :| ClosestMatch(st, user, names, target, n') && Ancestor(st.orgs, target, n') == r'.matchedOrg;
      assert n == n';
    }
  }

  ghost predicate AllowedByAnyAncestor(st: Store, user: Uuid, names: seq<string>, target: Uuid) {
    exists o :: Reaches(st.orgs, target, o) && Holds(st, user, o, names)
  }

  /** With at most 11 orgs at or above the target, cycles or not, the capped check decides
      as unbounded inheritance would. */
  lemma CheckIsUnboundedOnShallowTrees(st: Store, user: Uuid, names: seq<string>, target: Uuid)
    requires |AllAncestors(st.orgs, target)| <= MAX_HIERARCHY_DEPTH + 1
    ensures Allowed(st, user, names, target) <==> AllowedByAnyAncestor(st, user, names, target)
  {
    if AllowedByAnyAncestor(st, user, names, target) {
      var o :| Reaches(st.orgs, target, o) && Holds(st, user, o, names);
      AncestorsMetInTime(st.orgs, target, o);
      var n: nat :| n < |AllAncestors(st.orgs, target)| && Ancestor(st.orgs, target, n) == Some(o);
      assert MatchAt(st, user, names, target, n);
    }
    if Allowed(st, user, names, target) {
      var n: nat :| n <= MAX_HIERARCHY_DEPTH && MatchAt(st, user, names, target, n);
      assert Reaches(st.orgs, target, Ancestor(st.orgs, target, n).value);
    }
  }

  /** Over all grant tables: the capped check decides as unbounded inheritance would, whatever
      is granted to whom and where, if and only if at most 11 distinct orgs lie at or above the
      target (or no role of the database is eligible, when nothing is ever allowed). */
  lemma CapIsExactForDecisions(st: Store, user: Uuid, names: seq<string>, target: Uuid)
    ensures (forall grants :: Allowed(st.(grants := grants), user, names, target)
                              <==> AllowedByAnyAncestor(st.(grants := grants), user, names, target))
            <==> |AllAncestors(st.orgs, target)| <= MAX_HIERARCHY_DEPTH + 1 || NoEligibleRole(st, names)
  {
    if |AllAncestors(st.orgs, target)| <= MAX_HIERARCHY_DEPTH + 1 || NoEligibleRole(st, names) {
      forall grants
        ensures Allowed(st.(grants := grants), user, names, target)
                <==> AllowedByAnyAncestor(st.(grants := grants), user, names, target)
      {
        if |AllAncestors(st.orgs, target)| <= MAX_HIERARCHY_DEPTH + 1 {
          CheckIsUnboundedOnShallowTrees(st.(grants := grants), user, names, target);
        }
      }
    } else {
      GrantBeyondCap(st, user, names, target);
    }
  }

  ghost predicate NoEligibleRole(st: Store, names: seq<string>) {
    forall role :: role in st.roles ==> st.roles[role] !in names
  }

  /** The one grant that tells them apart: at an ancestor the capped walk does not meet. */
  lemma GrantBeyondCap(st: Store, user: Uuid, names: seq<string>, target: Uuid)
    requires |AllAncestors(st.orgs, target)| > MAX_HIERARCHY_DEPTH + 1 && !NoEligibleRole(st, names)
    ensures exists grants :: !Allowed(st.(grants := grants), user, names, target)
                             && AllowedByAnyAncestor(st.(grants := grants), user, names, target)
  {
    var o := AncestorBeyondCap(st.orgs, target);
    var role :| role in st.roles && st.roles[role] in names;
    var grants := map[GrantKey(user, o, role) := Grant(None, None)];
    var st' := st.(grants := grants);
    assert ActiveGrant(st', user, o, role, names);
    assert AllowedByAnyAncestor(st', user, names, target);
    forall n: nat | n <= MAX_HIERARCHY_DEPTH
      ensures !MatchAt(st', user, names, target, n)
    {
      OneGrantMatchesOnlyThere(st', user, o, role, names, target, n);
    }
  }

  lemma OneGrantMatchesOnlyThere(st: Store, user: Uuid, o: Uuid, role: int, names: seq<string>, target: Uuid, n: nat)
    requires st.grants == map[GrantKey(user, o, role) := Grant(None, None)]
    ensures MatchAt(st, user, names, target, n) ==> Ancestor(st.orgs, target, n) == Some(o)
  {
  }

  /** A match `k` above an org that lies `d` above the target carries down, within the cap. */
  lemma GrantsCascade(st: Store, user: Uuid, names: seq<string>, target: Uuid, d: nat, k: nat)
    requires Ancestor(st.orgs, target, d).Some?
    requires MatchAt(st, user, names, Ancestor(st.orgs, target, d).value, k)
    requires d + k <= MAX_HIERARCHY_DEPTH
    ensures Allowed(st, user, names, target)
  {
    AncestorCompose(st.orgs, target, d, k);
    assert MatchAt(st, user, names, target, d + k);
  }

  /** Two states that agree on the org tree, the roles, and this user's grants along the
      target's capped chain give the same answers: nothing else, at no other org, no ancestor
      beyond the cap, and of no other user, can matter. */
  lemma OnlyTheChainMatters(st: Store, st': Store, user: Uuid, names: seq<string>, target: Uuid, r: CheckResult)
    requires st.orgs == st'.orgs && st.roles == st'.roles
    requires forall o, role :: ReachesWithinCap(st.orgs, target, o) ==>
               (ActiveGrant(st, user, o, role, names) <==> ActiveGrant(st', user, o, role, names))
    ensures MayAnswer(st, user, names, target, r) <==> MayAnswer(st', user, names, target, r)
  {
    forall n: nat | n <= MAX_HIERARCHY_DEPTH
      ensures MatchAt(st, user, names, target, n) <==> MatchAt(st', user, names, target, n)
    {
      var a := Ancestor(st.orgs, target, n);
      if a.Some? {
        assert ReachesWithinCap(st.orgs, target, a.value);
      }
    }
    forall n: nat | n <= MAX_HIERARCHY_DEPTH
      ensures ClosestMatch(st, user, names, target, n) <==> ClosestMatch(st', user, names, target, n)
    {
    }
  }

  /** Exactly which decisions one more active grant changes; read backwards, exactly which
      decisions revoking it changes. Granting never turns allow into deny, nor revoking
      deny into allow. */
  lemma ScopeOfOneGrant(st: Store, key: GrantKey, grant: Grant, user: Uuid, names: seq<string>, target: Uuid)
    requires key !in st.grants || st.grants[key].revokedAt.Some?
    requires grant.revokedAt.None?
    ensures Allowed(st.(grants := st.grants[key := grant]), user, names, target) <==>
              || Allowed(st, user, names, target)
              || (&& key.user == user && key.role in st.roles && st.roles[key.role] in names
                  && ReachesWithinCap(st.orgs, target, key.org))
  {
    var st' := st.(grants := st.grants[key := grant]);
    forall o, role
      ensures ActiveGrant(st', user, o, role, names) <==>
                || ActiveGrant(st, user, o, role, names)
                || (key == GrantKey(user, o, role) && role in st.roles && st.roles[role] in names)
    {
    }
    if Allowed(st, user, names, target) {
      var n: nat :| n <= MAX_HIERARCHY_DEPTH && MatchAt(st, user, names, target, n);
      var role :| ActiveGrant(st, user, Ancestor(st.orgs, target, n).value, role, names);
      assert ActiveGrant(st', user, Ancestor(st.orgs, target, n).value, role, names);
      assert MatchAt(st', user, names, target, n);
    }
    if key.user == user && key.role in st.roles && st.roles[key.role] in names {
      assert ActiveGrant(st', user, key.org, key.role, names);
      if ReachesWithinCap(st.orgs, target, key.org) {
        var n: nat :| n <= MAX_HIERARCHY_DEPTH && Ancestor(st.orgs, target, n) == Some(key.org);
        assert MatchAt(st', user, names, target, n);
      }
    }
    if Allowed(st', user, names, target) {
      var n: nat :| n <= MAX_HIERARCHY_DEPTH && MatchAt(st', user, names, target, n);
      var o := Ancestor(st.orgs, target, n).value;
      var role :| ActiveGrant(st', user, o, role, names);
      if ActiveGrant(st, user, o, role, names) {
        assert MatchAt(st, user, names, target, n);
      } else {
        assert key == GrantKey(user, o, role) && ReachesWithinCap(st.orgs, target, key.org);
      }
    }
  }

  /** If developers are only ever appointed at the root org, as the catalog demands, a
      platform permission is confined to its developers and to the orgs within reach. */
  lemma PlatformPermissionsComeFromTheRoot(catalog: Catalog, st: Store, root: Uuid, user: Uuid, p: Permission,
                                           target: Uuid)
    requires catalog == ROLE_PERMISSIONS && IsPlatformPermission(p)
    requires forall o, role :: ActiveGrant(st, user, o, role, ["developer"]) ==> o == root
    ensures Allowed(st, user, RolesWithPermission(catalog, p), target) <==>
              && Holds(st, user, root, ["developer"])
              && ReachesWithinCap(st.orgs, target, root)
  {
    var names := RolesWithPermission(catalog, p);
    PlatformPermissionsNeedPlatformRoles(catalog, p);
    CatalogEntry(catalog, "developer", p);
    assert forall name :: name in names <==> name in ["developer"];
    forall o, role
      ensures ActiveGrant(st, user, o, role, names) <==> ActiveGrant(st, user, o, role, ["developer"])
    {
    }
    if Allowed(st, user, names, target) {
      var n: nat :| n <= MAX_HIERARCHY_DEPTH && MatchAt(st, user, names, target, n);
      var role :| ActiveGrant(st, user, Ancestor(st.orgs, target, n).value, role, names);
      assert ActiveGrant(st, user, Ancestor(st.orgs, target, n).value, role, ["developer"]);
    }
    if Holds(st, user, root, ["developer"]) && ReachesWithinCap(st.orgs, target, root) {
      var n: nat :| n <= MAX_HIERARCHY_DEPTH && Ancestor(st.orgs, target, n) == Some(root);
      var role :| ActiveGrant(st, user, root, role, ["developer"]);
      assert ActiveGrant(st, user, root, role, names);
      assert MatchAt(st, user, names, target, n);
    }
  }
}
