/** `require_permission` in front of a route, and the handler behind it: which audit rows
    survive which requests. */
module Guard {
  import opened Model
  import opened Permissions
  import opened OrgChain
  import opened Rbac
  import opened AuditLog
  import opened Requests

  // ---------- the dependency ----------

  /** `Rejected` is the 500 of a deny row the database does not take. */
  datatype Access = Unauthorized | Forbidden | Rejected | Granted(user: Uuid)

  /** The decision row refers to an existing org, and its user agent fits the column. */
  predicate Recordable(st: Store, target: Uuid, agent: Option<string>) {
    target in st.orgs && FitsIfAny(agent, USER_AGENT_WIDTH)
  }

  /** The answer `access` to a check that came to `r`. */
  ghost predicate Decides(catalog: Catalog, st: Store, user: Uuid, permission: Permission, target: Uuid,
                          agent: Option<string>, access: Access, r: CheckResult) {
    && MayAnswer(st, user, RolesWithPermission(catalog, permission), target, r)
    && access == (if r.allowed then Granted(user) else if Recordable(st, target, agent) then Forbidden else Rejected)
    && (r.allowed ==> target in st.orgs)
    && (RowOk(st, DecisionRow(user, permission, target, r, agent)) <==> Recordable(st, target, agent))
  }

  /** A request is let through exactly if the user is allowed at its target, in the state before
      authentication as in the one after it. */
  lemma GrantedIffAllowed(rt: Runtime, catalog: Catalog, st: Store, raw: Option<string>, now: Time, user: Uuid,
                          permission: Permission, target: Uuid, agent: Option<string>, access: Access, r: CheckResult)
    requires Decides(catalog, AfterAuth(rt, st, raw, now), user, permission, target, agent, access, r)
    ensures access.Granted? <==> Allowed(st, user, RolesWithPermission(catalog, permission), target)
    ensures access.Granted? ==> access.user == user
  {
    var seen, names := AfterAuth(rt, st, raw, now), RolesWithPermission(catalog, permission);
    DecisionIsDetermined(seen, user, names, target, r, r);
    SameGrantsDecideAlike(st, seen, user, names, target);
    SameGrantsDecideAlike(seen, st, user, names, target);
  }

  /** The row that goes with the answer, column by column: it says what was decided, for whom, on
      what, and why. */
  lemma DecisionRowInColumns(catalog: Catalog, st: Store, user: Uuid, permission: Permission, target: Uuid,
                             agent: Option<string>, access: Access, r: CheckResult)
    requires Decides(catalog, st, user, permission, target, agent, access, r)
    ensures DecisionRow(user, permission, target, r, agent) ==
            if access.Granted?
            then AuditRow(Some(user), "authz.granted", Some(permission), Some(target), r.matchedRole, r.matchedOrg,
                          "allow", Some(r.reason), agent)
            else AuditRow(Some(user), "authz.denied", Some(permission), Some(target), None, None,
                          "deny", Some(r.reason), agent)
    ensures access.Granted? ==>
              && r.matchedRole.Some? && r.matchedOrg.Some? && r.matchedRole.value in st.roles
              && r.reason == "granted_via_" + st.roles[r.matchedRole.value]
    ensures !access.Granted? ==>
              r.reason == if RolesWithPermission(catalog, permission) == [] then "permission_not_in_any_role"
                          else "no_matching_role_grant"
    ensures access.Forbidden? <==>
              !access.Granted? && target in st.orgs
              && (agent.Some? ==> |agent.value| <= 500 && '\0' !in agent.value)
  {
    AnswerIsAGrantRow(st, user, RolesWithPermission(catalog, permission), target, r);
  }

  /** The check and its audit row. The commit of a deny row flushes it: the row is durable, and
      the answer a 403, exactly when the target org exists and the user agent fits. */
  method Decide(catalog: Catalog, db: Db, user: Uuid, permission: Permission, target: Uuid, agent: Option<string>)
    returns (access: Access, r: CheckResult)
    requires db.Clean() && user in db.working.users
    modifies db
    ensures var st := old(db.working);
            var decided := WithAudit(st, DecisionRow(user, permission, target, r, agent));
            && Decides(catalog, st, user, permission, target, agent, access, r)
            && (access.Granted? ==> db.Unsaved(decided))
            && (access.Forbidden? ==> db.Persisted(decided))
            && (access.Rejected? ==> db.Unsaved(st))
  {
    r := CheckPermission(catalog, db, user, permission, target);
    var row := DecisionRow(user, permission, target, r, agent);
    var _ := Write(db, row);
    if !r.allowed {
      var ok := CommitRow(db, row);
      return if ok then Forbidden else Rejected, r;
    }
    access := Granted(user);
  }

  /** `resolved` is the org the resolver read off the resource; without a resolver it is the
      user's own. */
  function TargetOrg(st: Store, user: Uuid, resolved: Option<Uuid>): Uuid
    requires user in st.users
  {
    if resolved.Some? then resolved.value else st.users[user].orgId
  }

  lemma HomeOrgExists(rt: Runtime, st: Store, raw: Option<string>, now: Time, user: Uuid)
    requires ForeignKeys(st) && user in st.users
    ensures var seen := AfterAuth(rt, st, raw, now);
            user in seen.users && TargetOrg(seen, user, None) in seen.orgs
  {
  }

  /** Without a user, the 401; otherwise the decision on the target. */
  method Authorize(catalog: Catalog, db: Db, current: Option<Uuid>, permission: Permission, resolved: Option<Uuid>,
                   agent: Option<string>)
    returns (access: Access, r: CheckResult, user: Uuid, target: Uuid)
    requires db.Clean() && (current.Some? ==> current.value in db.working.users)
    modifies db
    ensures access.Unauthorized? <==> current.None?
    ensures var st := old(db.working);
            var decided := WithAudit(st, DecisionRow(user, permission, target, r, agent));
            && (current.Some? ==>
                  && user == current.value && target == TargetOrg(st, user, resolved)
                  && Decides(catalog, st, user, permission, target, agent, access, r))
            && db.working == (if access.Granted? || access.Forbidden? then decided else st)
            && db.committed == (if access.Forbidden? then decided else st)
            && db.history == old(db.history) + if access.Forbidden? then [decided] else []
  {
    user, target, r := 0, 0, Denied("");
    if current.None? {
      return Unauthorized, r, user, target;
    }
    user := current.value;
    target := TargetOrg(db.working, user, resolved);
    access, r := Decide(catalog, db, user, permission, target, agent);
  }

  method Checker(rt: Runtime, catalog: Catalog, db: Db, cookie: Option<string>, authorization: Option<string>,
                 permission: Permission, resolved: Option<Uuid>, agent: Option<string>, now: Time)
    returns (access: Access, r: CheckResult, user: Uuid, target: Uuid)
    requires db.Clean() && TokensUnique(db.working.sessions)
    modifies db
    ensures var raw := Credential(rt, cookie, authorization);
            var st := AfterAuth(rt, old(db.working), raw, now);
            var decided := WithAudit(st, DecisionRow(user, permission, target, r, agent));
            && AuthOutcome(rt, old(db.working), raw, now, if access.Unauthorized? then None else Some(user))
            && (!access.Unauthorized? ==>
                  && user in st.users && target == TargetOrg(st, user, resolved)
                  && Decides(catalog, st, user, permission, target, agent, access, r))
            && db.working == (if access.Granted? || access.Forbidden? then decided else st)
            && db.committed == (if access.Forbidden? then decided else st)
            && db.history == old(db.history) + AuthCommits(rt, old(db.working), raw, now)
                             + (if access.Forbidden? then [decided] else [])
    ensures ForeignKeys(old(db.working)) && resolved.None? && FitsIfAny(agent, USER_AGENT_WIDTH) ==> !access.Rejected?
    ensures !access.Unauthorized? ==>
              && user in old(db.working.users)
              && target == (match resolved case Some(t) => t case None => old(db.working.users)[user].orgId)
  {
    ghost var st, raw := db.working, Credential(rt, cookie, authorization);
    var current := GetCurrentUser(rt, db, cookie, authorization, now);
    if current.Some? && ForeignKeys(st) {
      HomeOrgExists(rt, st, raw, now, current.value);
    }
    access, r, user, target := Authorize(catalog, db, current, permission, resolved, agent);
  }

  // ---------- the handler ----------

  /** What a handler may do with its session: leave writes pending (any tables, and audit rows
      of its own), commit, roll back, or raise. A commit the database does not take raises,
      unless the handler catches that and rolls back. */
  datatype Action = Pend(tables: Store, rows: seq<AuditRow>) | Save(catches: bool) | Discard | Raise

  datatype Txn = Txn(working: Store, committed: Store)

  function Pended(st: Store, tables: Store, rows: seq<AuditRow>): Store {
    tables.(audit := st.audit + rows)
  }

  function Act(t: Txn, step: Action): Txn {
    match step
    case Pend(tables, rows) => Txn(Pended(t.working, tables, rows), t.committed)
    case Save(_) => if SchemaOk(t.working) then Txn(t.working, t.working) else Txn(t.committed, t.committed)
    case Discard => Txn(t.committed, t.committed)
    case Raise => t
  }

  predicate Stops(t: Txn, step: Action) {
    step.Raise? || (step.Save? && !step.catches && !SchemaOk(t.working))
  }

  /** The session after the handler, which ends with its steps or where it raises. */
  function Acts(t: Txn, steps: seq<Action>): Txn
    decreases |steps|
  {
    if steps == [] || Stops(t, steps[0]) then t else Acts(Act(t, steps[0]), steps[1..])
  }

  /** What its commits make durable, in order. */
  function Saves(t: Txn, steps: seq<Action>): seq<Store>
    decreases |steps|
  {
    if steps == [] || Stops(t, steps[0]) then []
    else
      (if steps[0].Save? && SchemaOk(t.working) then [t.working] else []) + Saves(Act(t, steps[0]), steps[1..])
  }

  /** The handler tries to commit before it rolls back or raises. */
  predicate SavesFirst(steps: seq<Action>)
    decreases |steps|
  {
    steps != [] && (steps[0].Save? || (steps[0].Pend? && SavesFirst(steps[1..])))
  }

  lemma {:induction false} SavesFirstMeansSaves(steps: seq<Action>)
    requires Discard !in steps && Raise !in steps
    ensures SavesFirst(steps) <==> exists step :: step in steps && step.Save?
    decreases |steps|
  {
    if steps != [] {
      assert steps == [steps[0]] + steps[1..];
      if steps[0].Pend? {
        SavesFirstMeansSaves(steps[1..]);
      }
    }
  }

  /** What is pending when the first commit comes. */
  function AtFirstSave(st: Store, steps: seq<Action>): Store
    requires SavesFirst(steps)
    decreases |steps|
  {
    match steps[0]
    case Pend(tables, rows) => AtFirstSave(Pended(st, tables, rows), steps[1..])
    case _ => st
  }

  /** The first thing that ends what is pending is a commit the database takes. */
  predicate Lands(st: Store, steps: seq<Action>) {
    SavesFirst(steps) && SchemaOk(AtFirstSave(st, steps))
  }

  lemma {:induction false} PendingRowsStay(st: Store, steps: seq<Action>, row: AuditRow)
    requires SavesFirst(steps) && row in st.audit
    ensures row in AtFirstSave(st, steps).audit
    decreases |steps|
  {
    if steps[0].Pend? {
      PendingRowsStay(Pended(st, steps[0].tables, steps[0].rows), steps[1..], row);
    }
  }

  /** With a row the column cannot hold, nothing that is pending beside it can land. */
  lemma UnfitRowLandsNothing(st: Store, steps: seq<Action>, row: AuditRow)
    requires row in st.audit && !AuditRowFits(row)
    ensures !Lands(st, steps)
  {
    if SavesFirst(steps) {
      PendingRowsStay(st, steps, row);
      assert !RowOk(AtFirstSave(st, steps), row);
    }
  }

  predicate IsDecision(row: AuditRow) {
    row.action == "authz.granted" || row.action == "authz.denied"
  }

  /** Authorization rows are written by the dependency alone. */
  predicate WritesNoDecisions(steps: seq<Action>) {
    forall step :: step in steps && step.Pend? ==> forall row :: row in step.rows ==> !IsDecision(row)
  }

  /** Whatever the handler does, the committed log only grows, and of its own the handler adds
      no authorization row. */
  lemma {:induction false} LogOnlyGrows(t: Txn, steps: seq<Action>, base: seq<AuditRow>)
    requires base <= t.working.audit && base <= t.committed.audit
    ensures base <= Acts(t, steps).committed.audit
    ensures && WritesNoDecisions(steps)
            && NoDecisionsFrom(t.working.audit, |base|) && NoDecisionsFrom(t.committed.audit, |base|) ==>
              NoDecisionsFrom(Acts(t, steps).committed.audit, |base|)
    decreases |steps|
  {
    if steps != [] && !Stops(t, steps[0]) {
      LogOnlyGrows(Act(t, steps[0]), steps[1..], base);
    }
  }

  predicate NoDecisionsFrom(audit: seq<AuditRow>, n: nat) {
    forall i :: n <= i < |audit| ==> !IsDecision(audit[i])
  }

  lemma NotAmongOthers(base: seq<AuditRow>, row: AuditRow, audit: seq<AuditRow>)
    requires IsDecision(row) && NoDecisionsFrom(audit, |base|)
    ensures !(base + [row] <= audit)
  {
    assert (base + [row])[|base|] == row;
    if |base| < |audit| {
      assert !IsDecision(audit[|base|]);
    }
  }

  lemma RolledBackRowIsLost(before: Store, row: AuditRow, steps: seq<Action>)
    requires IsDecision(row) && WritesNoDecisions(steps)
    ensures !(before.audit + [row] <= Acts(Txn(before, before), steps).committed.audit)
  {
    LogOnlyGrows(Txn(before, before), steps, before.audit);
    NotAmongOthers(before.audit, row, Acts(Txn(before, before), steps).committed.audit);
  }

  /** A pending authorization row becomes durable exactly if the handler makes a commit the
      database takes before rolling back or raising, and then in one commit with all that is
      pending at that moment. */
  lemma {:induction false} PendingRowDurableIffLands(before: Store, working: Store, row: AuditRow, steps: seq<Action>)
    requires before.audit + [row] <= working.audit && IsDecision(row) && WritesNoDecisions(steps)
    ensures var after := Acts(Txn(working, before), steps).committed;
            before.audit + [row] <= after.audit <==> Lands(working, steps)
    ensures Lands(working, steps) ==>
              && before.audit + [row] <= AtFirstSave(working, steps).audit
              && Saves(Txn(working, before), steps) != []
              && Saves(Txn(working, before), steps)[0] == AtFirstSave(working, steps)
    decreases |steps|
  {
    if steps != [] {
      var rest := steps[1..];
      match steps[0] {
        case Pend(tables, rows) => PendingRowDurableIffLands(before, Pended(working, tables, rows), row, rest);
        case Save(_) =>
          if SchemaOk(working) {
            LogOnlyGrows(Txn(working, working), rest, before.audit + [row]);
          } else {
            RolledBackRowIsLost(before, row, rest);
          }
        case Discard => RolledBackRowIsLost(before, row, rest);
        case Raise =>
      }
    }
  }

  method RunHandler(db: Db, steps: seq<Action>)
    modifies db
    ensures Txn(db.working, db.committed) == Acts(Txn(old(db.working), old(db.committed)), steps)
    ensures db.history == old(db.history) + Saves(Txn(old(db.working), old(db.committed)), steps)
  {
    for i := 0 to |steps|
      invariant Acts(Txn(db.working, db.committed), steps[i..]) == Acts(Txn(old(db.working), old(db.committed)), steps)
      invariant db.history + Saves(Txn(db.working, db.committed), steps[i..]) ==
                old(db.history) + Saves(Txn(old(db.working), old(db.committed)), steps)
    {
      assert steps[i..][0] == steps[i] && steps[i..][1..] == steps[i + 1..];
      match steps[i] {
        case Pend(tables, rows) => db.working := Pended(db.working, tables, rows);
        case Save(catches) =>
          if SchemaOk(db.working) {
            db.Commit();
          } else if catches {
            db.Rollback();
          } else {
            return;
          }
        case Discard => db.Rollback();
        case Raise => return;
      }
    }
  }

  // ---------- the request ----------

  /** The handler of an allowed request, and the end of the request. */
  method Handle(db: Db, ghost before: Store, ghost row: AuditRow, handler: seq<Action>)
    requires db.working == WithAudit(before, row) && db.committed == before
    requires IsDecision(row) && WritesNoDecisions(handler)
    modifies db
    ensures db.Clean() && before.audit <= db.committed.audit
    ensures before.audit + [row] <= db.committed.audit <==> Lands(WithAudit(before, row), handler)
    ensures Lands(WithAudit(before, row), handler) ==>
              && AuditRowFits(row)
              && old(db.history) + [AtFirstSave(WithAudit(before, row), handler)] <= db.history
    ensures db.history == old(db.history) + Saves(Txn(WithAudit(before, row), before), handler)
  {
    PendingRowDurableIffLands(before, db.working, row, handler);
    LogOnlyGrows(Txn(db.working, before), handler, before.audit);
    if !AuditRowFits(row) {
      UnfitRowLandsNothing(db.working, handler, row);
    }
    RunHandler(db, handler);
    db.Rollback();
  }

  /** A whole guarded request, for an arbitrary handler. The deny row is durable whatever the
      handler is, if the database takes it; the allow row is durable exactly if the handler
      makes a commit the database takes before it rolls back or raises, because `get_db` closes
      the session without committing. With a user agent too long for its column there is no
      such commit. */
  method GuardedRequest(rt: Runtime, catalog: Catalog, db: Db, cookie: Option<string>, authorization: Option<string>,
                        permission: Permission, resolved: Option<Uuid>, agent: Option<string>,
                        handler: seq<Action>, now: Time)
    returns (access: Access, r: CheckResult, user: Uuid, target: Uuid)
    requires db.Clean() && TokensUnique(db.working.sessions) && WritesNoDecisions(handler)
    modifies db
    ensures db.Clean()
    ensures var raw := Credential(rt, cookie, authorization);
            var st := AfterAuth(rt, old(db.working), raw, now);
            var decided := WithAudit(st, DecisionRow(user, permission, target, r, agent));
            var commits := old(db.history) + AuthCommits(rt, old(db.working), raw, now);
            && AuthOutcome(rt, old(db.working), raw, now, if access.Unauthorized? then None else Some(user))
            && (!access.Unauthorized? ==> Decides(catalog, st, user, permission, target, agent, access, r))
            && (access.Forbidden? ==> db.committed == decided && db.history == commits + [decided])
            && (access.Unauthorized? || access.Rejected? ==> db.committed == st && db.history == commits)
            && (access.Granted? ==>
                  && (decided.audit <= db.committed.audit <==> Lands(decided, handler))
                  && (Lands(decided, handler) ==>
                        && FitsIfAny(agent, USER_AGENT_WIDTH)
                        && commits + [AtFirstSave(decided, handler)] <= db.history))
    ensures old(db.committed.audit) <= db.committed.audit
    ensures !access.Unauthorized? ==>
              && user in old(db.working.users)
              && target == (match resolved case Some(t) => t case None => old(db.working.users)[user].orgId)
  {
    access, r, user, target := Checker(rt, catalog, db, cookie, authorization, permission, resolved, agent, now);
    if access.Granted? {
      Handle(db, db.committed, DecisionRow(user, permission, target, r, agent), handler);
    } else {
      db.Rollback();
    }
  }
}
