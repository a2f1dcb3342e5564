/** The append-only audit log, and what its callers put in it. */
module AuditLog {
  import opened Model
  import opened Rbac

  const VALID_DECISIONS: set<string> := {"allow", "deny"}

  function WithAudit(st: Store, row: AuditRow): Store {
    st.(audit := st.audit + [row])
  }

  /** Adds a pending row; the caller decides when to commit. `false` is the `ValueError`. */
  method Write(db: Db, row: AuditRow) returns (ok: bool)
    modifies db
    ensures ok <==> row.decision in VALID_DECISIONS
    ensures db.Unsaved(if ok then WithAudit(old(db.working), row) else old(db.working))
    ensures ok <==> row.decision == "allow" || row.decision == "deny"
    ensures db.working == old(db.working).(audit := old(db.working.audit) + if ok then [row] else [])
  {
    if row.decision !in VALID_DECISIONS {
      return false;
    }
    db.working := WithAudit(db.working, row);
    return true;
  }

  function EventRow(user: Option<Uuid>, action: string, decision: string, reason: Option<string>,
                    agent: Option<string>): AuditRow
  {
    AuditRow(user, action, None, None, None, None, decision, reason, agent)
  }

  function LoginFailedRow(agent: Option<string>): AuditRow {
    EventRow(None, "login.failed", "deny", Some("invalid_credentials"), agent)
  }

  function LoginLockedRow(agent: Option<string>): AuditRow {
    EventRow(None, "login.locked", "deny", Some("account_locked"), agent)
  }

  function LoginSuccessRow(user: Uuid, agent: Option<string>): AuditRow {
    EventRow(Some(user), "login.success", "allow", None, agent)
  }

  /** Logging out is recorded without the user agent. */
  function LogoutRow(user: Uuid): AuditRow {
    EventRow(Some(user), "logout", "allow", None, None)
  }

  function DecisionRow(user: Uuid, p: Permission, target: Uuid, r: CheckResult, agent: Option<string>): AuditRow {
    AuditRow(Some(user), if r.allowed then "authz.granted" else "authz.denied", Some(p), Some(target),
             r.matchedRole, r.matchedOrg, if r.allowed then "allow" else "deny", Some(r.reason), agent)
  }
}
