/** The request-level steps: who is asking, may they, logging in and logging out, with the
    audit rows and the commits each one makes. */
module Requests {
  import opened Model
  import opened Sessions
  import opened Login
  import opened AuditLog

  // ---------- get_current_user ----------

  /** The raw token of a request: the cookie if there is one, even an empty one; otherwise
      what follows "bearer " in the Authorization header. */
  function Credential(rt: Runtime, cookie: Option<string>, authorization: Option<string>): Option<string> {
    if cookie.Some? || authorization.None? then cookie
    else
      var header := authorization.value;
      var i := IndexOf(header, ' ');
      if i == |header| || rt.lower(header[..i]) != "bearer" then None
      else
        var token := rt.strip(header[i + 1..]);
        if token == "" then None else Some(token)
  }

  /** Every Authorization header, read once and for all: what follows the first space counts,
      stripped and not empty, if what precedes it is the bearer scheme. */
  lemma BearerHeader(rt: Runtime, scheme: string, token: string, header: string)
    requires ' ' !in scheme
    ensures Credential(rt, Some(token), Some(header)) == Some(token) == Credential(rt, Some(token), None)
    ensures Credential(rt, None, None) == None
    ensures Credential(rt, None, Some(scheme + " " + token)) ==
            if rt.lower(scheme) == "bearer" && rt.strip(token) != "" then Some(rt.strip(token)) else None
    ensures ' ' !in header ==> Credential(rt, None, Some(header)) == None
  {
    var whole := scheme + " " + token;
    assert whole[..|scheme|] == scheme && whole[|scheme| + 1..] == token;
    IndexOfIs(whole, ' ', |scheme|);
  }

  /** At `now`, `raw` is the token of a live session of the active user `u`. */
  ghost predicate Authenticates(rt: Runtime, st: Store, raw: string, now: Time, u: Uuid) {
    exists sid :: Accepts(rt, st, raw, now, sid) && OwnedByActive(st, sid, u)
  }

  ghost predicate OwnedByActive(st: Store, sid: Uuid, u: Uuid)
    requires sid in st.sessions
  {
    st.sessions[sid].userId == u && u in st.users && st.users[u].isActive
  }

  /** `user` is whom the credential authenticates; `None` stands for the 401. */
  ghost predicate AuthOutcome(rt: Runtime, st: Store, raw: Option<string>, now: Time, user: Option<Uuid>) {
    forall u :: user == Some(u) <==> raw.Some? && Authenticates(rt, st, raw.value, now, u)
  }

  /** Whom the request speaks for, in the columns of `sessions` and `users`. */
  lemma AuthInColumns(rt: Runtime, st: Store, raw: Option<string>, now: Time, user: Option<Uuid>, u: Uuid)
    requires AuthOutcome(rt, st, raw, now, user)
    ensures user == Some(u) <==>
              && raw.Some? && raw.value != "" && u in st.users && st.users[u].isActive
              && exists sid ::
                   && sid in st.sessions && st.sessions[sid].tokenHash == rt.digest(raw.value)
                   && st.sessions[sid].userId == u && st.sessions[sid].revokedAt.None?
                   && now <= st.sessions[sid].expiresAt && now <= st.sessions[sid].lastSeenAt + 7 * DAY
  {
    if raw.Some? {
      forall sid | && raw.value != "" && sid in st.sessions && st.sessions[sid].tokenHash == rt.digest(raw.value)
                   && st.sessions[sid].userId == u && st.sessions[sid].revokedAt.None?
                   && now <= st.sessions[sid].expiresAt && now <= st.sessions[sid].lastSeenAt + 7 * DAY
        ensures Accepts(rt, st, raw.value, now, sid)
      {
      }
    }
  }

  function AfterAuth(rt: Runtime, st: Store, raw: Option<string>, now: Time): Store {
    if raw.None? then st else AfterLookup(rt, st, raw.value, now)
  }

  /** The commit authentication makes, if it makes one. */
  ghost function AuthCommits(rt: Runtime, st: Store, raw: Option<string>, now: Time): seq<Store> {
    if raw.Some? && LookupWrites(rt, st, raw.value, now) then [AfterAuth(rt, st, raw, now)] else []
  }

  method ReadCredential(rt: Runtime, cookie: Option<string>, authorization: Option<string>)
    returns (raw: Option<string>)
    ensures raw == Credential(rt, cookie, authorization)
  {
    raw := cookie;
    if raw.None? && authorization.Some? {
      var header := authorization.value;
      var i := IndexOf(header, ' ');
      if i < |header| && rt.lower(header[..i]) == "bearer" {
        var token := rt.strip(header[i + 1..]);
        raw := if token == "" then None else Some(token);
      }
    }
  }

  /** The first thing a request does with the session `get_db` hands it. `None` is the 401. */
  method GetCurrentUser(rt: Runtime, db: Db, cookie: Option<string>, authorization: Option<string>, now: Time)
    returns (user: Option<Uuid>)
    requires db.Clean() && TokensUnique(db.working.sessions)
    modifies db
    ensures db.Clean()
    ensures var raw := Credential(rt, cookie, authorization);
            && AuthOutcome(rt, old(db.working), raw, now, user)
            && (user.Some? ==> user.value in old(db.working).users)
            && db.working == AfterAuth(rt, old(db.working), raw, now)
            && db.history == old(db.history) + AuthCommits(rt, old(db.working), raw, now)
  {
    var raw := ReadCredential(rt, cookie, authorization);
    if raw.None? {
      return None;
    }
    ghost var st := db.working;
    var sid := LookupSession(rt, db, raw.value, now);
    if sid.None? {
      return None;
    }
    var uid := db.working.sessions[sid.value].userId;
    if uid !in db.working.users || !db.working.users[uid].isActive {
      return None;
    }
    assert Accepts(rt, st, raw.value, now, sid.value) && OwnedByActive(st, sid.value, uid);
    return Some(uid);
  }

  // ---------- POST /login ----------

  datatype LoginResponse = Ok(cookie: string, user: Uuid) | InvalidCredentials | AccountLocked | ServerError

  /** The audit row of a login, for every outcome that writes one. */
  function LoginRow(r: LoginResult, agent: Option<string>): AuditRow
    requires !r.LoginRaised?
  {
    match r
    case LoginSuccess(uid, _, _) => LoginSuccessRow(uid, agent)
    case LoginInvalid => LoginFailedRow(agent)
    case LoginLocked(_) => LoginLockedRow(agent)
  }

  /** Adding the row and committing it, for a database that may not take it. */
  function Logged(st: Store, row: AuditRow): Store {
    if RowOk(st, row) then WithAudit(st, row) else st
  }

  /** What the route leaves committed. */
  ghost function AfterLoginRoute(rt: Runtime, st: Store, request: Attempt, now: Time): Store {
    var a := request.(transport := Cookie);
    var r := LoginOutcome(rt, st, a, now);
    if r.LoginRaised? then st else Logged(AfterLogin(rt, st, a, now), LoginRow(r, a.agent))
  }

  /** The answer, given whether the audit row could be committed. */
  function LoginAnswer(r: LoginResult, logged: bool): LoginResponse {
    if r.LoginRaised? || !logged then ServerError
    else match r
         case LoginSuccess(uid, raw, _) => Ok(raw, uid)
         case LoginInvalid => InvalidCredentials
         case LoginLocked(_) => AccountLocked
  }

  lemma LoginRowOk(rt: Runtime, st: Store, a: Attempt, now: Time)
    requires !LoginOutcome(rt, st, a, now).LoginRaised?
    ensures RowOk(AfterLogin(rt, st, a, now), LoginRow(LoginOutcome(rt, st, a, now), a.agent)) <==>
              FitsIfAny(a.agent, USER_AGENT_WIDTH)
    ensures LoginOutcome(rt, st, a, now).LoginSuccess? ==> FitsIfAny(a.agent, USER_AGENT_WIDTH)
  {
    var r := LoginOutcome(rt, st, a, now);
    if r.LoginSuccess? {
      LoginKeepsIdentity(rt, st, a, now, r.user);
    }
  }

  /** The commit of a pending audit row; `false` is the exception of a rejected flush. */
  method CommitRow(db: Db, row: AuditRow) returns (ok: bool)
    requires db.working == WithAudit(db.committed, row)
    modifies db
    ensures ok <==> RowOk(old(db.committed), row)
    ensures if ok then db.Persisted(WithAudit(old(db.committed), row)) else db.Unsaved(old(db.committed))
  {
    ok := RowOk(db.committed, row);
    if ok {
      db.Commit();
    } else {
      db.Rollback();
    }
  }

  /** The commits are listed in order: a success makes the session durable first and its audit
      row second, so at no commit point is there a row without its session; a counted failure
      is durable before its row, and stays so if the database does not take the row. */
  method LoginRoute(rt: Runtime, db: Db, request: Attempt, now: Time) returns (response: LoginResponse)
    requires db.Clean() && EmailsUnique(db.working.users)
    modifies db
    ensures db.Clean()
    ensures var st := old(db.working);
            var a := request.(transport := Cookie);
            var r := LoginOutcome(rt, st, a, now);
            var after := AfterLogin(rt, st, a, now);
            var fits := FitsIfAny(a.agent, USER_AGENT_WIDTH);
            && response == LoginAnswer(r, fits)
            && db.history == old(db.history)
                             + (if r.LoginSuccess? || IsFailure(rt, st, a, now) then [after] else [])
                             + (if !r.LoginRaised? && fits then [WithAudit(after, LoginRow(r, a.agent))] else [])
    ensures db.committed == AfterLoginRoute(rt, old(db.working), request, now)
  {
    var a := request.(transport := Cookie);
    ghost var st := db.working;
    var result := AttemptLogin(rt, db, a, now);
    if result.LoginRaised? {
      return ServerError;
    }
    LoginRowOk(rt, st, a, now);
    var row := LoginRow(result, a.agent);
    var _ := Write(db, row);
    var ok := CommitRow(db, row);
    response := LoginAnswer(result, ok);
  }

  lemma RouteAddsRow(rt: Runtime, st: Store, request: Attempt, now: Time)
    ensures var a := request.(transport := Cookie);
            var r := LoginOutcome(rt, st, a, now);
            AfterLoginRoute(rt, st, request, now).audit ==
            st.audit + if r.LoginRaised? || !FitsIfAny(request.agent, USER_AGENT_WIDTH) then []
                       else [LoginRow(r, request.agent)]
  {
    var a := request.(transport := Cookie);
    LoginFrame(rt, st, a, now);
    if !LoginOutcome(rt, st, a, now).LoginRaised? {
      LoginRowOk(rt, st, a, now);
    }
  }

  /** The answers of the route: 200, 401, 423, or a 500 for a row the database does not take. */
  lemma ResponseByOutcome(rt: Runtime, st: Store, a: Attempt, now: Time)
    ensures var fits := a.agent.Some? ==> |a.agent.value| <= 500 && '\0' !in a.agent.value;
            var r := LoginOutcome(rt, st, a, now);
            LoginAnswer(r, FitsIfAny(a.agent, USER_AGENT_WIDTH)) ==
            match r
            case LoginSuccess(uid, raw, _) => Ok(raw, uid)
            case LoginInvalid => if fits then InvalidCredentials else ServerError
            case LoginLocked(_) => if fits then AccountLocked else ServerError
            case LoginRaised => ServerError
  {
    SuccessFits(rt, st, a, now);
  }

  /** The rows of the route, column by column. */
  lemma LoginRowsInColumns(rt: Runtime, st: Store, request: Attempt, now: Time)
    ensures var fits := request.agent.Some? ==> |request.agent.value| <= 500 && '\0' !in request.agent.value;
            var r, audit := LoginOutcome(rt, st, request.(transport := Cookie), now),
                            AfterLoginRoute(rt, st, request, now).audit;
            && (r.LoginSuccess? ==>
                  audit == st.audit +
                  [AuditRow(Some(r.user), "login.success", None, None, None, None, "allow", None, request.agent)])
            && (r.LoginInvalid? && fits ==>
                  audit == st.audit +
                  [AuditRow(None, "login.failed", None, None, None, None, "deny", Some("invalid_credentials"),
                            request.agent)])
            && (r.LoginLocked? && fits ==>
                  audit == st.audit +
                  [AuditRow(None, "login.locked", None, None, None, None, "deny", Some("account_locked"),
                            request.agent)])
            && (r.LoginRaised? || !fits ==> audit == st.audit)
  {
    RouteAddsRow(rt, st, request, now);
    SuccessFits(rt, st, request.(transport := Cookie), now);
  }

  lemma SuccessFits(rt: Runtime, st: Store, a: Attempt, now: Time)
    ensures LoginOutcome(rt, st, a, now).LoginSuccess? ==> FitsIfAny(a.agent, USER_AGENT_WIDTH)
  {
    if LoginOutcome(rt, st, a, now).LoginSuccess? {
      LoginRowOk(rt, st, a, now);
    }
  }

  /** A counted failure is on record exactly if the user agent fits its column: with a longer
      one, guesses are counted and answered by a 500, and the log does not change. */
  lemma FailureIsLoggedIffAgentFits(rt: Runtime, st: Store, request: Attempt, now: Time)
    requires IsFailure(rt, st, request, now)
    ensures var uid := Claimed(rt, st, request).value;
            var after := AfterLoginRoute(rt, st, request, now);
            && after.users == st.users[uid := AfterFailure(st.users[uid], now)]
            && (after.audit == st.audit + [LoginFailedRow(request.agent)] <==>
                  FitsIfAny(request.agent, USER_AGENT_WIDTH))
            && (after.audit == st.audit <==> !FitsIfAny(request.agent, USER_AGENT_WIDTH))
  {
    var a := request.(transport := Cookie);
    LoginRowOk(rt, st, a, now);
    LoginFrame(rt, st, a, now);
    LoginCases(rt, st, a, now);
  }

  // ---------- POST /logout ----------

  /** Every active session with this token's hash (there is at most one) is revoked. */
  function AfterRevokeToken(rt: Runtime, st: Store, raw: string, now: Time): Store {
    st.(sessions := map sid | sid in st.sessions ::
          if Presents(rt, st, raw, sid) && IsActive(st, sid) then Revoked(st.sessions[sid], "logout", now)
          else st.sessions[sid])
  }

  function AfterLogout(rt: Runtime, st: Store, cookie: Option<string>, authorization: Option<string>, user: Uuid,
                       now: Time): Store {
    var seen := AfterAuth(rt, st, Credential(rt, cookie, authorization), now);
    var revoked := if cookie.Some? then AfterRevokeToken(rt, seen, cookie.value, now) else seen;
    WithAudit(revoked, LogoutRow(user))
  }

  /** `None` is the 401, `Some` the 200. */
  method LogoutRoute(rt: Runtime, db: Db, cookie: Option<string>, authorization: Option<string>, now: Time)
    returns (user: Option<Uuid>)
    requires db.Clean() && TokensUnique(db.working.sessions)
    modifies db
    ensures db.Clean()
    ensures var raw := Credential(rt, cookie, authorization);
            && AuthOutcome(rt, old(db.working), raw, now, user)
            && db.committed == if user.None? then AfterAuth(rt, old(db.working), raw, now)
                               else AfterLogout(rt, old(db.working), cookie, authorization, user.value, now)
    ensures db.committed.audit == old(db.working).audit + if user.None? then [] else
              [AuditRow(user, "logout", None, None, None, None, "allow", None, None)]
  {
    user := GetCurrentUser(rt, db, cookie, authorization, now);
    if user.None? {
      return;
    }
    if cookie.Some? && cookie.value != "" {
      RevokeToken(rt, db, cookie.value, now);
    }
    var _ := Write(db, LogoutRow(user.value));
    db.Commit();
  }

  /** By cookie, exactly the cookie's session is revoked, whatever the lookup has just written. */
  lemma LogoutInColumns(rt: Runtime, st: Store, cookie: string, authorization: Option<string>, user: Uuid, now: Time)
    requires Authenticates(rt, st, cookie, now, user) && TokensUnique(st.sessions)
    ensures var after := AfterLogout(rt, st, Some(cookie), authorization, user, now);
            && after.sessions.Keys == st.sessions.Keys
            && forall sid :: sid in st.sessions ==>
                 var s, s' := st.sessions[sid], after.sessions[sid];
                 if s.tokenHash != rt.digest(cookie) then s' == s
                 else s' == s.(lastSeenAt := s'.lastSeenAt, revokedAt := Some(now), revokedReason := Some("logout"))
  {
    var live :| Accepts(rt, st, cookie, now, live) && OwnedByActive(st, live, user);
    forall sid | sid in st.sessions && st.sessions[sid].tokenHash == rt.digest(cookie)
      ensures sid == live
    {
    }
  }

  /** At most one session has the token's hash, so it is that session that is revoked. */
  lemma RevokeTokenRevokesOne(rt: Runtime, st: Store, raw: string, sid: Uuid, now: Time)
    requires TokensUnique(st.sessions) && Presents(rt, st, raw, sid)
    ensures AfterRevokeToken(rt, st, raw, now) == AfterRevoke(st, sid, "logout", now)
  {
    assert AfterRevokeToken(rt, st, raw, now).sessions == AfterRevoke(st, sid, "logout", now).sessions;
  }

  method RevokeToken(rt: Runtime, db: Db, raw: string, now: Time)
    requires raw != "" && TokensUnique(db.working.sessions)
    modifies db
    ensures if exists sid :: Presents(rt, old(db.working), raw, sid) && IsActive(old(db.working), sid)
            then db.Persisted(AfterRevokeToken(rt, old(db.working), raw, now))
            else db.Unsaved(old(db.working)) && AfterRevokeToken(rt, old(db.working), raw, now) == old(db.working)
  {
    var hash := rt.digest(raw);
    ghost var after := AfterRevokeToken(rt, db.working, raw, now);
    if sid :| sid in db.working.sessions && db.working.sessions[sid].tokenHash == hash {
      assert Presents(rt, db.working, raw, sid);
      RevokeTokenRevokesOne(rt, db.working, raw, sid, now);
      var transitioned := RevokeSession(db, sid, "logout", now);
    } else {
      assert after.sessions == db.working.sessions;
    }
  }

  /** A 200 from logout is meant to say that the session is invalidated. It is, exactly when
      the request carried the cookie: authenticated by a bearer header alone, the session is
      as alive after logging out as before. */
  lemma LogoutInvalidatesIffCookie(rt: Runtime, st: Store, cookie: Option<string>, authorization: Option<string>,
                                   u: Uuid, now: Time)
    requires TokensUnique(st.sessions)
    requires var raw := Credential(rt, cookie, authorization);
             raw.Some? && Authenticates(rt, st, raw.value, now, u)
    ensures var raw := Credential(rt, cookie, authorization).value;
            Authenticates(rt, AfterLogout(rt, st, cookie, authorization, u, now), raw, now, u) <==> cookie.None?
  {
    var raw := Credential(rt, cookie, authorization).value;
    var sid :| Accepts(rt, st, raw, now, sid) && OwnedByActive(st, sid, u);
    var seen := AfterLookup(rt, st, raw, now);
    var after := AfterLogout(rt, st, cookie, authorization, u, now);
    assert Accepts(rt, seen, raw, now, sid) && OwnedByActive(seen, sid, u);
    if cookie.None? {
      assert Accepts(rt, after, raw, now, sid) && OwnedByActive(after, sid, u);
    } else {
      forall s | Presents(rt, after, raw, s)
        ensures !Live(after.sessions[s], now)
      {
        assert Presents(rt, seen, raw, s);
      }
    }
  }
}
