/** From login to logout, across modules: whom a session token authenticates, for how long,
    and what the audit log may claim at any commit point. */
module EndToEnd {
  import opened Model
  import opened Sessions
  import opened Login
  import opened AuditLog
  import opened Bootstrap
  import opened Requests
  import opened KeyCli
  import opened System
  import opened SessionRuns
  import opened Permissions
  import opened Rbac
  import opened Guard

  // ---------- the routes, as transactions ----------

  function AuthEvents(raw: Option<string>, now: Time): seq<Event> {
    if raw.None? then [] else [Event(now, OnSessions(Lookup(raw.value)))]
  }

  ghost function LoginEvents(rt: Runtime, st: Store, request: Attempt, now: Time): seq<Event> {
    var a := request.(transport := Cookie);
    var r := LoginOutcome(rt, st, a, now);
    [Event(now, LoginAttempt(a))] + if r.LoginRaised? then [] else [Event(now, WriteAudit(LoginRow(r, a.agent)))]
  }

  /** `sid` is the session of the credential. */
  function LogoutEvents(rt: Runtime, cookie: Option<string>, authorization: Option<string>, sid: Uuid, user: Uuid,
                        now: Time)
    : seq<Event>
  {
    AuthEvents(Credential(rt, cookie, authorization), now)
    + (if cookie.Some? then [Event(now, OnSessions(RevokeOne(sid, "logout")))] else [])
    + [Event(now, WriteAudit(LogoutRow(user)))]
  }

  function DenyEvents(raw: Option<string>, row: AuditRow, now: Time): seq<Event> {
    AuthEvents(raw, now) + [Event(now, WriteAudit(row))]
  }

  lemma {:induction false} RunAppend(rt: Runtime, st: Store, es: seq<Event>, fs: seq<Event>)
    ensures Run(rt, st, es + fs) == Run(rt, Run(rt, st, es), fs)
    decreases |es|
  {
    if es == [] {
      assert es + fs == fs;
    } else {
      assert (es + fs)[1..] == es[1..] + fs;
      RunAppend(rt, Step(rt, st, es[0]), es[1..], fs);
    }
  }

  lemma RunOfOne(rt: Runtime, st: Store, e: Event)
    ensures Run(rt, st, [e]) == Step(rt, st, e)
  {
    assert [e][1..] == [];
    assert Run(rt, Step(rt, st, e), []) == Step(rt, st, e);
  }

  /** A request without a valid credential leaves what authenticating left: a run. */
  lemma AuthIsARun(rt: Runtime, st: Store, raw: Option<string>, now: Time)
    ensures Run(rt, st, AuthEvents(raw, now)) == AfterAuth(rt, st, raw, now)
  {
    if raw.Some? {
      RunOfOne(rt, st, AuthEvents(raw, now)[0]);
    }
  }

  /** Every login, successful, failed, locked or raising, leaves what a run leaves. */
  lemma LoginIsARun(rt: Runtime, st: Store, request: Attempt, now: Time)
    ensures Run(rt, st, LoginEvents(rt, st, request, now)) == AfterLoginRoute(rt, st, request, now)
  {
    var a := request.(transport := Cookie);
    var r, e := LoginOutcome(rt, st, a, now), Event(now, LoginAttempt(a));
    var after := AfterLogin(rt, st, a, now);
    RunOfOne(rt, st, e);
    assert Step(rt, st, e) == after;
    if r.LoginRaised? {
      assert LoginEvents(rt, st, request, now) == [e];
    } else {
      var write := Event(now, WriteAudit(LoginRow(r, a.agent)));
      RunAppend(rt, st, [e], [write]);
      RunOfOne(rt, after, write);
    }
  }

  lemma LookupKeepsTokens(rt: Runtime, st: Store, raw: string, sid: Uuid, now: Time)
    requires TokensUnique(st.sessions) && Presents(rt, st, raw, sid)
    ensures var seen := AfterLookup(rt, st, raw, now);
            TokensUnique(seen.sessions) && Presents(rt, seen, raw, sid)
  {
  }

  /** And every logout that answers 200, by cookie or by bearer header. */
  lemma LogoutIsARun(rt: Runtime, st: Store, cookie: Option<string>, authorization: Option<string>, sid: Uuid,
                     user: Uuid, now: Time)
    requires TokensUnique(st.sessions) && user in st.users
    requires var raw := Credential(rt, cookie, authorization); raw.Some? && Presents(rt, st, raw.value, sid)
    ensures Run(rt, st, LogoutEvents(rt, cookie, authorization, sid, user, now)) ==
            AfterLogout(rt, st, cookie, authorization, user, now)
  {
    var raw := Credential(rt, cookie, authorization);
    var seen := AfterAuth(rt, st, raw, now);
    var auth := AuthEvents(raw, now);
    var write := Event(now, WriteAudit(LogoutRow(user)));
    AuthIsARun(rt, st, raw, now);
    LookupKeepsTokens(rt, st, raw.value, sid, now);
    var revoked := if cookie.Some? then AfterRevokeToken(rt, seen, cookie.value, now) else seen;
    RunOfOne(rt, revoked, write);
    assert Step(rt, revoked, write) == WithAudit(revoked, LogoutRow(user));
    if cookie.Some? {
      var revoke := Event(now, OnSessions(RevokeOne(sid, "logout")));
      RevokeTokenRevokesOne(rt, seen, raw.value, sid, now);
      RunOfOne(rt, seen, revoke);
      assert Step(rt, seen, revoke) == revoked;
      RunAppend(rt, st, auth, [revoke]);
      RunAppend(rt, st, auth + [revoke], [write]);
    } else {
      assert LogoutEvents(rt, cookie, authorization, sid, user, now) == auth + [write];
      RunAppend(rt, st, auth, [write]);
    }
  }

  /** And every guarded request that is answered 403. */
  lemma DenyIsARun(rt: Runtime, catalog: Catalog, st: Store, raw: Option<string>, user: Uuid, permission: Permission,
                   target: Uuid, agent: Option<string>, access: Access, r: CheckResult, now: Time)
    requires var seen := AfterAuth(rt, st, raw, now);
             user in seen.users && Decides(catalog, seen, user, permission, target, agent, access, r)
    requires access.Forbidden?
    ensures var row := DecisionRow(user, permission, target, r, agent);
            Run(rt, st, DenyEvents(raw, row, now)) == WithAudit(AfterAuth(rt, st, raw, now), row)
  {
    var seen, row := AfterAuth(rt, st, raw, now), DecisionRow(user, permission, target, r, agent);
    var write := Event(now, WriteAudit(row));
    AuthIsARun(rt, st, raw, now);
    RunAppend(rt, st, AuthEvents(raw, now), [write]);
    RunOfOne(rt, seen, write);
    assert MayWrite(seen, row);
  }

  // ---------- login, use, logout ----------

  /** The token a login hands out authenticates, at any later moment of any run, exactly the
      user who logged in, and that exactly while the session is live and the user active. */
  lemma LoginTokenAuthenticatesItsUser(rt: Runtime, st: Store, now: Time, at: Time, a: Attempt, es: seq<Event>,
                                       t: Time, u: Uuid)
    requires Inv(st, now) && now <= at && a.raw != ""
    requires LoginOutcome(rt, st, a, at).LoginSuccess?
    requires Admissible(rt, AfterLogin(rt, st, a, at), at, es)
    ensures var uid := LoginOutcome(rt, st, a, at).user;
            var st' := Run(rt, AfterLogin(rt, st, a, at), es);
            && a.sid in st'.sessions && uid in st'.users
            && (Authenticates(rt, st', a.raw, t, u) <==>
                u == uid && Live(st'.sessions[a.sid], t) && st'.users[uid].isActive)
  {
    var uid := LoginOutcome(rt, st, a, at).user;
    var e := Event(at, LoginAttempt(a));
    var after := AfterLogin(rt, st, a, at);
    assert after == Step(rt, st, e);
    LoginSessions(rt, st, a, at);
    StepKeepsInv(rt, st, now, e);
    TokenAuthenticatesOwner(rt, after, at, es, a.raw, a.sid, t, u);
    assert after.sessions[a.sid].userId == uid;
  }

  /** A stored session's token speaks, for ever, for its owner alone. */
  lemma TokenAuthenticatesOwner(rt: Runtime, st: Store, now: Time, es: seq<Event>, raw: string, sid: Uuid, t: Time,
                                u: Uuid)
    requires Inv(st, now) && Admissible(rt, st, now, es) && Presents(rt, st, raw, sid)
    ensures var owner := st.sessions[sid].userId;
            var st' := Run(rt, st, es);
            && sid in st'.sessions && owner in st'.users
            && (Authenticates(rt, st', raw, t, u) <==>
                u == owner && Live(st'.sessions[sid], t) && st'.users[owner].isActive)
  {
    var st' := Run(rt, st, es);
    RunKeepsInv(rt, st, now, es);
    SessionIdentityIsFixed(rt, st, es, sid);
    assert Presents(rt, st', raw, sid);
    if Live(st'.sessions[sid], t) && u == st.sessions[sid].userId && st'.users[u].isActive {
      assert Accepts(rt, st', raw, t, sid) && OwnedByActive(st', sid, u);
    }
  }

  /** After logging out with the cookie, the token never authenticates anyone again. */
  lemma LoggedOutTokenIsDead(rt: Runtime, st: Store, now: Time, at: Time, raw: string,
                             authorization: Option<string>, user: Uuid, es: seq<Event>, t: Time, u: Uuid)
    requires Inv(st, now) && now <= at && Authenticates(rt, st, raw, at, user)
    requires Admissible(rt, AfterLogout(rt, st, Some(raw), authorization, user, at), at, es)
    ensures !Authenticates(rt, Run(rt, AfterLogout(rt, st, Some(raw), authorization, user, at), es), raw, t, u)
  {
    var sid :| Accepts(rt, st, raw, at, sid) && OwnedByActive(st, sid, user);
    var after := AfterLogout(rt, st, Some(raw), authorization, user, at);
    LogoutKeepsInv(rt, st, now, at, raw, authorization, user, sid);
    LogoutRevokes(rt, st, at, raw, authorization, user, sid);
    TokenAuthenticatesOwner(rt, after, at, es, raw, sid, t, u);
    SessionIdentityIsFixed(rt, after, es, sid);
  }

  lemma LogoutKeepsInv(rt: Runtime, st: Store, now: Time, at: Time, raw: string, authorization: Option<string>,
                       user: Uuid, sid: Uuid)
    requires Inv(st, now) && now <= at && user in st.users && Presents(rt, st, raw, sid)
    ensures Inv(AfterLogout(rt, st, Some(raw), authorization, user, at), at)
  {
    var es := LogoutEvents(rt, Some(raw), authorization, sid, user, at);
    LogoutIsARun(rt, st, Some(raw), authorization, sid, user, at);
    SameInstantIsAdmissible(rt, st, now, at, es);
    RunKeepsInv(rt, st, now, es);
  }

  lemma {:induction false} SameInstantIsAdmissible(rt: Runtime, st: Store, now: Time, at: Time, es: seq<Event>)
    requires now <= at && forall e :: e in es ==> e.at == at && !e.op.OnKeys?
    ensures Admissible(rt, st, now, es)
    decreases |es|
  {
    if es != [] {
      SameInstantIsAdmissible(rt, Step(rt, st, es[0]), at, at, es[1..]);
    }
  }

  lemma LogoutRevokes(rt: Runtime, st: Store, at: Time, raw: string, authorization: Option<string>, user: Uuid,
                      sid: Uuid)
    requires Presents(rt, st, raw, sid)
    ensures var after := AfterLogout(rt, st, Some(raw), authorization, user, at);
            Presents(rt, after, raw, sid) && after.sessions[sid].revokedAt.Some?
  {
  }

  /** "Can log in via the standard auth flow": the bootstrapped user's first login, with the
      password given to bootstrap, succeeds, if hashes verify and the token draw is new. */
  lemma BootstrappedUserCanLogIn(rt: Runtime, st: Store, q: Request, after: Store, a: Attempt, now: Time)
    requires SchemaOk(st) && Outcome(rt, st, q).Performed? && Extends(rt, st, q, after)
    requires a.email == q.email && a.password == q.password
    requires rt.verifyPassword(q.password, rt.hashPassword(q.password, q.salt))
    requires Insertable(after, a.sid, q.uid, rt.digest(a.raw), a.agent)
    ensures LoginOutcome(rt, after, a, now) == LoginSuccess(q.uid, a.raw, a.sid)
  {
    BootstrapKeepsSchema(rt, st, q, after);
    assert HasEmail(after, q.uid, rt.Normalize(a.email));
  }

  /** A login over the route opens a cookie session. So at any later moment, revoking the user's
      cookie sessions ends it for ever, and revoking the bearer sessions leaves it as it is. */
  lemma CookieLoginIsRevokedAsCookie(rt: Runtime, st: Store, request: Attempt, at: Time, es: seq<Event>,
                                     only: Transport, reason: string, later: Time, es': seq<Event>, t: Time)
    requires LoginOutcome(rt, st, request.(transport := Cookie), at).LoginSuccess? && ReasonFits(reason)
    requires var uid := LoginOutcome(rt, st, request.(transport := Cookie), at).user;
             var before := Run(rt, AfterLoginRoute(rt, st, request, at), es);
             Admissible(rt, AfterRevokeAll(before, uid, reason, Some(only), later), later, es')
             && LastTime(later, es') <= t
    ensures var uid := LoginOutcome(rt, st, request.(transport := Cookie), at).user;
            var before := Run(rt, AfterLoginRoute(rt, st, request, at), es);
            var after := AfterRevokeAll(before, uid, reason, Some(only), later);
            && request.sid in before.sessions && before.sessions[request.sid].transport == Cookie
            && request.sid in after.sessions
            && match only
               case Cookie =>
                 && request.sid in Run(rt, after, es').sessions
                 && !Live(Run(rt, after, es').sessions[request.sid], t)
               case Bearer => after.sessions[request.sid] == before.sessions[request.sid]
  {
    var a := request.(transport := Cookie);
    var uid, start := LoginOutcome(rt, st, a, at).user, AfterLoginRoute(rt, st, request, at);
    SuccessInColumns(rt, st, a, at);
    assert start.sessions[request.sid].transport == Cookie && start.sessions[request.sid].userId == uid;
    SessionIdentityIsFixed(rt, start, es, request.sid);
    MassRevocationIsFinal(rt, Run(rt, start, es), later, uid, reason, Some(only), es', request.sid, t);
  }

  // ---------- the audit log ----------

  lemma StepAudit(rt: Runtime, st: Store, e: Event)
    ensures Step(rt, st, e).audit ==
            if e.op.WriteAudit? && MayWrite(st, e.op.row) then st.audit + [e.op.row] else st.audit
  {
    match e.op {
      case OnSessions(s) => assert Step(rt, st, e) == st.(sessions := SessionStep(rt, st, s, e.at));
      case LoginAttempt(a) => LoginFrame(rt, st, a, e.at);
      case OnKeys(k) => assert Step(rt, st, e) == st.(keys := KeyStep(rt, st, k, e.at));
      case WriteAudit(row) =>
      case RunBootstrap(q, after) =>
      case Administer(tables) =>
    }
  }

  /** Committed audit rows are never changed, moved or removed. */
  lemma {:induction false} AuditOnlyGrows(rt: Runtime, st: Store, es: seq<Event>)
    ensures st.audit <= Run(rt, st, es).audit
    decreases |es|
  {
    if es != [] {
      StepAudit(rt, st, es[0]);
      AuditOnlyGrows(rt, Step(rt, st, es[0]), es[1..]);
    }
  }
}
