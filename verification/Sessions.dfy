/** Session records of human users: opening, looking up and revoking them. */
module Sessions {
  import opened Model

  const SESSION_TTL: Time := 30 * DAY
  const IDLE_TIMEOUT: Time := 7 * DAY
  const LAST_SEEN_DEBOUNCE: Time := 5 * MINUTE

  // ---------- create_session ----------

  function FreshSession(uid: Uuid, transport: Transport, tokenHash: string, agent: Option<string>, now: Time): Session {
    Session(uid, tokenHash, transport, agent, now, now + SESSION_TTL, now, None, None)
  }

  /** Would the primary key, the unique token hash, the user reference or the width of the
      user agent reject the row? */
  predicate Insertable(st: Store, sid: Uuid, uid: Uuid, tokenHash: string, agent: Option<string>) {
    && sid !in st.sessions && uid in st.users
    && (forall s :: s in st.sessions ==> st.sessions[s].tokenHash != tokenHash)
    && FitsIfAny(agent, USER_AGENT_WIDTH)
  }

  /** `raw` and `sid` are the random draws. A flush the database rejects raises, and takes
      everything pending with it. Nothing is committed. */
  method CreateSession(rt: Runtime, db: Db, uid: Uuid, transport: Transport, agent: Option<string>,
                       raw: string, sid: Uuid, now: Time)
    returns (ok: bool)
    modifies db
    ensures ok <==> Insertable(old(db.working), sid, uid, rt.digest(raw), agent)
    ensures ok ==> db.Unsaved(old(db.working).(sessions :=
                                 old(db.working).sessions[sid :=
                                   FreshSession(uid, transport, rt.digest(raw), agent, now)]))
    ensures !ok ==> db.Unsaved(old(db.committed))
    ensures ok <==>
              && sid !in old(db.working).sessions && uid in old(db.working).users
              && (forall s :: s in old(db.working).sessions ==>
                    old(db.working).sessions[s].tokenHash != rt.digest(raw))
              && (agent.Some? ==> |agent.value| <= 500 && '\0' !in agent.value)
    ensures ok ==>
              && db.working.sessions.Keys == old(db.working).sessions.Keys + {sid}
              && db.working.sessions[sid] == Session(uid, rt.digest(raw), transport, agent, now, now + 30 * DAY, now,
                                                     None, None)
  {
    var hash := rt.digest(raw);
    ok := Insertable(db.working, sid, uid, hash, agent);
    if !ok {
      db.Rollback();
      return;
    }
    var sess := FreshSession(uid, transport, hash, agent, now);
    db.working := db.working.(sessions := db.working.sessions[sid := sess]);
  }

  // ---------- lookup_session ----------

  /** `raw` is the token session `sid` was opened with, as far as its hash can tell. */
  predicate Presents(rt: Runtime, st: Store, raw: string, sid: Uuid) {
    raw != "" && sid in st.sessions && st.sessions[sid].tokenHash == rt.digest(raw)
  }

  /** Not revoked, not hard-expired, not idle for more than seven days. */
  predicate Live(s: Session, now: Time) {
    s.revokedAt.None? && now <= s.expiresAt && now - s.lastSeenAt <= IDLE_TIMEOUT
  }

  predicate Stale(s: Session, now: Time) {
    now - s.lastSeenAt > LAST_SEEN_DEBOUNCE
  }

  predicate Accepts(rt: Runtime, st: Store, raw: string, now: Time, sid: Uuid) {
    Presents(rt, st, raw, sid) && Live(st.sessions[sid], now)
  }

  /** The debounced use: `lastSeenAt` moves only when it is more than five minutes old. */
  function Touch(s: Session, now: Time): Session {
    if Stale(s, now) then s.(lastSeenAt := now) else s
  }

  function AfterLookup(rt: Runtime, st: Store, raw: string, now: Time): Store {
    st.(sessions := map sid | sid in st.sessions ::
          if Accepts(rt, st, raw, now, sid) then Touch(st.sessions[sid], now) else st.sessions[sid])
  }

  /** The lookup is a use worth recording. */
  ghost predicate LookupWrites(rt: Runtime, st: Store, raw: string, now: Time) {
    exists sid :: Accepts(rt, st, raw, now, sid) && Stale(st.sessions[sid], now)
  }

  method LookupSession(rt: Runtime, db: Db, raw: string, now: Time) returns (r: Option<Uuid>)
    requires TokensUnique(db.working.sessions)
    modifies db
    ensures r.Some? ==> Accepts(rt, old(db.working), raw, now, r.value)
    ensures forall sid :: Accepts(rt, old(db.working), raw, now, sid) ==> r == Some(sid)
    ensures if LookupWrites(rt, old(db.working), raw, now)
            then db.Persisted(AfterLookup(rt, old(db.working), raw, now))
            else db.Unsaved(old(db.working)) && AfterLookup(rt, old(db.working), raw, now) == old(db.working)
    ensures forall sid :: r == Some(sid) <==>
              && raw != "" && sid in old(db.working).sessions
              && var s := old(db.working).sessions[sid];
                 && s.tokenHash == rt.digest(raw) && s.revokedAt.None?
                 && now <= s.expiresAt && now <= s.lastSeenAt + 7 * DAY
    ensures db.working.sessions.Keys == old(db.working).sessions.Keys
    ensures db.history == old(db.history) + if db.working == old(db.working) then [] else [db.working]
    ensures forall sid :: sid in old(db.working).sessions ==>
              var s := old(db.working).sessions[sid];
              db.working.sessions[sid] ==
              if r == Some(sid) && s.lastSeenAt + 5 * MINUTE < now then s.(lastSeenAt := now) else s
  {
    ghost var st := db.working;
    ghost var after := AfterLookup(rt, st, raw, now);
    if raw == "" {
      assert after.sessions == st.sessions;
      return None;
    }
    var hash := rt.digest(raw);
    var sessions := db.working.sessions;
    if sid :| sid in sessions && sessions[sid].tokenHash == hash {
      var sess := sessions[sid];
      if sess.revokedAt.Some? || now > sess.expiresAt || sess.lastSeenAt < now - IDLE_TIMEOUT {
        assert after.sessions == st.sessions;
        return None;
      }
      if now - sess.lastSeenAt > LAST_SEEN_DEBOUNCE {
        assert after.sessions == sessions[sid := sess.(lastSeenAt := now)];
        db.working := db.working.(sessions := sessions[sid := sess.(lastSeenAt := now)]);
        db.Commit();
      } else {
        assert after.sessions == st.sessions;
      }
      return Some(sid);
    }
    assert after.sessions == st.sessions;
    return None;
  }

  // ---------- revoke_session ----------

  function Revoked(s: Session, reason: string, now: Time): Session {
    s.(revokedAt := Some(now), revokedReason := Some(reason))
  }

  predicate IsActive(st: Store, sid: Uuid) {
    sid in st.sessions && st.sessions[sid].revokedAt.None?
  }

  /** The reason goes into a column of forty characters. */
  predicate ReasonFits(reason: string) {
    Fits(reason, REVOKED_REASON_WIDTH)
  }

  function AfterRevoke(st: Store, sid: Uuid, reason: string, now: Time): Store {
    if IsActive(st, sid) && ReasonFits(reason)
    then st.(sessions := st.sessions[sid := Revoked(st.sessions[sid], reason, now)])
    else st
  }

  /** `None` is the exception of a reason that does not fit. */
  method RevokeSession(db: Db, sid: Uuid, reason: string, now: Time) returns (transitioned: Option<bool>)
    modifies db
    ensures transitioned == if !IsActive(old(db.working), sid) then Some(false)
                            else if ReasonFits(reason) then Some(true) else None
    ensures match transitioned
            case Some(true) => db.Persisted(AfterRevoke(old(db.working), sid, reason, now))
            case Some(false) => db.Unsaved(old(db.working))
            case None => db.Unsaved(old(db.committed))
    ensures transitioned.None? <==>
              && sid in old(db.working).sessions && old(db.working).sessions[sid].revokedAt.None?
              && !(|reason| <= 40 && '\0' !in reason)
    ensures transitioned == Some(true) ==>
              && sid in old(db.working).sessions && old(db.working).sessions[sid].revokedAt.None?
              && db.working.sessions == old(db.working).sessions[sid :=
                   old(db.working).sessions[sid].(revokedAt := Some(now), revokedReason := Some(reason))]
  {
    if sid !in db.working.sessions || db.working.sessions[sid].revokedAt.Some? {
      return Some(false);
    }
    var sess := db.working.sessions[sid];
    sess := sess.(revokedAt := Some(now));
    sess := sess.(revokedReason := Some(reason));
    db.working := db.working.(sessions := db.working.sessions[sid := sess]);
    if !ReasonFits(reason) {
      db.Rollback();
      return None;
    }
    db.Commit();
    return Some(true);
  }

  // ---------- revoke_all_user_sessions ----------

  predicate Hit(s: Session, uid: Uuid, transport: Option<Transport>) {
    s.userId == uid && s.revokedAt.None? && (transport.None? || s.transport == transport.value)
  }

  /** Another user's session, or one of the other transport. */
  predicate Spared(s: Session, uid: Uuid, transport: Option<Transport>) {
    s.userId != uid || (transport.Some? && s.transport != transport.value)
  }

  predicate SparesOthers(st: Store, after: Store, uid: Uuid, transport: Option<Transport>) {
    forall sid :: sid in st.sessions && Spared(st.sessions[sid], uid, transport) ==>
      sid in after.sessions && after.sessions[sid] == st.sessions[sid]
  }

  function Hits(st: Store, uid: Uuid, transport: Option<Transport>): set<Uuid> {
    set sid | sid in st.sessions && Hit(st.sessions[sid], uid, transport)
  }

  /** `st` with every session of `chosen` revoked. */
  function RevokeEach(st: Store, chosen: set<Uuid>, reason: string, now: Time): Store {
    st.(sessions := map sid | sid in st.sessions ::
          if sid in chosen then Revoked(st.sessions[sid], reason, now) else st.sessions[sid])
  }

  function AfterRevokeAll(st: Store, uid: Uuid, reason: string, transport: Option<Transport>, now: Time): Store {
    if ReasonFits(reason) then RevokeEach(st, Hits(st, uid, transport), reason, now) else st
  }

  lemma RevokeOneMore(st: Store, chosen: set<Uuid>, sid: Uuid, reason: string, now: Time)
    requires sid in st.sessions && sid !in chosen
    ensures sid in RevokeEach(st, chosen, reason, now).sessions
    ensures var before := RevokeEach(st, chosen, reason, now).sessions;
            RevokeEach(st, chosen + {sid}, reason, now).sessions == before[sid := Revoked(before[sid], reason, now)]
  {
  }

  /** The revoked rows, in their own columns. */
  lemma RevokedRows(st: Store, uid: Uuid, transport: Option<Transport>, reason: string, now: Time)
    ensures var hits := Hits(st, uid, transport);
            var after := RevokeEach(st, hits, reason, now).sessions;
            && after.Keys == st.sessions.Keys
            && hits == (set sid | sid in st.sessions && after[sid] != st.sessions[sid])
            && (hits == {} ==> after == st.sessions)
            && forall sid :: sid in st.sessions ==>
                 var s := st.sessions[sid];
                 after[sid] ==
                 if s.userId == uid && s.revokedAt.None? && (transport.None? || transport == Some(s.transport))
                 then s.(revokedAt := Some(now), revokedReason := Some(reason)) else s
  {
    var hits := Hits(st, uid, transport);
    var after := RevokeEach(st, hits, reason, now).sessions;
    forall sid | sid in st.sessions
      ensures after[sid] == st.sessions[sid] <==> sid !in hits
    {
      assert sid in hits <==> Hit(st.sessions[sid], uid, transport);
    }
  }

  /** The loop over the rows the query returned, in their order. */
  method MarkRevoked(db: Db, hits: set<Uuid>, reason: string, now: Time) returns (n: nat)
    requires hits <= db.working.sessions.Keys
    modifies db
    ensures n == |hits| && db.Unsaved(RevokeEach(old(db.working), hits, reason, now))
  {
    ghost var st := db.working;
    var rows := Scan(hits);
    ghost var done: set<Uuid> := {};
    assert RevokeEach(st, {}, reason, now).sessions == st.sessions;
    for i := 0 to |rows|
      invariant db.committed == old(db.committed) && db.history == old(db.history)
      invariant forall sid :: sid in done <==> sid in rows[..i]
      invariant |done| == i
      invariant db.working == RevokeEach(st, done, reason, now)
    {
      var sid := rows[i];
      assert sid in rows && sid in hits;
      assert sid !in rows[..i];
      RevokeOneMore(st, done, sid, reason, now);
      var sess := db.working.sessions[sid];
      sess := sess.(revokedAt := Some(now));
      sess := sess.(revokedReason := Some(reason));
      db.working := db.working.(sessions := db.working.sessions[sid := sess]);
      done := done + {sid};
      assert rows[..i + 1] == rows[..i] + [sid];
    }
    assert rows[..|rows|] == rows;
    forall sid
      ensures sid in done <==> sid in hits
    {
      assert sid in rows <==> sid in hits;
    }
    assert done == hits;
    n := |rows|;
  }

  method RevokeAllUserSessions(db: Db, uid: Uuid, reason: string, transport: Option<Transport>, now: Time)
    returns (count: Option<nat>)
    modifies db
    ensures var hits := Hits(old(db.working), uid, transport);
            count == if hits == {} || ReasonFits(reason) then Some(|hits|) else None
    ensures match count
            case Some(n) =>
              && SparesOthers(old(db.working), db.working, uid, transport)
              && (if n > 0 then db.Persisted(AfterRevokeAll(old(db.working), uid, reason, transport, now))
                  else db.Unsaved(old(db.working)))
            case None => db.Unsaved(old(db.committed))
    ensures count.Some? ==>
              && db.working.sessions.Keys == old(db.working).sessions.Keys
              && count.value == |set sid | sid in old(db.working).sessions
                                         && db.working.sessions[sid] != old(db.working).sessions[sid]|
              && forall sid :: sid in old(db.working).sessions ==>
                   var s := old(db.working).sessions[sid];
                   db.working.sessions[sid] ==
                   if s.userId == uid && s.revokedAt.None? && (transport.None? || transport == Some(s.transport))
                   then s.(revokedAt := Some(now), revokedReason := Some(reason)) else s
  {
    var st := db.working;
    var hits := Hits(st, uid, transport);
    RevokedRows(st, uid, transport, reason, now);
    if hits == {} {
      return Some(0);
    }
    var n := MarkRevoked(db, hits, reason, now);
    if !ReasonFits(reason) {
      db.Rollback();
      return None;
    }
    db.Commit();
    count := Some(n);
  }

  lemma RevokeInTwoSteps(st: Store, a: set<Uuid>, b: set<Uuid>, reason: string, now: Time)
    requires a !! b
    ensures RevokeEach(st, a + b, reason, now) == RevokeEach(RevokeEach(st, a, reason, now), b, reason, now)
  {
    assert RevokeEach(st, a + b, reason, now).sessions ==
           RevokeEach(RevokeEach(st, a, reason, now), b, reason, now).sessions;
  }

  lemma HitsByTransport(st: Store, uid: Uuid, reason: string, now: Time)
    ensures var cookie, bearer := Hits(st, uid, Some(Cookie)), Hits(st, uid, Some(Bearer));
            && cookie !! bearer && Hits(st, uid, None) == cookie + bearer
            && Hits(RevokeEach(st, cookie, reason, now), uid, Some(Bearer)) == bearer
  {
    var cookie, bearer := Hits(st, uid, Some(Cookie)), Hits(st, uid, Some(Bearer));
    var mid := RevokeEach(st, cookie, reason, now);
    forall sid | sid in st.sessions
      ensures sid in Hits(st, uid, None) <==> sid in cookie || sid in bearer
      ensures !(sid in cookie && sid in bearer)
      ensures sid in bearer <==> sid in Hits(mid, uid, Some(Bearer))
    {
      var t := st.sessions[sid].transport;
      assert t == Cookie || t == Bearer;
    }
    assert Hits(mid, uid, Some(Bearer)) == bearer;
    assert Hits(st, uid, None) == cookie + bearer;
  }

  /** Revoking everything is revoking the cookie sessions and then, at the same instant,
      the bearer sessions; the counts add up. */
  lemma RevokeAllSplitsByTransport(st: Store, uid: Uuid, reason: string, now: Time)
    ensures var mid := AfterRevokeAll(st, uid, reason, Some(Cookie), now);
            && AfterRevokeAll(st, uid, reason, None, now) == AfterRevokeAll(mid, uid, reason, Some(Bearer), now)
            && |Hits(st, uid, None)| == |Hits(st, uid, Some(Cookie))| + |Hits(mid, uid, Some(Bearer))|
  {
    HitsByTransport(st, uid, reason, now);
    RevokeInTwoSteps(st, Hits(st, uid, Some(Cookie)), Hits(st, uid, Some(Bearer)), reason, now);
  }

  // ---------- steps of the session table ----------

  datatype SessionOp =
    | Lookup(raw: string)
    | OpenSession(uid: Uuid, transport: Transport, agent: Option<string>, raw: string, sid: Uuid)
    | RevokeOne(sid: Uuid, reason: string)
    | RevokeAll(uid: Uuid, reason: string, only: Option<Transport>)

  function SessionStep(rt: Runtime, st: Store, op: SessionOp, now: Time): map<Uuid, Session> {
    match op
    case Lookup(raw) => AfterLookup(rt, st, raw, now).sessions
    case OpenSession(uid, transport, agent, raw, sid) =>
      if Insertable(st, sid, uid, rt.digest(raw), agent)
      then st.sessions[sid := FreshSession(uid, transport, rt.digest(raw), agent, now)] else st.sessions
    case RevokeOne(sid, reason) => AfterRevoke(st, sid, reason, now).sessions
    case RevokeAll(uid, reason, only) => AfterRevokeAll(st, uid, reason, only, now).sessions
  }

  /** The three things that can happen to a stored session. */
  ghost predicate Evolves(s: Session, s': Session, now: Time) {
    || s' == s
    || (Live(s, now) && Stale(s, now) && s' == s.(lastSeenAt := now))
    || (&& s.revokedAt.None? && s'.revokedReason.Some? && ReasonFits(s'.revokedReason.value)
        && s' == Revoked(s, s'.revokedReason.value, now))
  }

  ghost predicate Newborn(st: Store, s: Session, now: Time) {
    && s == FreshSession(s.userId, s.transport, s.tokenHash, s.userAgent, now)
    && s.userId in st.users && FitsIfAny(s.userAgent, USER_AGENT_WIDTH)
    && forall other :: other in st.sessions ==> st.sessions[other].tokenHash != s.tokenHash
  }

  ghost predicate SessionsEvolve(st: Store, after: map<Uuid, Session>, now: Time) {
    && (forall s :: s in st.sessions ==> s in after && Evolves(st.sessions[s], after[s], now))
    && (forall s :: s in after && s !in st.sessions ==> Newborn(st, after[s], now))
    && (forall s, s' :: s in after && s' in after && s !in st.sessions && s' !in st.sessions ==> s == s')
  }

  lemma InsertEvolves(st: Store, sid: Uuid, uid: Uuid, transport: Transport, hash: string, agent: Option<string>,
                      now: Time)
    requires Insertable(st, sid, uid, hash, agent)
    ensures SessionsEvolve(st, st.sessions[sid := FreshSession(uid, transport, hash, agent, now)], now)
  {
  }

  lemma RowEvolves(st: Store, after: map<Uuid, Session>, sid: Uuid, now: Time)
    requires sid in st.sessions ==> sid in after && Evolves(st.sessions[sid], after[sid], now)
    requires forall s :: s in after <==> s in st.sessions
    requires forall s :: s in st.sessions && s != sid ==> after[s] == st.sessions[s]
    ensures SessionsEvolve(st, after, now)
  {
  }

  lemma RevokeOneEvolves(st: Store, sid: Uuid, reason: string, now: Time)
    ensures SessionsEvolve(st, AfterRevoke(st, sid, reason, now).sessions, now)
  {
    if IsActive(st, sid) && ReasonFits(reason) {
      var s := st.sessions[sid];
      assert AfterRevoke(st, sid, reason, now).sessions == st.sessions[sid := Revoked(s, reason, now)];
      assert Evolves(s, Revoked(s, reason, now), now);
    }
    RowEvolves(st, AfterRevoke(st, sid, reason, now).sessions, sid, now);
  }

  lemma RevokeEachEvolves(st: Store, chosen: set<Uuid>, reason: string, now: Time)
    requires ReasonFits(reason) && forall s :: s in chosen ==> IsActive(st, s)
    ensures SessionsEvolve(st, RevokeEach(st, chosen, reason, now).sessions, now)
  {
  }

  lemma LookupEvolves(rt: Runtime, st: Store, raw: string, now: Time)
    ensures SessionsEvolve(st, AfterLookup(rt, st, raw, now).sessions, now)
  {
  }

  lemma SessionStepEvolves(rt: Runtime, st: Store, op: SessionOp, now: Time)
    ensures SessionsEvolve(st, SessionStep(rt, st, op, now), now)
  {
    match op
    case Lookup(raw) => LookupEvolves(rt, st, raw, now);
    case OpenSession(uid, transport, agent, raw, sid) =>
      if Insertable(st, sid, uid, rt.digest(raw), agent) {
        InsertEvolves(st, sid, uid, transport, rt.digest(raw), agent, now);
      }
    case RevokeOne(sid, reason) => RevokeOneEvolves(st, sid, reason, now);
    case RevokeAll(uid, reason, only) =>
      if ReasonFits(reason) {
        RevokeEachEvolves(st, Hits(st, uid, only), reason, now);
      }
  }

  ghost function RevokedSessions(sessions: map<Uuid, Session>): set<Uuid> {
    set sid | sid in sessions && sessions[sid].revokedAt.Some?
  }

  /** How many sessions the operation reports having revoked: `True` counts one. */
  function ReportedRevocations(st: Store, op: SessionOp): nat {
    match op
    case RevokeOne(sid, reason) => if IsActive(st, sid) && ReasonFits(reason) then 1 else 0
    case RevokeAll(uid, reason, only) => if ReasonFits(reason) then |Hits(st, uid, only)| else 0
    case _ => 0
  }

  lemma RevokeEachCounts(st: Store, chosen: set<Uuid>, reason: string, now: Time)
    requires forall s :: s in chosen ==> IsActive(st, s)
    ensures |RevokedSessions(RevokeEach(st, chosen, reason, now).sessions)| == |RevokedSessions(st.sessions)| + |chosen|
  {
    var before, after := RevokedSessions(st.sessions), RevokedSessions(RevokeEach(st, chosen, reason, now).sessions);
    forall s
      ensures s in after <==> s in before || s in chosen
      ensures !(s in before && s in chosen)
    {
      assert s in chosen ==> IsActive(st, s);
    }
    assert after == before + chosen && before !! chosen;
  }

  lemma RevokeOneCounts(st: Store, sid: Uuid, reason: string, now: Time)
    ensures |RevokedSessions(AfterRevoke(st, sid, reason, now).sessions)| ==
            |RevokedSessions(st.sessions)| + if IsActive(st, sid) && ReasonFits(reason) then 1 else 0
  {
    if IsActive(st, sid) && ReasonFits(reason) {
      assert RevokedSessions(AfterRevoke(st, sid, reason, now).sessions) == RevokedSessions(st.sessions) + {sid};
    }
  }

  lemma RevocationsAreReported(rt: Runtime, st: Store, op: SessionOp, now: Time)
    ensures |RevokedSessions(SessionStep(rt, st, op, now))| ==
            |RevokedSessions(st.sessions)| + ReportedRevocations(st, op)
  {
    match op {
      case Lookup(_) => assert RevokedSessions(SessionStep(rt, st, op, now)) == RevokedSessions(st.sessions);
      case OpenSession(_, _, _, _, _) =>
        assert RevokedSessions(SessionStep(rt, st, op, now)) == RevokedSessions(st.sessions);
      case RevokeOne(sid, reason) => RevokeOneCounts(st, sid, reason, now);
      case RevokeAll(uid, reason, only) =>
        if ReasonFits(reason) {
          RevokeEachCounts(st, Hits(st, uid, only), reason, now);
        }
    }
  }

  predicate IsUse(rt: Runtime, st: Store, op: SessionOp, sid: Uuid) {
    op.Lookup? && Presents(rt, st, op.raw, sid)
  }

  /** `lastSeenAt` moves only by an accepted use of that very session. */
  lemma SessionStepLastSeen(rt: Runtime, st: Store, op: SessionOp, now: Time, sid: Uuid)
    requires sid in st.sessions
    ensures sid in SessionStep(rt, st, op, now)
    ensures SessionStep(rt, st, op, now)[sid].lastSeenAt ==
            if IsUse(rt, st, op, sid) && Live(st.sessions[sid], now) then Touch(st.sessions[sid], now).lastSeenAt
            else st.sessions[sid].lastSeenAt
  {
    SessionStepEvolves(rt, st, op, now);
  }

  /** What every stored session satisfies at time `now`. */
  predicate SessionTimed(s: Session, now: Time) {
    && s.createdAt <= s.lastSeenAt <= now
    && s.expiresAt == s.createdAt + SESSION_TTL
    && (s.revokedAt.Some? ==> s.revokedAt.value <= now)
  }

  ghost predicate SessionsOk(st: Store, now: Time) {
    && TokensUnique(st.sessions)
    && forall s :: s in st.sessions ==>
      SessionTimed(st.sessions[s], now) && SessionFits(st.sessions[s]) && st.sessions[s].userId in st.users
  }

  lemma EvolvingKeepsSessionsOk(st: Store, st': Store, before: Time, now: Time)
    requires SessionsOk(st, before) && before <= now
    requires SessionsEvolve(st, st'.sessions, now) && st.users.Keys <= st'.users.Keys
    ensures SessionsOk(st', now)
  {
    forall a, b | a in st'.sessions && b in st'.sessions && st'.sessions[a].tokenHash == st'.sessions[b].tokenHash
      ensures a == b
    {
      if a in st.sessions && b in st.sessions {
        assert Evolves(st.sessions[a], st'.sessions[a], now) && Evolves(st.sessions[b], st'.sessions[b], now);
        assert st.sessions[a].tokenHash == st.sessions[b].tokenHash;
      }
    }
  }
}
