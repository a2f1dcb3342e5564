/** Sessions over whole runs: how far the debounced idle timeout can drift from an exact one,
    when a session is dead for good, and what is written and counted. */
module SessionRuns {
  import opened Model
  import opened Sessions
  import opened Login
  import opened System

  /** Event `e` looks up the token of session `sid`. */
  predicate Uses(rt: Runtime, st: Store, e: Event, sid: Uuid) {
    e.op.OnSessions? && IsUse(rt, st, e.op.s, sid)
  }

  /** One step, seen from one session: it keeps its identity, is revoked at most once, and
      its `lastSeenAt` moves only by an accepted use. */
  lemma StepRow(rt: Runtime, st: Store, e: Event, sid: Uuid)
    requires sid in st.sessions
    ensures sid in Step(rt, st, e).sessions
    ensures Evolves(st.sessions[sid], Step(rt, st, e).sessions[sid], e.at)
    ensures Step(rt, st, e).sessions[sid].lastSeenAt ==
            if Uses(rt, st, e, sid) && Live(st.sessions[sid], e.at) then Touch(st.sessions[sid], e.at).lastSeenAt
            else st.sessions[sid].lastSeenAt
  {
    StepSessions(rt, st, e);
    match e.op {
      case OnSessions(op) => SessionStepLastSeen(rt, st, op, e.at, sid);
      case LoginAttempt(a) => LoginSessions(rt, st, a, e.at);
      case _ => OtherStepsKeepSessions(rt, st, e);
    }
  }

  // ---------- the debounced timeout against an exact one ----------

  /** The code's own test, or an idle timeout that records every use it accepts. */
  datatype Policy = Code | Exact(window: Time)

  predicate Permits(p: Policy, s: Session, lastUse: Time, now: Time) {
    match p
    case Code => Live(s, now)
    case Exact(window) => s.revokedAt.None? && now <= s.expiresAt && now - lastUse <= window
  }

  /** The time of the last use of `sid` that `p` accepts, over the run, from `lastUse` on. */
  ghost function LastUse(rt: Runtime, st: Store, es: seq<Event>, sid: Uuid, p: Policy, lastUse: Time): Time
    decreases |es|
  {
    if es == [] then lastUse
    else
      var accepted := Uses(rt, st, es[0], sid) && Permits(p, st.sessions[sid], lastUse, es[0].at);
      LastUse(rt, Step(rt, st, es[0]), es[1..], sid, p, if accepted then es[0].at else lastUse)
  }

  const SHORT_WINDOW: Time := IDLE_TIMEOUT - LAST_SEEN_DEBOUNCE

  /** `seen` (the stored time) tracks the last uses accepted by the code, by the exact
      seven-day policy, and by the exact policy that is five minutes stricter. */
  predicate Tracks(seen: Time, code: Time, long: Time, short: Time) {
    seen <= code <= seen + LAST_SEEN_DEBOUNCE && seen <= long && short <= seen + LAST_SEEN_DEBOUNCE
  }

  lemma {:induction false} StoredTimeTracksUses(rt: Runtime, st: Store, now: Time, es: seq<Event>, sid: Uuid,
                                                code: Time, long: Time, short: Time)
    requires Admissible(rt, st, now, es) && sid in st.sessions
    requires Tracks(st.sessions[sid].lastSeenAt, code, long, short) && code <= now && long <= now
    ensures sid in Run(rt, st, es).sessions
    ensures Tracks(Run(rt, st, es).sessions[sid].lastSeenAt,
                   LastUse(rt, st, es, sid, Code, code),
                   LastUse(rt, st, es, sid, Exact(IDLE_TIMEOUT), long),
                   LastUse(rt, st, es, sid, Exact(SHORT_WINDOW), short))
    decreases |es|
  {
    if es != [] {
      var e, s := es[0], st.sessions[sid];
      StepRow(rt, st, e, sid);
      var used := Uses(rt, st, e, sid);
      var code' := if used && Permits(Code, s, code, e.at) then e.at else code;
      var long' := if used && Permits(Exact(IDLE_TIMEOUT), s, long, e.at) then e.at else long;
      var short' := if used && Permits(Exact(SHORT_WINDOW), s, short, e.at) then e.at else short;
      StoredTimeTracksUses(rt, Step(rt, st, e), e.at, es[1..], sid, code', long', short');
    }
  }

  /** From a session's creation (or any accepted write) on, over every run: what the code
      accepts, an exact seven-day idle timeout accepts; what an exact timeout of seven days
      less five minutes accepts, the code accepts. */
  lemma DebounceSandwich(rt: Runtime, st: Store, now: Time, es: seq<Event>, sid: Uuid, t: Time)
    requires Admissible(rt, st, now, es) && sid in st.sessions && st.sessions[sid].lastSeenAt <= now
    ensures sid in Run(rt, st, es).sessions
    ensures var seen := st.sessions[sid].lastSeenAt;
            var s := Run(rt, st, es).sessions[sid];
            && (Live(s, t) ==> Permits(Exact(IDLE_TIMEOUT), s, LastUse(rt, st, es, sid, Exact(IDLE_TIMEOUT), seen), t))
            && (Permits(Exact(SHORT_WINDOW), s, LastUse(rt, st, es, sid, Exact(SHORT_WINDOW), seen), t) ==> Live(s, t))
  {
    var seen := st.sessions[sid].lastSeenAt;
    StoredTimeTracksUses(rt, st, now, es, sid, seen, seen, seen);
  }

  /** Both windows of the sandwich are the best ones. Seven days after the last write the code
      still accepts, which no shorter exact timeout does. And a single use five minutes after
      the last write goes unrecorded, so that seven days after that write the code rejects a
      lookup which an exact timeout only a microsecond longer than the short window accepts. */
  lemma SlackIsTight(rt: Runtime, st: Store, raw: string, sid: Uuid)
    requires sid in st.sessions && Presents(rt, st, raw, sid)
    requires st.sessions[sid].revokedAt.None? && st.sessions[sid].lastSeenAt + IDLE_TIMEOUT < st.sessions[sid].expiresAt
    ensures var seen := st.sessions[sid].lastSeenAt;
            var es := [Event(seen + LAST_SEEN_DEBOUNCE, OnSessions(Lookup(raw)))];
            var t := seen + IDLE_TIMEOUT + 1;
            && sid in Run(rt, st, es).sessions
            && !Live(Run(rt, st, es).sessions[sid], t)
            && Permits(Exact(SHORT_WINDOW + 1), Run(rt, st, es).sessions[sid],
                       LastUse(rt, st, es, sid, Exact(SHORT_WINDOW + 1), seen), t)
    ensures var s := st.sessions[sid];
            var t := s.lastSeenAt + IDLE_TIMEOUT;
            var shorter := Exact(IDLE_TIMEOUT - 1);
            Live(s, t) && !Permits(shorter, s, LastUse(rt, st, [], sid, shorter, s.lastSeenAt), t)
  {
    var seen := st.sessions[sid].lastSeenAt;
    var e := Event(seen + LAST_SEEN_DEBOUNCE, OnSessions(Lookup(raw)));
    StepRow(rt, st, e, sid);
    assert [e][1..] == [];
    assert Run(rt, st, [e]) == Run(rt, Step(rt, st, e), []) == Step(rt, st, e);
    var p := Exact(SHORT_WINDOW + 1);
    assert LastUse(rt, st, [e], sid, p, seen) == LastUse(rt, Step(rt, st, e), [], sid, p, e.at) == e.at;
  }

  // ---------- death is final ----------

  /** A stored session whose lookup fails once fails for ever, whatever happens in between. */
  lemma {:induction false} DeathIsFinal(rt: Runtime, st: Store, now: Time, es: seq<Event>, sid: Uuid, t: Time)
    requires Admissible(rt, st, now, es) && sid in st.sessions
    requires !Live(st.sessions[sid], now) && LastTime(now, es) <= t
    ensures sid in Run(rt, st, es).sessions && !Live(Run(rt, st, es).sessions[sid], t)
    decreases |es|
  {
    if es != [] {
      StepRow(rt, st, es[0], sid);
      DeathIsFinal(rt, Step(rt, st, es[0]), es[0].at, es[1..], sid, t);
    } else {
      assert Run(rt, st, es) == st;
    }
  }

  /** "Revoke all bearer tokens after a desktop loss": whatever follows, none of the user's
      sessions of the chosen transport is ever accepted again, and at that moment every other
      session is exactly as live as it was. (A reason too long for its column raises.) */
  lemma MassRevocationIsFinal(rt: Runtime, st: Store, at: Time, uid: Uuid, reason: string, only: Option<Transport>,
                              es: seq<Event>, sid: Uuid, t: Time)
    requires sid in st.sessions
    requires Admissible(rt, AfterRevokeAll(st, uid, reason, only, at), at, es) && LastTime(at, es) <= t
    ensures var s := st.sessions[sid];
            var after := AfterRevokeAll(st, uid, reason, only, at);
            if !ReasonFits(reason) then after == st
            else if s.userId == uid && (only.None? || only.value == s.transport)
            then sid in Run(rt, after, es).sessions && !Live(Run(rt, after, es).sessions[sid], t)
            else after.sessions[sid] == s
  {
    var s := st.sessions[sid];
    var after := AfterRevokeAll(st, uid, reason, only, at);
    if ReasonFits(reason) && s.userId == uid && (only.None? || only.value == s.transport) {
      assert after.sessions[sid].revokedAt.Some?;
      DeathIsFinal(rt, after, at, es, sid, t);
    }
  }

  predicate SameSession(s: Session, s': Session) {
    && s'.userId == s.userId && s'.tokenHash == s.tokenHash && s'.transport == s.transport
    && s'.createdAt == s.createdAt && s'.expiresAt == s.expiresAt
    && (s.revokedAt.Some? ==> s'.revokedAt == s.revokedAt && s'.revokedReason == s.revokedReason)
  }

  /** A stored session never changes owner, token, transport or expiry, and once revoked
      keeps its first revocation time and reason. */
  lemma {:induction false} SessionIdentityIsFixed(rt: Runtime, st: Store, es: seq<Event>, sid: Uuid)
    requires sid in st.sessions
    ensures sid in Run(rt, st, es).sessions && SameSession(st.sessions[sid], Run(rt, st, es).sessions[sid])
    decreases |es|
  {
    if es != [] {
      StepRow(rt, st, es[0], sid);
      SessionIdentityIsFixed(rt, Step(rt, st, es[0]), es[1..], sid);
    }
  }

  /** However active it is kept, no session is accepted more than 30 days after its creation. */
  lemma HardCap(rt: Runtime, st: Store, now: Time, es: seq<Event>, sid: Uuid, t: Time)
    requires SessionsOk(st, now) && sid in st.sessions
    ensures sid in Run(rt, st, es).sessions
    ensures Live(Run(rt, st, es).sessions[sid], t) ==> t <= st.sessions[sid].createdAt + 30 * DAY
  {
    SessionIdentityIsFixed(rt, st, es, sid);
  }

  // ---------- the debounce bounds the writes ----------

  /** How many steps of the run write `lastSeenAt` of `sid`. */
  ghost function LastSeenWrites(rt: Runtime, st: Store, es: seq<Event>, sid: Uuid): nat
    decreases |es|
  {
    if es == [] || sid !in st.sessions then 0
    else
      var st' := Step(rt, st, es[0]);
      LastSeenWrites(rt, st', es[1..], sid) + WritesLastSeen(st, st', sid)
  }

  function WritesLastSeen(st: Store, st': Store, sid: Uuid): nat
    requires sid in st.sessions
  {
    if sid in st'.sessions && st'.sessions[sid].lastSeenAt != st.sessions[sid].lastSeenAt then 1 else 0
  }

  const MIN_GAP: Time := LAST_SEEN_DEBOUNCE + 1

  lemma StepGap(rt: Runtime, st: Store, e: Event, sid: Uuid)
    requires sid in st.sessions
    ensures sid in Step(rt, st, e).sessions && Step(rt, st, e).sessions[sid].expiresAt == st.sessions[sid].expiresAt
    ensures var s, s' := st.sessions[sid], Step(rt, st, e).sessions[sid];
            s'.lastSeenAt == s.lastSeenAt || s.lastSeenAt + MIN_GAP <= s'.lastSeenAt <= s.expiresAt
  {
    StepRow(rt, st, e, sid);
  }

  /** Each write moves `lastSeenAt` by more than five minutes, and never beyond the expiry. */
  lemma {:induction false} WritesAreSpaced(rt: Runtime, st: Store, es: seq<Event>, sid: Uuid)
    requires sid in st.sessions
    ensures sid in Run(rt, st, es).sessions
    ensures Spaced(MIN_GAP, LastSeenWrites(rt, st, es, sid), st.sessions[sid].lastSeenAt,
                   Run(rt, st, es).sessions[sid].lastSeenAt)
    ensures var last := Run(rt, st, es).sessions[sid].lastSeenAt;
            last == st.sessions[sid].lastSeenAt || last <= st.sessions[sid].expiresAt
    decreases |es|
  {
    if es != [] {
      var st' := Step(rt, st, es[0]);
      StepGap(rt, st, es[0], sid);
      WritesAreSpaced(rt, st', es[1..], sid);
      OneMoreGap(MIN_GAP, LastSeenWrites(rt, st', es[1..], sid), WritesLastSeen(st, st', sid),
                 LastSeenWrites(rt, st, es, sid), st.sessions[sid].lastSeenAt, st'.sessions[sid].lastSeenAt,
                 Run(rt, st, es).sessions[sid].lastSeenAt);
    }
  }

  /** So the whole life of a session costs at most 8639 such writes, however often its token is used. */
  lemma WriteBound(rt: Runtime, st: Store, now: Time, es: seq<Event>, sid: Uuid)
    requires SessionsOk(st, now) && sid in st.sessions
    ensures LastSeenWrites(rt, st, es, sid) <= 8639
  {
    WritesAreSpaced(rt, st, es, sid);
    GapsIsProduct(300_000_001, LastSeenWrites(rt, st, es, sid));
    assert MIN_GAP == 300_000_001 && SESSION_TTL == 2_592_000_000_000;
  }

  /** A lookup every five minutes and a microsecond. */
  function Heartbeats(raw: string, from: Time, n: nat): seq<Event>
    decreases n
  {
    if n == 0 then []
    else [Event(from + MIN_GAP, OnSessions(Lookup(raw)))] + Heartbeats(raw, from + MIN_GAP, n - 1)
  }

  lemma {:induction false} EveryHeartbeatWrites(rt: Runtime, st: Store, raw: string, sid: Uuid, n: nat)
    requires Presents(rt, st, raw, sid) && st.sessions[sid].revokedAt.None?
    requires Spaced(MIN_GAP, n, st.sessions[sid].lastSeenAt, st.sessions[sid].expiresAt)
    ensures var es := Heartbeats(raw, st.sessions[sid].lastSeenAt, n);
            Admissible(rt, st, st.sessions[sid].lastSeenAt, es) && LastSeenWrites(rt, st, es, sid) == n
    decreases n
  {
    if n > 0 {
      var from := st.sessions[sid].lastSeenAt;
      var e := Event(from + MIN_GAP, OnSessions(Lookup(raw)));
      var es := Heartbeats(raw, from, n);
      GapsIsProduct(MIN_GAP, n - 1);
      StepRow(rt, st, e, sid);
      EveryHeartbeatWrites(rt, Step(rt, st, e), raw, sid, n - 1);
      assert es[0] == e && es[1..] == Heartbeats(raw, from + MIN_GAP, n - 1);
    }
  }

  /** And the bound is reached: a new session can live through 8639 writes. */
  lemma WriteBoundIsAttained(rt: Runtime, st: Store, raw: string, sid: Uuid)
    requires Presents(rt, st, raw, sid)
    requires var s := st.sessions[sid]; s == FreshSession(s.userId, s.transport, s.tokenHash, s.userAgent, s.createdAt)
    ensures exists es: seq<Event> ::
              Admissible(rt, st, st.sessions[sid].createdAt, es) && LastSeenWrites(rt, st, es, sid) == 8639
  {
    GapsIsProduct(300_000_001, 8639);
    assert MIN_GAP == 300_000_001 && SESSION_TTL == 2_592_000_000_000;
    EveryHeartbeatWrites(rt, st, raw, sid, 8639);
  }

  // ---------- revocation accounting ----------

  ghost function TotalReported(rt: Runtime, st: Store, es: seq<Event>): nat
    decreases |es|
  {
    if es == [] then 0
    else
      (if es[0].op.OnSessions? then ReportedRevocations(st, es[0].op.s) else 0)
      + TotalReported(rt, Step(rt, st, es[0]), es[1..])
  }

  lemma StepRevocations(rt: Runtime, st: Store, e: Event)
    ensures |RevokedSessions(Step(rt, st, e).sessions)| ==
            |RevokedSessions(st.sessions)| + if e.op.OnSessions? then ReportedRevocations(st, e.op.s) else 0
  {
    match e.op {
      case OnSessions(op) =>
        assert Step(rt, st, e).sessions == SessionStep(rt, st, op, e.at);
        RevocationsAreReported(rt, st, op, e.at);
      case LoginAttempt(a) =>
        LoginSessions(rt, st, a, e.at);
        assert RevokedSessions(Step(rt, st, e).sessions) == RevokedSessions(st.sessions);
      case _ => OtherStepsKeepSessions(rt, st, e);
    }
  }

  /** Over any run, the `True`s of single revocations plus the counts of mass revocations
      are exactly the rows that became revoked. */
  lemma {:induction false} RevocationAccounting(rt: Runtime, st: Store, es: seq<Event>)
    ensures |RevokedSessions(Run(rt, st, es).sessions)| == |RevokedSessions(st.sessions)| + TotalReported(rt, st, es)
    decreases |es|
  {
    if es != [] {
      StepRevocations(rt, st, es[0]);
      RevocationAccounting(rt, Step(rt, st, es[0]), es[1..]);
    }
  }
}
