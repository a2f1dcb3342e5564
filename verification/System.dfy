/** The whole engine as one state machine. A step is one database transaction of one request
    or command, so a run is any interleaving of requests at their commit points, and covers
    requests that die between two commits. */
module System {
  import opened Model
  import opened Sessions
  import opened Login
  import opened ApiKeys
  import opened KeyCli
  import opened AuditLog
  import opened Bootstrap

  datatype Op =
    | OnSessions(s: SessionOp)
    | LoginAttempt(attempt: Attempt)
    | WriteAudit(row: AuditRow)
    | OnKeys(k: KeyOp)
    | RunBootstrap(request: Request, after: Store)        // with the role ids it found
    | Administer(tables: Store)                           // the environment, see MayAdminister

  datatype Event = Event(at: Time, op: Op)

  /** Outside this code, orgs, users, roles, grants and drones may change in any way that
      respects the schema, keeps users and drones in place, and leaves lockout state alone. */
  ghost predicate MayAdminister(st: Store, st': Store) {
    && SchemaOk(st')
    && st'.sessions == st.sessions && st'.keys == st.keys && st'.audit == st.audit
    && st.users.Keys <= st'.users.Keys && st.drones.Keys <= st'.drones.Keys
    && (forall u :: u in st'.users ==> SameLockout(st'.users[u], if u in st.users then Some(st.users[u]) else None))
  }

  /** The decision is one of the two, and the database takes the row. */
  predicate MayWrite(st: Store, row: AuditRow) {
    row.decision in VALID_DECISIONS && RowOk(st, row)
  }

  ghost function Step(rt: Runtime, st: Store, e: Event): Store {
    match e.op
    case OnSessions(s) => st.(sessions := SessionStep(rt, st, s, e.at))
    case LoginAttempt(attempt) => AfterLogin(rt, st, attempt, e.at)
    case WriteAudit(row) => if MayWrite(st, row) then WithAudit(st, row) else st
    case OnKeys(k) => st.(keys := KeyStep(rt, st, k, e.at))
    case RunBootstrap(q, after) => if Outcome(rt, st, q).Performed? && Extends(rt, st, q, after) then after else st
    case Administer(tables) => if MayAdminister(st, tables) then tables else st
  }

  ghost function Run(rt: Runtime, st: Store, es: seq<Event>): Store
    decreases |es|
  {
    if es == [] then st else Run(rt, Step(rt, st, es[0]), es[1..])
  }

  function LastTime(now: Time, es: seq<Event>): Time {
    if es == [] then now else es[|es| - 1].at
  }

  /** The assumption on random keys is that a minted key's hash is new. (A colliding session
      token needs no assumption: its unique constraint turns it into an error.) */
  ghost predicate Fresh(rt: Runtime, st: Store, op: Op) {
    op.OnKeys? ==> FreshDraw(rt, st, op.k)
  }

  /** Time does not run backwards and draws are fresh. */
  ghost predicate Admissible(rt: Runtime, st: Store, now: Time, es: seq<Event>)
    decreases |es|
  {
    es == [] || (now <= es[0].at && Fresh(rt, st, es[0].op) && Admissible(rt, Step(rt, st, es[0]), es[0].at, es[1..]))
  }

  /** The operations' methods leave what the steps leave: the store each method's contract names
      is the store of its step. */
  lemma OperationsAreSteps(rt: Runtime, st: Store, t: Time)
    ensures forall raw :: Step(rt, st, Event(t, OnSessions(Lookup(raw)))) == AfterLookup(rt, st, raw, t)
    ensures forall sid, reason ::
              Step(rt, st, Event(t, OnSessions(RevokeOne(sid, reason)))) == AfterRevoke(st, sid, reason, t)
    ensures forall uid, reason, only ::
              Step(rt, st, Event(t, OnSessions(RevokeAll(uid, reason, only)))) ==
              AfterRevokeAll(st, uid, reason, only, t)
    ensures forall uid, transport, agent, raw, sid :: Insertable(st, sid, uid, rt.digest(raw), agent) ==>
              Step(rt, st, Event(t, OnSessions(OpenSession(uid, transport, agent, raw, sid)))) ==
              st.(sessions := st.sessions[sid := FreshSession(uid, transport, rt.digest(raw), agent, t)])
    ensures forall a :: Step(rt, st, Event(t, LoginAttempt(a))) == AfterLogin(rt, st, a, t)
  {
  }

  lemma KeyOperationsAreSteps(rt: Runtime, st: Store, t: Time)
    ensures forall raw, v :: MayJudge(rt, st, raw, v) ==>
              Step(rt, st, Event(t, OnKeys(VerifyKey(raw, v)))) == AfterVerify(st, v, t)
    ensures forall orgSlug, droneSlug, keyLabel, d ::
              Step(rt, st, Event(t, OnKeys(MintKey(orgSlug, droneSlug, keyLabel, d)))) ==
              AfterMint(rt, st, orgSlug, droneSlug, keyLabel, d)
    ensures forall prefix :: Step(rt, st, Event(t, OnKeys(RevokePrefix(prefix)))) ==
                             RevokeKeys(st, ActiveKeysWith(st, prefix), t)
    ensures forall orgSlug, droneSlug ::
              Step(rt, st, Event(t, OnKeys(RevokeDrone(orgSlug, droneSlug)))) ==
              AfterRevokeByDrone(st, orgSlug, droneSlug, t)
  {
  }

  // ---------- the invariant ----------

  ghost predicate LockoutInRange(users: map<Uuid, User>) {
    forall u :: u in users ==> 0 <= users[u].failedLoginCount < LOCKOUT_THRESHOLD
  }

  ghost predicate Inv(st: Store, now: Time) {
    SchemaOk(st) && SessionsOk(st, now) && KeysOk(st, now) && LockoutInRange(st.users)
  }

  /** Apart from login, a step on the session table is the only one that touches it. */
  lemma OtherStepsKeepSessions(rt: Runtime, st: Store, e: Event)
    requires !e.op.OnSessions? && !e.op.LoginAttempt?
    ensures Step(rt, st, e).sessions == st.sessions
  {
    match e.op {
      case OnKeys(k) => assert Step(rt, st, e) == st.(keys := KeyStep(rt, st, k, e.at));
      case WriteAudit(row) =>
      case RunBootstrap(q, after) =>
      case Administer(tables) =>
    }
  }

  lemma StepSessions(rt: Runtime, st: Store, e: Event)
    ensures SessionsEvolve(st, Step(rt, st, e).sessions, e.at)
  {
    match e.op {
      case OnSessions(op) => SessionStepEvolves(rt, st, op, e.at);
      case LoginAttempt(a) => LoginSessions(rt, st, a, e.at);
      case _ => OtherStepsKeepSessions(rt, st, e);
    }
  }

  lemma OtherStepsKeepKeys(rt: Runtime, st: Store, e: Event)
    requires !e.op.OnKeys?
    ensures Step(rt, st, e).keys == st.keys
  {
    match e.op {
      case OnSessions(s) => assert Step(rt, st, e) == st.(sessions := SessionStep(rt, st, s, e.at));
      case LoginAttempt(a) => LoginFrame(rt, st, a, e.at);
      case WriteAudit(row) =>
      case RunBootstrap(q, after) =>
      case Administer(tables) =>
    }
  }

  lemma StepDrones(rt: Runtime, st: Store, e: Event)
    ensures st.drones.Keys <= Step(rt, st, e).drones.Keys
  {
    match e.op {
      case OnSessions(s) => assert Step(rt, st, e) == st.(sessions := SessionStep(rt, st, s, e.at));
      case LoginAttempt(a) => LoginFrame(rt, st, a, e.at);
      case OnKeys(k) => assert Step(rt, st, e) == st.(keys := KeyStep(rt, st, k, e.at));
      case WriteAudit(row) =>
      case RunBootstrap(q, after) =>
      case Administer(tables) =>
    }
  }

  predicate TouchesUsers(op: Op) {
    op.LoginAttempt? || op.RunBootstrap? || op.Administer?
  }

  lemma OtherStepsKeepUsers(rt: Runtime, st: Store, e: Event)
    requires !TouchesUsers(e.op)
    ensures Step(rt, st, e).users == st.users
  {
    match e.op {
      case OnSessions(s) => assert Step(rt, st, e) == st.(sessions := SessionStep(rt, st, s, e.at));
      case OnKeys(k) => assert Step(rt, st, e) == st.(keys := KeyStep(rt, st, k, e.at));
      case WriteAudit(row) =>
    }
  }

  lemma TableStepUsers(rt: Runtime, st: Store, e: Event, uid: Uuid)
    requires e.op.RunBootstrap? || e.op.Administer?
    ensures uid in st.users ==> uid in Step(rt, st, e).users
    ensures uid in Step(rt, st, e).users ==>
              SameLockout(Step(rt, st, e).users[uid], if uid in st.users then Some(st.users[uid]) else None)
  {
  }

  /** The lockout fields of a user move only by that user's own login attempts; a new user
      starts with a clean slate. */
  lemma StepUser(rt: Runtime, st: Store, e: Event, uid: Uuid)
    ensures uid in st.users ==> uid in Step(rt, st, e).users
    ensures uid in Step(rt, st, e).users ==>
              var u' := Step(rt, st, e).users[uid];
              if uid !in st.users then SameLockout(u', None)
              else if e.op.LoginAttempt? then LoginEvolves(rt, st, e.op.attempt, e.at, uid, u')
              else SameLockout(u', Some(st.users[uid]))
  {
    match e.op {
      case LoginAttempt(a) =>
        LoginKeepsIdentity(rt, st, a, e.at, uid);
        if uid in st.users {
          LoginUser(rt, st, a, e.at, uid);
        }
      case RunBootstrap(_, _) => TableStepUsers(rt, st, e, uid);
      case Administer(_) => TableStepUsers(rt, st, e, uid);
      case _ => OtherStepsKeepUsers(rt, st, e);
    }
  }

  /** Changes to lockout state and password hashes, and new sessions, keep the schema. */
  lemma SameIdentitiesKeepSchema(st: Store, st': Store)
    requires SchemaOk(st) && st' == st.(users := st'.users, sessions := st'.sessions)
    requires st'.users.Keys == st.users.Keys
    requires forall u :: u in st.users ==> SameIdentity(st'.users[u], st.users[u])
    requires TokensUnique(st'.sessions)
    requires forall s :: s in st'.sessions ==> st'.sessions[s].userId in st.users && SessionFits(st'.sessions[s])
    ensures SchemaOk(st')
  {
    MoreRowsKeepAudit(st, st');
  }

  lemma LoginKeepsSchema(rt: Runtime, st: Store, a: Attempt, now: Time)
    requires SchemaOk(st)
    ensures SchemaOk(AfterLogin(rt, st, a, now))
  {
    var after := AfterLogin(rt, st, a, now);
    LoginFrame(rt, st, a, now);
    LoginSessions(rt, st, a, now);
    forall u
      ensures u in after.users <==> u in st.users
      ensures u in st.users ==> SameIdentity(after.users[u], st.users[u])
    {
      LoginKeepsIdentity(rt, st, a, now, u);
    }
    SameIdentitiesKeepSchema(st, after);
  }

  lemma StepKeepsSessionsOk(rt: Runtime, st: Store, before: Time, e: Event)
    requires SessionsOk(st, before) && before <= e.at
    ensures SessionsOk(Step(rt, st, e), e.at)
  {
    StepSessions(rt, st, e);
    forall u | u in st.users
      ensures u in Step(rt, st, e).users
    {
      StepUser(rt, st, e, u);
    }
    EvolvingKeepsSessionsOk(st, Step(rt, st, e), before, e.at);
  }

  lemma StepKeepsKeysOk(rt: Runtime, st: Store, before: Time, e: Event)
    requires KeysOk(st, before) && before <= e.at && Fresh(rt, st, e.op)
    ensures KeysOk(Step(rt, st, e), e.at)
  {
    match e.op {
      case OnKeys(k) =>
        KeyStepEvolves(rt, st, k, e.at);
        EvolvingKeepsKeysOk(rt, st, Step(rt, st, e), k, before, e.at);
      case _ =>
        OtherStepsKeepKeys(rt, st, e);
        StepDrones(rt, st, e);
        SameKeysOk(st, Step(rt, st, e), before, e.at);
    }
  }

  lemma AuditKeepsSchema(st: Store, row: AuditRow)
    requires SchemaOk(st) && RowOk(st, row)
    ensures SchemaOk(WithAudit(st, row))
  {
    var st' := WithAudit(st, row);
    forall r | r in st'.audit
      ensures RowOk(st', r)
    {
      assert r in st.audit || r == row;
    }
  }

  lemma TableStepKeepsSchema(rt: Runtime, st: Store, e: Event)
    requires SchemaOk(st) && (e.op.RunBootstrap? || e.op.Administer?)
    ensures SchemaOk(Step(rt, st, e))
  {
    match e.op {
      case RunBootstrap(q, after) =>
        if Outcome(rt, st, q).Performed? && Extends(rt, st, q, after) {
          BootstrapKeepsSchema(rt, st, q, after);
        }
      case Administer(tables) =>
    }
  }

  lemma StepKeepsSchema(rt: Runtime, st: Store, before: Time, e: Event)
    requires SchemaOk(st)
    requires SessionsOk(st, before) && KeysOk(st, before) && before <= e.at && Fresh(rt, st, e.op)
    ensures SchemaOk(Step(rt, st, e))
  {
    match e.op {
      case OnSessions(s) =>
        StepKeepsSessionsOk(rt, st, before, e);
        NewSessionsKeepSchema(st, SessionStep(rt, st, s, e.at));
      case LoginAttempt(a) => LoginKeepsSchema(rt, st, a, e.at);
      case OnKeys(k) =>
        StepKeepsKeysOk(rt, st, before, e);
        NewKeysKeepSchema(st, KeyStep(rt, st, k, e.at));
      case WriteAudit(row) =>
        if MayWrite(st, row) {
          AuditKeepsSchema(st, row);
        }
      case _ => TableStepKeepsSchema(rt, st, e);
    }
  }

  lemma StepKeepsLockoutInRange(rt: Runtime, st: Store, e: Event)
    requires LockoutInRange(st.users)
    ensures LockoutInRange(Step(rt, st, e).users)
  {
    forall u | u in Step(rt, st, e).users
      ensures 0 <= Step(rt, st, e).users[u].failedLoginCount < LOCKOUT_THRESHOLD
    {
      StepUser(rt, st, e, u);
    }
  }

  lemma StepKeepsInv(rt: Runtime, st: Store, before: Time, e: Event)
    requires Inv(st, before) && before <= e.at && Fresh(rt, st, e.op)
    ensures Inv(Step(rt, st, e), e.at)
  {
    StepKeepsSessionsOk(rt, st, before, e);
    StepKeepsKeysOk(rt, st, before, e);
    StepKeepsLockoutInRange(rt, st, e);
    StepKeepsSchema(rt, st, before, e);
  }

  /** Every store an admissible run reaches satisfies the schema's constraints, keeps one
      active key per drone, and has consistent session times and lockout counters. */
  lemma {:induction false} RunKeepsInv(rt: Runtime, st: Store, now: Time, es: seq<Event>)
    requires Inv(st, now) && Admissible(rt, st, now, es)
    ensures Inv(Run(rt, st, es), LastTime(now, es))
    decreases |es|
  {
    if es != [] {
      StepKeepsInv(rt, st, now, es[0]);
      RunKeepsInv(rt, Step(rt, st, es[0]), es[0].at, es[1..]);
    }
  }

  // ---------- from a freshly migrated database ----------

  const SEEDED_ROLES: map<int, string> :=
    map[1 := "viewer", 2 := "operator", 3 := "planner", 4 := "technician", 5 := "developer", 6 := "admin"]

  /** What the theorems need of the seeded roles. */
  predicate IsSeed(roles: map<int, string>) {
    && RoleNamesUnique(roles) && (forall r :: r in roles ==> Fits(roles[r], ROLE_NAME_WIDTH))
    && 5 in roles && roles[5] == "developer" && 6 in roles && roles[6] == "admin"
  }

  lemma SeededRolesAreASeed()
    ensures IsSeed(SEEDED_ROLES)
  {
    forall a, b | a in SEEDED_ROLES && b in SEEDED_ROLES && SEEDED_ROLES[a] == SEEDED_ROLES[b]
      ensures a == b
    {
      assert SEEDED_ROLES[a][0] == SEEDED_ROLES[b][0];
    }
  }

  /** Nothing but the roles. */
  function Migrated(roles: map<int, string>): Store {
    Store(map[], map[], roles, map[], map[], map[], map[], [])
  }

  /** It satisfies the invariant, and so does every database reachable from it. */
  lemma ReachableStoresAreOk(rt: Runtime, roles: map<int, string>, now: Time, es: seq<Event>)
    requires IsSeed(roles) && Admissible(rt, Migrated(roles), now, es)
    ensures Inv(Run(rt, Migrated(roles), es), LastTime(now, es))
  {
    RunKeepsInv(rt, Migrated(roles), now, es);
  }
}
