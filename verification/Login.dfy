/** One login attempt: the lockout machine on the user row, and the session a success opens. */
module Login {
  import opened Model
  import opened Sessions

  const LOCKOUT_THRESHOLD: int := 5
  const LOCKOUT_DURATION: Time := 15 * MINUTE

  // ---------- the lockout machine, on one user row ----------

  /** What one attempt with an existing email comes to. */
  datatype Verdict = Inactive | Locked(until: Time) | Failed | Passed

  predicate IsLocked(u: User, now: Time) {
    u.lockedUntil.Some? && u.lockedUntil.value > now
  }

  function Judge(rt: Runtime, u: User, password: string, now: Time): Verdict {
    if !u.isActive then Inactive
    else if IsLocked(u, now) then Locked(u.lockedUntil.value)
    else if rt.verifyPassword(password, u.passwordHash) then Passed
    else Failed
  }

  function AfterFailure(u: User, now: Time): User {
    if u.failedLoginCount + 1 >= LOCKOUT_THRESHOLD
    then u.(failedLoginCount := 0, lockedUntil := Some(now + LOCKOUT_DURATION))
    else u.(failedLoginCount := u.failedLoginCount + 1)
  }

  function AfterSuccess(rt: Runtime, u: User, password: string, salt: nat, now: Time): User {
    u.(failedLoginCount := 0, lockedUntil := None, lastLoginAt := Some(now),
       passwordHash := if rt.needsRehash(u.passwordHash) then rt.hashPassword(password, salt) else u.passwordHash)
  }

  // ---------- attempt_login ----------

  /** The request, with the random draws it will use: token, session id, salt. */
  datatype Attempt = Attempt(email: string, password: string, transport: Transport, agent: Option<string>,
                             raw: string, sid: Uuid, salt: nat)

  /** `LoginRaised` stands for an exception: an email no query can be made with, an empty
      password that would have to be re-hashed, or a session row the database rejects. */
  datatype LoginResult =
    | LoginSuccess(user: Uuid, rawToken: string, session: Uuid)
    | LoginInvalid
    | LoginLocked(until: Time)
    | LoginRaised

  ghost predicate HasEmail(st: Store, uid: Uuid, email: string) {
    uid in st.users && st.users[uid].email == email
  }

  ghost function UserByEmail(st: Store, email: string): (uid: Option<Uuid>)
    ensures uid.Some? ==> HasEmail(st, uid.value, email)
    ensures uid.None? ==> forall u :: !HasEmail(st, u, email)
  {
    if u :| HasEmail(st, u, email) then Some(u) else None
  }

  /** Passing the password is not enough: re-hashing and the insert must go through. */
  predicate Completes(rt: Runtime, st: Store, a: Attempt, uid: Uuid)
    requires uid in st.users
  {
    && !(rt.needsRehash(st.users[uid].passwordHash) && a.password == "")
    && Insertable(st, a.sid, uid, rt.digest(a.raw), a.agent)
  }

  function OutcomeFor(rt: Runtime, st: Store, a: Attempt, uid: Uuid, now: Time): LoginResult
    requires uid in st.users
  {
    match Judge(rt, st.users[uid], a.password, now)
    case Inactive => LoginInvalid
    case Locked(until) => LoginLocked(until)
    case Failed => LoginInvalid
    case Passed => if Completes(rt, st, a, uid) then LoginSuccess(uid, a.raw, a.sid) else LoginRaised
  }

  /** What the attempt commits: nothing, a counted failure, or the cleared counters together
      with the new session. */
  function AfterAttempt(rt: Runtime, st: Store, a: Attempt, uid: Uuid, now: Time): Store
    requires uid in st.users
  {
    match Judge(rt, st.users[uid], a.password, now)
    case Failed => st.(users := st.users[uid := AfterFailure(st.users[uid], now)])
    case Passed => if Completes(rt, st, a, uid) then AfterPassing(rt, st, a, uid, now) else st
    case _ => st
  }

  function AfterPassing(rt: Runtime, st: Store, a: Attempt, uid: Uuid, now: Time): Store
    requires uid in st.users
  {
    st.(users := st.users[uid := AfterSuccess(rt, st.users[uid], a.password, a.salt, now)],
        sessions := st.sessions[a.sid := FreshSession(uid, a.transport, rt.digest(a.raw), a.agent, now)])
  }

  /** PostgreSQL takes no text with a NUL, not even to compare with. */
  predicate Queryable(rt: Runtime, a: Attempt) {
    '\0' !in rt.Normalize(a.email)
  }

  ghost function Claimed(rt: Runtime, st: Store, a: Attempt): Option<Uuid> {
    if Queryable(rt, a) then UserByEmail(st, rt.Normalize(a.email)) else None
  }

  ghost function LoginOutcome(rt: Runtime, st: Store, a: Attempt, now: Time): LoginResult {
    var uid := Claimed(rt, st, a);
    if !Queryable(rt, a) then LoginRaised
    else if uid.None? then LoginInvalid else OutcomeFor(rt, st, a, uid.value, now)
  }

  ghost function AfterLogin(rt: Runtime, st: Store, a: Attempt, now: Time): Store {
    var uid := Claimed(rt, st, a);
    if uid.None? then st else AfterAttempt(rt, st, a, uid.value, now)
  }

  /** The attempt fails the password verification (and is counted). */
  ghost predicate IsFailure(rt: Runtime, st: Store, a: Attempt, now: Time) {
    var uid := Claimed(rt, st, a);
    uid.Some? && Judge(rt, st.users[uid.value], a.password, now).Failed?
  }

  method AttemptLogin(rt: Runtime, db: Db, a: Attempt, now: Time) returns (r: LoginResult)
    requires EmailsUnique(db.working.users)
    modifies db
    ensures r == LoginOutcome(rt, old(db.working), a, now)
    ensures if r.LoginSuccess? || IsFailure(rt, old(db.working), a, now)
            then db.Persisted(AfterLogin(rt, old(db.working), a, now))
            else db.Unsaved(if r.LoginRaised? then old(db.committed) else old(db.working))
  {
    var email := rt.Normalize(a.email);
    var users := db.working.users;
    ghost var st := db.working;
    if '\0' in email {
      db.Rollback();
      return LoginRaised;
    }
    if uid :| uid in users && users[uid].email == email {
      assert HasEmail(st, uid, email);
      assert UserByEmail(st, email) == Some(uid);
      var user := users[uid];
      if !user.isActive {
        return LoginInvalid;
      }
      if user.lockedUntil.Some? && user.lockedUntil.value > now {
        return LoginLocked(user.lockedUntil.value);
      }
      if !rt.verifyPassword(a.password, user.passwordHash) {
        user := user.(failedLoginCount := user.failedLoginCount + 1);
        if user.failedLoginCount >= LOCKOUT_THRESHOLD {
          user := user.(lockedUntil := Some(now + LOCKOUT_DURATION));
          user := user.(failedLoginCount := 0);
        }
        db.working := db.working.(users := users[uid := user]);
        db.Commit();
        return LoginInvalid;
      }
      r := CompleteLogin(rt, db, uid, a, now);
      return;
    }
    assert forall u :: !HasEmail(st, u, email);
    return LoginInvalid;
  }

  /** The success path. */
  method CompleteLogin(rt: Runtime, db: Db, uid: Uuid, a: Attempt, now: Time) returns (r: LoginResult)
    requires uid in db.working.users
    modifies db
    ensures r == if Completes(rt, old(db.working), a, uid) then LoginSuccess(uid, a.raw, a.sid) else LoginRaised
    ensures if r.LoginSuccess? then db.Persisted(AfterPassing(rt, old(db.working), a, uid, now))
            else db.Unsaved(old(db.committed))
  {
    var user := db.working.users[uid];
    user := user.(failedLoginCount := 0);
    user := user.(lockedUntil := None);
    user := user.(lastLoginAt := Some(now));
    if rt.needsRehash(user.passwordHash) {
      if a.password == "" {
        db.Rollback();
        return LoginRaised;
      }
      user := user.(passwordHash := rt.hashPassword(a.password, a.salt));
    }
    assert user == AfterSuccess(rt, old(db.working).users[uid], a.password, a.salt, now);
    db.working := db.working.(users := db.working.users[uid := user]);
    assert Insertable(db.working, a.sid, uid, rt.digest(a.raw), a.agent) <==>
           Insertable(old(db.working), a.sid, uid, rt.digest(a.raw), a.agent);
    var ok := CreateSession(rt, db, uid, a.transport, a.agent, a.raw, a.sid, now);
    if !ok {
      return LoginRaised;
    }
    db.Commit();
    return LoginSuccess(uid, a.raw, a.sid);
  }

  // ---------- what an attempt does to the user and session tables ----------

  predicate SameLockout(u: User, before: Option<User>) {
    && u.failedLoginCount == (if before.Some? then before.value.failedLoginCount else 0)
    && u.lockedUntil == (if before.Some? then before.value.lockedUntil else None)
  }

  /** The lockout fields of a user move only by that user's own attempts. */
  ghost predicate LoginEvolves(rt: Runtime, st: Store, a: Attempt, now: Time, uid: Uuid, u': User)
    requires uid in st.users
  {
    var u := st.users[uid];
    if Claimed(rt, st, a) != Some(uid) then u' == u
    else match Judge(rt, u, a.password, now)
         case Failed => SameLockout(u', Some(AfterFailure(u, now)))
         case Passed => SameLockout(u', if Completes(rt, st, a, uid) then None else Some(u))
         case _ => u' == u
  }

  lemma LoginCases(rt: Runtime, st: Store, a: Attempt, now: Time)
    ensures var uid := Claimed(rt, st, a);
            var after := AfterLogin(rt, st, a, now);
            if uid.None? then after == st
            else
              var u := st.users[uid.value];
              match Judge(rt, u, a.password, now)
              case Failed => after.users == st.users[uid.value := AfterFailure(u, now)]
              case Passed =>
                if Completes(rt, st, a, uid.value)
                then after.users == st.users[uid.value := AfterSuccess(rt, u, a.password, a.salt, now)] else after == st
              case _ => after == st
  {
  }

  lemma LoginUser(rt: Runtime, st: Store, a: Attempt, now: Time, uid: Uuid)
    requires uid in st.users
    ensures uid in AfterLogin(rt, st, a, now).users
    ensures LoginEvolves(rt, st, a, now, uid, AfterLogin(rt, st, a, now).users[uid])
  {
    LoginCases(rt, st, a, now);
  }

  /** A login that succeeds can be repeated with the same password, re-hashed or not: it
      leaves the user unlocked and the password valid. */
  lemma SuccessIsRepeatable(rt: Runtime, st: Store, a: Attempt, now: Time, again: Attempt, later: Time)
    requires LoginOutcome(rt, st, a, now).LoginSuccess? && EmailsUnique(st.users)
    requires rt.verifyPassword(a.password, rt.hashPassword(a.password, a.salt))
    requires again.email == a.email && again.password == a.password
    ensures var uid := LoginOutcome(rt, st, a, now).user;
            var after := AfterLogin(rt, st, a, now);
            Claimed(rt, after, again) == Some(uid) && Judge(rt, after.users[uid], again.password, later) == Passed
  {
    var uid := LoginOutcome(rt, st, a, now).user;
    var after := AfterLogin(rt, st, a, now);
    LoginCases(rt, st, a, now);
    assert HasEmail(after, uid, rt.Normalize(again.email));
    forall u
      ensures HasEmail(after, u, rt.Normalize(again.email)) ==> u == uid
    {
      LoginKeepsIdentity(rt, st, a, now, u);
    }
  }

  predicate SameIdentity(u: User, v: User) {
    u.email == v.email && u.name == v.name && u.orgId == v.orgId && u.isActive == v.isActive
  }

  /** Who exists, with which email, home org and status, is not a matter of logging in. */
  lemma LoginKeepsIdentity(rt: Runtime, st: Store, a: Attempt, now: Time, uid: Uuid)
    ensures var after := AfterLogin(rt, st, a, now);
            && (uid in after.users <==> uid in st.users)
            && (uid in st.users ==> SameIdentity(after.users[uid], st.users[uid]))
  {
    LoginCases(rt, st, a, now);
  }

  lemma LoginFrame(rt: Runtime, st: Store, a: Attempt, now: Time)
    ensures var after := AfterLogin(rt, st, a, now);
            after == st.(users := after.users, sessions := after.sessions)
  {
  }

  lemma LoginSessions(rt: Runtime, st: Store, a: Attempt, now: Time)
    ensures var r := LoginOutcome(rt, st, a, now);
            if r.LoginSuccess? then
              && Insertable(st, a.sid, r.user, rt.digest(a.raw), a.agent)
              && AfterLogin(rt, st, a, now).sessions ==
                 st.sessions[a.sid := FreshSession(r.user, a.transport, rt.digest(a.raw), a.agent, now)]
            else AfterLogin(rt, st, a, now).sessions == st.sessions
    ensures SessionsEvolve(st, AfterLogin(rt, st, a, now).sessions, now)
  {
    var r := LoginOutcome(rt, st, a, now);
    if r.LoginSuccess? {
      InsertEvolves(st, a.sid, r.user, a.transport, rt.digest(a.raw), a.agent, now);
    }
  }

  // ---------- the same, in the columns of `users` and `sessions` ----------

  /** Who gets which answer. */
  lemma AnswersInColumns(rt: Runtime, st: Store, a: Attempt, now: Time)
    requires EmailsUnique(st.users)
    ensures var email, r := rt.lower(rt.strip(a.email)), LoginOutcome(rt, st, a, now);
            && (forall t :: r == LoginLocked(t) <==>
                  '\0' !in email && exists uid ::
                    && uid in st.users && st.users[uid].email == email && st.users[uid].isActive
                    && st.users[uid].lockedUntil == Some(t) && t > now)
            && (r == LoginInvalid <==>
                  '\0' !in email && forall uid :: uid in st.users && st.users[uid].email == email ==>
                    var u := st.users[uid];
                    || !u.isActive
                    || ((u.lockedUntil.None? || u.lockedUntil.value <= now)
                        && !rt.verifyPassword(a.password, u.passwordHash)))
            && (forall uid :: r == LoginSuccess(uid, a.raw, a.sid) <==>
                  && '\0' !in email
                  && uid in st.users && st.users[uid].email == email && st.users[uid].isActive
                  && (st.users[uid].lockedUntil.None? || st.users[uid].lockedUntil.value <= now)
                  && rt.verifyPassword(a.password, st.users[uid].passwordHash)
                  && (rt.needsRehash(st.users[uid].passwordHash) ==> a.password != "")
                  && a.sid !in st.sessions
                  && (forall s :: s in st.sessions ==> st.sessions[s].tokenHash != rt.digest(a.raw))
                  && (a.agent.Some? ==> |a.agent.value| <= 500 && '\0' !in a.agent.value))
            && (r.LoginSuccess? ==> r.rawToken == a.raw && r.session == a.sid)
  {
    var email := rt.lower(rt.strip(a.email));
    assert rt.Normalize(a.email) == email;
    var claimed := Claimed(rt, st, a);
    forall uid | '\0' !in email && uid in st.users && st.users[uid].email == email
      ensures claimed == Some(uid)
    {
      assert HasEmail(st, uid, email);
    }
    assert claimed.Some? ==> HasEmail(st, claimed.value, email);
  }

  /** And what is stored after it: the new session of a success and the user's cleared row,
      or nothing, or a counted failure. */
  lemma SuccessInColumns(rt: Runtime, st: Store, a: Attempt, now: Time)
    ensures var r, after := LoginOutcome(rt, st, a, now), AfterLogin(rt, st, a, now);
            && (r.LoginSuccess? ==>
                  && r.user in st.users
                  && var u := st.users[r.user];
                     && after.users == st.users[r.user := u.(
                          failedLoginCount := 0, lockedUntil := None, lastLoginAt := Some(now),
                          passwordHash := if rt.needsRehash(u.passwordHash) then rt.hashPassword(a.password, a.salt)
                                          else u.passwordHash)]
                     && after.sessions == st.sessions[a.sid := Session(r.user, rt.digest(a.raw), a.transport, a.agent,
                                                                       now, now + 30 * DAY, now, None, None)])
            && (r.LoginLocked? || r.LoginRaised? ==> after == st)
  {
    LoginCases(rt, st, a, now);
  }

  lemma FailureInColumns(rt: Runtime, st: Store, a: Attempt, now: Time)
    requires EmailsUnique(st.users) && LoginOutcome(rt, st, a, now).LoginInvalid?
    ensures var email, after := rt.lower(rt.strip(a.email)), AfterLogin(rt, st, a, now);
            && (forall uid :: uid in st.users && st.users[uid].email == email ==>
                  var u := st.users[uid];
                  after == if !u.isActive then st
                           else st.(users := st.users[uid :=
                             if u.failedLoginCount + 1 >= 5
                             then u.(failedLoginCount := 0, lockedUntil := Some(now + 15 * MINUTE))
                             else u.(failedLoginCount := u.failedLoginCount + 1)]))
            && ((forall uid :: uid in st.users ==> st.users[uid].email != email) ==> after == st)
  {
    var email := rt.lower(rt.strip(a.email));
    assert rt.Normalize(a.email) == email;
    var claimed := Claimed(rt, st, a);
    forall uid | uid in st.users && st.users[uid].email == email
      ensures claimed == Some(uid)
    {
      assert HasEmail(st, uid, email);
    }
    assert claimed.Some? ==> HasEmail(st, claimed.value, email);
  }
}
