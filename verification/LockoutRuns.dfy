/** The lockout machine over whole runs: its two fields stand for the attempt history, and
    they bound the rate of password guesses. */
module LockoutRuns {
  import opened Model
  import opened Login
  import opened System

  // ---------- events about one user ----------

  ghost predicate Tries(rt: Runtime, st: Store, e: Event, uid: Uuid) {
    e.op.LoginAttempt? && uid in st.users && Claimed(rt, st, e.op.attempt) == Some(uid)
  }

  ghost predicate Fails(rt: Runtime, st: Store, e: Event, uid: Uuid) {
    Tries(rt, st, e, uid) && Judge(rt, st.users[uid], e.op.attempt.password, e.at).Failed?
  }

  ghost predicate Succeeds(rt: Runtime, st: Store, e: Event, uid: Uuid) {
    && Tries(rt, st, e, uid) && Judge(rt, st.users[uid], e.op.attempt.password, e.at).Passed?
    && Completes(rt, st, e.op.attempt, uid)
  }

  /** One step, seen from one user. */
  lemma StepLockout(rt: Runtime, st: Store, e: Event, uid: Uuid)
    requires uid in st.users
    ensures uid in Step(rt, st, e).users
    ensures SameLockout(Step(rt, st, e).users[uid],
                        if Fails(rt, st, e, uid) then Some(AfterFailure(st.users[uid], e.at))
                        else if Succeeds(rt, st, e, uid) then None
                        else Some(st.users[uid]))
  {
    StepUser(rt, st, e, uid);
  }

  // ---------- the two fields stand for the history ----------

  /** The lock that a history of failure times since the last success amounts to: every
      fifth failure locks for fifteen minutes, and the last such lock counts. */
  function LockOf(failures: seq<Time>): Option<Time> {
    if |failures| < LOCKOUT_THRESHOLD then None
    else Some(failures[|failures| / LOCKOUT_THRESHOLD * LOCKOUT_THRESHOLD - 1] + LOCKOUT_DURATION)
  }

  /** The decision taken from the full history instead of the two fields. */
  function JudgeByHistory(failures: seq<Time>, active: bool, correct: bool, now: Time): Verdict {
    if !active then Inactive
    else if LockOf(failures).Some? && LockOf(failures).value > now then Locked(LockOf(failures).value)
    else if correct then Passed else Failed
  }

  predicate Represents(u: User, failures: seq<Time>) {
    u.failedLoginCount == |failures| % LOCKOUT_THRESHOLD && u.lockedUntil == LockOf(failures)
  }

  /** The history itself, kept by a reference that never looks at the two fields. */
  ghost function History(rt: Runtime, st: Store, es: seq<Event>, uid: Uuid, failures: seq<Time>): seq<Time>
    decreases |es|
  {
    if es == [] then failures
    else History(rt, Step(rt, st, es[0]), es[1..], uid, NextHistory(rt, st, es[0], uid, failures))
  }

  ghost function NextHistory(rt: Runtime, st: Store, e: Event, uid: Uuid, failures: seq<Time>): seq<Time> {
    if !Tries(rt, st, e, uid) then failures
    else
      var u, a := st.users[uid], e.op.attempt;
      match JudgeByHistory(failures, u.isActive, rt.verifyPassword(a.password, u.passwordHash), e.at)
      case Failed => failures + [e.at]
      case Passed => if Completes(rt, st, a, uid) then [] else failures
      case _ => failures
  }

  lemma JudgedAlike(rt: Runtime, u: User, failures: seq<Time>, password: string, now: Time)
    requires Represents(u, failures)
    ensures Judge(rt, u, password, now) ==
            JudgeByHistory(failures, u.isActive, rt.verifyPassword(password, u.passwordHash), now)
  {
  }

  lemma FailureExtends(u: User, failures: seq<Time>, now: Time)
    requires Represents(u, failures)
    ensures Represents(AfterFailure(u, now), failures + [now])
  {
    var n, n' := |failures|, |failures| + 1;
    if n' % LOCKOUT_THRESHOLD == 0 {
      assert (failures + [now])[n' / LOCKOUT_THRESHOLD * LOCKOUT_THRESHOLD - 1] == now;
    } else {
      assert n' / LOCKOUT_THRESHOLD == n / LOCKOUT_THRESHOLD;
    }
  }

  /** After any run, the two fields are what the history of failures since the last success
      says: their number modulo five, and the last lock. Attempts during a lock add nothing. */
  lemma {:induction false} LockoutRefinesHistory(rt: Runtime, st: Store, es: seq<Event>, uid: Uuid, failures: seq<Time>)
    requires uid in st.users && Represents(st.users[uid], failures)
    ensures uid in Run(rt, st, es).users
    ensures Represents(Run(rt, st, es).users[uid], History(rt, st, es, uid, failures))
    decreases |es|
  {
    if es != [] {
      StepLockout(rt, st, es[0], uid);
      StepRefines(rt, st, es[0], uid, failures);
      LockoutRefinesHistory(rt, Step(rt, st, es[0]), es[1..], uid, NextHistory(rt, st, es[0], uid, failures));
    }
  }

  lemma StepRefines(rt: Runtime, st: Store, e: Event, uid: Uuid, failures: seq<Time>)
    requires uid in st.users && Represents(st.users[uid], failures)
    ensures var u := st.users[uid];
            var u' := if Fails(rt, st, e, uid) then AfterFailure(u, e.at)
                      else if Succeeds(rt, st, e, uid) then u.(failedLoginCount := 0, lockedUntil := None) else u;
            Represents(u', NextHistory(rt, st, e, uid, failures))
  {
    if Tries(rt, st, e, uid) {
      JudgedAlike(rt, st.users[uid], failures, e.op.attempt.password, e.at);
      FailureExtends(st.users[uid], failures, e.at);
    }
  }

  /** `a` gives the email of the user `uid`, and no other user has it. */
  ghost predicate NamesUser(rt: Runtime, st: Store, a: Attempt, uid: Uuid) {
    uid in st.users && EmailsUnique(st.users) && '\0' !in st.users[uid].email
    && st.users[uid].email == rt.lower(rt.strip(a.email))
  }

  /** The answers over whole runs: an active user's attempt, with whatever password, is answered
      as locked exactly until fifteen minutes after the last fifth failure. */
  lemma LockedByHistory(rt: Runtime, st: Store, es: seq<Event>, uid: Uuid, failures: seq<Time>, a: Attempt, t: Time,
                        until: Time)
    requires uid in st.users && Represents(st.users[uid], failures)
    requires NamesUser(rt, Run(rt, st, es), a, uid) && Run(rt, st, es).users[uid].isActive
    ensures var h := History(rt, st, es, uid, failures);
            LoginOutcome(rt, Run(rt, st, es), a, t) == LoginLocked(until) <==>
              |h| >= 5 && until == h[|h| / 5 * 5 - 1] + 15 * MINUTE && t < until
  {
    LockoutRefinesHistory(rt, st, es, uid, failures);
    AnswersInColumns(rt, Run(rt, st, es), a, t);
  }

  // ---------- the rate bound ----------

  ghost function Failures(rt: Runtime, st: Store, es: seq<Event>, uid: Uuid): nat
    decreases |es|
  {
    if es == [] then 0
    else (if Fails(rt, st, es[0], uid) then 1 else 0) + Failures(rt, Step(rt, st, es[0]), es[1..], uid)
  }

  ghost predicate NoSuccess(rt: Runtime, st: Store, es: seq<Event>, uid: Uuid)
    decreases |es|
  {
    es == [] || (!Succeeds(rt, st, es[0], uid) && NoSuccess(rt, Step(rt, st, es[0]), es[1..], uid))
  }

  /** When the next attempt can be verified at all. */
  function Unlocked(u: User, now: Time): Time {
    if IsLocked(u, now) then u.lockedUntil.value else now
  }

  /** The guesses left until `end`: those before the next lock, and five for each further
      quarter of an hour. */
  function GuessesLeft(u: User, now: Time, end: Time): int {
    var from := Unlocked(u, now);
    if from > end then 0
    else LOCKOUT_THRESHOLD - u.failedLoginCount + LOCKOUT_THRESHOLD * ((end - from) / LOCKOUT_DURATION)
  }

  lemma WaitingGainsNothing(u: User, now: Time, later: Time, end: Time)
    requires 0 <= u.failedLoginCount < LOCKOUT_THRESHOLD && now <= later
    ensures 0 <= GuessesLeft(u, later, end) <= GuessesLeft(u, now, end)
  {
    var from, from' := Unlocked(u, now), Unlocked(u, later);
    if from' <= end {
      DivMonotone(end - from', end - from);
    }
  }

  lemma DivMonotone(a: Time, b: Time)
    requires 0 <= a <= b
    ensures 0 <= a / LOCKOUT_DURATION <= b / LOCKOUT_DURATION
    ensures LOCKOUT_DURATION <= b ==> b / LOCKOUT_DURATION == (b - LOCKOUT_DURATION) / LOCKOUT_DURATION + 1
  {
    assert LOCKOUT_DURATION == 900_000_000;
  }

  lemma GuessingCostsOne(u: User, now: Time, end: Time)
    requires 0 <= u.failedLoginCount < LOCKOUT_THRESHOLD && now <= end && !IsLocked(u, now)
    ensures 1 + GuessesLeft(AfterFailure(u, now), now, end) <= GuessesLeft(u, now, end)
  {
    DivMonotone(end - now, end - now);
  }

  /** Between now and `end`, without a success, at most `GuessesLeft` password checks fail. */
  lemma {:induction false} FailuresWithinGuessesLeft(rt: Runtime, st: Store, now: Time, es: seq<Event>, uid: Uuid,
                                                     end: Time)
    requires Admissible(rt, st, now, es) && LastTime(now, es) <= end
    requires uid in st.users && 0 <= st.users[uid].failedLoginCount < LOCKOUT_THRESHOLD
    requires NoSuccess(rt, st, es, uid)
    ensures Failures(rt, st, es, uid) <= GuessesLeft(st.users[uid], now, end)
    decreases |es|
  {
    var u := st.users[uid];
    WaitingGainsNothing(u, now, now, end);
    if es != [] {
      var e, st' := es[0], Step(rt, st, es[0]);
      TimesAreOrdered(rt, st', e.at, es[1..]);
      assert LastTime(now, es) == LastTime(e.at, es[1..]);
      StepLockout(rt, st, e, uid);
      WaitingGainsNothing(u, now, e.at, end);
      if Fails(rt, st, e, uid) {
        GuessingCostsOne(u, e.at, end);
      }
      FailuresWithinGuessesLeft(rt, st', e.at, es[1..], uid, end);
    }
  }

  lemma {:induction false} TimesAreOrdered(rt: Runtime, st: Store, now: Time, es: seq<Event>)
    requires Admissible(rt, st, now, es)
    ensures now <= LastTime(now, es)
    decreases |es|
  {
    if es != [] {
      TimesAreOrdered(rt, Step(rt, st, es[0]), es[0].at, es[1..]);
    }
  }

  /** In any window of length `w` without a success, at most five guesses for every started
      quarter of an hour, and one more quarter. */
  lemma RateBound(rt: Runtime, st: Store, now: Time, es: seq<Event>, uid: Uuid, w: Time)
    requires LockoutInRange(st.users) && uid in st.users
    requires Admissible(rt, st, now, es) && LastTime(now, es) <= now + w
    requires NoSuccess(rt, st, es, uid)
    ensures Failures(rt, st, es, uid) <= LOCKOUT_THRESHOLD * (w / LOCKOUT_DURATION + 1)
  {
    TimesAreOrdered(rt, st, now, es);
    FailuresWithinGuessesLeft(rt, st, now, es, uid, now + w);
    var from := Unlocked(st.users[uid], now);
    if from <= now + w {
      DivMonotone(now + w - from, w);
    } else {
      DivMonotone(0, w);
    }
  }

  // ---------- and the bound is attained ----------

  /** `k` attempts at `t`, then five at the end of each of the next `m` locks. */
  function Bursts(a: Attempt, t: Time, k: nat, m: nat): seq<Event>
    decreases m, k
  {
    if k > 0 then [Event(t, LoginAttempt(a))] + Bursts(a, t, k - 1, m)
    else if m > 0 then Bursts(a, t + LOCKOUT_DURATION, LOCKOUT_THRESHOLD, m - 1)
    else []
  }

  lemma {:induction false} BurstsSpan(a: Attempt, t: Time, k: nat, m: nat, now: Time)
    ensures k == 0 ==> Bursts(a, t, k, m) == [] || LastTime(now, Bursts(a, t, k, m)) == t + LOCKOUT_DURATION * m
    ensures k > 0 ==> LastTime(now, Bursts(a, t, k, m)) == t + LOCKOUT_DURATION * m
    decreases m, k
  {
    if k > 0 {
      BurstsSpan(a, t, k - 1, m, t);
      if m > 0 {
        assert Bursts(a, t, k - 1, m) != [];
      }
    } else if m > 0 {
      BurstsSpan(a, t + LOCKOUT_DURATION, LOCKOUT_THRESHOLD, m - 1, now);
    }
  }

  /** `a` names the active user `uid` with a wrong password. */
  ghost predicate GuessesWrong(rt: Runtime, st: Store, a: Attempt, uid: Uuid) {
    && EmailsUnique(st.users) && Claimed(rt, st, a) == Some(uid)
    && st.users[uid].isActive && !rt.verifyPassword(a.password, st.users[uid].passwordHash)
  }

  lemma WrongGuessStep(rt: Runtime, st: Store, a: Attempt, uid: Uuid, t: Time)
    requires GuessesWrong(rt, st, a, uid) && !IsLocked(st.users[uid], t)
    ensures var e := Event(t, LoginAttempt(a));
            && Fails(rt, st, e, uid) && !Succeeds(rt, st, e, uid)
            && Step(rt, st, e) == st.(users := st.users[uid := AfterFailure(st.users[uid], t)])
            && GuessesWrong(rt, Step(rt, st, e), a, uid)
  {
    var e := Event(t, LoginAttempt(a));
    var st' := Step(rt, st, e);
    assert st' == st.(users := st.users[uid := AfterFailure(st.users[uid], t)]);
    assert EmailsUnique(st'.users);
    assert HasEmail(st', uid, rt.Normalize(a.email));
  }

  lemma {:induction false} BurstsAllFail(rt: Runtime, st: Store, a: Attempt, uid: Uuid, now: Time, t: Time, k: nat,
                                         m: nat)
    requires GuessesWrong(rt, st, a, uid) && now <= t && k <= LOCKOUT_THRESHOLD
    requires var u := st.users[uid];
             if k > 0 then u.failedLoginCount == LOCKOUT_THRESHOLD - k && !IsLocked(u, t)
             else u.failedLoginCount == 0 && !IsLocked(u, t + LOCKOUT_DURATION)
    ensures Admissible(rt, st, now, Bursts(a, t, k, m)) && NoSuccess(rt, st, Bursts(a, t, k, m), uid)
    ensures Failures(rt, st, Bursts(a, t, k, m), uid) == k + LOCKOUT_THRESHOLD * m
    decreases m, k
  {
    if k > 0 {
      var e := Event(t, LoginAttempt(a));
      WrongGuessStep(rt, st, a, uid, t);
      BurstsAllFail(rt, Step(rt, st, e), a, uid, t, t, k - 1, m);
      assert Bursts(a, t, k, m)[0] == e && Bursts(a, t, k, m)[1..] == Bursts(a, t, k - 1, m);
    } else if m > 0 {
      BurstsAllFail(rt, st, a, uid, now, t + LOCKOUT_DURATION, LOCKOUT_THRESHOLD, m - 1);
    }
  }

  /** The rate bound is sharp: wrong guesses timed to the expiring locks reach it. */
  lemma RateBoundIsAttained(rt: Runtime, st: Store, a: Attempt, uid: Uuid, now: Time, m: nat)
    requires GuessesWrong(rt, st, a, uid) && st.users[uid].failedLoginCount == 0 && !IsLocked(st.users[uid], now)
    ensures exists es: seq<Event> ::
              && Admissible(rt, st, now, es) && NoSuccess(rt, st, es, uid)
              && LastTime(now, es) == now + LOCKOUT_DURATION * m
              && Failures(rt, st, es, uid) == LOCKOUT_THRESHOLD * (m + 1)
  {
    BurstsAllFail(rt, st, a, uid, now, now, LOCKOUT_THRESHOLD, m);
    BurstsSpan(a, now, LOCKOUT_THRESHOLD, m, now);
  }

  lemma {:induction false} LastOfTheBurst(rt: Runtime, st: Store, a: Attempt, uid: Uuid, t: Time, k: nat)
    requires GuessesWrong(rt, st, a, uid) && 0 < k <= LOCKOUT_THRESHOLD
    requires st.users[uid].failedLoginCount == LOCKOUT_THRESHOLD - k && !IsLocked(st.users[uid], t)
    ensures var after := Run(rt, st, Bursts(a, t, k, 0));
            after == st.(users := st.users[uid :=
                       st.users[uid].(failedLoginCount := 0, lockedUntil := Some(t + LOCKOUT_DURATION))])
    decreases k
  {
    var e, es := Event(t, LoginAttempt(a)), Bursts(a, t, k, 0);
    WrongGuessStep(rt, st, a, uid, t);
    assert es[0] == e && es[1..] == Bursts(a, t, k - 1, 0);
    if k > 1 {
      LastOfTheBurst(rt, Step(rt, st, e), a, uid, t, k - 1);
    } else {
      assert Bursts(a, t, 0, 0) == [];
      assert Run(rt, Step(rt, st, e), []) == Step(rt, st, e);
    }
  }

  /** Five wrong passwords at one time from a clean row: for fifteen minutes every attempt at the
      account, the right password included, is answered as locked; then the right one works, as
      far as the lock is concerned. */
  lemma LockedAfterFive(rt: Runtime, st: Store, a: Attempt, uid: Uuid, t: Time, next: Attempt, t': Time)
    requires GuessesWrong(rt, st, a, uid) && st.users[uid].failedLoginCount == 0 && !IsLocked(st.users[uid], t)
    requires NamesUser(rt, st, next, uid)
    ensures var r := LoginOutcome(rt, Run(rt, st, Bursts(a, t, 5, 0)), next, t');
            if t' < t + 15 * MINUTE then r == LoginLocked(t + 15 * MINUTE)
            else !r.LoginLocked? && (rt.verifyPassword(next.password, st.users[uid].passwordHash) ==> !r.LoginInvalid?)
  {
    LastOfTheBurst(rt, st, a, uid, t, 5);
    var after := Run(rt, st, Bursts(a, t, 5, 0));
    assert EmailsUnique(after.users);
    AnswersInColumns(rt, after, next, t');
    assert uid in after.users && after.users[uid].email == rt.lower(rt.strip(next.email));
  }
}
