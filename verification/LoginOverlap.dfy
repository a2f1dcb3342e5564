/** Failed logins without the assumption that an attempt is one serial step. `attempt_login`
    reads the user row, verifies the password, and writes back the count it read plus one;
    nothing is locked in between, so overlapping attempts overwrite each other's counts. How
    many passwords can be tried before the account locks? */
module LoginOverlap {
  import opened Model
  import opened Login
  import opened System
  import opened LockoutRuns

  /** A wrong guess that has been verified and not counted yet, with the row as it was read. */
  datatype Guess = Guess(seen: User, at: Time)

  datatype World = World(st: Store, inFlight: map<nat, Guess>)

  datatype Move =
    | Verify(id: nat, password: string, at: Time)
    | Count(id: nat)
    | Between(after: Store)   // anything that leaves this user's lockout fields alone

  /** The UPDATE sets what the attempt changed on the row it had read. */
  function Counted(u: User, g: Guess): User {
    var u' := AfterFailure(g.seen, g.at);
    u.(failedLoginCount := u'.failedLoginCount,
       lockedUntil := if u'.lockedUntil == g.seen.lockedUntil then u.lockedUntil else u'.lockedUntil)
  }

  function WithUser(st: Store, uid: Uuid, u: User): Store {
    st.(users := st.users[uid := u])
  }

  ghost predicate IsGuess(rt: Runtime, w: World, m: Move, uid: Uuid) {
    && m.Verify? && m.id !in w.inFlight && uid in w.st.users
    && Judge(rt, w.st.users[uid], m.password, m.at).Failed?
  }

  predicate MayHappen(st: Store, after: Store, uid: Uuid) {
    uid in st.users ==> uid in after.users && SameLockout(after.users[uid], Some(st.users[uid]))
  }

  /** Every step of the system does, except the attempts of this user. */
  lemma OtherStepsMayHappen(rt: Runtime, st: Store, e: Event, uid: Uuid)
    requires !Tries(rt, st, e, uid)
    ensures MayHappen(st, Step(rt, st, e), uid)
  {
    if uid in st.users {
      StepLockout(rt, st, e, uid);
    }
  }

  ghost function Next(rt: Runtime, w: World, m: Move, uid: Uuid): World {
    match m
    case Verify(id, _, at) =>
      if IsGuess(rt, w, m, uid) then w.(inFlight := w.inFlight[id := Guess(w.st.users[uid], at)]) else w
    case Count(id) =>
      if id in w.inFlight && uid in w.st.users
      then World(WithUser(w.st, uid, Counted(w.st.users[uid], w.inFlight[id])), w.inFlight - {id})
      else w
    case Between(after) => if MayHappen(w.st, after, uid) then w.(st := after) else w
  }

  /** Uninterrupted, the two halves are the serial failed attempt. */
  lemma UninterruptedGuessIsFailure(rt: Runtime, st: Store, a: Attempt, at: Time, id: nat, uid: Uuid)
    requires Claimed(rt, st, a) == Some(uid) && IsFailure(rt, st, a, at)
    ensures var w := Next(rt, World(st, map[]), Verify(id, a.password, at), uid);
            Next(rt, w, Count(id), uid) == World(AfterLogin(rt, st, a, at), map[])
  {
    var w := Next(rt, World(st, map[]), Verify(id, a.password, at), uid);
    assert w == World(st, map[id := Guess(st.users[uid], at)]);
    assert w.inFlight - {id} == map[];
  }

  // ---------- what is counted ----------

  predicate Locks(w: World, m: Move) {
    m.Count? && m.id in w.inFlight && w.inFlight[m.id].seen.failedLoginCount + 1 >= LOCKOUT_THRESHOLD
  }

  ghost function Tried(rt: Runtime, w: World, m: Move, uid: Uuid): nat {
    if IsGuess(rt, w, m, uid) then 1 else 0
  }

  /** Where the moves lead, how many passwords they try, how many verified guesses are uncounted
      at a time (one that dies stays so), and whether they lock the account. */
  datatype Tally = Tally(end: World, guesses: nat, overlap: nat, locked: bool)

  ghost function Play(rt: Runtime, w: World, moves: seq<Move>, uid: Uuid): (t: Tally)
    ensures |w.inFlight| <= t.overlap
    decreases |moves|
  {
    if moves == [] then Tally(w, 0, |w.inFlight|, false)
    else
      var rest := Play(rt, Next(rt, w, moves[0], uid), moves[1..], uid);
      Tally(rest.end, Tried(rt, w, moves[0], uid) + rest.guesses,
            if |w.inFlight| > rest.overlap then |w.inFlight| else rest.overlap, Locks(w, moves[0]) || rest.locked)
  }

  // ---------- the potential ----------

  /** Triangular, tetrahedral and pentatope numbers. */
  function Tri(n: nat): nat {
    if n == 0 then 0 else Tri(n - 1) + n
  }

  function Tet(n: nat): nat {
    if n == 0 then 0 else Tet(n - 1) + Tri(n)
  }

  function Pen(n: nat): nat {
    if n == 0 then 0 else Pen(n - 1) + Tet(n)
  }

  lemma {:induction false} Monotone(m: nat, n: nat)
    requires m <= n
    ensures Tri(m) <= Tri(n) && Tet(m) <= Tet(n) && Pen(m) <= Pen(n)
    decreases n
  {
    if m < n {
      Monotone(m, n - 1);
    }
  }

  /** The guesses still to be had, up to a constant: `f` is the room for further overlap, `v` the
      count on the row, `k1 .. k4` the numbers of guesses in flight that read at least 1 .. 4. */
  function Potential(f: nat, v: int, k1: nat, k2: nat, k3: nat, k4: nat): int {
    (if v < 4 then f else 0) - Pen(Lost(f, v, k1, 1)) - Tet(Lost(f, v, k2, 2)) - Tri(Lost(f, v, k3, 3)) - k4
  }

  /** The places out of which no guess can come that reads less than `i`. */
  function Lost(f: nat, v: int, k: nat, i: int): (n: nat)
    ensures k <= n <= k + f
  {
    if v >= i then k + f else k
  }

  function AtLeast(s: int, k: int): nat {
    if s >= k then 1 else 0
  }

  lemma TriAbsorbs(n: nat, n3: nat)
    requires n3 <= n
    ensures Tri(n3) + n + 1 <= Tri(n + 1)
  {
    Monotone(n3, n);
  }

  lemma TetAbsorbs(n: nat, n2: nat, n3: nat)
    requires n2 <= n && n3 <= n
    ensures Tet(n2) + Tri(n3) + n + 1 <= Tet(n + 1)
  {
    Monotone(n2, n);
    TriAbsorbs(n, n3);
  }

  lemma PenAbsorbs(n: nat, n1: nat, n2: nat, n3: nat)
    requires n1 <= n && n2 <= n && n3 <= n
    ensures Pen(n1) + Tet(n2) + Tri(n3) + n + 1 <= Pen(n + 1)
  {
    Monotone(n1, n);
    TetAbsorbs(n, n2, n3);
  }

  /** Counting a guess that had read `s` sets the row to `s + 1` and frees one place; the
      potential does not grow. */
  lemma CountingGainsNothing(f: nat, v: int, s: int, k1: nat, k2: nat, k3: nat, k4: nat)
    requires 0 <= v <= 4 && 0 <= s <= 3 && k1 >= k2 >= k3
    ensures Potential(f + 1, s + 1, k1, k2, k3, k4) <=
            Potential(f, v, k1 + AtLeast(s, 1), k2 + AtLeast(s, 2), k3 + AtLeast(s, 3), k4)
  {
    if s == 0 {
      Counting0(f, v, k1, k2, k3, k4);
    } else if s == 1 {
      Counting1(f, v, k1, k2, k3, k4);
    } else if s == 2 {
      Counting2(f, v, k1, k2, k3, k4);
    } else {
      Counting3(f, v, k1, k2, k3, k4);
    }
  }

  lemma Counting0(f: nat, v: int, k1: nat, k2: nat, k3: nat, k4: nat)
    requires 0 <= v <= 4 && k1 >= k2 >= k3
    ensures Potential(f + 1, 1, k1, k2, k3, k4) <= Potential(f, v, k1, k2, k3, k4)
  {
    PenAbsorbs(k1 + f, Lost(f, v, k1, 1), Lost(f, v, k2, 2), Lost(f, v, k3, 3));
  }

  lemma Counting1(f: nat, v: int, k1: nat, k2: nat, k3: nat, k4: nat)
    requires 0 <= v <= 4 && k2 >= k3
    ensures Potential(f + 1, 2, k1, k2, k3, k4) <= Potential(f, v, k1 + 1, k2, k3, k4)
  {
    Monotone(Lost(f, v, k1 + 1, 1), k1 + f + 1);
    TetAbsorbs(k2 + f, Lost(f, v, k2, 2), Lost(f, v, k3, 3));
  }

  lemma Counting2(f: nat, v: int, k1: nat, k2: nat, k3: nat, k4: nat)
    requires 0 <= v <= 4
    ensures Potential(f + 1, 3, k1, k2, k3, k4) <= Potential(f, v, k1 + 1, k2 + 1, k3, k4)
  {
    Monotone(Lost(f, v, k1 + 1, 1), k1 + f + 1);
    Monotone(Lost(f, v, k2 + 1, 2), k2 + f + 1);
    TriAbsorbs(k3 + f, Lost(f, v, k3, 3));
  }

  lemma Counting3(f: nat, v: int, k1: nat, k2: nat, k3: nat, k4: nat)
    requires 0 <= v <= 4
    ensures Potential(f + 1, 4, k1, k2, k3, k4) <= Potential(f, v, k1 + 1, k2 + 1, k3 + 1, k4)
  {
    Monotone(Lost(f, v, k1 + 1, 1), k1 + f + 1);
    Monotone(Lost(f, v, k2 + 1, 2), k2 + f + 1);
    Monotone(Lost(f, v, k3 + 1, 3), k3 + f + 1);
  }

  // ---------- the bound ----------

  predicate CountOk(u: User) {
    0 <= u.failedLoginCount < LOCKOUT_THRESHOLD
  }

  ghost predicate Ok(w: World, uid: Uuid) {
    && uid in w.st.users && CountOk(w.st.users[uid])
    && forall id :: id in w.inFlight ==> CountOk(w.inFlight[id].seen)
  }

  function HaveRead(inFlight: map<nat, Guess>, k: int): set<nat> {
    set id | id in inFlight && inFlight[id].seen.failedLoginCount >= k
  }

  function Left(inFlight: map<nat, Guess>, v: int, c: nat): int
    requires |inFlight| <= c
  {
    Potential(c - |inFlight|, v, |HaveRead(inFlight, 1)|, |HaveRead(inFlight, 2)|, |HaveRead(inFlight, 3)|,
              |HaveRead(inFlight, 4)|)
  }

  lemma OneMoreReader(inFlight: map<nat, Guess>, id: nat, g: Guess, k: int)
    requires id !in inFlight
    ensures |HaveRead(inFlight[id := g], k)| == |HaveRead(inFlight, k)| + AtLeast(g.seen.failedLoginCount, k)
  {
    var more := inFlight[id := g];
    if g.seen.failedLoginCount >= k {
      assert HaveRead(more, k) == HaveRead(inFlight, k) + {id};
    } else {
      assert HaveRead(more, k) == HaveRead(inFlight, k);
    }
  }

  lemma OneMoreInFlight(inFlight: map<nat, Guess>, id: nat, g: Guess)
    requires id !in inFlight
    ensures var more, s := inFlight[id := g], g.seen.failedLoginCount;
            && |more| == |inFlight| + 1
            && |HaveRead(more, 1)| == |HaveRead(inFlight, 1)| + AtLeast(s, 1)
            && |HaveRead(more, 2)| == |HaveRead(inFlight, 2)| + AtLeast(s, 2)
            && |HaveRead(more, 3)| == |HaveRead(inFlight, 3)| + AtLeast(s, 3)
            && |HaveRead(more, 4)| == |HaveRead(inFlight, 4)| + AtLeast(s, 4)
  {
    OneMoreReader(inFlight, id, g, 1);
    OneMoreReader(inFlight, id, g, 2);
    OneMoreReader(inFlight, id, g, 3);
    OneMoreReader(inFlight, id, g, 4);
  }

  lemma VerifyUsesOne(inFlight: map<nat, Guess>, id: nat, g: Guess, c: nat)
    requires id !in inFlight && |inFlight| < c && CountOk(g.seen)
    ensures |inFlight[id := g]| <= c
    ensures Left(inFlight[id := g], g.seen.failedLoginCount, c) == Left(inFlight, g.seen.failedLoginCount, c) - 1
  {
    OneMoreInFlight(inFlight, id, g);
  }

  lemma FewerHaveReadMore(inFlight: map<nat, Guess>, k: int)
    ensures |HaveRead(inFlight, k + 1)| <= |HaveRead(inFlight, k)|
  {
    SubsetSize(HaveRead(inFlight, k + 1), HaveRead(inFlight, k));
  }

  lemma CountGainsNothing(inFlight: map<nat, Guess>, id: nat, v: int, c: nat)
    requires id in inFlight && |inFlight| <= c && 0 <= v <= 4 && 0 <= inFlight[id].seen.failedLoginCount <= 3
    ensures |inFlight - {id}| <= c
    ensures Left(inFlight - {id}, inFlight[id].seen.failedLoginCount + 1, c) <= Left(inFlight, v, c)
  {
    var rest, g := inFlight - {id}, inFlight[id];
    OneMoreInFlight(rest, id, g);
    assert rest[id := g] == inFlight;
    FewerHaveReadMore(rest, 1);
    FewerHaveReadMore(rest, 2);
    CountingGainsNothing(c - |inFlight|, v, g.seen.failedLoginCount,
                         |HaveRead(rest, 1)|, |HaveRead(rest, 2)|, |HaveRead(rest, 3)|, |HaveRead(rest, 4)|);
  }

  ghost function LeftIn(w: World, uid: Uuid, c: nat): int
    requires Ok(w, uid) && |w.inFlight| <= c
  {
    Left(w.inFlight, w.st.users[uid].failedLoginCount, c)
  }

  lemma VerifyKeepsBalance(rt: Runtime, w: World, m: Move, uid: Uuid, c: nat)
    requires Ok(w, uid) && IsGuess(rt, w, m, uid) && |w.inFlight| <= c && |Next(rt, w, m, uid).inFlight| <= c
    ensures Ok(Next(rt, w, m, uid), uid) && 1 + LeftIn(Next(rt, w, m, uid), uid, c) == LeftIn(w, uid, c)
  {
    var g := Guess(w.st.users[uid], m.at);
    OneMoreInFlight(w.inFlight, m.id, g);
    VerifyUsesOne(w.inFlight, m.id, g, c);
  }

  lemma CountKeepsBalance(rt: Runtime, w: World, id: nat, uid: Uuid, c: nat)
    requires Ok(w, uid) && id in w.inFlight && !Locks(w, Count(id)) && |w.inFlight| <= c
    ensures var w' := Next(rt, w, Count(id), uid);
            Ok(w', uid) && |w'.inFlight| <= c && LeftIn(w', uid, c) <= LeftIn(w, uid, c)
  {
    CountGainsNothing(w.inFlight, id, w.st.users[uid].failedLoginCount, c);
  }

  lemma MoveKeepsBalance(rt: Runtime, w: World, m: Move, uid: Uuid, c: nat)
    requires Ok(w, uid) && !Locks(w, m) && |w.inFlight| <= c && |Next(rt, w, m, uid).inFlight| <= c
    ensures Ok(Next(rt, w, m, uid), uid)
    ensures Tried(rt, w, m, uid) + LeftIn(Next(rt, w, m, uid), uid, c) <= LeftIn(w, uid, c)
  {
    match m
    case Verify(_, _, _) =>
      if IsGuess(rt, w, m, uid) {
        VerifyKeepsBalance(rt, w, m, uid, c);
      }
    case Count(id) =>
      if id in w.inFlight {
        CountKeepsBalance(rt, w, id, uid, c);
      }
    case Between(_) =>
  }

  lemma {:induction false} GuessesUseUpPotential(rt: Runtime, w: World, moves: seq<Move>, uid: Uuid, c: nat)
    requires Ok(w, uid)
    requires var t := Play(rt, w, moves, uid); t.overlap <= c && !t.locked
    ensures |w.inFlight| <= c && Play(rt, w, moves, uid).guesses <= LeftIn(w, uid, c) + LeastLeft(c)
    decreases |moves|
  {
    if moves == [] {
      LeftIsBounded(w.inFlight, w.st.users[uid].failedLoginCount, c);
    } else {
      var w' := Next(rt, w, moves[0], uid);
      MoveKeepsBalance(rt, w, moves[0], uid, c);
      GuessesUseUpPotential(rt, w', moves[1..], uid, c);
    }
  }

  lemma FewerHaveRead(inFlight: map<nat, Guess>, k: int)
    ensures |HaveRead(inFlight, k)| <= |inFlight|
  {
    SubsetSize(HaveRead(inFlight, k), inFlight.Keys);
  }

  lemma LeftIsBounded(inFlight: map<nat, Guess>, v: int, c: nat)
    requires |inFlight| <= c
    ensures 0 <= Left(inFlight, v, c) + LeastLeft(c)
  {
    FewerHaveRead(inFlight, 1);
    FewerHaveRead(inFlight, 2);
    FewerHaveRead(inFlight, 3);
    FewerHaveRead(inFlight, 4);
    PotentialIsBounded(c - |inFlight|, v, |HaveRead(inFlight, 1)|, |HaveRead(inFlight, 2)|, |HaveRead(inFlight, 3)|,
                       |HaveRead(inFlight, 4)|, c);
  }

  function LeastLeft(c: nat): nat {
    c + Tri(c) + Tet(c) + Pen(c)
  }

  lemma PotentialIsBounded(f: nat, v: int, k1: nat, k2: nat, k3: nat, k4: nat, c: nat)
    requires k1 + f <= c && k2 + f <= c && k3 + f <= c && k4 <= c
    ensures 0 <= Potential(f, v, k1, k2, k3, k4) + LeastLeft(c)
  {
    Monotone(Lost(f, v, k1, 1), c);
    Monotone(Lost(f, v, k2, 2), c);
    Monotone(Lost(f, v, k3, 3), c);
  }

  /** The most passwords that can be verified before the account locks, starting from a clean
      row, with at most `c` guesses uncounted at a time: 5 in turn, 16 in pairs, and so on. */
  function MaxGuesses(c: nat): nat {
    c + LeastLeft(c)
  }

  lemma GuessesBeforeLock(rt: Runtime, st: Store, moves: seq<Move>, uid: Uuid)
    requires uid in st.users && st.users[uid].failedLoginCount == 0
    ensures var t := Play(rt, World(st, map[]), moves, uid);
            t.locked || t.guesses <= MaxGuesses(t.overlap)
    ensures MaxGuesses(1) == LOCKOUT_THRESHOLD && MaxGuesses(2) == 16
  {
    var w := World(st, map[]);
    assert HaveRead(map[], 1) == {} && HaveRead(map[], 2) == {} && HaveRead(map[], 3) == {} && HaveRead(map[], 4) == {};
    if !Play(rt, w, moves, uid).locked {
      GuessesUseUpPotential(rt, w, moves, uid, Play(rt, w, moves, uid).overlap);
    }
    assert Tri(1) == 1 && Tet(1) == 1 && Pen(1) == 1;
    assert Tri(2) == 3 && Tet(2) == 4 && Pen(2) == 5;
  }

  // ---------- and it is attained ----------

  /** From `w`, `moves` lead to `w'` with `g` guesses, at most `c` at a time, and no lock. */
  ghost predicate Leads(rt: Runtime, w: World, moves: seq<Move>, w': World, g: int, uid: Uuid, c: nat) {
    var t := Play(rt, w, moves, uid);
    t.end == w' && t.guesses == g && t.overlap <= c && !t.locked
  }

  lemma {:induction false} LeadsOn(rt: Runtime, w: World, moves: seq<Move>, w': World, g: int,
                                   more: seq<Move>, w'': World, g': int, uid: Uuid, c: nat)
    requires Leads(rt, w, moves, w', g, uid, c) && Leads(rt, w', more, w'', g', uid, c)
    ensures Leads(rt, w, moves + more, w'', g + g', uid, c)
    decreases |moves|
  {
    if moves == [] {
      assert moves + more == more;
    } else {
      assert (moves + more)[1..] == moves[1..] + more;
      LeadsOn(rt, Next(rt, w, moves[0], uid), moves[1..], w', g - Tried(rt, w, moves[0], uid), more, w'', g', uid, c);
    }
  }

  /** One move, and on. */
  lemma ThenLeads(rt: Runtime, w: World, m: Move, w': World, more: seq<Move>, w'': World, g: int, uid: Uuid, c: nat)
    requires |w.inFlight| <= c && !Locks(w, m) && Next(rt, w, m, uid) == w' && Leads(rt, w', more, w'', g, uid, c)
    ensures Leads(rt, w, [m] + more, w'', Tried(rt, w, m, uid) + g, uid, c)
  {
    assert ([m] + more)[1..] == more;
  }

  lemma NowhereLeads(rt: Runtime, w: World, uid: Uuid, c: nat)
    requires |w.inFlight| <= c
    ensures Leads(rt, w, [], w, 0, uid, c)
  {
  }

  /** A wrong password for an account that is active and not locked. */
  ghost predicate WrongFor(rt: Runtime, u: User, password: string, t: Time) {
    u.isActive && !IsLocked(u, t) && !rt.verifyPassword(password, u.passwordHash)
  }

  function WithCount(st: Store, uid: Uuid, u: User, v: int): Store {
    WithUser(st, uid, u.(failedLoginCount := v))
  }

  ghost predicate FreeBelow(inFlight: map<nat, Guess>, n: nat) {
    forall id :: id in inFlight ==> n <= id
  }

  lemma NoteGuess(rt: Runtime, st: Store, uid: Uuid, password: string, g: Guess, inFlight: map<nat, Guess>, id: nat)
    requires Reads(rt, st, uid, password, g) && id !in inFlight
    ensures var w, m := World(st, inFlight), Verify(id, password, g.at);
            Tried(rt, w, m, uid) == 1 && Next(rt, w, m, uid) == World(st, inFlight[id := g])
  {
  }

  /** `g` is what a wrong guess reads now. */
  ghost predicate Reads(rt: Runtime, st: Store, uid: Uuid, password: string, g: Guess) {
    uid in st.users && st.users[uid] == g.seen && WrongFor(rt, g.seen, password, g.at)
  }

  /** `inFlight`, and `g` under every number below `n`. */
  function Filled(inFlight: map<nat, Guess>, g: Guess, n: nat): map<nat, Guess>
    decreases n
  {
    if n == 0 then inFlight else Filled(inFlight[n - 1 := g], g, n - 1)
  }

  /** `inFlight` without the numbers from `lo` below `hi`. */
  function Emptied(inFlight: map<nat, Guess>, lo: nat, hi: nat): map<nat, Guess>
    decreases hi - lo
  {
    if lo >= hi then inFlight else Emptied(inFlight - {lo}, lo + 1, hi)
  }

  lemma {:induction false} FilledFacts(inFlight: map<nat, Guess>, g: Guess, n: nat)
    requires FreeBelow(inFlight, n)
    ensures var filled := Filled(inFlight, g, n);
            && (forall id: nat :: id in filled <==> id < n || id in inFlight)
            && (forall id :: id in filled ==> filled[id] == if id < n then g else inFlight[id])
            && |filled| == |inFlight| + n
    decreases n
  {
    if n > 0 {
      FilledFacts(inFlight[n - 1 := g], g, n - 1);
    }
  }

  lemma {:induction false} EmptiedFacts(inFlight: map<nat, Guess>, lo: nat, hi: nat)
    ensures var emptied := Emptied(inFlight, lo, hi);
            && (forall id: nat :: id in emptied <==> id in inFlight && !(lo <= id < hi))
            && (forall id :: id in emptied ==> emptied[id] == inFlight[id])
    decreases hi - lo
  {
    if lo < hi {
      var rest := inFlight - {lo};
      EmptiedFacts(rest, lo + 1, hi);
      assert forall id: nat :: id in rest <==> id in inFlight && id != lo;
    }
  }

  lemma EmptiedUndoesFilled(held: map<nat, Guess>, g: Guess, n: nat)
    requires FreeBelow(held, n)
    ensures Emptied(Filled(held, g, n), 0, n) == held
  {
    FilledFacts(held, g, n);
    EmptiedFacts(Filled(held, g, n), 0, n);
  }

  /** Verify `n` guesses. */
  lemma {:induction false} VerifyMany(rt: Runtime, st: Store, uid: Uuid, password: string, g: Guess,
                                      inFlight: map<nat, Guess>, n: nat, c: nat) returns (moves: seq<Move>)
    requires Reads(rt, st, uid, password, g) && FreeBelow(inFlight, n) && |inFlight| + n <= c
    ensures Leads(rt, World(st, inFlight), moves, World(st, Filled(inFlight, g, n)), n, uid, c)
    decreases n
  {
    if n == 0 {
      moves := [];
      NowhereLeads(rt, World(st, inFlight), uid, c);
    } else {
      var id, goal := n - 1, World(st, Filled(inFlight, g, n));
      var more := VerifyMany(rt, st, uid, password, g, inFlight[id := g], id, c);
      NoteGuess(rt, st, uid, password, g, inFlight, id);
      ThenLeads(rt, World(st, inFlight), Verify(id, password, g.at), World(st, inFlight[id := g]), more, goal, id,
                uid, c);
      moves := [Verify(id, password, g.at)] + more;
    }
  }

  /** The guesses of the following strategy, with `f` at a time and the row at `v`: verify all,
      then count them one by one, each time using the free places to go on from `v + 1`. */
  function Yield(f: nat, v: nat): nat
    decreases 4 - v, 1, 0
  {
    if v >= 4 then 0 else f + Yields(v, f)
  }

  function Yields(v: nat, j: nat): nat
    requires v < 4
    decreases 4 - v, 0, j
  {
    if j == 0 then 0 else Yields(v, j - 1) + Yield(j, v + 1)
  }

  lemma {:induction false} YieldIs(f: nat)
    ensures Yields(3, f) == 0
    ensures Yields(2, f) == Tri(f)
    ensures Yields(1, f) == Tri(f) + Tet(f)
    ensures Yields(0, f) == Tri(f) + Tet(f) + Pen(f)
    ensures Yield(f, 0) == LeastLeft(f)
  {
    if f > 0 {
      YieldIs(f - 1);
    }
  }

  lemma CountSetsRow(rt: Runtime, st: Store, uid: Uuid, u: User, v: int, t: Time, was: int,
                     inFlight: map<nat, Guess>, id: nat)
    requires id in inFlight && inFlight[id] == Guess(u.(failedLoginCount := v), t) && v + 1 < LOCKOUT_THRESHOLD
    ensures Next(rt, World(WithCount(st, uid, u, was), inFlight), Count(id), uid) ==
            World(WithCount(st, uid, u, v + 1), inFlight - {id})
  {
    var row, row' := u.(failedLoginCount := was), u.(failedLoginCount := v + 1);
    assert Counted(row, inFlight[id]) == row';
    assert st.users[uid := row][uid := row'] == st.users[uid := row'];
  }

  /** One count in front of moves that lead on. */
  lemma CountLeads(rt: Runtime, st: Store, uid: Uuid, u: User, v: int, t: Time, was: int, inFlight: map<nat, Guess>,
                   id: nat, more: seq<Move>, goal: World, n: int, c: nat)
    requires id in inFlight && inFlight[id] == Guess(u.(failedLoginCount := v), t) && |inFlight| <= c
    requires v + 1 < LOCKOUT_THRESHOLD
    requires Leads(rt, World(WithCount(st, uid, u, v + 1), inFlight - {id}), more, goal, n, uid, c)
    ensures Leads(rt, World(WithCount(st, uid, u, was), inFlight), [Count(id)] + more, goal, n, uid, c)
  {
    CountSetsRow(rt, st, uid, u, v, t, was, inFlight, id);
    ThenLeads(rt, World(WithCount(st, uid, u, was), inFlight), Count(id),
              World(WithCount(st, uid, u, v + 1), inFlight - {id}), more, goal, n, uid, c);
  }

  lemma {:induction false} Exhaust(rt: Runtime, st: Store, uid: Uuid, u: User, password: string, t: Time,
                                   held: map<nat, Guess>, f: nat, v: nat, c: nat) returns (moves: seq<Move>)
    requires WrongFor(rt, u, password, t) && FreeBelow(held, f) && |held| + f <= c && v <= 4
    ensures Leads(rt, World(WithCount(st, uid, u, v), held), moves,
                  World(WithCount(st, uid, u, if f == 0 then v else 4), held), Yield(f, v), uid, c)
    decreases 4 - v, 1, 0
  {
    var g, start := Guess(u.(failedLoginCount := v), t), World(WithCount(st, uid, u, v), held);
    if v == 4 {
      moves := [];
      NowhereLeads(rt, start, uid, c);
    } else {
      var all := Filled(held, g, f);
      FilledFacts(held, g, f);
      EmptiedUndoesFilled(held, g, f);
      var verifies := VerifyMany(rt, start.st, uid, password, g, held, f, c);
      var releases := Release(rt, st, uid, u, password, t, v, all, 0, f, v, c);
      LeadsOn(rt, start, verifies, World(start.st, all), f, releases,
              World(WithCount(st, uid, u, if f == 0 then v else 4), held), Yields(v, f), uid, c);
      moves := verifies + releases;
    }
  }

  /** The counts of the strategy from number `i` on, and what they make room for. */
  lemma {:induction false} Release(rt: Runtime, st: Store, uid: Uuid, u: User, password: string, t: Time, was: int,
                                   inFlight: map<nat, Guess>, i: nat, f: nat, v: nat, c: nat)
    returns (moves: seq<Move>)
    requires WrongFor(rt, u, password, t) && v < 4 && i <= f && FreeBelow(inFlight, i) && |inFlight| + i <= c
    requires forall id :: i <= id < f ==> id in inFlight && inFlight[id] == Guess(u.(failedLoginCount := v), t)
    ensures Leads(rt, World(WithCount(st, uid, u, was), inFlight), moves,
                  World(WithCount(st, uid, u, if i == f then was else 4), Emptied(inFlight, i, f)),
                  Yields(v, f) - Yields(v, i), uid, c)
    decreases 4 - v, 0, f - i
  {
    if i == f {
      moves := [];
      NowhereLeads(rt, World(WithCount(st, uid, u, was), inFlight), uid, c);
    } else {
      var rest := inFlight - {i};
      var goal := World(WithCount(st, uid, u, 4), Emptied(inFlight, i, f));
      assert inFlight.Keys == rest.Keys + {i};
      var on := Exhaust(rt, st, uid, u, password, t, rest, i + 1, v + 1, c);
      var more := Release(rt, st, uid, u, password, t, 4, rest, i + 1, f, v, c);
      LeadsOn(rt, World(WithCount(st, uid, u, v + 1), rest), on, World(WithCount(st, uid, u, 4), rest),
              Yield(i + 1, v + 1), more, goal, Yields(v, f) - Yields(v, i + 1), uid, c);
      CountLeads(rt, st, uid, u, v, t, was, inFlight, i, on + more, goal, Yields(v, f) - Yields(v, i), c);
      moves := [Count(i)] + (on + more);
    }
  }

  lemma SameCount(st: Store, uid: Uuid)
    requires uid in st.users
    ensures WithCount(st, uid, st.users[uid], st.users[uid].failedLoginCount) == st
  {
    assert st.users[uid := st.users[uid]] == st.users;
  }

  /** Down to a row at 4, and then all at once. */
  lemma WorstCase(rt: Runtime, st: Store, uid: Uuid, u: User, password: string, t: Time, c: nat)
    returns (moves: seq<Move>)
    requires WrongFor(rt, u, password, t)
    ensures var v := if c == 0 then 0 else 4;
            Leads(rt, World(WithCount(st, uid, u, 0), map[]), moves,
                  World(WithCount(st, uid, u, v), Filled(map[], Guess(u.(failedLoginCount := v), t), c)),
                  Yield(c, 0) + c, uid, c)
  {
    var v := if c == 0 then 0 else 4;
    var g, mid := Guess(u.(failedLoginCount := v), t), World(WithCount(st, uid, u, v), map[]);
    var lower := Exhaust(rt, st, uid, u, password, t, map[], c, 0, c);
    var last := VerifyMany(rt, mid.st, uid, password, g, map[], c, c);
    LeadsOn(rt, World(WithCount(st, uid, u, 0), map[]), lower, mid, Yield(c, 0), last,
            World(mid.st, Filled(map[], g, c)), c, uid, c);
    moves := lower + last;
  }

  /** The bound is exact, for every degree of overlap. */
  lemma GuessesBeforeLockAttained(rt: Runtime, st: Store, uid: Uuid, password: string, t: Time, c: nat)
    returns (moves: seq<Move>)
    requires uid in st.users && st.users[uid].failedLoginCount == 0 && WrongFor(rt, st.users[uid], password, t)
    ensures var tally := Play(rt, World(st, map[]), moves, uid);
            !tally.locked && tally.overlap <= c && tally.guesses == MaxGuesses(c)
  {
    SameCount(st, uid);
    moves := WorstCase(rt, st, uid, st.users[uid], password, t, c);
    YieldIs(c);
  }
}
