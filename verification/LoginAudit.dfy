/** Logins taken apart into their two transactions. The session is committed first, the
    `login.success` row second, and anything may happen in between, including the end of the
    process. What does the audit log then say about the sessions logins opened? */
module LoginAudit {
  import opened Model
  import opened Sessions
  import opened Login
  import opened AuditLog
  import opened Requests
  import opened System
  import opened SessionRuns
  import opened EndToEnd

  /** A login that has committed its session and not yet its audit row. */
  datatype Ticket = Ticket(user: Uuid, sid: Uuid, agent: Option<string>)

  /** The store, the logins in flight, and two ledgers: the owner of every session a login has
      opened, and for every row a login has reported (by position) the session it stands for. */
  datatype World = World(st: Store, inFlight: map<nat, Ticket>, owners: map<Uuid, Uuid>, backing: map<nat, Uuid>)

  datatype Move =
    | LoginCommit(id: nat, request: Attempt, at: Time)   // the first transaction of login `id`
    | Report(id: nat, at: Time)                          // its second
    | Die(id: nat)                                       // or none
    | Other(e: Event)                                    // any step of anything else

  predicate IsSuccess(row: AuditRow) {
    row.action == "login.success"
  }

  /** Only the login route writes success rows. */
  predicate Foreign(e: Event) {
    e.op.WriteAudit? ==> !IsSuccess(e.op.row)
  }

  function CookieLogin(request: Attempt): Attempt {
    request.(transport := Cookie)
  }

  function CommitEvent(request: Attempt, at: Time): Event {
    Event(at, LoginAttempt(CookieLogin(request)))
  }

  function ReportEvent(t: Ticket, at: Time): Event {
    Event(at, WriteAudit(LoginSuccessRow(t.user, t.agent)))
  }

  ghost function Next(rt: Runtime, w: World, m: Move): World {
    match m
    case LoginCommit(id, request, at) => if id in w.inFlight then w else Committed(rt, w, id, request, at)
    case Report(id, at) => if id in w.inFlight then Reported(rt, w, id, at) else w
    case Die(id) => w.(inFlight := w.inFlight - {id})
    case Other(e) => if Foreign(e) then w.(st := Step(rt, w.st, e)) else w
  }

  ghost function Committed(rt: Runtime, w: World, id: nat, request: Attempt, at: Time): World {
    var after := w.(st := Step(rt, w.st, CommitEvent(request, at)));
    match LoginOutcome(rt, w.st, CookieLogin(request), at)
    case LoginSuccess(user, _, sid) =>
      after.(inFlight := w.inFlight[id := Ticket(user, sid, request.agent)], owners := w.owners[sid := user])
    case _ => after
  }

  ghost function Reported(rt: Runtime, w: World, id: nat, at: Time): World
    requires id in w.inFlight
  {
    World(Step(rt, w.st, ReportEvent(w.inFlight[id], at)), w.inFlight - {id}, w.owners,
          w.backing[|w.st.audit| := w.inFlight[id].sid])
  }

  ghost function Play(rt: Runtime, w: World, moves: seq<Move>): World
    decreases |moves|
  {
    if moves == [] then w else Play(rt, Next(rt, w, moves[0]), moves[1..])
  }

  /** Nothing in flight, nothing on the ledgers. */
  function Start(st: Store): World {
    World(st, map[], map[], map[])
  }

  // ---------- the moves are steps of the system ----------

  function EventsOf(w: World, m: Move): seq<Event> {
    match m
    case LoginCommit(id, request, at) => if id in w.inFlight then [] else [CommitEvent(request, at)]
    case Report(id, at) => if id in w.inFlight then [ReportEvent(w.inFlight[id], at)] else []
    case Die(_) => []
    case Other(e) => if Foreign(e) then [e] else []
  }

  ghost function Trace(rt: Runtime, w: World, moves: seq<Move>): seq<Event>
    decreases |moves|
  {
    if moves == [] then [] else EventsOf(w, moves[0]) + Trace(rt, Next(rt, w, moves[0]), moves[1..])
  }

  lemma NextIsARun(rt: Runtime, w: World, m: Move)
    ensures Next(rt, w, m).st == Run(rt, w.st, EventsOf(w, m))
  {
    if EventsOf(w, m) != [] {
      RunOfOne(rt, w.st, EventsOf(w, m)[0]);
    }
  }

  lemma {:induction false} PlayIsARun(rt: Runtime, w: World, moves: seq<Move>)
    ensures Play(rt, w, moves).st == Run(rt, w.st, Trace(rt, w, moves))
    decreases |moves|
  {
    if moves != [] {
      NextIsARun(rt, w, moves[0]);
      PlayIsARun(rt, Next(rt, w, moves[0]), moves[1..]);
      RunAppend(rt, w.st, EventsOf(w, moves[0]), Trace(rt, Next(rt, w, moves[0]), moves[1..]));
    }
  }

  // ---------- conservation ----------

  /** The success rows of `u` from position `base` on. */
  function SuccessRows(audit: seq<AuditRow>, base: nat, u: Uuid): set<nat> {
    set i: nat | base <= i < |audit| && IsSuccess(audit[i]) && audit[i].userId == Some(u)
  }

  function LoginsInFlight(w: World, u: Uuid): set<nat> {
    set id | id in w.inFlight && w.inFlight[id].user == u
  }

  /** The move is a login of `u` that succeeds. */
  ghost predicate LogsIn(rt: Runtime, w: World, m: Move, u: Uuid) {
    && m.LoginCommit? && m.id !in w.inFlight
    && var r := LoginOutcome(rt, w.st, CookieLogin(m.request), m.at); r.LoginSuccess? && r.user == u
  }

  /** The move ends a login of `u` before its report. */
  predicate Loses(w: World, m: Move, u: Uuid) {
    m.Die? && m.id in w.inFlight && w.inFlight[m.id].user == u
  }

  ghost function Logins(rt: Runtime, w: World, moves: seq<Move>, u: Uuid): nat
    decreases |moves|
  {
    if moves == [] then 0
    else (if LogsIn(rt, w, moves[0], u) then 1 else 0) + Logins(rt, Next(rt, w, moves[0]), moves[1..], u)
  }

  ghost function Deaths(rt: Runtime, w: World, moves: seq<Move>, u: Uuid): nat
    decreases |moves|
  {
    if moves == [] then 0
    else (if Loses(w, moves[0], u) then 1 else 0) + Deaths(rt, Next(rt, w, moves[0]), moves[1..], u)
  }

  /** `sid` is a session some login opened for `u`. */
  predicate OpenedFor(w: World, sid: Uuid, u: Uuid) {
    sid in w.owners && w.owners[sid] == u
  }

  /** The sessions logins have opened are new since `start`, and still stored for their users. */
  ghost predicate LedgerOk(start: Store, w: World) {
    && start.sessions.Keys <= w.st.sessions.Keys
    && forall sid :: sid in w.owners ==>
         && sid !in start.sessions && sid in w.st.sessions
         && w.st.sessions[sid].userId == w.owners[sid] && w.owners[sid] in w.st.users
  }

  /** The logins in flight stand for different sessions of their users. */
  ghost predicate TicketsOk(w: World) {
    && (forall id :: id in w.inFlight ==>
          OpenedFor(w, w.inFlight[id].sid, w.inFlight[id].user) && FitsIfAny(w.inFlight[id].agent, USER_AGENT_WIDTH))
    && (forall id, id' :: id in w.inFlight && id' in w.inFlight && w.inFlight[id].sid == w.inFlight[id'].sid ==>
          id == id')
  }

  /** The success rows written since `start` stand for different sessions of their users. */
  ghost predicate RowsOk(start: Store, w: World) {
    && start.audit <= w.st.audit
    && (forall i :: i in w.backing <==> |start.audit| <= i < |w.st.audit| && IsSuccess(w.st.audit[i]))
    && (forall i :: i in w.backing ==>
          w.backing[i] in w.owners && w.st.audit[i].userId == Some(w.owners[w.backing[i]]))
    && (forall i, j :: i in w.backing && j in w.backing && w.backing[i] == w.backing[j] ==> i == j)
  }

  /** And no session is both reported and in flight. */
  ghost predicate Matched(start: Store, w: World) {
    && LedgerOk(start, w) && TicketsOk(w) && RowsOk(start, w)
    && forall i, id :: i in w.backing && id in w.inFlight ==> w.backing[i] != w.inFlight[id].sid
  }

  /** A step keeps stored sessions with their owners, and users. */
  lemma StepKeepsLedger(rt: Runtime, start: Store, w: World, e: Event)
    requires LedgerOk(start, w)
    ensures LedgerOk(start, w.(st := Step(rt, w.st, e)))
  {
    var w' := w.(st := Step(rt, w.st, e));
    forall sid | sid in w.st.sessions
      ensures sid in w'.st.sessions && w'.st.sessions[sid].userId == w.st.sessions[sid].userId
    {
      StepRow(rt, w.st, e, sid);
    }
    forall u | u in w.st.users
      ensures u in w'.st.users
    {
      StepUser(rt, w.st, e, u);
    }
  }

  /** A new session, and its ticket. */
  lemma TicketKeepsMatched(start: Store, w: World, st': Store, id: nat, t: Ticket)
    requires Matched(start, w) && id !in w.inFlight
    requires LedgerOk(start, w.(st := st')) && st'.audit == w.st.audit
    requires t.sid !in w.st.sessions && t.sid in st'.sessions && st'.sessions[t.sid].userId == t.user
    requires t.user in st'.users && FitsIfAny(t.agent, USER_AGENT_WIDTH)
    ensures Matched(start, World(st', w.inFlight[id := t], w.owners[t.sid := t.user], w.backing))
  {
    var w' := World(st', w.inFlight[id := t], w.owners[t.sid := t.user], w.backing);
    assert t.sid !in w.owners && t.sid !in start.sessions;
    assert forall i :: i in w.inFlight ==> w.inFlight[i].sid != t.sid by {
      forall i | i in w.inFlight
        ensures w.inFlight[i].sid != t.sid
      {
        assert OpenedFor(w, w.inFlight[i].sid, w.inFlight[i].user);
      }
    }
    assert TicketsOk(w');
    assert RowsOk(start, w');
  }

  /** A ticket becomes a row. */
  lemma RowKeepsMatched(start: Store, w: World, st': Store, id: nat)
    requires Matched(start, w) && id in w.inFlight
    requires LedgerOk(start, w.(st := st'))
    requires st'.audit == w.st.audit + [LoginSuccessRow(w.inFlight[id].user, w.inFlight[id].agent)]
    ensures Matched(start, World(st', w.inFlight - {id}, w.owners, w.backing[|w.st.audit| := w.inFlight[id].sid]))
  {
    var w' := World(st', w.inFlight - {id}, w.owners, w.backing[|w.st.audit| := w.inFlight[id].sid]);
    assert OpenedFor(w, w.inFlight[id].sid, w.inFlight[id].user);
    RowIsBacked(start, w, st', w.inFlight[id]);
    assert TicketsOk(w');
  }

  lemma RowIsBacked(start: Store, w: World, st': Store, t: Ticket)
    requires RowsOk(start, w) && OpenedFor(w, t.sid, t.user)
    requires st'.audit == w.st.audit + [LoginSuccessRow(t.user, t.agent)]
    requires forall i :: i in w.backing ==> w.backing[i] != t.sid
    ensures RowsOk(start, World(st', w.inFlight, w.owners, w.backing[|w.st.audit| := t.sid]))
  {
    var n := |w.st.audit|;
    assert n !in w.backing && IsSuccess(st'.audit[n]);
    assert forall i :: i in w.backing ==> i < n && st'.audit[i] == w.st.audit[i];
  }

  lemma CommitKeepsMatched(rt: Runtime, start: Store, w: World, id: nat, request: Attempt, at: Time)
    requires Matched(start, w) && id !in w.inFlight
    ensures Matched(start, Committed(rt, w, id, request, at))
  {
    var a, e := CookieLogin(request), CommitEvent(request, at);
    var st', r := Step(rt, w.st, e), LoginOutcome(rt, w.st, a, at);
    StepKeepsLedger(rt, start, w, e);
    LoginFrame(rt, w.st, a, at);
    assert st' == AfterLogin(rt, w.st, a, at);
    LoginSessions(rt, w.st, a, at);
    if r.LoginSuccess? {
      LoginKeepsIdentity(rt, w.st, a, at, r.user);
      TicketKeepsMatched(start, w, st', id, Ticket(r.user, a.sid, a.agent));
    }
  }

  lemma ReportKeepsMatched(rt: Runtime, start: Store, w: World, id: nat, at: Time)
    requires Matched(start, w) && id in w.inFlight
    ensures Matched(start, Reported(rt, w, id, at))
    ensures var t := w.inFlight[id];
            Reported(rt, w, id, at).st.audit == w.st.audit + [LoginSuccessRow(t.user, t.agent)]
  {
    var e := ReportEvent(w.inFlight[id], at);
    StepKeepsLedger(rt, start, w, e);
    StepAudit(rt, w.st, e);
    assert OpenedFor(w, w.inFlight[id].sid, w.inFlight[id].user);
    RowKeepsMatched(start, w, Step(rt, w.st, e), id);
  }

  lemma OtherKeepsMatched(rt: Runtime, start: Store, w: World, e: Event)
    requires Matched(start, w) && Foreign(e)
    ensures Matched(start, w.(st := Step(rt, w.st, e)))
  {
    StepKeepsLedger(rt, start, w, e);
    StepAudit(rt, w.st, e);
  }

  lemma NextKeepsMatched(rt: Runtime, start: Store, w: World, m: Move)
    requires Matched(start, w)
    ensures Matched(start, Next(rt, w, m))
  {
    match m
    case LoginCommit(id, request, at) => if id !in w.inFlight { CommitKeepsMatched(rt, start, w, id, request, at); }
    case Report(id, at) => if id in w.inFlight { ReportKeepsMatched(rt, start, w, id, at); }
    case Die(id) =>
    case Other(e) => if Foreign(e) { OtherKeepsMatched(rt, start, w, e); }
  }

  /** Rows of `u` plus logins of `u` still in flight. */
  function Load(start: Store, w: World, u: Uuid): nat {
    |SuccessRows(w.st.audit, |start.audit|, u)| + |LoginsInFlight(w, u)|
  }

  lemma SameRows(audit: seq<AuditRow>, row: AuditRow, base: nat, u: Uuid)
    requires base <= |audit|
    ensures SuccessRows(audit + [row], base, u) ==
            SuccessRows(audit, base, u) + if IsSuccess(row) && row.userId == Some(u) then {|audit|} else {}
  {
  }

  lemma CommitLoad(rt: Runtime, start: Store, w: World, id: nat, request: Attempt, at: Time, u: Uuid)
    requires id !in w.inFlight
    ensures Load(start, Committed(rt, w, id, request, at), u) ==
            Load(start, w, u) + if LogsIn(rt, w, LoginCommit(id, request, at), u) then 1 else 0
  {
    var w' := Committed(rt, w, id, request, at);
    StepAudit(rt, w.st, CommitEvent(request, at));
    if LoginOutcome(rt, w.st, CookieLogin(request), at).LoginSuccess? {
      assert w'.inFlight - {id} == w.inFlight;
      EndsFlight(w', w, id, u);
    } else {
      assert LoginsInFlight(w', u) == LoginsInFlight(w, u);
    }
  }

  lemma ReportLoad(rt: Runtime, start: Store, w: World, id: nat, at: Time, u: Uuid)
    requires Matched(start, w) && id in w.inFlight
    ensures Load(start, Reported(rt, w, id, at), u) == Load(start, w, u)
  {
    var w' := Reported(rt, w, id, at);
    var row := LoginSuccessRow(w.inFlight[id].user, w.inFlight[id].agent);
    ReportKeepsMatched(rt, start, w, id, at);
    SameRows(w.st.audit, row, |start.audit|, u);
    EndsFlight(w, w', id, u);
  }

  lemma EndsFlight(w: World, w': World, id: nat, u: Uuid)
    requires id in w.inFlight && w'.inFlight == w.inFlight - {id}
    ensures |LoginsInFlight(w, u)| == |LoginsInFlight(w', u)| + if w.inFlight[id].user == u then 1 else 0
  {
    assert LoginsInFlight(w, u) == LoginsInFlight(w', u) + if w.inFlight[id].user == u then {id} else {};
  }

  lemma OtherLoad(rt: Runtime, start: Store, w: World, e: Event, u: Uuid)
    requires |start.audit| <= |w.st.audit| && Foreign(e)
    ensures Load(start, w.(st := Step(rt, w.st, e)), u) == Load(start, w, u)
  {
    StepAudit(rt, w.st, e);
    if e.op.WriteAudit? {
      SameRows(w.st.audit, e.op.row, |start.audit|, u);
    }
    assert LoginsInFlight(w.(st := Step(rt, w.st, e)), u) == LoginsInFlight(w, u);
  }

  lemma NextLoad(rt: Runtime, start: Store, w: World, m: Move, u: Uuid)
    requires Matched(start, w)
    ensures Load(start, Next(rt, w, m), u) + (if Loses(w, m, u) then 1 else 0) ==
            Load(start, w, u) + if LogsIn(rt, w, m, u) then 1 else 0
  {
    match m
    case LoginCommit(id, request, at) => if id !in w.inFlight { CommitLoad(rt, start, w, id, request, at, u); }
    case Report(id, at) => if id in w.inFlight { ReportLoad(rt, start, w, id, at, u); }
    case Die(id) =>
      if id in w.inFlight {
        EndsFlight(w, Next(rt, w, m), id, u);
      } else {
        assert w.inFlight - {id} == w.inFlight;
      }
    case Other(e) => if Foreign(e) { OtherLoad(rt, start, w, e, u); }
  }

  lemma {:induction false} LoginsAreConserved(rt: Runtime, start: Store, w: World, moves: seq<Move>, u: Uuid)
    requires Matched(start, w)
    ensures Matched(start, Play(rt, w, moves))
    ensures Load(start, Play(rt, w, moves), u) + Deaths(rt, w, moves, u) == Load(start, w, u) + Logins(rt, w, moves, u)
    decreases |moves|
  {
    if moves != [] {
      NextKeepsMatched(rt, start, w, moves[0]);
      NextLoad(rt, start, w, moves[0], u);
      LoginsAreConserved(rt, start, Next(rt, w, moves[0]), moves[1..], u);
    }
  }

  /** However logins interleave with each other and with everything else, and wherever they
      die: every login of a user is reported, in flight or dead, so the new success rows never
      exceed the logins; and each such row stands for a session of its user that a login of
      this run opened, a different one for every row. */
  lemma SuccessRowsAreBacked(rt: Runtime, st: Store, moves: seq<Move>, u: Uuid)
    ensures var w := Play(rt, Start(st), moves);
            && |SuccessRows(w.st.audit, |st.audit|, u)| + |LoginsInFlight(w, u)| + Deaths(rt, Start(st), moves, u) ==
               Logins(rt, Start(st), moves, u)
            && Matched(st, w)
            && w.st == Run(rt, st, Trace(rt, Start(st), moves))
  {
    assert SuccessRows(st.audit, |st.audit|, u) == {} && LoginsInFlight(Start(st), u) == {};
    LoginsAreConserved(rt, st, Start(st), moves, u);
    PlayIsARun(rt, Start(st), moves);
  }

  // ---------- the route makes these moves ----------

  /** What `POST /login` does as login `id`, with nothing in between. */
  ghost function RouteMoves(rt: Runtime, st: Store, id: nat, request: Attempt, now: Time): seq<Move> {
    var r := LoginOutcome(rt, st, CookieLogin(request), now);
    [LoginCommit(id, request, now)] +
    (if r.LoginRaised? then []
     else if r.LoginSuccess? then [Report(id, now)]
     else [Other(Event(now, WriteAudit(LoginRow(r, request.agent))))])
  }

  /** Uninterrupted, the moves make the commits of the route, in its order: what one move
      leaves is the first durable state, what all leave is what the route leaves. */
  lemma RouteMakesTheseMoves(rt: Runtime, w: World, id: nat, request: Attempt, now: Time)
    requires id !in w.inFlight
    ensures var moves := RouteMoves(rt, w.st, id, request, now);
            && Play(rt, w, moves[..1]).st == AfterLogin(rt, w.st, CookieLogin(request), now)
            && Play(rt, w, moves).st == AfterLoginRoute(rt, w.st, request, now)
            && Play(rt, w, moves).inFlight == w.inFlight
  {
    var moves := RouteMoves(rt, w.st, id, request, now);
    var first := Next(rt, w, moves[0]);
    var r := LoginOutcome(rt, w.st, CookieLogin(request), now);
    PlayOne(rt, w, moves[0]);
    assert moves[..1] == [moves[0]];
    assert first.st == AfterLogin(rt, w.st, CookieLogin(request), now);
    if !r.LoginRaised? {
      LoginRowOk(rt, w.st, CookieLogin(request), now);
      assert moves[1..] == [moves[1]];
      PlayOne(rt, first, moves[1]);
      if r.LoginSuccess? {
        assert first.inFlight - {id} == w.inFlight;
      }
    } else {
      assert moves == [moves[0]];
    }
  }

  lemma PlayOne(rt: Runtime, w: World, m: Move)
    ensures Play(rt, w, [m]) == Next(rt, w, m)
  {
    assert [m][1..] == [];
    assert Play(rt, Next(rt, w, m), []) == Next(rt, w, m);
  }

  /** The route itself, in the world: its commits are those two moves. */
  method ServeLogin(rt: Runtime, db: Db, ghost w: World, ghost id: nat, request: Attempt, now: Time)
    returns (response: LoginResponse)
    requires db.Clean() && EmailsUnique(db.working.users) && db.working == w.st && id !in w.inFlight
    modifies db
    ensures var moves := RouteMoves(rt, w.st, id, request, now);
            && (forall u :: LogsIn(rt, w, moves[0], u) <==> response.Ok? && response.user == u)
            && (response.Ok? ==> db.history == old(db.history) + [Play(rt, w, moves[..1]).st, Play(rt, w, moves).st])
            && db.committed == Play(rt, w, moves).st
  {
    RouteMakesTheseMoves(rt, w, id, request, now);
    response := LoginRoute(rt, db, request, now);
  }
}
