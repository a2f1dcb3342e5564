/** The database the authentication code works on: its tables as values, and the
    unit of work (`AsyncSession`) through which every operation reads and writes them. */
module Model {

  datatype Option<+T> = None | Some(value: T)

  /** Row identifiers; only their equality matters. */
  type Uuid = int

  /** Instants and durations, in microseconds (the resolution of `timestamptz`). */
  type Time = int

  const SECOND: Time := 1_000_000
  const MINUTE: Time := 60 * SECOND
  const DAY: Time := 24 * 60 * MINUTE

  // ---------- rows ----------

  datatype Org = Org(slug: string, name: string, parent: Option<Uuid>)

  datatype User = User(
    email: string, passwordHash: string, name: string, orgId: Uuid, isActive: bool,
    lastLoginAt: Option<Time>, failedLoginCount: int, lockedUntil: Option<Time>)

  /** The composite primary key of `user_roles`. */
  datatype GrantKey = GrantKey(user: Uuid, org: Uuid, role: int)

  datatype Grant = Grant(grantedBy: Option<Uuid>, revokedAt: Option<Time>)

  datatype Transport = Cookie | Bearer

  datatype Session = Session(
    userId: Uuid, tokenHash: string, transport: Transport, userAgent: Option<string>,
    createdAt: Time, expiresAt: Time, lastSeenAt: Time,
    revokedAt: Option<Time>, revokedReason: Option<string>)

  datatype Drone = Drone(orgId: Uuid, slug: string, isActive: bool)

  datatype ApiKey = ApiKey(
    droneId: Uuid, prefix: string, hashedKey: string, keyLabel: string,
    lastUsedAt: Option<Time>, revokedAt: Option<Time>)

  datatype Permission =
    | DroneRead | TelemetryRead | VideoRead | MissionRead
    | MissionWrite | DroneConfigure
    | UserInvite | UserRemove | UserAssignRole | OrgSettings | AuditRead
    | DroneConfigureAdvanced
    | PlatformAuditRead | PlatformOrgManage | PlatformDroneManage | DevDebug

  datatype AuditRow = AuditRow(
    userId: Option<Uuid>, action: string, permission: Option<Permission>,
    targetOrg: Option<Uuid>, matchedRole: Option<int>, matchedOrg: Option<Uuid>,
    decision: string, reason: Option<string>, userAgent: Option<string>)

  /** All tables. A map's key is the table's primary key. */
  datatype Store = Store(
    orgs: map<Uuid, Org>,
    users: map<Uuid, User>,
    roles: map<int, string>,
    grants: map<GrantKey, Grant>,
    sessions: map<Uuid, Session>,
    drones: map<Uuid, Drone>,
    keys: map<Uuid, ApiKey>,
    audit: seq<AuditRow>)

  // ---------- the constraints the schema enforces ----------

  /** What a text column of `width` characters can hold: PostgreSQL has no NUL in text. */
  predicate Fits(s: string, width: nat) {
    |s| <= width && '\0' !in s
  }

  predicate FitsIfAny(s: Option<string>, width: nat) {
    s.Some? ==> Fits(s.value, width)
  }

  const USER_AGENT_WIDTH: nat := 500
  const REVOKED_REASON_WIDTH: nat := 40
  const KEY_LABEL_WIDTH: nat := 80
  const EMAIL_WIDTH: nat := 254
  const NAME_WIDTH: nat := 120
  const SLUG_WIDTH: nat := 60
  const ROLE_NAME_WIDTH: nat := 40
  const ACTION_WIDTH: nat := 60
  const DECISION_WIDTH: nat := 10

  predicate OrgFits(o: Org) {
    Fits(o.slug, SLUG_WIDTH) && Fits(o.name, NAME_WIDTH)
  }

  predicate UserFits(u: User) {
    Fits(u.email, EMAIL_WIDTH) && Fits(u.name, NAME_WIDTH)
  }

  predicate SessionFits(s: Session) {
    FitsIfAny(s.userAgent, USER_AGENT_WIDTH) && FitsIfAny(s.revokedReason, REVOKED_REASON_WIDTH)
  }

  predicate AuditRowFits(row: AuditRow) {
    && Fits(row.action, ACTION_WIDTH) && Fits(row.decision, DECISION_WIDTH)
    && FitsIfAny(row.userAgent, USER_AGENT_WIDTH)
  }

  /** Every text that comes from outside fits its column. Hashes, prefixes and ids have a
      fixed length that does. */
  predicate TextsFit(st: Store) {
    && (forall o :: o in st.orgs ==> OrgFits(st.orgs[o]))
    && (forall u :: u in st.users ==> UserFits(st.users[u]))
    && (forall r :: r in st.roles ==> Fits(st.roles[r], ROLE_NAME_WIDTH))
    && (forall s :: s in st.sessions ==> SessionFits(st.sessions[s]))
    && (forall d :: d in st.drones ==> Fits(st.drones[d].slug, SLUG_WIDTH))
    && (forall k :: k in st.keys ==> Fits(st.keys[k].keyLabel, KEY_LABEL_WIDTH))
  }

  predicate TokensUnique(sessions: map<Uuid, Session>) {
    forall a, b :: a in sessions && b in sessions && sessions[a].tokenHash == sessions[b].tokenHash ==> a == b
  }

  predicate EmailsUnique(users: map<Uuid, User>) {
    forall a, b :: a in users && b in users && users[a].email == users[b].email ==> a == b
  }

  predicate OrgSlugsUnique(orgs: map<Uuid, Org>) {
    forall a, b :: a in orgs && b in orgs && orgs[a].slug == orgs[b].slug ==> a == b
  }

  predicate SameSlug(d: Drone, e: Drone) {
    d.orgId == e.orgId && d.slug == e.slug
  }

  predicate DroneSlugsUnique(drones: map<Uuid, Drone>) {
    forall a, b :: a in drones && b in drones && SameSlug(drones[a], drones[b]) ==> a == b
  }

  predicate RoleNamesUnique(roles: map<int, string>) {
    forall a, b :: a in roles && b in roles && roles[a] == roles[b] ==> a == b
  }

  predicate ForeignKeys(st: Store) {
    && (forall u :: u in st.users ==> st.users[u].orgId in st.orgs)
    && (forall s :: s in st.sessions ==> st.sessions[s].userId in st.users)
    && (forall g :: g in st.grants ==> g.user in st.users && g.org in st.orgs && g.role in st.roles)
    && (forall k :: k in st.keys ==> st.keys[k].droneId in st.drones)
  }

  /** The references of an audit row: `user_id`, `target_org_id`, `matched_role_id`, `matched_org_id`. */
  predicate RefsOk(st: Store, row: AuditRow) {
    && (row.userId.Some? ==> row.userId.value in st.users)
    && (row.targetOrg.Some? ==> row.targetOrg.value in st.orgs)
    && (row.matchedRole.Some? ==> row.matchedRole.value in st.roles)
    && (row.matchedOrg.Some? ==> row.matchedOrg.value in st.orgs)
  }

  /** The database takes the row. */
  predicate RowOk(st: Store, row: AuditRow) {
    AuditRowFits(row) && RefsOk(st, row)
  }

  predicate AuditOk(st: Store) {
    forall row :: row in st.audit ==> RowOk(st, row)
  }

  predicate SchemaOk(st: Store) {
    && TokensUnique(st.sessions)
    && EmailsUnique(st.users)
    && OrgSlugsUnique(st.orgs)
    && DroneSlugsUnique(st.drones)
    && RoleNamesUnique(st.roles)
    && ForeignKeys(st)
    && TextsFit(st)
    && AuditOk(st)
  }

  /** What the database takes as an audit row, with the widths of the migration. */
  lemma RowOkInColumns(st: Store, row: AuditRow)
    ensures RowOk(st, row) <==>
              && |row.action| <= 60 && '\0' !in row.action && |row.decision| <= 10 && '\0' !in row.decision
              && (row.userAgent.Some? ==> |row.userAgent.value| <= 500 && '\0' !in row.userAgent.value)
              && (row.userId.Some? ==> row.userId.value in st.users)
              && (row.targetOrg.Some? ==> row.targetOrg.value in st.orgs)
              && (row.matchedRole.Some? ==> row.matchedRole.value in st.roles)
              && (row.matchedOrg.Some? ==> row.matchedOrg.value in st.orgs)
  {
  }

  /** Audit rows stay valid while the rows they refer to stay. */
  lemma MoreRowsKeepAudit(st: Store, st': Store)
    requires AuditOk(st) && st'.audit == st.audit
    requires forall u :: u in st.users ==> u in st'.users
    requires forall o :: o in st.orgs ==> o in st'.orgs
    requires forall r :: r in st.roles ==> r in st'.roles
    ensures AuditOk(st')
  {
    forall row | row in st'.audit
      ensures RowOk(st', row)
    {
      assert RowOk(st, row);
      if row.userId.Some? {
        var u := row.userId.value;
        assert u in st.users;
      }
      if row.targetOrg.Some? {
        var o := row.targetOrg.value;
        assert o in st.orgs;
      }
      if row.matchedOrg.Some? {
        var o := row.matchedOrg.value;
        assert o in st.orgs;
      }
      if row.matchedRole.Some? {
        var r := row.matchedRole.value;
        assert r in st.roles;
      }
    }
  }

  lemma NewSessionsKeepSchema(st: Store, sessions: map<Uuid, Session>)
    requires SchemaOk(st) && TokensUnique(sessions)
    requires forall s :: s in sessions ==> sessions[s].userId in st.users && SessionFits(sessions[s])
    ensures SchemaOk(st.(sessions := sessions))
  {
    MoreRowsKeepAudit(st, st.(sessions := sessions));
  }

  lemma NewKeysKeepSchema(st: Store, keys: map<Uuid, ApiKey>)
    requires SchemaOk(st)
    requires forall k :: k in keys ==> keys[k].droneId in st.drones && Fits(keys[k].keyLabel, KEY_LABEL_WIDTH)
    ensures SchemaOk(st.(keys := keys))
  {
    MoreRowsKeepAudit(st, st.(keys := keys));
  }

  // ---------- library code the model does not look inside ----------

  /** SHA-256, Argon2 and the Python string functions, as unknown total functions.
      A theorem that needs more of one of them says so in a `requires`. */
  datatype Runtime = Runtime(
    digest: string -> string,
    verifyPassword: (string, string) -> bool,   // plain text, stored hash
    needsRehash: string -> bool,
    hashPassword: (string, nat) -> string,      // plain text, salt
    strip: string -> string,
    lower: string -> string,
    isBase16: string -> bool)                   // does int(s, 16) succeed?
  {
    function Normalize(email: string): string {
      lower(strip(email))
    }
  }

  /** `str.split(c, 1)` cuts here: the index of the first `c`, or the length if there is none. */
  function IndexOf(s: string, c: char): (i: nat)
    ensures i <= |s| && (i < |s| ==> s[i] == c)
    ensures c !in s[..i]
  {
    if s == [] || s[0] == c then 0
    else
      var i := IndexOf(s[1..], c);
      assert s[..i + 1] == [s[0]] + s[1..][..i];
      i + 1
  }

  lemma {:induction false} IndexOfIs(s: string, c: char, i: nat)
    requires i < |s| && s[i] == c && c !in s[..i]
    ensures IndexOf(s, c) == i
  {
    if i > 0 {
      assert s[0] in s[..i] && s[..i][1..] == s[1..][..i - 1];
      IndexOfIs(s[1..], c, i - 1);
    }
  }

  // ---------- the unit of work ----------

  /** One `AsyncSession`. Rows read or changed through it live in `working`; `committed` is
      what every other request sees and what survives the request; `history` is every
      state a commit of this session made durable, oldest first. */
  class Db {
    var committed: Store
    var working: Store
    ghost var history: seq<Store>

    /** `get_db` hands out a session with nothing pending. */
    constructor (st: Store)
      ensures committed == st && working == st && history == []
    {
      committed, working, history := st, st, [];
    }

    ghost predicate Clean()
      reads this
    {
      working == committed
    }

    /** Since the old state, exactly one commit happened and it made `st` durable. */
    twostate predicate Persisted(st: Store)
      reads this
    {
      working == st && committed == st && history == old(history) + [st]
    }

    /** Since the old state nothing was committed; `st` is pending. */
    twostate predicate Unsaved(st: Store)
      reads this
    {
      working == st && committed == old(committed) && history == old(history)
    }

    method Commit()
      modifies this
      ensures Persisted(old(working))
    {
      committed := working;
      history := history + [working];
    }

    /** What an exception or the end of the request does to pending work. */
    method Rollback()
      modifies this
      ensures Unsaved(old(committed))
    {
      working := committed;
    }
  }

  /** Rows come back from a query in an order nobody promises. */
  method Scan<K(==)>(rows: set<K>) returns (order: seq<K>)
    ensures forall k :: k in order <==> k in rows
    ensures forall i, j :: 0 <= i < j < |order| ==> order[i] != order[j]
  {
    order := [];
    var rest := rows;
    while rest != {}
      invariant rest <= rows
      invariant forall k :: k in order <==> k in rows && k !in rest
      invariant forall i, j :: 0 <= i < j < |order| ==> order[i] != order[j]
      decreases rest
    {
      var k :| k in rest;
      order, rest := order + [k], rest - {k};
    }
  }

  lemma SubsetSize<T>(a: set<T>, b: set<T>)
    requires a <= b
    ensures |a| <= |b|
  {
    assert b == a + (b - a);
  }

  // ---------- arithmetic of debounced writes ----------

  /** The time `n` gaps take. */
  function Gaps(gap: Time, n: nat): Time {
    if n == 0 then 0 else Gaps(gap, n - 1) + gap
  }

  lemma {:induction false} GapsIsProduct(gap: Time, n: nat)
    ensures Gaps(gap, n) == gap * n
  {
    if n > 0 {
      GapsIsProduct(gap, n - 1);
      assert gap * n == gap * (n - 1) + gap;
    }
  }

  /** `n` steps of at least `gap` fit between `from` and `to`. */
  predicate Spaced(gap: Time, n: nat, from: Time, to: Time) {
    Gaps(gap, n) <= to - from
  }

  lemma OneMoreGap(gap: Time, n: nat, more: nat, all: nat, from: Time, mid: Time, to: Time)
    requires Spaced(gap, n, mid, to) && all == n + more
    requires if more == 0 then from <= mid else more == 1 && from + gap <= mid
    ensures Spaced(gap, all, from, to)
  {
  }
}
