/** The operator commands: minting a drone's key, and revoking keys by prefix or by drone. */
module KeyCli {
  import opened Model
  import opened ApiKeys

  // ---------- finding the drone ----------

  ghost predicate IsOrgSlug(st: Store, org: Uuid, slug: string) {
    org in st.orgs && st.orgs[org].slug == slug
  }

  ghost predicate IsDroneSlug(st: Store, drone: Uuid, org: Uuid, slug: string) {
    drone in st.drones && st.drones[drone].orgId == org && st.drones[drone].slug == slug
  }

  datatype Target = NoOrg | NoDrone | Found(drone: Uuid)

  /** What the two `scalar_one_or_none` lookups find. */
  ghost predicate Resolves(st: Store, orgSlug: string, droneSlug: string, t: Target) {
    match t
    case NoOrg => forall org :: !IsOrgSlug(st, org, orgSlug)
    case NoDrone => exists org :: IsOrgSlug(st, org, orgSlug) && forall d :: !IsDroneSlug(st, d, org, droneSlug)
    case Found(drone) => exists org :: IsOrgSlug(st, org, orgSlug) && IsDroneSlug(st, drone, org, droneSlug)
  }

  ghost function TargetOf(st: Store, orgSlug: string, droneSlug: string): (t: Target)
    ensures Resolves(st, orgSlug, droneSlug, t)
  {
    if org :| IsOrgSlug(st, org, orgSlug) then
      if drone :| IsDroneSlug(st, drone, org, droneSlug) then Found(drone) else NoDrone
    else NoOrg
  }

  lemma TargetIsUnique(st: Store, orgSlug: string, droneSlug: string, t: Target)
    requires OrgSlugsUnique(st.orgs) && DroneSlugsUnique(st.drones)
    requires Resolves(st, orgSlug, droneSlug, t)
    ensures t == TargetOf(st, orgSlug, droneSlug)
  {
    var t' := TargetOf(st, orgSlug, droneSlug);
    if t.Found? && t'.Found? {
      assert SameSlug(st.drones[t.drone], st.drones[t'.drone]);
    }
  }

  method FindDrone(st: Store, orgSlug: string, droneSlug: string) returns (t: Target)
    requires OrgSlugsUnique(st.orgs) && DroneSlugsUnique(st.drones)
    ensures t == TargetOf(st, orgSlug, droneSlug)
    ensures match t
            case NoOrg => forall org :: org in st.orgs ==> st.orgs[org].slug != orgSlug
            case NoDrone =>
              && (exists org :: org in st.orgs && st.orgs[org].slug == orgSlug)
              && (forall d :: (&& d in st.drones && st.drones[d].orgId in st.orgs
                               && st.orgs[st.drones[d].orgId].slug == orgSlug) ==> st.drones[d].slug != droneSlug)
            case Found(d) =>
              && d in st.drones && st.drones[d].slug == droneSlug
              && st.drones[d].orgId in st.orgs && st.orgs[st.drones[d].orgId].slug == orgSlug
  {
    if org :| org in st.orgs && st.orgs[org].slug == orgSlug {
      assert IsOrgSlug(st, org, orgSlug);
      if drone :| drone in st.drones && st.drones[drone].orgId == org && st.drones[drone].slug == droneSlug {
        assert IsDroneSlug(st, drone, org, droneSlug);
        t := Found(drone);
      } else {
        t := NoDrone;
      }
    } else {
      t := NoOrg;
    }
    TargetIsUnique(st, orgSlug, droneSlug, t);
  }

  // ---------- mint ----------

  predicate IsActiveKey(st: Store, key: Uuid) {
    key in st.keys && st.keys[key].revokedAt.None?
  }

  function ActiveKeysOf(st: Store, drone: Uuid): set<Uuid> {
    set key | key in st.keys && IsActiveKey(st, key) && st.keys[key].droneId == drone
  }

  /** The random draws of one mint: prefix, secret and row id. */
  datatype Draw = Draw(prefix: string, secret: string, key: Uuid)

  /** `SeveralActive` is the exception `scalar_one_or_none` raises on two or more rows;
      `Rejected` is a row id that is already taken, or a label its column cannot hold. */
  datatype MintResult =
    | Minted(raw: string) | MintNoOrg | MintNoDrone | ActiveExists | SeveralActive | Rejected

  ghost function MintOutcome(st: Store, orgSlug: string, droneSlug: string, keyLabel: string, d: Draw): MintResult
  {
    match TargetOf(st, orgSlug, droneSlug)
    case NoOrg => MintNoOrg
    case NoDrone => MintNoDrone
    case Found(drone) =>
      if |ActiveKeysOf(st, drone)| > 1 then SeveralActive
      else if |ActiveKeysOf(st, drone)| == 1 then ActiveExists
      else if d.key in st.keys || !Fits(keyLabel, KEY_LABEL_WIDTH) then Rejected
      else Minted(PrintKey(d.prefix, d.secret))
  }

  ghost function AfterMint(rt: Runtime, st: Store, orgSlug: string, droneSlug: string, keyLabel: string, d: Draw): Store
  {
    var outcome := MintOutcome(st, orgSlug, droneSlug, keyLabel, d);
    if outcome.Minted? then
      st.(keys := st.keys[d.key :=
            ApiKey(TargetOf(st, orgSlug, droneSlug).drone, d.prefix, rt.digest(outcome.raw), keyLabel, None, None)])
    else st
  }

  method Mint(rt: Runtime, db: Db, orgSlug: string, droneSlug: string, keyLabel: string, d: Draw)
    returns (r: MintResult)
    requires OrgSlugsUnique(db.working.orgs) && DroneSlugsUnique(db.working.drones)
    modifies db
    ensures r == MintOutcome(old(db.working), orgSlug, droneSlug, keyLabel, d)
    ensures if r.Minted? then db.Persisted(AfterMint(rt, old(db.working), orgSlug, droneSlug, keyLabel, d))
            else db.Unsaved(if r.Rejected? then old(db.committed) else old(db.working))
    ensures r.Rejected? ==> d.key in old(db.working).keys || |keyLabel| > 80 || '\0' in keyLabel
    ensures r.ActiveExists? || r.SeveralActive? ==> exists k ::
              && k in old(db.working).keys && old(db.working).keys[k].revokedAt.None?
              && TargetOf(old(db.working), orgSlug, droneSlug) == Found(old(db.working).keys[k].droneId)
    ensures r.Minted? ==>
              && r.raw == "sk_drone_" + d.prefix + "_" + d.secret
              && d.key !in old(db.working).keys && |keyLabel| <= 80
              && exists org, drone ::
                   && org in old(db.working).orgs && old(db.working).orgs[org].slug == orgSlug
                   && drone in old(db.working).drones && old(db.working).drones[drone].orgId == org
                   && old(db.working).drones[drone].slug == droneSlug
                   && (forall k :: k in old(db.working).keys && old(db.working).keys[k].droneId == drone ==>
                         old(db.working).keys[k].revokedAt.Some?)
                   && db.working.keys == old(db.working).keys[d.key :=
                        ApiKey(drone, d.prefix, rt.digest(r.raw), keyLabel, None, None)]
  {
    var st := db.working;
    var t := FindDrone(st, orgSlug, droneSlug);
    match t {
      case NoOrg => return MintNoOrg;
      case NoDrone => return MintNoDrone;
      case Found(drone) =>
        var active := ActiveKeysOf(st, drone);
        var existing := |active|;
        if existing > 0 {
          ghost var k :| k in active;
        }
        if existing > 1 {
          return SeveralActive;
        } else if existing == 1 {
          return ActiveExists;
        }
        if d.key in st.keys || !Fits(keyLabel, KEY_LABEL_WIDTH) {
          db.Rollback();
          return Rejected;
        }
        var raw := PrintKey(d.prefix, d.secret);
        db.working := st.(keys := st.keys[d.key := ApiKey(drone, d.prefix, rt.digest(raw), keyLabel, None, None)]);
        db.Commit();
        ghost var org :| IsOrgSlug(st, org, orgSlug) && IsDroneSlug(st, drone, org, droneSlug);
        assert forall k :: k in st.keys && st.keys[k].droneId == drone ==> k !in ActiveKeysOf(st, drone);
        return Minted(raw);
    }
  }

  // ---------- revoke ----------

  /** `UPDATE drone_api_keys SET revoked_at = now()` on the chosen rows. */
  function RevokeKeys(st: Store, chosen: set<Uuid>, now: Time): Store {
    st.(keys := map key | key in st.keys ::
          if key in chosen then st.keys[key].(revokedAt := Some(now)) else st.keys[key])
  }

  function ActiveKeysWith(st: Store, prefix: string): set<Uuid> {
    set key | key in st.keys && IsActiveKey(st, key) && st.keys[key].prefix == prefix
  }

  predicate OthersUntouched(st: Store, after: Store, key: Uuid) {
    forall other :: other in st.keys && other != key ==> other in after.keys && after.keys[other] == st.keys[other]
  }

  /** `--prefix` is documented to revoke a single key. Prefixes are not unique, so it does
      exactly when one active key has the prefix. */
  method RevokeByPrefix(db: Db, prefix: string, now: Time) returns (count: nat)
    modifies db
    ensures count == |ActiveKeysWith(old(db.working), prefix)|
    ensures db.Persisted(RevokeKeys(old(db.working), ActiveKeysWith(old(db.working), prefix), now))
    ensures forall key :: IsActiveKey(old(db.working), key) && old(db.working).keys[key].prefix == prefix ==>
              (OthersUntouched(old(db.working), db.working, key) <==>
                 |ActiveKeysWith(old(db.working), prefix)| == 1)
    ensures db.committed.keys.Keys == old(db.working).keys.Keys
    ensures forall k :: k in old(db.working).keys ==>
              var row := old(db.working).keys[k];
              db.committed.keys[k] ==
              if row.prefix == prefix && row.revokedAt.None? then row.(revokedAt := Some(now)) else row
    ensures count == |set k | k in old(db.working).keys && db.committed.keys[k] != old(db.working).keys[k]|
  {
    ghost var st := db.working;
    var chosen := ActiveKeysWith(db.working, prefix);
    db.working := RevokeKeys(db.working, chosen, now);
    db.Commit();
    count := |chosen|;
    forall key | key in chosen
      ensures OthersUntouched(st, db.working, key) <==> count == 1
    {
      RevokesOneIffUnshared(st, chosen, key, now);
    }
    assert chosen == set k | k in st.keys && db.committed.keys[k] != st.keys[k];
  }

  lemma RevokesOneIffUnshared(st: Store, chosen: set<Uuid>, key: Uuid, now: Time)
    requires key in chosen && forall k :: k in chosen ==> IsActiveKey(st, k)
    ensures OthersUntouched(st, RevokeKeys(st, chosen, now), key) <==> |chosen| == 1
  {
    var after := RevokeKeys(st, chosen, now);
    if OthersUntouched(st, after, key) {
      forall other | other in chosen
        ensures other == key
      {
        assert after.keys[other].revokedAt.Some?;
      }
      assert chosen == {key};
    }
    if |chosen| == 1 {
      assert |chosen - {key}| == 0;
    }
  }

  datatype RevokeResult = RevokeNoOrg | RevokeNoDrone | RevokedCount(count: nat)

  ghost function AfterRevokeByDrone(st: Store, orgSlug: string, droneSlug: string, now: Time): Store {
    match TargetOf(st, orgSlug, droneSlug)
    case Found(drone) => RevokeKeys(st, ActiveKeysOf(st, drone), now)
    case _ => st
  }

  method RevokeByDrone(db: Db, orgSlug: string, droneSlug: string, now: Time) returns (r: RevokeResult)
    requires OrgSlugsUnique(db.working.orgs) && DroneSlugsUnique(db.working.drones)
    modifies db
    ensures r == match TargetOf(old(db.working), orgSlug, droneSlug)
                 case NoOrg => RevokeNoOrg
                 case NoDrone => RevokeNoDrone
                 case Found(drone) => RevokedCount(|ActiveKeysOf(old(db.working), drone)|)
    ensures if r.RevokedCount? then db.Persisted(AfterRevokeByDrone(old(db.working), orgSlug, droneSlug, now))
            else db.Unsaved(old(db.working))
    ensures r.RevokedCount? ==> exists org, drone ::
              && org in old(db.working).orgs && old(db.working).orgs[org].slug == orgSlug
              && drone in old(db.working).drones && old(db.working).drones[drone].orgId == org
              && old(db.working).drones[drone].slug == droneSlug
              && db.committed.keys.Keys == old(db.working).keys.Keys
              && forall k :: k in old(db.working).keys ==>
                   var row := old(db.working).keys[k];
                   db.committed.keys[k] ==
                   if row.droneId == drone && row.revokedAt.None? then row.(revokedAt := Some(now)) else row
    ensures r.RevokedCount? ==>
              r.count == |set k | k in old(db.working).keys && db.committed.keys[k] != old(db.working).keys[k]|
  {
    ghost var st := db.working;
    var t := FindDrone(db.working, orgSlug, droneSlug);
    match t {
      case NoOrg => return RevokeNoOrg;
      case NoDrone => return RevokeNoDrone;
      case Found(drone) =>
        var chosen := ActiveKeysOf(db.working, drone);
        db.working := RevokeKeys(db.working, chosen, now);
        db.Commit();
        assert chosen == set k | k in st.keys && db.committed.keys[k] != st.keys[k];
        return RevokedCount(|chosen|);
    }
  }

  // ---------- steps of the key table ----------

  datatype KeyOp =
    | VerifyKey(raw: string, verdict: KeyVerdict)   // with the verdict the row order led to
    | MintKey(orgSlug: string, droneSlug: string, keyLabel: string, draw: Draw)
    | RevokePrefix(prefix: string)
    | RevokeDrone(orgSlug: string, droneSlug: string)

  ghost function KeyStep(rt: Runtime, st: Store, op: KeyOp, now: Time): map<Uuid, ApiKey> {
    match op
    case VerifyKey(raw, verdict) =>
      if MayJudge(rt, st, raw, verdict) then AfterVerify(st, verdict, now).keys else st.keys
    case MintKey(orgSlug, droneSlug, keyLabel, draw) => AfterMint(rt, st, orgSlug, droneSlug, keyLabel, draw).keys
    case RevokePrefix(prefix) => RevokeKeys(st, ActiveKeysWith(st, prefix), now).keys
    case RevokeDrone(orgSlug, droneSlug) => AfterRevokeByDrone(st, orgSlug, droneSlug, now).keys
  }

  /** The assumption on random keys: a minted key's hash is new. */
  ghost predicate FreshDraw(rt: Runtime, st: Store, op: KeyOp) {
    op.MintKey? ==>
      && IsDraw(op.draw.prefix, op.draw.secret)
      && forall key :: key in st.keys ==> st.keys[key].hashedKey != rt.digest(PrintKey(op.draw.prefix, op.draw.secret))
  }

  /** The three things that can happen to a stored key. */
  predicate KeyEvolves(k: ApiKey, k': ApiKey, now: Time) {
    || k' == k
    || (k.revokedAt.None? && k' == k.(revokedAt := Some(now)))
    || (k.revokedAt.None? && UseIsStale(k, now) && k' == k.(lastUsedAt := Some(now)))
  }

  /** A key row may appear only by a mint, for a drone without an active key. */
  ghost predicate KeyBorn(rt: Runtime, st: Store, op: KeyOp, key: Uuid, k: ApiKey) {
    && op.MintKey? && key == op.draw.key && Fits(op.keyLabel, KEY_LABEL_WIDTH)
    && k.droneId in st.drones && ActiveKeysOf(st, k.droneId) == {}
    && k == ApiKey(k.droneId, op.draw.prefix, rt.digest(PrintKey(op.draw.prefix, op.draw.secret)), op.keyLabel,
                   None, None)
  }

  ghost predicate KeysEvolve(rt: Runtime, st: Store, op: KeyOp, after: map<Uuid, ApiKey>, now: Time) {
    && (forall k :: k in st.keys ==> k in after && KeyEvolves(st.keys[k], after[k], now))
    && (forall k :: k in after && k !in st.keys ==> KeyBorn(rt, st, op, k, after[k]))
  }

  lemma KeyStepEvolves(rt: Runtime, st: Store, op: KeyOp, now: Time)
    ensures KeysEvolve(rt, st, op, KeyStep(rt, st, op, now), now)
  {
    match op
    case VerifyKey(raw, verdict) =>
    case MintKey(orgSlug, droneSlug, keyLabel, draw) => MintBears(rt, st, op);
    case RevokePrefix(prefix) =>
    case RevokeDrone(orgSlug, droneSlug) =>
  }

  lemma MintBears(rt: Runtime, st: Store, op: KeyOp)
    requires op.MintKey?
    ensures var after := AfterMint(rt, st, op.orgSlug, op.droneSlug, op.keyLabel, op.draw).keys;
            && (forall k :: k in st.keys ==> k in after && after[k] == st.keys[k])
            && (forall k :: k in after && k !in st.keys ==> KeyBorn(rt, st, op, k, after[k]))
  {
  }

  function RevokedKeys(keys: map<Uuid, ApiKey>): set<Uuid> {
    set k | k in keys && keys[k].revokedAt.Some?
  }

  function ActiveKeys(keys: map<Uuid, ApiKey>): set<Uuid> {
    set k | k in keys && keys[k].revokedAt.None?
  }

  ghost function MintedBy(st: Store, op: KeyOp): nat {
    if op.MintKey? && MintOutcome(st, op.orgSlug, op.droneSlug, op.keyLabel, op.draw).Minted? then 1 else 0
  }

  /** The count the operator is shown. */
  ghost function ReportedKeyRevocations(st: Store, op: KeyOp): nat {
    match op
    case RevokePrefix(prefix) => |ActiveKeysWith(st, prefix)|
    case RevokeDrone(orgSlug, droneSlug) =>
      var t := TargetOf(st, orgSlug, droneSlug);
      if t.Found? then |ActiveKeysOf(st, t.drone)| else 0
    case _ => 0
  }

  lemma RevokeKeysCounts(st: Store, chosen: set<Uuid>, now: Time)
    requires forall k :: k in chosen ==> IsActiveKey(st, k)
    ensures |RevokeKeys(st, chosen, now).keys| == |st.keys|
    ensures |RevokedKeys(RevokeKeys(st, chosen, now).keys)| == |RevokedKeys(st.keys)| + |chosen|
  {
    var before, after := RevokedKeys(st.keys), RevokedKeys(RevokeKeys(st, chosen, now).keys);
    forall k
      ensures k in after <==> k in before || k in chosen
      ensures !(k in before && k in chosen)
    {
      assert k in chosen ==> IsActiveKey(st, k);
    }
    assert after == before + chosen && before !! chosen;
    assert RevokeKeys(st, chosen, now).keys.Keys == st.keys.Keys;
  }

  lemma ActiveOrRevoked(keys: map<Uuid, ApiKey>)
    ensures |keys| == |ActiveKeys(keys)| + |RevokedKeys(keys)|
  {
    forall k | k in keys
      ensures k in ActiveKeys(keys) <==> k !in RevokedKeys(keys)
    {
      assert keys[k].revokedAt.None? || keys[k].revokedAt.Some?;
    }
    assert keys.Keys == ActiveKeys(keys) + RevokedKeys(keys);
    assert ActiveKeys(keys) !! RevokedKeys(keys);
  }

  lemma MintCounts(rt: Runtime, st: Store, op: KeyOp)
    requires op.MintKey?
    ensures var after := AfterMint(rt, st, op.orgSlug, op.droneSlug, op.keyLabel, op.draw).keys;
            |after| == |st.keys| + MintedBy(st, op) && RevokedKeys(after) == RevokedKeys(st.keys)
  {
  }

  lemma VerifyCounts(st: Store, v: KeyVerdict, now: Time)
    ensures var after := AfterVerify(st, v, now).keys;
            |after| == |st.keys| && RevokedKeys(after) == RevokedKeys(st.keys)
  {
  }

  lemma KeyStepAccounts(rt: Runtime, st: Store, op: KeyOp, now: Time)
    ensures |KeyStep(rt, st, op, now)| == |st.keys| + MintedBy(st, op)
    ensures |RevokedKeys(KeyStep(rt, st, op, now))| == |RevokedKeys(st.keys)| + ReportedKeyRevocations(st, op)
  {
    match op {
      case VerifyKey(_, verdict) => VerifyCounts(st, verdict, now);
      case MintKey(_, _, _, _) => MintCounts(rt, st, op);
      case RevokePrefix(prefix) => RevokeKeysCounts(st, ActiveKeysWith(st, prefix), now);
      case RevokeDrone(orgSlug, droneSlug) =>
        var t := TargetOf(st, orgSlug, droneSlug);
        if t.Found? {
          RevokeKeysCounts(st, ActiveKeysOf(st, t.drone), now);
        }
    }
  }

  ghost predicate OneActiveKeyPerDrone(st: Store) {
    forall a, b :: IsActiveKey(st, a) && IsActiveKey(st, b) && st.keys[a].droneId == st.keys[b].droneId ==> a == b
  }

  ghost predicate KeysOk(st: Store, now: Time) {
    && OneActiveKeyPerDrone(st)
    && HashesUnique(st.keys)
    && forall k :: k in st.keys ==>
         && st.keys[k].droneId in st.drones && Fits(st.keys[k].keyLabel, KEY_LABEL_WIDTH)
         && (st.keys[k].lastUsedAt.Some? ==> st.keys[k].lastUsedAt.value <= now)
  }

  lemma EvolvingKeepsHashes(rt: Runtime, st: Store, after: map<Uuid, ApiKey>, op: KeyOp, now: Time)
    requires HashesUnique(st.keys) && FreshDraw(rt, st, op) && KeysEvolve(rt, st, op, after, now)
    ensures HashesUnique(after)
  {
    forall a, b | a in after && b in after && after[a].hashedKey == after[b].hashedKey
      ensures a == b
    {
      assert a in st.keys ==> KeyEvolves(st.keys[a], after[a], now);
      assert b in st.keys ==> KeyEvolves(st.keys[b], after[b], now);
    }
  }

  lemma EvolvingKeepsKeysOk(rt: Runtime, st: Store, st': Store, op: KeyOp, before: Time, now: Time)
    requires KeysOk(st, before) && before <= now && FreshDraw(rt, st, op)
    requires KeysEvolve(rt, st, op, st'.keys, now) && st'.drones == st.drones
    ensures KeysOk(st', now)
  {
    EvolvingKeepsHashes(rt, st, st'.keys, op, now);
    forall a, b | IsActiveKey(st', a) && IsActiveKey(st', b) && st'.keys[a].droneId == st'.keys[b].droneId
      ensures a == b
    {
      assert a in st.keys ==> a in ActiveKeysOf(st, st'.keys[a].droneId);
      assert b in st.keys ==> b in ActiveKeysOf(st, st'.keys[b].droneId);
    }
  }

  lemma SameKeysOk(st: Store, st': Store, before: Time, now: Time)
    requires KeysOk(st, before) && before <= now
    requires st'.keys == st.keys && st.drones.Keys <= st'.drones.Keys
    ensures KeysOk(st', now)
  {
    assert forall a :: IsActiveKey(st', a) <==> IsActiveKey(st, a);
  }

  /** While no drone has two active keys, `scalar_one_or_none` never finds two. */
  lemma MintNeverSeesTwo(st: Store, orgSlug: string, droneSlug: string, keyLabel: string, d: Draw)
    requires OneActiveKeyPerDrone(st)
    ensures !MintOutcome(st, orgSlug, droneSlug, keyLabel, d).SeveralActive?
  {
    var t := TargetOf(st, orgSlug, droneSlug);
    if t.Found? && ActiveKeysOf(st, t.drone) != {} {
      var key :| key in ActiveKeysOf(st, t.drone);
      assert ActiveKeysOf(st, t.drone) == {key};
    }
  }
}
