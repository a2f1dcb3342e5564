/** Drone keys over whole runs: who a minted key authenticates and until when, what minting
    and revoking add up to, and what using a key writes. */
module KeyRuns {
  import opened Model
  import opened ApiKeys
  import opened KeyCli
  import opened System

  /** One step, seen from one key. */
  lemma StepKeyRow(rt: Runtime, st: Store, e: Event, key: Uuid)
    requires key in st.keys
    ensures key in Step(rt, st, e).keys && KeyEvolves(st.keys[key], Step(rt, st, e).keys[key], e.at)
  {
    match e.op {
      case OnKeys(op) => KeyStepEvolves(rt, st, op, e.at);
      case _ => OtherStepsKeepKeys(rt, st, e);
    }
  }

  predicate SameKey(k: ApiKey, k': ApiKey) {
    && k'.droneId == k.droneId && k'.prefix == k.prefix && k'.hashedKey == k.hashedKey
    && (k.revokedAt.Some? ==> k' == k)
  }

  /** A key row keeps its drone, prefix and hash, and nothing touches it once revoked. */
  lemma {:induction false} KeyIdentityIsFixed(rt: Runtime, st: Store, es: seq<Event>, key: Uuid)
    requires key in st.keys
    ensures key in Run(rt, st, es).keys && SameKey(st.keys[key], Run(rt, st, es).keys[key])
    decreases |es|
  {
    if es != [] {
      StepKeyRow(rt, st, es[0], key);
      KeyIdentityIsFixed(rt, Step(rt, st, es[0]), es[1..], key);
    }
  }

  lemma PrintedKeyFindsItsRow(rt: Runtime, st: Store, key: Uuid, prefix: string, secret: string, v: KeyVerdict)
    requires ReadsHex(rt) && IsDraw(prefix, secret) && HashesUnique(st.keys)
    requires Matches(rt, st, key, prefix, PrintKey(prefix, secret))
    ensures MayJudge(rt, st, PrintKey(prefix, secret), v) <==> v == JudgeRow(st, key)
  {
    GeneratedKeysParse(rt, prefix, secret);
  }

  /** The key a mint returns: at any later moment of any run it is accepted, for the drone it
      was minted for, exactly when its row is not revoked and the drone is active; and the
      row exists, belongs to that drone, and once revoked stays so. */
  lemma MintedKeyAuthenticatesItsDrone(rt: Runtime, st: Store, now: Time, at: Time, mint: KeyOp, es: seq<Event>,
                                       v: KeyVerdict)
    requires Inv(st, now) && now <= at && ReadsHex(rt)
    requires mint.MintKey? && FreshDraw(rt, st, mint)
    requires MintOutcome(st, mint.orgSlug, mint.droneSlug, mint.keyLabel, mint.draw).Minted?
    requires Admissible(rt, Step(rt, st, Event(at, OnKeys(mint))), at, es)
    ensures var raw := MintOutcome(st, mint.orgSlug, mint.droneSlug, mint.keyLabel, mint.draw).raw;
            var drone := TargetOf(st, mint.orgSlug, mint.droneSlug).drone;
            var st' := Run(rt, Step(rt, st, Event(at, OnKeys(mint))), es);
            var key := mint.draw.key;
            && key in st'.keys && drone in st'.drones && st'.keys[key].droneId == drone
            && (MayJudge(rt, st', raw, v) <==> v == JudgeRow(st', key))
            && (MayJudge(rt, st', raw, v) ==>
                  (v == Accepted(key, drone) <==> st'.keys[key].revokedAt.None? && st'.drones[drone].isActive))
  {
    var key, raw := mint.draw.key, PrintKey(mint.draw.prefix, mint.draw.secret);
    var first := Event(at, OnKeys(mint));
    var minted := Step(rt, st, first);
    var st' := Run(rt, minted, es);
    MintAddsRow(rt, st, mint);
    assert minted.keys == KeyStep(rt, st, mint, at);
    StepKeepsInv(rt, st, now, first);
    RunKeepsInv(rt, minted, at, es);
    KeyIdentityIsFixed(rt, minted, es, key);
    assert Matches(rt, st', key, mint.draw.prefix, raw);
    PrintedKeyFindsItsRow(rt, st', key, mint.draw.prefix, mint.draw.secret, v);
  }

  lemma MintAddsRow(rt: Runtime, st: Store, mint: KeyOp)
    requires mint.MintKey? && MintOutcome(st, mint.orgSlug, mint.droneSlug, mint.keyLabel, mint.draw).Minted?
    ensures var after := KeyStep(rt, st, mint, 0);
            && (forall now :: KeyStep(rt, st, mint, now) == after)
            && mint.draw.key !in st.keys
            && after == st.keys[mint.draw.key :=
                 ApiKey(TargetOf(st, mint.orgSlug, mint.droneSlug).drone, mint.draw.prefix,
                        rt.digest(PrintKey(mint.draw.prefix, mint.draw.secret)), mint.keyLabel, None, None)]
  {
  }

  /** And never after: a key that is revoked is refused as revoked for ever. */
  lemma RevokedKeyStaysRefused(rt: Runtime, st: Store, now: Time, es: seq<Event>, key: Uuid, prefix: string,
                               secret: string, v: KeyVerdict)
    requires Inv(st, now) && Admissible(rt, st, now, es) && ReadsHex(rt) && IsDraw(prefix, secret)
    requires Matches(rt, st, key, prefix, PrintKey(prefix, secret)) && st.keys[key].revokedAt.Some?
    ensures MayJudge(rt, Run(rt, st, es), PrintKey(prefix, secret), v) <==> v == RevokedKey(key)
  {
    RunKeepsInv(rt, st, now, es);
    KeyIdentityIsFixed(rt, st, es, key);
    PrintedKeyFindsItsRow(rt, Run(rt, st, es), key, prefix, secret, v);
  }

  /** Revoking by prefix, over runs: at any later moment the command turns a key that works into
      a revoked one if the prefix is its own, and leaves it working if it is another. */
  lemma RevocationReachesOnlyItsPrefix(rt: Runtime, st: Store, now: Time, es: seq<Event>, key: Uuid, prefix: string,
                                       secret: string, revoked: string, at: Time, v: KeyVerdict)
    requires Inv(st, now) && Admissible(rt, st, now, es) && ReadsHex(rt) && IsDraw(prefix, secret)
    requires Matches(rt, st, key, prefix, PrintKey(prefix, secret)) && LastTime(now, es) <= at
    requires var st' := Run(rt, st, es);
             && key in st'.keys && st'.keys[key].revokedAt.None?
             && st'.keys[key].droneId in st'.drones && st'.drones[st'.keys[key].droneId].isActive
    ensures var after := Step(rt, Run(rt, st, es), Event(at, OnKeys(RevokePrefix(revoked))));
            MayJudge(rt, after, "sk_drone_" + prefix + "_" + secret, v) <==>
              v == if revoked == prefix then RevokedKey(key) else Accepted(key, st.keys[key].droneId)
  {
    var st', e := Run(rt, st, es), Event(at, OnKeys(RevokePrefix(revoked)));
    var after := Step(rt, st', e);
    assert PrintKey(prefix, secret) == "sk_drone_" + prefix + "_" + secret;
    RunKeepsInv(rt, st, now, es);
    KeyIdentityIsFixed(rt, st, es, key);
    StepKeepsInv(rt, st', LastTime(now, es), e);
    assert after == st'.(keys := RevokeKeys(st', ActiveKeysWith(st', revoked), at).keys);
    PrintedKeyFindsItsRow(rt, after, key, prefix, secret, v);
  }

  /** On every reachable store, minting never finds two active keys. */
  lemma MintNeverRaisesOnRuns(rt: Runtime, st: Store, now: Time, es: seq<Event>, orgSlug: string, droneSlug: string,
                              keyLabel: string, d: Draw)
    requires Inv(st, now) && Admissible(rt, st, now, es)
    ensures !MintOutcome(Run(rt, st, es), orgSlug, droneSlug, keyLabel, d).SeveralActive?
  {
    RunKeepsInv(rt, st, now, es);
    MintNeverSeesTwo(Run(rt, st, es), orgSlug, droneSlug, keyLabel, d);
  }

  // ---------- accounting ----------

  ghost function MintsIn(rt: Runtime, st: Store, es: seq<Event>): nat
    decreases |es|
  {
    if es == [] then 0
    else (if es[0].op.OnKeys? then MintedBy(st, es[0].op.k) else 0) + MintsIn(rt, Step(rt, st, es[0]), es[1..])
  }

  ghost function KeyRevocationsIn(rt: Runtime, st: Store, es: seq<Event>): nat
    decreases |es|
  {
    if es == [] then 0
    else
      (if es[0].op.OnKeys? then ReportedKeyRevocations(st, es[0].op.k) else 0)
      + KeyRevocationsIn(rt, Step(rt, st, es[0]), es[1..])
  }

  /** Over any run, the keys are those there were plus those minted, the revoked ones are
      those there were plus the counts the revocations reported, and the rest are active. */
  lemma {:induction false} KeyAccounting(rt: Runtime, st: Store, es: seq<Event>)
    ensures var st' := Run(rt, st, es);
            && |st'.keys| == |st.keys| + MintsIn(rt, st, es)
            && |RevokedKeys(st'.keys)| == |RevokedKeys(st.keys)| + KeyRevocationsIn(rt, st, es)
            && |st'.keys| == |ActiveKeys(st'.keys)| + |RevokedKeys(st'.keys)|
    decreases |es|
  {
    if es != [] {
      StepKeyAccounts(rt, st, es[0]);
      KeyAccounting(rt, Step(rt, st, es[0]), es[1..]);
    } else {
      ActiveOrRevoked(st.keys);
    }
  }

  lemma StepKeyAccounts(rt: Runtime, st: Store, e: Event)
    ensures |Step(rt, st, e).keys| == |st.keys| + (if e.op.OnKeys? then MintedBy(st, e.op.k) else 0)
    ensures |RevokedKeys(Step(rt, st, e).keys)| ==
            |RevokedKeys(st.keys)| + (if e.op.OnKeys? then ReportedKeyRevocations(st, e.op.k) else 0)
  {
    match e.op {
      case OnKeys(op) => KeyStepAccounts(rt, st, op, e.at);
      case _ => OtherStepsKeepKeys(rt, st, e);
    }
  }

  // ---------- the debounce bounds the writes ----------

  const MIN_GAP: Time := LAST_USED_DEBOUNCE + 1

  ghost function LastUsedWrites(rt: Runtime, st: Store, es: seq<Event>, key: Uuid): nat
    decreases |es|
  {
    if es == [] || key !in st.keys then 0
    else
      var st' := Step(rt, st, es[0]);
      LastUsedWrites(rt, st', es[1..], key) + WritesLastUsed(st, st', key)
  }

  function WritesLastUsed(st: Store, st': Store, key: Uuid): nat
    requires key in st.keys
  {
    if key in st'.keys && st'.keys[key].lastUsedAt != st.keys[key].lastUsedAt then 1 else 0
  }

  /** Where the gaps are counted from; a key never used may be written at once. */
  function UsedSince(k: ApiKey, now: Time): Time {
    if k.lastUsedAt.Some? then k.lastUsedAt.value else now - MIN_GAP
  }

  /** How a step moves the time the gaps are counted from, and whether it closes one. */
  lemma StepKeyGap(rt: Runtime, st: Store, now: Time, e: Event, key: Uuid) returns (from: Time, mid: Time, w: nat)
    requires key in st.keys && now <= e.at && UsedSince(st.keys[key], now) <= now
    ensures key in Step(rt, st, e).keys
    ensures from == UsedSince(st.keys[key], now) && mid == UsedSince(Step(rt, st, e).keys[key], e.at) <= e.at
    ensures w == WritesLastUsed(st, Step(rt, st, e), key)
    ensures if w == 0 then from <= mid else w == 1 && from + MIN_GAP <= mid
  {
    StepKeyRow(rt, st, e, key);
    from, mid := UsedSince(st.keys[key], now), UsedSince(Step(rt, st, e).keys[key], e.at);
    w := WritesLastUsed(st, Step(rt, st, e), key);
  }

  /** Successive `last_used_at` writes to one key are more than a minute apart, however often
      it is used: `n` writes take more than `n - 1` minutes. */
  lemma {:induction false} KeyWritesAreSpaced(rt: Runtime, st: Store, now: Time, es: seq<Event>, key: Uuid)
    requires Admissible(rt, st, now, es) && key in st.keys && UsedSince(st.keys[key], now) <= now
    ensures Spaced(MIN_GAP, LastUsedWrites(rt, st, es, key), UsedSince(st.keys[key], now), LastTime(now, es))
    decreases |es|
  {
    if es != [] {
      var e, st' := es[0], Step(rt, st, es[0]);
      var from, mid, w := StepKeyGap(rt, st, now, e, key);
      KeyWritesAreSpaced(rt, st', e.at, es[1..], key);
      OneMoreGap(MIN_GAP, LastUsedWrites(rt, st', es[1..], key), w, LastUsedWrites(rt, st, es, key), from, mid,
                 LastTime(e.at, es[1..]));
      assert LastTime(now, es) == LastTime(e.at, es[1..]);
    }
  }
}
