/** Drone API keys: the printed format, and verification against the stored hashes. */
module ApiKeys {
  import opened Model

  const KEY_TAG: string := "sk_drone_"
  const PREFIX_LENGTH: nat := 8
  const LAST_USED_DEBOUNCE: Time := 60 * SECOND

  // ---------- the printed format ----------

  function PrintKey(prefix: string, secret: string): string {
    KEY_TAG + prefix + "_" + secret
  }

  function ParseKey(rt: Runtime, raw: string): Option<(string, string)> {
    if !(KEY_TAG <= raw) then None
    else
      var body := raw[|KEY_TAG|..];
      var i := IndexOf(body, '_');
      if i == |body| then None
      else
        var prefix, secret := body[..i], body[i + 1..];
        if |prefix| != PREFIX_LENGTH || secret == "" || !rt.isBase16(prefix) then None
        else Some((prefix, secret))
  }

  /** Parsing inverts printing, and accepts nothing else: secrets may hold underscores,
      prefixes may not. */
  lemma ParseInvertsPrint(rt: Runtime, raw: string, prefix: string, secret: string)
    ensures ParseKey(rt, raw) == Some((prefix, secret)) <==>
              && raw == PrintKey(prefix, secret)
              && |prefix| == PREFIX_LENGTH && '_' !in prefix && rt.isBase16(prefix) && secret != ""
  {
    if ParseKey(rt, raw) == Some((prefix, secret)) {
      var body := raw[|KEY_TAG|..];
      assert raw == KEY_TAG + body && body == prefix + "_" + secret;
    }
    if raw == PrintKey(prefix, secret) && '_' !in prefix {
      var body := raw[|KEY_TAG|..];
      assert body == prefix + "_" + secret;
      assert body[..|prefix|] == prefix && body[|prefix| + 1..] == secret;
      IndexOfIs(body, '_', |prefix|);
    }
  }

  predicate IsHexDigit(c: char) {
    '0' <= c <= '9' || 'a' <= c <= 'f'
  }

  /** What `secrets.token_hex(4)` and `secrets.token_urlsafe(24)` can return. */
  predicate IsDraw(prefix: string, secret: string) {
    |prefix| == PREFIX_LENGTH && (forall i :: 0 <= i < |prefix| ==> IsHexDigit(prefix[i])) && secret != ""
  }

  /** `int(s, 16)` succeeds at least on the eight-digit prefixes that are generated. */
  ghost predicate ReadsHex(rt: Runtime) {
    forall s: string, t: string :: IsDraw(s, t) ==> rt.isBase16(s)
  }

  /** Every key that can be minted is well-formed and comes apart into what it was made of. */
  lemma GeneratedKeysParse(rt: Runtime, prefix: string, secret: string)
    requires ReadsHex(rt) && IsDraw(prefix, secret)
    ensures ParseKey(rt, PrintKey(prefix, secret)) == Some((prefix, secret))
  {
    ParseInvertsPrint(rt, PrintKey(prefix, secret), prefix, secret);
  }

  // ---------- verify_api_key ----------

  /** The drone a key authenticates, or the reason it does not; `key` is the matched row. */
  datatype KeyVerdict =
    | Accepted(key: Uuid, drone: Uuid)
    | BadFormat
    | UnknownPrefix
    | HashMismatch
    | RevokedKey(key: Uuid)
    | InactiveDrone(key: Uuid)

  /** The rows `DroneApiKey JOIN Drone WHERE prefix = ...` returns. */
  predicate HasPrefix(st: Store, key: Uuid, prefix: string) {
    key in st.keys && st.keys[key].droneId in st.drones && st.keys[key].prefix == prefix
  }

  predicate Matches(rt: Runtime, st: Store, key: Uuid, prefix: string, raw: string) {
    HasPrefix(st, key, prefix) && st.keys[key].hashedKey == rt.digest(raw)
  }

  function JudgeRow(st: Store, key: Uuid): KeyVerdict
    requires key in st.keys && st.keys[key].droneId in st.drones
  {
    if st.keys[key].revokedAt.Some? then RevokedKey(key)
    else if !st.drones[st.keys[key].droneId].isActive then InactiveDrone(key)
    else Accepted(key, st.keys[key].droneId)
  }

  /** The verdicts open to the search, over every order in which the rows may come back. */
  ghost predicate MayJudge(rt: Runtime, st: Store, raw: string, v: KeyVerdict) {
    match ParseKey(rt, raw)
    case None => v == BadFormat
    case Some((prefix, _)) =>
      if forall key :: !HasPrefix(st, key, prefix) then v == UnknownPrefix
      else if forall key :: !Matches(rt, st, key, prefix, raw) then v == HashMismatch
      else exists key :: Matches(rt, st, key, prefix, raw) && v == JudgeRow(st, key)
  }

  /** `UPDATE ... SET last_used_at = now() WHERE` it is null or more than a minute old. */
  predicate UseIsStale(k: ApiKey, now: Time) {
    k.lastUsedAt.None? || k.lastUsedAt.value < now - LAST_USED_DEBOUNCE
  }

  function AfterVerify(st: Store, v: KeyVerdict, now: Time): Store {
    if v.Accepted? && v.key in st.keys && UseIsStale(st.keys[v.key], now)
    then st.(keys := st.keys[v.key := st.keys[v.key].(lastUsedAt := Some(now))])
    else st
  }

  /** An accepted use is on record to within a minute. */
  lemma LastUseIsRecorded(rt: Runtime, st: Store, raw: string, v: KeyVerdict, now: Time)
    requires MayJudge(rt, st, raw, v) && v.Accepted?
    requires st.keys[v.key].lastUsedAt.Some? ==> st.keys[v.key].lastUsedAt.value <= now
    ensures v.key in AfterVerify(st, v, now).keys
    ensures var used := AfterVerify(st, v, now).keys[v.key].lastUsedAt;
            used.Some? && now - LAST_USED_DEBOUNCE <= used.value <= now
  {
  }

  /** The search loop: the first row, in the order given, whose hash agrees. */
  method FirstMatch(keys: map<Uuid, ApiKey>, rows: seq<Uuid>, hash: string) returns (matched: Option<Uuid>)
    requires forall i :: 0 <= i < |rows| ==> rows[i] in keys
    ensures matched.Some? ==> exists i :: 0 <= i < |rows| && rows[i] == matched.value && keys[rows[i]].hashedKey == hash
                                          && forall j :: 0 <= j < i ==> keys[rows[j]].hashedKey != hash
    ensures matched.None? ==> forall key :: key in rows ==> keys[key].hashedKey != hash
  {
    matched := None;
    for i := 0 to |rows|
      invariant matched.None?
      invariant forall j :: 0 <= j < i ==> keys[rows[j]].hashedKey != hash
    {
      if keys[rows[i]].hashedKey == hash {
        matched := Some(rows[i]);
        break;
      }
    }
  }

  method VerifyApiKey(rt: Runtime, db: Db, raw: string, now: Time) returns (v: KeyVerdict)
    modifies db
    ensures MayJudge(rt, old(db.working), raw, v)
    ensures if v.Accepted? then db.Persisted(AfterVerify(old(db.working), v, now)) else db.Unsaved(old(db.working))
    ensures forall k :: k in old(db.working).keys ==>
              && k in db.working.keys
              && var row := old(db.working).keys[k];
                 db.working.keys[k] ==
                 if v.Accepted? && v.key == k && (row.lastUsedAt.None? || row.lastUsedAt.value + 60 * SECOND < now)
                 then row.(lastUsedAt := Some(now)) else row
  {
    var parsed := ParseKey(rt, raw);
    if parsed.None? {
      return BadFormat;
    }
    var prefix := parsed.value.0;
    var st := db.working;
    var rows := Scan(set key | key in st.keys && HasPrefix(st, key, prefix));
    assert forall key :: key in rows <==> HasPrefix(st, key, prefix);
    if rows == [] {
      return UnknownPrefix;
    }
    assert HasPrefix(st, rows[0], prefix);
    assert forall i :: 0 <= i < |rows| ==> rows[i] in rows && HasPrefix(st, rows[i], prefix);
    var matched := FirstMatch(st.keys, rows, rt.digest(raw));
    if matched.None? {
      return HashMismatch;
    }
    var key := matched.value;
    assert Matches(rt, st, key, prefix, raw);
    if st.keys[key].revokedAt.Some? {
      return RevokedKey(key);
    }
    if !st.drones[st.keys[key].droneId].isActive {
      return InactiveDrone(key);
    }
    if UseIsStale(st.keys[key], now) {
      db.working := st.(keys := st.keys[key := st.keys[key].(lastUsedAt := Some(now))]);
    }
    db.Commit();
    v := Accepted(key, st.keys[key].droneId);
  }

  /** The verdicts in the columns of `drone_api_keys` and `drones`, for a key of the printed form
      `sk_drone_`, eight characters that read as hex, `_`, and a secret. */
  lemma VerdictInColumns(rt: Runtime, st: Store, prefix: string, secret: string, v: KeyVerdict)
    requires |prefix| == 8 && '_' !in prefix && rt.isBase16(prefix) && secret != ""
    requires MayJudge(rt, st, "sk_drone_" + prefix + "_" + secret, v)
    ensures var hash := rt.digest("sk_drone_" + prefix + "_" + secret);
            match v
            case BadFormat => false
            case UnknownPrefix =>
              forall k :: k in st.keys && st.keys[k].droneId in st.drones ==> st.keys[k].prefix != prefix
            case HashMismatch =>
              && (exists k :: k in st.keys && st.keys[k].droneId in st.drones && st.keys[k].prefix == prefix)
              && (forall k :: k in st.keys && st.keys[k].droneId in st.drones && st.keys[k].prefix == prefix ==>
                    st.keys[k].hashedKey != hash)
            case RevokedKey(k) =>
              && k in st.keys && st.keys[k].prefix == prefix && st.keys[k].hashedKey == hash
              && st.keys[k].revokedAt.Some?
            case InactiveDrone(k) =>
              && k in st.keys && st.keys[k].prefix == prefix && st.keys[k].hashedKey == hash
              && st.keys[k].revokedAt.None?
              && st.keys[k].droneId in st.drones && !st.drones[st.keys[k].droneId].isActive
            case Accepted(k, drone) =>
              && k in st.keys && st.keys[k].prefix == prefix && st.keys[k].hashedKey == hash
              && st.keys[k].revokedAt.None?
              && drone == st.keys[k].droneId && drone in st.drones && st.drones[drone].isActive
  {
    var raw := "sk_drone_" + prefix + "_" + secret;
    assert raw == PrintKey(prefix, secret);
    ParseInvertsPrint(rt, raw, prefix, secret);
    forall k | k in st.keys && st.keys[k].droneId in st.drones && st.keys[k].prefix == prefix
      ensures HasPrefix(st, k, prefix)
      ensures st.keys[k].hashedKey == rt.digest(raw) ==> Matches(rt, st, k, prefix, raw)
    {
    }
  }

  /** Anything else is malformed. */
  lemma BadFormatInColumns(rt: Runtime, st: Store, raw: string, v: KeyVerdict)
    requires MayJudge(rt, st, raw, v)
    ensures v == BadFormat <==>
              !exists prefix: string, secret: string ::
                 && raw == "sk_drone_" + prefix + "_" + secret
                 && |prefix| == 8 && '_' !in prefix && rt.isBase16(prefix) && secret != ""
  {
    var parsed := ParseKey(rt, raw);
    if parsed.Some? {
      ParseInvertsPrint(rt, raw, parsed.value.0, parsed.value.1);
      assert raw == "sk_drone_" + parsed.value.0 + "_" + parsed.value.1;
    }
    forall prefix: string, secret: string | && raw == "sk_drone_" + prefix + "_" + secret
                                            && |prefix| == 8 && '_' !in prefix && rt.isBase16(prefix) && secret != ""
      ensures parsed.Some?
    {
      assert raw == PrintKey(prefix, secret);
      ParseInvertsPrint(rt, raw, prefix, secret);
    }
  }

  ghost predicate HashesUnique(keys: map<Uuid, ApiKey>) {
    forall a, b :: a in keys && b in keys && keys[a].hashedKey == keys[b].hashedKey ==> a == b
  }

  /** Without colliding hashes the verdict does not depend on the order of the rows, and it
      is acceptance exactly when the one row with this prefix and hash is active and so is
      its drone. */
  lemma VerdictIsOrderIndependent(rt: Runtime, st: Store, raw: string, v: KeyVerdict, v': KeyVerdict)
    requires HashesUnique(st.keys)
    requires MayJudge(rt, st, raw, v) && MayJudge(rt, st, raw, v')
    ensures v == v'
    ensures v.Accepted? <==>
              && ParseKey(rt, raw).Some?
              && exists key :: && Matches(rt, st, key, ParseKey(rt, raw).value.0, raw)
                               && st.keys[key].revokedAt.None? && st.drones[st.keys[key].droneId].isActive
  {
    var parsed := ParseKey(rt, raw);
    if parsed.Some? {
      forall a, b | Matches(rt, st, a, parsed.value.0, raw) && Matches(rt, st, b, parsed.value.0, raw)
        ensures a == b
      {
      }
    }
  }
}
