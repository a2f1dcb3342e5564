/** Minting without the assumption that it is one serial step. `mint` looks for an active key
    and inserts its own in two statements with nothing locked in between, and no constraint of
    the schema forbids two active keys. How many can a drone end up with? */
module MintOverlap {
  import opened Model
  import opened ApiKeys
  import opened KeyCli

  /** A mint that has seen no active key and has not inserted its own yet. */
  datatype Pending = Pending(drone: Uuid, keyLabel: string, draw: Draw)

  datatype World = World(st: Store, inFlight: map<nat, Pending>)

  datatype Move =
    | Look(mint: nat, p: Pending)
    | Insert(mint: nat)
    | Between(op: KeyOp, now: Time)   // any verification or revocation

  function KeyOf(rt: Runtime, p: Pending): ApiKey {
    ApiKey(p.drone, p.draw.prefix, rt.digest(PrintKey(p.draw.prefix, p.draw.secret)), p.keyLabel, None, None)
  }

  ghost function Next(rt: Runtime, w: World, m: Move): World {
    match m
    case Look(mint, p) =>
      if mint !in w.inFlight && ActiveKeysOf(w.st, p.drone) == {} then w.(inFlight := w.inFlight[mint := p]) else w
    case Insert(mint) =>
      if mint !in w.inFlight then w
      else
        var p := w.inFlight[mint];
        var rest := w.inFlight - {mint};
        if p.draw.key in w.st.keys || !Fits(p.keyLabel, KEY_LABEL_WIDTH) then w.(inFlight := rest)
        else World(w.st.(keys := w.st.keys[p.draw.key := KeyOf(rt, p)]), rest)
    case Between(op, now) =>
      if op.MintKey? then w else w.(st := w.st.(keys := KeyStep(rt, w.st, op, now)))
  }

  ghost function Play(rt: Runtime, w: World, moves: seq<Move>): World
    decreases |moves|
  {
    if moves == [] then w else Play(rt, Next(rt, w, moves[0]), moves[1..])
  }

  /** Uninterrupted, the two statements are the serial `mint`. */
  lemma UninterruptedMintIsMint(rt: Runtime, st: Store, orgSlug: string, droneSlug: string, keyLabel: string,
                                d: Draw, mint: nat)
    requires MintOutcome(st, orgSlug, droneSlug, keyLabel, d).Minted?
    ensures var p := Pending(TargetOf(st, orgSlug, droneSlug).drone, keyLabel, d);
            Next(rt, Next(rt, World(st, map[]), Look(mint, p)), Insert(mint)) ==
            World(AfterMint(rt, st, orgSlug, droneSlug, keyLabel, d), map[])
  {
    var p := Pending(TargetOf(st, orgSlug, droneSlug).drone, keyLabel, d);
    var looked := Next(rt, World(st, map[]), Look(mint, p));
    assert looked == World(st, map[mint := p]);
    assert looked.inFlight - {mint} == map[];
  }

  function MintsOf(w: World, drone: Uuid): set<nat> {
    set mint | mint in w.inFlight && w.inFlight[mint].drone == drone
  }

  /** At no moment are more than `c` mints of the drone in flight. */
  ghost predicate OverlapAtMost(rt: Runtime, w: World, moves: seq<Move>, drone: Uuid, c: nat)
    decreases |moves|
  {
    |MintsOf(w, drone)| <= c && (moves != [] ==> OverlapAtMost(rt, Next(rt, w, moves[0]), moves[1..], drone, c))
  }

  function Load(w: World, drone: Uuid): nat {
    |ActiveKeysOf(w.st, drone)| + |MintsOf(w, drone)|
  }

  lemma LookLoad(rt: Runtime, w: World, mint: nat, p: Pending, drone: Uuid)
    ensures var w' := Next(rt, w, Look(mint, p));
            Load(w', drone) == Load(w, drone) || (Load(w', drone) == |MintsOf(w', drone)|)
  {
    var w' := Next(rt, w, Look(mint, p));
    if w' != w && p.drone != drone {
      assert MintsOf(w', drone) == MintsOf(w, drone);
    }
  }

  lemma InsertLoad(rt: Runtime, w: World, mint: nat, drone: Uuid)
    ensures Load(Next(rt, w, Insert(mint)), drone) <= Load(w, drone)
  {
    if mint in w.inFlight {
      var p, w' := w.inFlight[mint], Next(rt, w, Insert(mint));
      assert MintsOf(w', drone) == MintsOf(w, drone) - {mint};
      if p.draw.key in w.st.keys || !Fits(p.keyLabel, KEY_LABEL_WIDTH) || p.drone != drone {
        assert ActiveKeysOf(w'.st, drone) == ActiveKeysOf(w.st, drone);
      } else {
        assert ActiveKeysOf(w'.st, drone) == ActiveKeysOf(w.st, drone) + {p.draw.key};
        assert mint in MintsOf(w, drone);
      }
    }
  }

  lemma BetweenLoad(rt: Runtime, w: World, op: KeyOp, now: Time, drone: Uuid)
    ensures Load(Next(rt, w, Between(op, now)), drone) <= Load(w, drone)
  {
    if !op.MintKey? {
      var w' := Next(rt, w, Between(op, now));
      KeyStepEvolves(rt, w.st, op, now);
      assert MintsOf(w', drone) == MintsOf(w, drone);
      forall key | key in ActiveKeysOf(w'.st, drone)
        ensures key in ActiveKeysOf(w.st, drone)
      {
        assert key in w.st.keys;
      }
      SubsetSize(ActiveKeysOf(w'.st, drone), ActiveKeysOf(w.st, drone));
    }
  }

  lemma MoveLoad(rt: Runtime, w: World, m: Move, drone: Uuid, c: nat)
    requires Load(w, drone) <= c && |MintsOf(Next(rt, w, m), drone)| <= c
    ensures Load(Next(rt, w, m), drone) <= c
  {
    match m
    case Look(mint, p) => LookLoad(rt, w, mint, p, drone);
    case Insert(mint) => InsertLoad(rt, w, mint, drone);
    case Between(op, now) => BetweenLoad(rt, w, op, now, drone);
  }

  /** With at most `c` overlapping mints, a drone never has more than `c` active keys. */
  lemma {:induction false} ActiveKeysWithinOverlap(rt: Runtime, w: World, moves: seq<Move>, drone: Uuid, c: nat)
    requires Load(w, drone) <= c && OverlapAtMost(rt, w, moves, drone, c)
    ensures |ActiveKeysOf(Play(rt, w, moves).st, drone)| <= c
    decreases |moves|
  {
    if moves != [] {
      MoveLoad(rt, w, moves[0], drone, c);
      ActiveKeysWithinOverlap(rt, Next(rt, w, moves[0]), moves[1..], drone, c);
    }
  }

  // ---------- and every overlap can do its worst ----------

  function Overlapping(drone: Uuid, draws: seq<Draw>, n: nat): map<nat, Pending>
    requires n <= |draws|
  {
    map i: nat | i < n :: Pending(drone, "", draws[i])
  }

  /** All look first, then the first `k` insert. */
  function LooksThenInserts(drone: Uuid, draws: seq<Draw>, n: nat, k: nat): seq<Move>
    requires n <= |draws|
    decreases n + k
  {
    if k > 0 then LooksThenInserts(drone, draws, n, k - 1) + [Insert(k - 1)]
    else if n > 0 then LooksThenInserts(drone, draws, n - 1, 0) + [Look(n - 1, Pending(drone, "", draws[n - 1]))]
    else []
  }

  lemma {:induction false} PlayAppend(rt: Runtime, w: World, moves: seq<Move>, m: Move, drone: Uuid, c: nat)
    ensures Play(rt, w, moves + [m]) == Next(rt, Play(rt, w, moves), m)
    ensures OverlapAtMost(rt, w, moves, drone, c) && |MintsOf(Play(rt, w, moves + [m]), drone)| <= c ==>
              OverlapAtMost(rt, w, moves + [m], drone, c)
    decreases |moves|
  {
    if moves != [] {
      assert (moves + [m])[1..] == moves[1..] + [m];
      PlayAppend(rt, Next(rt, w, moves[0]), moves[1..], m, drone, c);
    } else {
      assert [] + [m] == [m] && [m][1..] == [];
      assert Play(rt, w, [m]) == Play(rt, Next(rt, w, m), []);
    }
  }

  function NatsBelow(n: nat): set<nat> {
    if n == 0 then {} else NatsBelow(n - 1) + {n - 1}
  }

  lemma {:induction false} NatsBelowSize(n: nat)
    ensures forall i: nat :: i in NatsBelow(n) <==> i < n
    ensures |NatsBelow(n)| == n
  {
    if n > 0 {
      NatsBelowSize(n - 1);
    }
  }

  lemma AtMostN(w: World, drone: Uuid, n: nat)
    requires forall i :: i in w.inFlight ==> i < n
    ensures |MintsOf(w, drone)| <= n
  {
    NatsBelowSize(n);
    SubsetSize(MintsOf(w, drone), NatsBelow(n));
  }

  ghost predicate DistinctKeys(draws: seq<Draw>) {
    forall i, j :: 0 <= i < j < |draws| ==> draws[i].key != draws[j].key
  }

  ghost predicate FreshKeys(st: Store, draws: seq<Draw>) {
    DistinctKeys(draws) && forall i :: 0 <= i < |draws| ==> draws[i].key !in st.keys
  }

  lemma {:induction false} AllLook(rt: Runtime, st: Store, drone: Uuid, draws: seq<Draw>, n: nat)
    requires ActiveKeysOf(st, drone) == {} && n <= |draws|
    ensures var w, moves := World(st, map[]), LooksThenInserts(drone, draws, n, 0);
            && Play(rt, w, moves) == World(st, Overlapping(drone, draws, n))
            && OverlapAtMost(rt, w, moves, drone, |draws|)
  {
    var w := World(st, map[]);
    AtMostN(Play(rt, w, []), drone, 0);
    if n > 0 {
      AllLook(rt, st, drone, draws, n - 1);
      assert Overlapping(drone, draws, n) ==
             Overlapping(drone, draws, n - 1)[n - 1 := Pending(drone, "", draws[n - 1])];
      PlayAppend(rt, w, LooksThenInserts(drone, draws, n - 1, 0), Look(n - 1, Pending(drone, "", draws[n - 1])),
                 drone, |draws|);
      AtMostN(World(st, Overlapping(drone, draws, n)), drone, n);
    } else {
      assert Overlapping(drone, draws, 0) == map[];
    }
  }

  /** After the first `k` inserts: `k` keys are active, the other mints still in flight. */
  ghost predicate Inserted(w: World, drone: Uuid, draws: seq<Draw>, k: nat)
    requires k <= |draws|
  {
    && |ActiveKeysOf(w.st, drone)| == k
    && (forall i :: k <= i < |draws| ==> draws[i].key !in w.st.keys)
    && (forall i: nat :: i in w.inFlight <==> k <= i < |draws|)
    && (forall i: nat :: k <= i < |draws| ==> w.inFlight[i] == Pending(drone, "", draws[i]))
  }

  lemma OneMoreInsert(rt: Runtime, w: World, drone: Uuid, draws: seq<Draw>, k: nat)
    requires DistinctKeys(draws) && k < |draws| && Inserted(w, drone, draws, k)
    ensures Inserted(Next(rt, w, Insert(k)), drone, draws, k + 1)
  {
    var w' := Next(rt, w, Insert(k));
    assert draws[k].key !in w.st.keys;
    assert ActiveKeysOf(w'.st, drone) == ActiveKeysOf(w.st, drone) + {draws[k].key};
    assert draws[k].key !in ActiveKeysOf(w.st, drone);
  }

  lemma {:induction false} AllInsert(rt: Runtime, st: Store, drone: Uuid, draws: seq<Draw>, k: nat)
    requires ActiveKeysOf(st, drone) == {} && FreshKeys(st, draws) && k <= |draws|
    ensures var w, moves := World(st, map[]), LooksThenInserts(drone, draws, |draws|, k);
            && Inserted(Play(rt, w, moves), drone, draws, k)
            && OverlapAtMost(rt, w, moves, drone, |draws|)
  {
    var w := World(st, map[]);
    if k > 0 {
      var before := LooksThenInserts(drone, draws, |draws|, k - 1);
      AllInsert(rt, st, drone, draws, k - 1);
      OneMoreInsert(rt, Play(rt, w, before), drone, draws, k - 1);
      PlayAppend(rt, w, before, Insert(k - 1), drone, |draws|);
      AtMostN(Play(rt, w, before + [Insert(k - 1)]), drone, |draws|);
    } else {
      AllLook(rt, st, drone, draws, |draws|);
    }
  }

  lemma {:induction false} OverlapWeakens(rt: Runtime, w: World, moves: seq<Move>, drone: Uuid, c: nat, c': nat)
    requires OverlapAtMost(rt, w, moves, drone, c) && c <= c'
    ensures OverlapAtMost(rt, w, moves, drone, c')
    decreases |moves|
  {
    if moves != [] {
      OverlapWeakens(rt, Next(rt, w, moves[0]), moves[1..], drone, c, c');
    }
  }

  /** For a drone without an active key: minting keeps to one active key, whatever else
      happens, if and only if no two mints of the drone overlap. */
  lemma OneActiveKeyIffNoOverlap(rt: Runtime, st: Store, drone: Uuid, c: nat, d: Draw, d': Draw)
    requires ActiveKeysOf(st, drone) == {} && FreshKeys(st, [d, d'])
    ensures (forall moves :: OverlapAtMost(rt, World(st, map[]), moves, drone, c) ==>
               |ActiveKeysOf(Play(rt, World(st, map[]), moves).st, drone)| <= 1)
            <==> c <= 1
  {
    var w := World(st, map[]);
    assert MintsOf(w, drone) == {};
    if c <= 1 {
      forall moves | OverlapAtMost(rt, w, moves, drone, c)
        ensures |ActiveKeysOf(Play(rt, w, moves).st, drone)| <= 1
      {
        ActiveKeysWithinOverlap(rt, w, moves, drone, c);
      }
    } else {
      var moves := LooksThenInserts(drone, [d, d'], 2, 2);
      AllInsert(rt, st, drone, [d, d'], 2);
      OverlapWeakens(rt, w, moves, drone, 2, c);
      assert |ActiveKeysOf(Play(rt, w, moves).st, drone)| == 2;
    }
  }
}
