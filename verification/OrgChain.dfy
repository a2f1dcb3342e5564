/** The upward walk over `orgs.parent_org_id`: the recursive query the permission check
    runs, and what its depth cap costs against unbounded ancestry. */
module OrgChain {
  import opened Model

  type Orgs = map<Uuid, Org>

  const MAX_HIERARCHY_DEPTH: nat := 10

  // ---------- ancestry, as a partial function iterated ----------

  function Parent(orgs: Orgs, o: Uuid): (p: Option<Uuid>)
    requires o in orgs
    ensures p.Some? ==> p.value in orgs
  {
    match orgs[o].parent
    case None => None
    case Some(p) => if p in orgs then Some(p) else None
  }

  /** The org `n` parent links above `target`, if the links reach that far. Nothing
      forbids cycles, so this may be defined for every `n`. */
  function Ancestor(orgs: Orgs, target: Uuid, n: nat): (a: Option<Uuid>)
    ensures a.Some? ==> a.value in orgs
  {
    if n == 0 then if target in orgs then Some(target) else None
    else
      var below := Ancestor(orgs, target, n - 1);
      if below.None? then None else Parent(orgs, below.value)
  }

  ghost predicate Reaches(orgs: Orgs, target: Uuid, o: Uuid) {
    exists n: nat :: Ancestor(orgs, target, n) == Some(o)
  }

  ghost predicate ReachesWithinCap(orgs: Orgs, target: Uuid, o: Uuid) {
    exists n: nat :: n <= MAX_HIERARCHY_DEPTH && Ancestor(orgs, target, n) == Some(o)
  }

  /** Every org at or above `target`, however far up. */
  ghost function AllAncestors(orgs: Orgs, target: Uuid): set<Uuid> {
    set o | o in orgs && Reaches(orgs, target, o)
  }

  lemma {:induction false} AncestorCompose(orgs: Orgs, target: Uuid, d: nat, k: nat)
    requires Ancestor(orgs, target, d).Some?
    ensures Ancestor(orgs, Ancestor(orgs, target, d).value, k) == Ancestor(orgs, target, d + k)
  {
    if k > 0 {
      AncestorCompose(orgs, target, d, k - 1);
    }
  }

  lemma {:induction false} AncestorsAreContiguous(orgs: Orgs, target: Uuid, i: nat, j: nat)
    requires i <= j && Ancestor(orgs, target, j).Some?
    ensures Ancestor(orgs, target, i).Some?
    decreases j
  {
    if i < j {
      AncestorsAreContiguous(orgs, target, i, j - 1);
    }
  }

  // ---------- the recursive query ----------

  /** A row of `orgs` as the query reads it, and a row of `org_chain`. */
  datatype OrgRow = OrgRow(id: Uuid, parent: Option<Uuid>)
  datatype ChainRow = ChainRow(id: Uuid, parent: Option<Uuid>, depth: nat)

  /** `table` lists the rows of `orgs`, each once, in some order. Of the schema this
      uses only that `orgs.id` is a key. */
  ghost predicate ListsOrgs(table: seq<OrgRow>, orgs: Orgs) {
    && (forall r :: r in table ==> r.id in orgs && r.parent == orgs[r.id].parent)
    && (forall o :: o in orgs ==> OrgRow(o, orgs[o].parent) in table)
    && IdsUnique(table)
  }

  ghost predicate IdsUnique(table: seq<OrgRow>) {
    forall i, j :: 0 <= i < j < |table| ==> table[i].id != table[j].id
  }

  /** The non-recursive term: `WHERE id = :target_org_id`, at depth 0. */
  function Anchor(table: seq<OrgRow>, target: Uuid): seq<ChainRow> {
    if table == [] then []
    else if table[0].id == target then [ChainRow(target, table[0].parent, 0)] + Anchor(table[1..], target)
    else Anchor(table[1..], target)
  }

  /** The rows the recursive term makes of one org row and the working table. */
  function JoinOne(row: OrgRow, working: seq<ChainRow>): seq<ChainRow> {
    if working == [] then []
    else
      var c := working[0];
      var rest := JoinOne(row, working[1..]);
      if c.parent == Some(row.id) && c.depth < MAX_HIERARCHY_DEPTH
      then [ChainRow(row.id, row.parent, c.depth + 1)] + rest
      else rest
  }

  /** The recursive term: `orgs o JOIN org_chain c ON o.id = c.parent_org_id WHERE
      c.depth < :max_depth`, with `org_chain` standing for the working table. */
  function Join(table: seq<OrgRow>, working: seq<ChainRow>): seq<ChainRow> {
    if table == [] then []
    else JoinOne(table[0], working) + Join(table[1..], working)
  }

  lemma {:induction false} AnchorIsAtMostOneRow(table: seq<OrgRow>, target: Uuid)
    requires IdsUnique(table)
    ensures forall i :: 0 <= i < |table| && table[i].id == target ==>
              Anchor(table, target) == [ChainRow(target, table[i].parent, 0)]
    ensures (forall i :: 0 <= i < |table| ==> table[i].id != target) ==> Anchor(table, target) == []
  {
    if table != [] {
      assert forall i :: 0 <= i < |table[1..]| ==> table[1..][i] == table[i + 1];
      AnchorIsAtMostOneRow(table[1..], target);
    }
  }

  /** `UNION ALL` keeps duplicates, but a working table of one row joins to at most one. */
  lemma {:induction false} JoinKeepsOneRow(table: seq<OrgRow>, c: ChainRow)
    requires IdsUnique(table)
    ensures c.depth < MAX_HIERARCHY_DEPTH ==>
              forall i :: 0 <= i < |table| && c.parent == Some(table[i].id) ==>
                Join(table, [c]) == [ChainRow(table[i].id, table[i].parent, c.depth + 1)]
    ensures (c.depth >= MAX_HIERARCHY_DEPTH || forall i :: 0 <= i < |table| ==> c.parent != Some(table[i].id)) ==>
              Join(table, [c]) == []
  {
    if table != [] {
      assert forall i :: 0 <= i < |table[1..]| ==> table[1..][i] == table[i + 1];
      JoinKeepsOneRow(table[1..], c);
      assert JoinOne(table[0], [c][1..]) == [];
    }
  }

  /** The `n`-th row of the chain, if there is one below the cap. */
  ghost function RowAt(orgs: Orgs, target: Uuid, n: nat): seq<ChainRow> {
    var a := Ancestor(orgs, target, n);
    if n <= MAX_HIERARCHY_DEPTH && a.Some? then [ChainRow(a.value, orgs[a.value].parent, n)] else []
  }

  lemma AnchorIsRowZero(table: seq<OrgRow>, orgs: Orgs, target: Uuid)
    requires ListsOrgs(table, orgs)
    ensures Anchor(table, target) == RowAt(orgs, target, 0)
  {
    AnchorIsAtMostOneRow(table, target);
    if target in orgs {
      assert OrgRow(target, orgs[target].parent) in table;
    }
  }

  lemma JoinIsNextRow(table: seq<OrgRow>, orgs: Orgs, target: Uuid, n: nat)
    requires ListsOrgs(table, orgs)
    requires RowAt(orgs, target, n) != []
    ensures Join(table, RowAt(orgs, target, n)) == RowAt(orgs, target, n + 1)
  {
    var c := RowAt(orgs, target, n)[0];
    JoinKeepsOneRow(table, c);
    if c.parent.Some? && c.parent.value in orgs {
      assert OrgRow(c.parent.value, orgs[c.parent.value].parent) in table;
    }
  }

  /** `chain` is the sequence of parent iterates of `target`, cut after depth 10. */
  ghost predicate IsChain(orgs: Orgs, target: Uuid, chain: seq<ChainRow>) {
    IsPrefixOfChain(orgs, target, chain) && RowAt(orgs, target, |chain|) == []
  }

  ghost predicate IsPrefixOfChain(orgs: Orgs, target: Uuid, chain: seq<ChainRow>) {
    forall n :: 0 <= n < |chain| ==> RowAt(orgs, target, n) == [chain[n]]
  }

  /** The first `n` rows of the chain, put together. */
  ghost function ChainTo(orgs: Orgs, target: Uuid, n: nat): seq<ChainRow> {
    if n == 0 then [] else ChainTo(orgs, target, n - 1) + RowAt(orgs, target, n - 1)
  }

  lemma {:induction false} ChainToIsPrefix(orgs: Orgs, target: Uuid, n: nat)
    requires n > 0 ==> RowAt(orgs, target, n - 1) != []
    ensures |ChainTo(orgs, target, n)| == n && IsPrefixOfChain(orgs, target, ChainTo(orgs, target, n))
  {
    if n > 0 {
      var shorter, longer := ChainTo(orgs, target, n - 1), ChainTo(orgs, target, n);
      ChainToIsPrefix(orgs, target, n - 1);
      forall i | 0 <= i < n
        ensures RowAt(orgs, target, i) == [longer[i]]
      {
        if i < n - 1 {
          assert longer[i] == shorter[i];
        }
      }
    }
  }

  lemma ChainToIsChain(orgs: Orgs, target: Uuid, n: nat)
    requires RowAt(orgs, target, n) == [] && (n > 0 ==> RowAt(orgs, target, n - 1) != [])
    ensures IsChain(orgs, target, ChainTo(orgs, target, n))
    ensures |ChainTo(orgs, target, n)| == n <= MAX_HIERARCHY_DEPTH + 1
  {
    ChainToIsPrefix(orgs, target, n);
  }

  /** The non-recursive term. */
  method FirstRound(table: seq<OrgRow>, ghost orgs: Orgs, target: Uuid) returns (working: seq<ChainRow>)
    requires ListsOrgs(table, orgs)
    ensures working == RowAt(orgs, target, 0)
  {
    AnchorIsRowZero(table, orgs, target);
    working := Anchor(table, target);
  }

  /** One evaluation of the recursive term. */
  method NextRound(table: seq<OrgRow>, ghost orgs: Orgs, ghost target: Uuid, ghost n: nat, working: seq<ChainRow>)
    returns (next: seq<ChainRow>)
    requires ListsOrgs(table, orgs)
    requires working == RowAt(orgs, target, n) && working != []
    ensures next == RowAt(orgs, target, n + 1)
  {
    JoinIsNextRow(table, orgs, target, n);
    next := Join(table, working);
  }

  /** PostgreSQL's evaluation of the recursive query: the working table starts as the
      anchor rows, and each round replaces it by its join with `orgs` until it is empty.
      `rounds` counts evaluations of the recursive term. */
  method OrgChainRows(orgs: Orgs, target: Uuid) returns (chain: seq<ChainRow>, rounds: nat)
    ensures IsChain(orgs, target, chain)
    ensures |chain| == rounds <= MAX_HIERARCHY_DEPTH + 1
  {
    var table := TableScan(orgs);
    var working := FirstRound(table, orgs, target);
    chain, rounds := working, 0;
    while working != []
      invariant working == RowAt(orgs, target, rounds)
      invariant rounds > 0 ==> RowAt(orgs, target, rounds - 1) != []
      invariant chain == ChainTo(orgs, target, rounds) + working
      decreases MAX_HIERARCHY_DEPTH + 1 - rounds
    {
      working := NextRound(table, orgs, target, rounds, working);
      chain, rounds := chain + working, rounds + 1;
    }
    ChainToIsChain(orgs, target, rounds);
    assert chain == ChainTo(orgs, target, rounds);
  }

  method TableScan(orgs: Orgs) returns (table: seq<OrgRow>)
    ensures ListsOrgs(table, orgs)
  {
    var ids := Scan(orgs.Keys);
    table := [];
    for i := 0 to |ids|
      invariant |table| == i
      invariant forall j :: 0 <= j < i ==> table[j] == OrgRow(ids[j], orgs[ids[j]].parent)
    {
      table := table + [OrgRow(ids[i], orgs[ids[i]].parent)];
    }
    forall o | o in orgs
      ensures OrgRow(o, orgs[o].parent) in table
    {
      assert o in ids;
      var j :| 0 <= j < |ids| && ids[j] == o;
      assert table[j] == OrgRow(o, orgs[o].parent);
    }
  }

  // ---------- the cap against unbounded ancestry ----------

  /** Once an org repeats, the walk is periodic. */
  lemma RepeatShiftsBack(orgs: Orgs, target: Uuid, i: nat, j: nat, n: nat)
    requires i < j <= n && Ancestor(orgs, target, n).Some?
    requires Ancestor(orgs, target, i) == Ancestor(orgs, target, j)
    ensures Ancestor(orgs, target, n) == Ancestor(orgs, target, n - (j - i))
  {
    AncestorsAreContiguous(orgs, target, j, n);
    AncestorCompose(orgs, target, i, n - j);
    AncestorCompose(orgs, target, j, n - j);
  }

  /** The orgs met on the first `n` steps. */
  ghost function Met(orgs: Orgs, target: Uuid, n: nat): set<Uuid> {
    if n == 0 then {}
    else
      var a := Ancestor(orgs, target, n - 1);
      Met(orgs, target, n - 1) + if a.Some? then {a.value} else {}
  }

  lemma {:induction false} MetStep(orgs: Orgs, target: Uuid, n: nat, o: Uuid) returns (m: nat)
    requires o in Met(orgs, target, n)
    ensures m < n && Ancestor(orgs, target, m) == Some(o)
  {
    if Ancestor(orgs, target, n - 1) == Some(o) {
      m := n - 1;
    } else {
      m := MetStep(orgs, target, n - 1, o);
    }
  }

  lemma {:induction false} MetContains(orgs: Orgs, target: Uuid, n: nat, m: nat)
    requires m < n && Ancestor(orgs, target, m).Some?
    ensures Ancestor(orgs, target, m).value in Met(orgs, target, n)
  {
    if m < n - 1 {
      MetContains(orgs, target, n - 1, m);
    }
  }

  lemma {:induction false} MetSize(orgs: Orgs, target: Uuid, n: nat)
    ensures |Met(orgs, target, n)| <= n
  {
    if n > 0 {
      MetSize(orgs, target, n - 1);
    }
  }

  lemma MetAreAncestors(orgs: Orgs, target: Uuid, n: nat)
    ensures |Met(orgs, target, n)| <= |AllAncestors(orgs, target)|
  {
    forall o | o in Met(orgs, target, n)
      ensures o in AllAncestors(orgs, target)
    {
      var m := MetStep(orgs, target, n, o);
    }
    SubsetSize(Met(orgs, target, n), AllAncestors(orgs, target));
  }

  /** If `n` is the first step that meets its org, no two steps up to it meet the same org. */
  lemma NoRepeatBefore(orgs: Orgs, target: Uuid, o: Uuid, n: nat, i: nat, j: nat)
    requires i < j <= n && Ancestor(orgs, target, n) == Some(o) && o !in Met(orgs, target, n)
    ensures Ancestor(orgs, target, i) != Ancestor(orgs, target, j)
  {
    if Ancestor(orgs, target, i) == Ancestor(orgs, target, j) {
      RepeatShiftsBack(orgs, target, i, j, n);
      MetContains(orgs, target, n, n - (j - i));
    }
  }

  /** Before its first meeting at step `n`, step `m` meets an org not met before. */
  lemma NotMetYet(orgs: Orgs, target: Uuid, o: Uuid, n: nat, m: nat)
    requires m <= n && Ancestor(orgs, target, n) == Some(o) && o !in Met(orgs, target, n)
    ensures Ancestor(orgs, target, m).Some? && Ancestor(orgs, target, m).value !in Met(orgs, target, m)
  {
    AncestorsAreContiguous(orgs, target, m, n);
    var a := Ancestor(orgs, target, m).value;
    if a in Met(orgs, target, m) {
      var i := MetStep(orgs, target, m, a);
      NoRepeatBefore(orgs, target, o, n, i, m);
    }
  }

  lemma MetGrows(orgs: Orgs, target: Uuid, m: nat)
    requires Ancestor(orgs, target, m).Some? && Ancestor(orgs, target, m).value !in Met(orgs, target, m)
    ensures |Met(orgs, target, m + 1)| == |Met(orgs, target, m)| + 1
  {
    assert Met(orgs, target, m + 1) == Met(orgs, target, m) + {Ancestor(orgs, target, m).value};
  }

  lemma {:induction false} MetAreDistinct(orgs: Orgs, target: Uuid, o: Uuid, n: nat, m: nat)
    requires m <= n + 1 && Ancestor(orgs, target, n) == Some(o) && o !in Met(orgs, target, n)
    ensures |Met(orgs, target, m)| == m
  {
    if m > 0 {
      MetAreDistinct(orgs, target, o, n, m - 1);
      NotMetYet(orgs, target, o, n, m - 1);
      MetGrows(orgs, target, m - 1);
    }
  }

  lemma {:induction false} FirstMeeting(orgs: Orgs, target: Uuid, o: Uuid, n: nat) returns (first: nat)
    requires Ancestor(orgs, target, n) == Some(o)
    ensures first <= n && Ancestor(orgs, target, first) == Some(o) && o !in Met(orgs, target, first)
  {
    if o in Met(orgs, target, n) {
      var i := MetStep(orgs, target, n, o);
      first := FirstMeeting(orgs, target, o, i);
    } else {
      first := n;
    }
  }

  /** Pigeonhole: every ancestor is met within as many steps as there are ancestors. */
  lemma AncestorsMetInTime(orgs: Orgs, target: Uuid, o: Uuid)
    requires Reaches(orgs, target, o)
    ensures exists n: nat :: n < |AllAncestors(orgs, target)| && Ancestor(orgs, target, n) == Some(o)
  {
    var any: nat :| Ancestor(orgs, target, any) == Some(o);
    var n := FirstMeeting(orgs, target, o, any);
    MetAreDistinct(orgs, target, o, n, n + 1);
    MetAreAncestors(orgs, target, n + 1);
  }

  /** With more ancestors than the capped walk has steps, it misses one. */
  lemma AncestorBeyondCap(orgs: Orgs, target: Uuid) returns (o: Uuid)
    requires |AllAncestors(orgs, target)| > MAX_HIERARCHY_DEPTH + 1
    ensures Reaches(orgs, target, o) && !ReachesWithinCap(orgs, target, o)
  {
    var all, met := AllAncestors(orgs, target), Met(orgs, target, MAX_HIERARCHY_DEPTH + 1);
    MetSize(orgs, target, MAX_HIERARCHY_DEPTH + 1);
    if all <= met {
      SubsetSize(all, met);
    }
    o :| o in all && o !in met;
    if ReachesWithinCap(orgs, target, o) {
      var n: nat :| n <= MAX_HIERARCHY_DEPTH && Ancestor(orgs, target, n) == Some(o);
      MetContains(orgs, target, MAX_HIERARCHY_DEPTH + 1, n);
    }
  }
}
