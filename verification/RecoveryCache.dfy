/**
  The six-entry cache of retired keys (internal/fleetsec/recovery_store.go).
  A row's slot is also the radio slot, 2..7, that holds the key.
 */
module RecoveryCache {
  import opened Prelude
  import opened Keys

  /** A channel slot of a radio. */
  type Slot = s: int | 0 <= s < 8

  const FIRST_SLOT := 2
  const LAST_SLOT := 7
  const CAPACITY := 6

  datatype Row = Row(fp: Fp, psk: Psk, hash: Byte, addedAt: int, rotation: Option<nat>)

  /** fleet_recovery_psks, keyed by slot. */
  type Table = map<Slot, Row>

  /** The constraints of the table: slot range, and one row for each fingerprint. */
  ghost predicate ValidTable(t: Table) {
    && (forall s | s in t :: FIRST_SLOT <= s <= LAST_SLOT)
    && (forall s, u | s in t && u in t && s != u :: t[s].fp != t[u].fp)
  }

  ghost predicate HasFp(t: Table, fp: Fp) {
    exists s :: s in t && t[s].fp == fp
  }

  predicate Full(t: Table) {
    forall s: Slot | FIRST_SLOT <= s <= LAST_SLOT :: s in t
  }

  predicate LowestFree(t: Table, slot: Slot) {
    && FIRST_SLOT <= slot <= LAST_SLOT
    && slot !in t
    && forall s: Slot | FIRST_SLOT <= s < slot :: s in t
  }

  predicate Oldest(t: Table, slot: Slot) {
    slot in t && forall s | s in t :: t[slot].addedAt <= t[s].addedAt
  }

  /** A successful add of (fp, psk) at time now turns t into t' and reports slot. */
  ghost predicate AddStep(t: Table, t': Table, slot: Slot, fp: Fp, psk: Psk, hash: Byte,
                          rotation: Option<nat>, now: int)
  {
    if HasFp(t, fp) then
      && slot in t && t[slot].fp == fp
      && t' == t[slot := t[slot].(addedAt := now, rotation := rotation)]
    else
      && (if Full(t) then Oldest(t, slot) else LowestFree(t, slot))
      && t' == t[slot := Row(fp, psk, hash, now, rotation)]
  }

  /**
    An add, case by case: a known fingerprint keeps its slot and key and gets a new time; otherwise
    the row goes to the lowest free slot of 2..7, or replaces the oldest when all six are taken.
   */
  lemma AddIs(t: Table, t': Table, slot: Slot, fp: Fp, psk: Psk, hash: Byte, rotation: Option<nat>, now: int)
    requires ValidTable(t) && AddStep(t, t', slot, fp, psk, hash, rotation, now)
    ensures 2 <= slot <= 7 && t'.Keys == t.Keys + {slot}
    ensures forall s | s in t && s != slot :: t'[s] == t[s]
    ensures (exists s :: s in t && t[s].fp == fp) ==>
              slot in t && t[slot].fp == fp && t'[slot] == t[slot].(addedAt := now, rotation := rotation)
    ensures !(exists s :: s in t && t[s].fp == fp) ==>
              && t'[slot] == Row(fp, psk, hash, now, rotation)
              && (slot !in t ==> forall s: Slot | 2 <= s < slot :: s in t)
              && (slot in t ==>
                    && (forall s: Slot | 2 <= s :: s in t)
                    && forall s | s in t :: t[slot].addedAt <= t[s].addedAt)
  {
  }

  lemma InsertValid(t: Table, slot: Slot, row: Row)
    requires ValidTable(t) && !HasFp(t, row.fp) && FIRST_SLOT <= slot <= LAST_SLOT
    ensures ValidTable(t[slot := row])
  {
  }

  lemma {:induction false} OldestExists(t: Table, keys: set<Slot>)
    requires keys != {} && keys <= t.Keys
    ensures exists slot :: slot in keys && forall s | s in keys :: t[slot].addedAt <= t[s].addedAt
    decreases keys
  {
    var k :| k in keys;
    var rest := keys - {k};
    assert keys == rest + {k};
    if rest == {} {
      assert keys == {k};
    } else {
      OldestExists(t, rest);
      var m :| m in rest && forall s | s in rest :: t[m].addedAt <= t[s].addedAt;
      var best := if t[k].addedAt <= t[m].addedAt then k else m;
      forall s | s in keys
        ensures t[best].addedAt <= t[s].addedAt
      {
        assert s == k || s in rest;
      }
    }
  }

  /** The last row, in slot order, with this hash. */
  ghost predicate LastWithHash(t: Table, h: Byte, s: Slot) {
    s in t && t[s].hash == h && forall u | u in t && t[u].hash == h :: u <= s
  }

  /**
    A table from wire hashes to fingerprints that knows exactly the hashes of the rows, each by
    the last of its rows.
   */
  ghost predicate NamesRows(t: Table, table: map<Byte, Fp>) {
    && (forall s | s in t :: t[s].hash in table)
    && (forall h | h in table :: exists s :: LastWithHash(t, h, s) && t[s].fp == table[h])
  }

  /** The rows in slots below n. */
  function Below(t: Table, n: nat): Table {
    map s | s in t && s < n :: t[s]
  }

  lemma BelowEnds(t: Table)
    ensures NamesRows(Below(t, 0), map[]) && Below(t, 8) == t
  {
  }

  lemma BelowSkips(t: Table, n: nat)
    requires n < 8 && n !in t
    ensures Below(t, n + 1) == Below(t, n)
  {
  }

  lemma NamesOneMore(t: Table, table: map<Byte, Fp>, slot: Slot)
    requires NamesRows(Below(t, slot), table) && slot in t
    ensures NamesRows(Below(t, slot + 1), table[t[slot].hash := t[slot].fp])
  {
    var low, low' := Below(t, slot), Below(t, slot + 1);
    assert low' == low[slot := t[slot]] && forall s | s in low :: s < slot;
    hide Below;
    var table' := table[t[slot].hash := t[slot].fp];
    forall h | h in table'
      ensures exists s :: LastWithHash(low', h, s) && low'[s].fp == table'[h]
    {
      if h == t[slot].hash {
        assert LastWithHash(low', h, slot);
      } else {
        var s :| LastWithHash(low, h, s) && low[s].fp == table[h];
        assert LastWithHash(low', h, s);
      }
    }
  }

  class RecoveryStore {
    var rows: Table

    constructor ()
      ensures rows == map[]
    {
      rows := map[];
    }

    /** SELECT slot ... WHERE fp = $1. */
    method FindFp(fp: Fp) returns (slot: Option<Slot>)
      ensures slot.Some? ==> slot.value in rows && rows[slot.value].fp == fp
      ensures slot.None? <==> !HasFp(rows, fp)
    {
      var left := rows.Keys;
      while left != {}
        invariant left <= rows.Keys
        invariant forall s | s in rows && s !in left :: rows[s].fp != fp
        decreases left
      {
        var s :| s in left;
        if rows[s].fp == fp {
          return Some(s);
        }
        left := left - {s};
      }
      return None;
    }

    /** RebuildHashTable: the rows come in slot order, so for equal hashes the highest slot wins. */
    method RebuildHashTable() returns (table: map<Byte, Fp>)
      ensures NamesRows(rows, table)
    {
      hide NamesRows, Below;
      table := map[];
      BelowEnds(rows);
      for s := 0 to 8
        invariant NamesRows(Below(rows, s), table)
      {
        if s in rows {
          NamesOneMore(rows, table, s);
          table := table[rows[s].hash := rows[s].fp];
        } else {
          BelowSkips(rows, s);
        }
      }
    }

    /**
      AddRecoveryPSK. dbOk says whether the database transaction commits; when it does
      not, everything in it is rolled back. Among equally old rows any may be evicted.
     */
    method AddRecoveryPSK(fp: Fp, psk: Psk, hash: Byte, rotation: Option<nat>, now: int, dbOk: bool)
      returns (r: Result<Slot, string>)
      requires ValidTable(rows)
      modifies this
      ensures ValidTable(rows)
      ensures r.Ok? <==> psk != [] && fp != Blank && dbOk
      ensures r.Ok? ==> AddStep(old(rows), rows, r.value, fp, psk, hash, rotation, now)
      ensures r.Err? ==> rows == old(rows)
    {
      if |psk| == 0 {
        return Err("recovery psk must be non-empty");
      }
      if fp == Blank {
        return Err("recovery fp must be non-empty");
      }
      if !dbOk {
        return Err("transaction rolled back");
      }
      var existing := FindFp(fp);
      if existing.Some? {
        var s := existing.value;
        rows := rows[s := rows[s].(addedAt := now, rotation := rotation)];
        return Ok(s);
      }
      var free: Option<Slot> := None;
      var i := FIRST_SLOT;
      while i <= LAST_SLOT
        invariant FIRST_SLOT <= i <= LAST_SLOT + 1
        invariant rows == old(rows) && free == None
        invariant forall s: Slot | FIRST_SLOT <= s < i :: s in rows
      {
        if i !in rows {
          free := Some(i);
          break;
        }
        i := i + 1;
      }
      var slot: Slot;
      if free.Some? {
        slot := free.value;
      } else {
        assert FIRST_SLOT in rows;
        OldestExists(rows, rows.Keys);
        slot :| slot in rows.Keys && forall s | s in rows.Keys :: rows[slot].addedAt <= rows[s].addedAt;
        assert FIRST_SLOT <= slot <= LAST_SLOT;
      }
      InsertValid(rows, slot, Row(fp, psk, hash, now, rotation));
      rows := rows[slot := Row(fp, psk, hash, now, rotation)];
      return Ok(slot);
    }
  }

  // ---------------------------------------------------------------------------
  // The specification: the last six distinct fingerprints of a history of adds.
  // ---------------------------------------------------------------------------

  /** The fingerprints added after the last addition of f; history oldest first. */
  ghost function Later(h: seq<Fp>, f: Fp): set<Fp> {
    if h == [] || h[|h| - 1] == f then {} else Later(h[..|h| - 1], f) + {h[|h| - 1]}
  }

  /** f is one of the last six distinct fingerprints of h. */
  ghost predicate AmongLastSix(h: seq<Fp>, f: Fp) {
    f in h && |Later(h, f)| < CAPACITY
  }

  lemma LaterAppend(h: seq<Fp>, g: Fp, f: Fp)
    ensures Later(h + [g], f) == if f == g then {} else Later(h, f) + {g}
  {
    assert (h + [g])[..|h|] == h;
  }

  /** Adding the newest fingerprint once more changes nothing. */
  lemma RepeatIsIdle(h: seq<Fp>, g: Fp, f: Fp)
    ensures AmongLastSix(h + [g] + [g], f) <==> AmongLastSix(h + [g], f)
    ensures Later(h + [g] + [g], f) == Later(h + [g], f)
  {
    LaterAppend(h + [g], g, f);
    LaterAppend(h, g, f);
  }

  ghost function AllFps(t: Table): set<Fp> {
    set s | s in t :: t[s].fp
  }

  /** The fingerprints of the rows newer than the row in slot s. */
  ghost function Younger(t: Table, s: Slot): set<Fp>
    requires s in t
  {
    set u | u in t && t[u].addedAt > t[s].addedAt :: t[u].fp
  }

  ghost predicate DistinctAges(t: Table) {
    forall s, u | s in t && u in t && s != u :: t[s].addedAt != t[u].addedAt
  }

  /** What ties the table to the history of its adds. */
  ghost predicate Tracks(t: Table, h: seq<Fp>) {
    && ValidTable(t)
    && (forall s | s in t :: t[s].fp in h)
    && (forall s | s in t :: Later(h, t[s].fp) == Younger(t, s))
    && (forall f | f in h && f !in AllFps(t) :: Full(t) && AllFps(t) <= Later(h, f))
  }

  lemma {:induction false} FpsCardinality(t: Table, slots: set<Slot>)
    requires ValidTable(t) && slots <= t.Keys
    ensures |set s | s in slots :: t[s].fp| == |slots|
    decreases slots
  {
    var fps := set s | s in slots :: t[s].fp;
    if slots == {} {
      assert fps == {};
    } else {
      var k :| k in slots;
      var rest := slots - {k};
      FpsCardinality(t, rest);
      var fpsRest := set s | s in rest :: t[s].fp;
      assert fps == fpsRest + {t[k].fp};
      assert t[k].fp !in fpsRest;
    }
  }

  function RecoverySlots(): set<Slot> {
    {2, 3, 4, 5, 6, 7}
  }

  lemma SlotsInRange(t: Table)
    requires ValidTable(t)
    ensures t.Keys <= RecoverySlots()
  {
    forall s | s in t.Keys
      ensures s in RecoverySlots()
    {
      assert FIRST_SLOT <= s <= LAST_SLOT;
    }
  }

  lemma FewYounger(t: Table, s: Slot)
    requires ValidTable(t) && s in t
    ensures |Younger(t, s)| < CAPACITY
  {
    var younger := set u | u in t && t[u].addedAt > t[s].addedAt;
    FpsCardinality(t, younger);
    assert Younger(t, s) == set u | u in younger :: t[u].fp;
    SlotsInRange(t);
    SubsetCardinality(younger, RecoverySlots() - {s});
  }

  lemma FullHoldsSix(t: Table)
    requires ValidTable(t) && Full(t)
    ensures |AllFps(t)| == CAPACITY
  {
    SlotsInRange(t);
    assert t.Keys == RecoverySlots();
    FpsCardinality(t, t.Keys);
    assert AllFps(t) == set u | u in t.Keys :: t[u].fp;
  }

  /** A table that tracks h holds exactly the last six distinct fingerprints of h. */
  lemma TracksIsLastSix(t: Table, h: seq<Fp>, f: Fp)
    requires Tracks(t, h)
    ensures HasFp(t, f) <==> AmongLastSix(h, f)
  {
    if HasFp(t, f) {
      var s :| s in t && t[s].fp == f;
      FewYounger(t, s);
    } else if f in h {
      FullHoldsSix(t);
      SubsetCardinality(AllFps(t), Later(h, f));
    }
  }

  // ---------------------------------------------------------------------------
  // Refinement: every add keeps the table tied to the history.
  // ---------------------------------------------------------------------------

  ghost predicate Newer(t: Table, now: int) {
    forall s | s in t :: t[s].addedAt < now
  }

  lemma RefreshTracks(t: Table, t': Table, slot: Slot, rotation: Option<nat>, now: int, h: seq<Fp>)
    requires Tracks(t, h) && Newer(t, now) && slot in t
    requires t' == t[slot := t[slot].(addedAt := now, rotation := rotation)]
    ensures Tracks(t', h + [t[slot].fp])
  {
    hide Later, Younger;
    var g := t[slot].fp;
    var h' := h + [g];
    forall s | s in t'
      ensures t'[s].fp in h' && Later(h', t'[s].fp) == Younger(t', s)
    {
      UpdateTracksRow(t, t', slot, h, s);
    }
    RefreshKeepsFps(t, t', slot);
    forall f | f in h' && f !in AllFps(t')
      ensures Full(t') && AllFps(t') <= Later(h', f)
    {
      LaterAppend(h, g, f);
    }
  }

  lemma RefreshKeepsFps(t: Table, t': Table, slot: Slot)
    requires t'.Keys == t.Keys && forall s | s in t :: t'[s].fp == t[s].fp
    ensures AllFps(t') == AllFps(t)
  {
  }

  /** What writing the newest row into slot does to the newer-than relation. */
  lemma YoungerAfterUpdate(t: Table, t': Table, slot: Slot, s: Slot)
    requires t'.Keys == t.Keys + {slot} && s in t'
    requires forall u | u in t && u != slot :: t'[u] == t[u]
    requires Newer(t, t'[slot].addedAt)
    requires slot in t ==> t'[slot].fp == t[slot].fp || Oldest(t, slot)
    ensures s == slot ==> Younger(t', s) == {}
    ensures s != slot ==> Younger(t', s) == Younger(t, s) + {t'[slot].fp}
  {
    if s != slot {
      forall f | f in Younger(t, s)
        ensures f in Younger(t', s)
      {
        var u :| u in t && t[u].addedAt > t[s].addedAt && t[u].fp == f;
        assert u != slot ==> t'[u] == t[u];
        assert t'[u].addedAt > t'[s].addedAt && t'[u].fp == f;
      }
    }
  }

  lemma UpdateTracksRow(t: Table, t': Table, slot: Slot, h: seq<Fp>, s: Slot)
    requires Tracks(t, h)
    requires t'.Keys == t.Keys + {slot} && s in t'
    requires forall u | u in t && u != slot :: t'[u] == t[u]
    requires Newer(t, t'[slot].addedAt)
    requires slot in t ==> t'[slot].fp == t[slot].fp || Oldest(t, slot)
    requires forall u | u in t && u != slot :: t[u].fp != t'[slot].fp
    ensures t'[s].fp in h + [t'[slot].fp] && Later(h + [t'[slot].fp], t'[s].fp) == Younger(t', s)
  {
    LaterAppend(h, t'[slot].fp, t'[s].fp);
    YoungerAfterUpdate(t, t', slot, s);
  }

  lemma InsertTracks(t: Table, t': Table, slot: Slot, row: Row, h: seq<Fp>)
    requires Tracks(t, h) && Newer(t, row.addedAt) && !HasFp(t, row.fp)
    requires if Full(t) then Oldest(t, slot) else LowestFree(t, slot)
    requires t' == t[slot := row]
    requires DistinctAges(t)
    ensures Tracks(t', h + [row.fp])
  {
    hide Later, Younger;
    var g := row.fp;
    var h' := h + [g];
    InsertValid(t, slot, row);
    forall s | s in t'
      ensures t'[s].fp in h' && Later(h', t'[s].fp) == Younger(t', s)
    {
      UpdateTracksRow(t, t', slot, h, s);
    }
    forall f | f in h' && f !in AllFps(t')
      ensures Full(t') && AllFps(t') <= Later(h', f)
    {
      InsertForgets(t, t', slot, row, h, f);
    }
  }

  lemma InsertKeepsOthers(t: Table, t': Table, slot: Slot, row: Row)
    requires t' == t[slot := row]
    ensures forall s | s in t && s != slot :: t[s].fp in AllFps(t')
  {
    forall s | s in t && s != slot
      ensures t[s].fp in AllFps(t')
    {
      assert t'[s].fp == t[s].fp;
    }
  }

  /** A fingerprint the table does not hold after an insert has all six cached ones after it. */
  lemma InsertForgets(t: Table, t': Table, slot: Slot, row: Row, h: seq<Fp>, f: Fp)
    requires Tracks(t, h) && !HasFp(t, row.fp)
    requires if Full(t) then Oldest(t, slot) else LowestFree(t, slot)
    requires t' == t[slot := row] && DistinctAges(t)
    requires f in h + [row.fp] && f !in AllFps(t')
    ensures Full(t') && AllFps(t') <= Later(h + [row.fp], f)
  {
    var g := row.fp;
    LaterAppend(h, g, f);
    assert t'[slot].fp in AllFps(t');
    assert f in h;
    if f in AllFps(t) {
      InsertKeepsOthers(t, t', slot, row);
      AllOthersYounger(t, slot);
    }
    assert AllFps(t') <= AllFps(t) + {g};
  }

  lemma AllOthersYounger(t: Table, slot: Slot)
    requires Oldest(t, slot) && DistinctAges(t)
    ensures AllFps(t) <= Younger(t, slot) + {t[slot].fp}
  {
  }

  /** One add, with a timestamp newer than all stored ones, extends the history by its fingerprint. */
  lemma AddTracks(t: Table, t': Table, slot: Slot, fp: Fp, psk: Psk, hash: Byte,
                  rotation: Option<nat>, now: int, h: seq<Fp>)
    requires Tracks(t, h) && DistinctAges(t) && Newer(t, now)
    requires AddStep(t, t', slot, fp, psk, hash, rotation, now)
    ensures Tracks(t', h + [fp]) && DistinctAges(t')
  {
    if HasFp(t, fp) {
      RefreshTracks(t, t', slot, rotation, now, h);
    } else {
      InsertTracks(t, t', slot, Row(fp, psk, hash, now, rotation), h);
    }
  }

  lemma AddIsUpdate(t: Table, t': Table, slot: Slot, fp: Fp, psk: Psk, hash: Byte, rotation: Option<nat>, now: int)
    requires ValidTable(t)
    requires AddStep(t, t', slot, fp, psk, hash, rotation, now)
    ensures ValidTable(t')
    ensures FIRST_SLOT <= slot <= LAST_SLOT && slot in t' && t'[slot].fp == fp && t'[slot].addedAt == now
    ensures forall s | s in t && s != slot :: s in t' && t'[s] == t[s]
    ensures t'.Keys == t.Keys + {slot}
    ensures HasFp(t, fp) ==> slot in t && t[slot].fp == fp && t[slot].psk == t'[slot].psk
    ensures slot in t && !HasFp(t, fp) ==> Full(t) && Oldest(t, slot)
  {
  }

  /**
    An add keeps the table well formed, holds the added fingerprint at the reported slot,
    keeps every surviving entry in its slot with its key, and evicts at most the oldest row
    and only from a full table.
   */
  lemma AddKeepsSlots(t: Table, t': Table, slot: Slot, fp: Fp, psk: Psk, hash: Byte,
                      rotation: Option<nat>, now: int)
    requires ValidTable(t)
    requires AddStep(t, t', slot, fp, psk, hash, rotation, now)
    ensures ValidTable(t')
    ensures FIRST_SLOT <= slot <= LAST_SLOT && slot in t' && t'[slot].fp == fp && t'[slot].addedAt == now
    ensures forall s, u | s in t && u in t' && t[s].fp == t'[u].fp :: s == u && t[s].psk == t'[u].psk
    ensures forall s | s in t && !HasFp(t', t[s].fp) :: s == slot && Full(t) && Oldest(t, s) && !HasFp(t, fp)
    ensures forall s | s in t && s != slot :: s in t' && t'[s] == t[s]
    ensures t'.Keys == t.Keys + {slot}
  {
    AddIsUpdate(t, t', slot, fp, psk, hash, rotation, now);
    hide AddStep, Full, Oldest;
    forall s | s in t && (s != slot || HasFp(t, fp))
      ensures HasFp(t', t[s].fp)
    {
      assert t'[s].fp == t[s].fp;
    }
  }

  // ---------------------------------------------------------------------------
  // Whole runs
  // ---------------------------------------------------------------------------

  /** One committed add. */
  datatype Add = Add(fp: Fp, psk: Psk, hash: Byte, rotation: Option<nat>, now: int, slot: Slot)

  ghost predicate Step(t: Table, t': Table, a: Add) {
    AddStep(t, t', a.slot, a.fp, a.psk, a.hash, a.rotation, a.now)
  }

  /** tables[0] is empty and adds[i] leads from tables[i] to tables[i+1]; timestamps increase. */
  ghost predicate Run(tables: seq<Table>, adds: seq<Add>) {
    && |tables| == |adds| + 1
    && tables[0] == map[]
    && (forall i | 0 <= i < |adds| :: Step(tables[i], tables[i + 1], adds[i]))
    && (forall i, j | 0 <= i < j < |adds| :: adds[i].now < adds[j].now)
  }

  /** The fingerprints of the first n adds. */
  function AddedFps(adds: seq<Add>, n: nat): seq<Fp>
    requires n <= |adds|
  {
    seq(n, i requires 0 <= i < n => adds[i].fp)
  }

  lemma EmptyTracks()
    ensures Tracks(map[], []) && DistinctAges(map[])
  {
  }

  lemma {:induction false} RunTracks(tables: seq<Table>, adds: seq<Add>, n: nat)
    requires Run(tables, adds) && n <= |adds|
    ensures Tracks(tables[n], AddedFps(adds, n))
    ensures DistinctAges(tables[n])
    ensures n > 0 ==> Newer(tables[n], adds[n - 1].now + 1)
  {
    hide Tracks, DistinctAges, AddStep;
    if n == 0 {
      EmptyTracks();
      assert AddedFps(adds, 0) == [];
    } else {
      RunTracks(tables, adds, n - 1);
      var a, h := adds[n - 1], AddedFps(adds, n - 1);
      var t, t' := tables[n - 1], tables[n];
      assert Step(t, t', a);
      assert Newer(t, a.now) by {
        if n > 1 {
          assert adds[n - 2].now < a.now;
        }
      }
      AddTracks(t, t', a.slot, a.fp, a.psk, a.hash, a.rotation, a.now, h);
      AddIsNewest(t, t', a);
      assert AddedFps(adds, n) == h + [a.fp];
    }
  }

  lemma AddIsNewest(t: Table, t': Table, a: Add)
    requires Step(t, t', a) && Newer(t, a.now)
    ensures Newer(t', a.now + 1)
  {
  }

  /** At every point of every run the cached fingerprints are exactly the last six distinct ones added. */
  lemma CacheIsLastSix(tables: seq<Table>, adds: seq<Add>, n: nat, f: Fp)
    requires Run(tables, adds) && n <= |adds|
    ensures ValidTable(tables[n])
    ensures HasFp(tables[n], f) <==> AmongLastSix(AddedFps(adds, n), f)
  {
    RunTracks(tables, adds, n);
    TracksIsLastSix(tables[n], AddedFps(adds, n), f);
  }

  /** An entry that stays cached from step i to step j is in the same slot, with the same key, at both. */
  lemma {:induction false} SlotStaysUntilEvicted(tables: seq<Table>, adds: seq<Add>, i: nat, j: nat, s: Slot, u: Slot)
    requires Run(tables, adds) && i <= j <= |adds|
    requires s in tables[i] && u in tables[j] && tables[i][s].fp == tables[j][u].fp
    requires forall k | i <= k <= j :: HasFp(tables[k], tables[i][s].fp)
    ensures s == u && tables[i][s].psk == tables[j][u].psk
    decreases j - i
  {
    RunTracks(tables, adds, i);
    if i < j {
      var a := adds[i];
      assert Step(tables[i], tables[i + 1], a);
      AddKeepsSlots(tables[i], tables[i + 1], a.slot, a.fp, a.psk, a.hash, a.rotation, a.now);
      assert HasFp(tables[i + 1], tables[i][s].fp);
      var s' :| s' in tables[i + 1] && tables[i + 1][s'].fp == tables[i][s].fp;
      SlotStaysUntilEvicted(tables, adds, i + 1, j, s', u);
    }
  }
}
