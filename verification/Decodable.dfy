/**
  What the rotation keeps for nodes that were left behind: wire hashes stay unambiguous, and
  the six most recently demoted keys stay on the radio. The results hold in every run of
  benign steps, and a step keeps them exactly when it is benign; the last section says what a
  retirement leaves behind otherwise. Module Healing says how they come back.
 */
module Decodable {
  import opened Prelude
  import opened Keys
  import opened RecoveryCache
  import opened PiRadio
  import opened Rotation

  /** The keys that may occur, and a fingerprint that tells them apart. */
  ghost predicate Fingerprints(fp: Psk -> Fp, keys: set<Psk>) {
    [] in keys && InjectiveOn(fp, keys) && forall k | k in keys :: fp(k) != Blank
  }

  // ---------------------------------------------------------------------------
  // Keys held and their hashes
  // ---------------------------------------------------------------------------

  ghost function SlotKeys(slots: Slots): set<Psk> {
    set i: Slot | slots[i].psk != [] :: slots[i].psk
  }

  ghost function TableKeys(t: Table): set<Psk> {
    set i | i in t :: t[i].psk
  }

  ghost function OpenKeys(rows: map<nat, Rotating>): set<Psk> {
    set i | i in rows && IsOpen(rows[i]) && rows[i].psk != [] :: rows[i].psk
  }

  /** Every non-empty key on the radio, in the recovery table, or about to be staged. */
  ghost function Held(s: Fleet): set<Psk> {
    SlotKeys(s.radio.slots) + TableKeys(s.table) + OpenKeys(s.rows)
  }

  ghost predicate HashesDiffer(keys: set<Psk>) {
    forall a, b | a in keys && b in keys && a != b :: WireHash(a) != WireHash(b)
  }

  lemma HashesDifferSubset(big: set<Psk>, small: set<Psk>)
    requires HashesDiffer(big) && small <= big
    ensures HashesDiffer(small)
  {
  }

  // ---------------------------------------------------------------------------
  // The recovery slots
  // ---------------------------------------------------------------------------

  function FpsOf(fp: Psk -> Fp, keys: seq<Psk>): seq<Fp> {
    seq(|keys|, i requires 0 <= i < |keys| => fp(keys[i]))
  }

  /** The rows of the recovery table describe their keys. */
  ghost predicate RowsDescribe(fp: Psk -> Fp, t: Table) {
    forall i | i in t :: t[i].psk != [] && t[i].fp == fp(t[i].psk) && t[i].hash == WireHash(t[i].psk)
  }

  /** The radio slot shows what the table says. */
  ghost predicate SlotAgrees(t: Table, slots: Slots, i: Slot) {
    slots[i] == if i in t then Channel(Secondary, t[i].psk) else BLANK
  }

  ghost predicate Agree(t: Table, slots: Slots) {
    forall i: Slot | i >= FIRST_SLOT :: SlotAgrees(t, slots, i)
  }

  /** The key of the PRIMARY is already in the table: Phase C stored it but has not committed. */
  ghost predicate InFlight(s: Fleet) {
    Current(s).psk in TableKeys(s.table)
  }

  /** The history the table tracks. */
  ghost function History(fp: Psk -> Fp, s: Fleet): seq<Fp> {
    FpsOf(fp, s.demoted) + if InFlight(s) then [fp(Current(s).psk)] else []
  }

  /** A slot of 2..7 carries a key with fingerprint f. */
  ghost predicate OnRadio(fp: Psk -> Fp, slots: Slots, f: Fp) {
    exists i: Slot :: i >= FIRST_SLOT && slots[i].role == Secondary && slots[i].psk != [] && fp(slots[i].psk) == f
  }

  ghost predicate RadioHolds(fp: Psk -> Fp, s: Fleet) {
    forall f :: OnRadio(fp, s.radio.slots, f) <==> AmongLastSix(FpsOf(fp, s.demoted), f)
  }

  ghost predicate KeysKnown(keys: set<Psk>, s: Fleet) {
    && (forall i: Slot :: s.radio.slots[i].psk in keys)
    && TableKeys(s.table) <= keys
    && (forall i | i in s.rows && IsOpen(s.rows[i]) :: s.rows[i].psk in keys)
  }

  /** The key being rotated in is nowhere among the recovery keys. */
  ghost predicate OpenKeyIsNew(s: Fleet) {
    forall k | k in OpenKeys(s.rows) ::
      && k !in TableKeys(s.table)
      && forall i: Slot | i >= FIRST_SLOT :: s.radio.slots[i].psk != k
  }

  ghost predicate SlotsFollow(s: Fleet) {
    forall i: Slot | i >= FIRST_SLOT ::
      SlotAgrees(s.table, s.radio.slots, i) || (i in s.table && s.table[i].psk == Current(s).psk)
  }

  ghost predicate TableTracks(fp: Psk -> Fp, s: Fleet) {
    && Tracks(s.table, History(fp, s))
    && DistinctAges(s.table)
    && Newer(s.table, s.now + 1)
  }

  /** The keys: known, described by their rows, and told apart by their wire hash. */
  ghost predicate KeyInv(fp: Psk -> Fp, keys: set<Psk>, s: Fleet) {
    && KeysKnown(keys, s)
    && RowsDescribe(fp, s.table)
    && HashesDiffer(Held(s))
    && OpenKeyIsNew(s)
  }

  ghost predicate SomeOpen(rows: map<nat, Rotating>) {
    exists i :: i in rows && IsOpen(rows[i])
  }

  /** No recovery slot carries the PRIMARY's key. */
  ghost predicate CurrentIsNew(s: Fleet) {
    Current(s).psk != [] ==> forall i: Slot | i >= FIRST_SLOT :: s.radio.slots[i].psk != Current(s).psk
  }

  /** The recovery slots follow the table, and the table the demoted keys. */
  ghost predicate FlowInv(fp: Psk -> Fp, s: Fleet) {
    && (InFlight(s) ==> SomeOpen(s.rows))
    && CurrentIsNew(s)
    && SlotsFollow(s)
    && TableTracks(fp, s)
    && RadioHolds(fp, s)
  }

  /** The part that does not depend on what Phase C managed to store. */
  ghost predicate BaseInv(fp: Psk -> Fp, keys: set<Psk>, s: Fleet) {
    && SlotInv(fp, s)
    && Fingerprints(fp, keys)
    && KeyInv(fp, keys, s)
  }

  ghost predicate CacheInv(fp: Psk -> Fp, keys: set<Psk>, s: Fleet) {
    BaseInv(fp, keys, s) && FlowInv(fp, s)
  }

  /** k is not among the recovery keys, and no other key on the radio or in the table shares its hash. */
  ghost predicate IsNewKey(s: Fleet, k: Psk) {
    && k !in TableKeys(s.table)
    && (forall i: Slot | i >= FIRST_SLOT :: s.radio.slots[i].psk != k)
    && (forall x | x in SlotKeys(s.radio.slots) + TableKeys(s.table) && x != k :: WireHash(x) != WireHash(k))
  }

  /**
    What the environment must not do. A key that RotatePSK accepts is new, if it is a key at all. A
    Phase C that promotes away from a key stores that key in the same attempt; whatever its insert
    does in an attempt that does not commit is harmless. A Phase C whose read of the PRIMARY slot
    fails finds nothing in flight, or does not get to mark the rotation retired.
   */
  ghost predicate Benign(fp: Psk -> Fp, keys: set<Psk>, s: Fleet, a: Action) {
    match a
    case Rotate(_, newPsk, answers, listOk, stored) =>
      Admits(s, newPsk, answers, listOk, stored) ==> newPsk in keys && (newPsk == [] || IsNewKey(s, newPsk))
    case PhaseC(job, answers, _, addOk, link, retireOk, _) =>
      job.id in s.rows && IsOpen(s.rows[job.id]) ==>
        if answers(PrimaryOf(s.radio.slots)).Acked? then
          addOk || Current(s).psk == [] || !Promotes(fp, s, a)
        else
          !InFlight(s) || !retireOk
    case _ => true
  }

  /** Phase C finds a PRIMARY with another key, and its transaction without a recovery write commits. */
  ghost predicate Promotes(fp: Psk -> Fp, s: Fleet, a: Action)
    requires a.PhaseC? && a.job.id in s.rows
  {
    s.rows[a.job.id].psk != [] && fp(Current(s).psk) != s.rows[a.job.id].newFp && Committed(a.link, 2)
  }

  // ---------------------------------------------------------------------------
  // At rest the table and the radio agree
  // ---------------------------------------------------------------------------

  lemma NotInFlightAgree(s: Fleet)
    requires SlotsFollow(s) && !InFlight(s)
    ensures Agree(s.table, s.radio.slots)
  {
    forall i: Slot | i >= FIRST_SLOT
      ensures SlotAgrees(s.table, s.radio.slots, i)
    {
      if i in s.table {
        assert s.table[i].psk in TableKeys(s.table);
      }
    }
  }

  /**
    With no rotation open, the recovery table, the radio's slots 2..7 and the six most
    recently demoted keys agree slot by slot.
   */
  lemma AgreementAtRest(fp: Psk -> Fp, keys: set<Psk>, s: Fleet)
    requires CacheInv(fp, keys, s)
    requires forall i | i in s.rows :: !IsOpen(s.rows[i])
    ensures Agree(s.table, s.radio.slots)
    ensures forall f :: HasFp(s.table, f) <==> AmongLastSix(FpsOf(fp, s.demoted), f)
  {
    NotInFlightAgree(s);
    assert History(fp, s) == FpsOf(fp, s.demoted);
    forall f
      ensures HasFp(s.table, f) <==> AmongLastSix(FpsOf(fp, s.demoted), f)
    {
      TracksIsLastSix(s.table, History(fp, s), f);
    }
  }

  /** Agreement with a table that tracks the demoted keys puts exactly those keys on the radio. */
  lemma AgreeGivesRadioHolds(fp: Psk -> Fp, s: Fleet)
    requires Agree(s.table, s.radio.slots) && RowsDescribe(fp, s.table)
    requires Tracks(s.table, FpsOf(fp, s.demoted))
    ensures RadioHolds(fp, s)
  {
    forall f
      ensures OnRadio(fp, s.radio.slots, f) <==> AmongLastSix(FpsOf(fp, s.demoted), f)
    {
      TracksIsLastSix(s.table, FpsOf(fp, s.demoted), f);
      AgreeOnRadio(fp, s.table, s.radio.slots, f);
    }
  }

  lemma AgreeOnRadio(fp: Psk -> Fp, t: Table, slots: Slots, f: Fp)
    requires ValidTable(t) && Agree(t, slots) && RowsDescribe(fp, t)
    ensures OnRadio(fp, slots, f) <==> HasFp(t, f)
  {
    if OnRadio(fp, slots, f) {
      var i: Slot :| i >= FIRST_SLOT && slots[i].role == Secondary && slots[i].psk != [] && fp(slots[i].psk) == f;
      assert SlotAgrees(t, slots, i);
    }
    if HasFp(t, f) {
      var i :| i in t && t[i].fp == f;
      assert SlotAgrees(t, slots, i);
    }
  }

  // ---------------------------------------------------------------------------
  // RotatePSK, Phase A and RetireOldPSK
  // ---------------------------------------------------------------------------

  /** A step that leaves the table, the recovery slots and the PRIMARY alone keeps FlowInv. */
  lemma SameFlow(fp: Psk -> Fp, s: Fleet, s': Fleet)
    requires FlowInv(fp, s)
    requires s'.table == s.table && s'.demoted == s.demoted && s'.now >= s.now
    requires Current(s') == Current(s)
    requires forall i: Slot | i >= FIRST_SLOT :: s'.radio.slots[i] == s.radio.slots[i]
    requires InFlight(s) ==> SomeOpen(s'.rows)
    ensures FlowInv(fp, s')
  {
    forall f
      ensures OnRadio(fp, s'.radio.slots, f) <==> OnRadio(fp, s.radio.slots, f)
    {
    }
    forall i: Slot | i >= FIRST_SLOT
      ensures SlotAgrees(s'.table, s'.radio.slots, i) || (i in s'.table && s'.table[i].psk == Current(s').psk)
    {
      assert SlotAgrees(s.table, s.radio.slots, i) ==> SlotAgrees(s'.table, s'.radio.slots, i);
    }
  }

  /** A key that passes the check differs in hash from everything held. */
  lemma CheckedKeyDiffers(s: Fleet, newPsk: Psk, answers: Slot -> Delivery, k: Psk)
    requires newPsk != [] && !Collides(s, newPsk, answers, true)
    requires answers(0).Acked? && answers(1).Acked?
    requires Agree(s.table, s.radio.slots)
    requires forall i | i in s.table :: s.table[i].hash == WireHash(s.table[i].psk)
    requires k in SlotKeys(s.radio.slots) + TableKeys(s.table)
    ensures WireHash(k) != WireHash(newPsk)
  {
    if k in SlotKeys(s.radio.slots) {
      var i: Slot :| s.radio.slots[i].psk != [] && s.radio.slots[i].psk == k;
      if i >= FIRST_SLOT {
        assert SlotAgrees(s.table, s.radio.slots, i);
      }
    }
  }

  /** If RotatePSK's two reads and its listing answered, a key it accepts is new. */
  lemma ComparedIsNew(fp: Psk -> Fp, keys: set<Psk>, s: Fleet, newPsk: Psk, answers: Slot -> Delivery)
    requires CacheInv(fp, keys, s) && forall i | i in s.rows :: !IsOpen(s.rows[i])
    requires newPsk != [] && !Collides(s, newPsk, answers, true) && answers(0).Acked? && answers(1).Acked?
    ensures IsNewKey(s, newPsk)
  {
    NotInFlightAgree(s);
    forall k | k in SlotKeys(s.radio.slots) + TableKeys(s.table)
      ensures WireHash(k) != WireHash(newPsk)
    {
      CheckedKeyDiffers(s, newPsk, answers, k);
    }
    forall i: Slot | s.radio.slots[i].psk != []
      ensures s.radio.slots[i].psk in SlotKeys(s.radio.slots)
    {
    }
  }

  /** RotatePSK keeps what is known of the keys exactly when it accepts nothing but a new key or none. */
  lemma RotateKeepsKeysIff(fp: Psk -> Fp, keys: set<Psk>, s: Fleet, s': Fleet, a: Action)
    requires a.Rotate? && Next(fp, s, a, s') && KeyInv(fp, keys, s)
    ensures KeyInv(fp, keys, s') <==> Benign(fp, keys, s, a)
  {
    hide Collides, WireHash, ValidPskLength;
    assert OpenKeys(s.rows) == {};
    if Admits(s, a.newPsk, a.answers, a.listOk, a.stored) {
      assert IsOpen(s'.rows[a.id]) && s'.rows[a.id].psk == a.newPsk;
      if a.newPsk != [] {
        assert OpenKeys(s'.rows) == {a.newPsk};
        hide Admits, RowsDescribe;
        NewKeyIff(s, s', a.newPsk);
      } else {
        assert OpenKeys(s'.rows) == {};
        assert Held(s') == Held(s);
      }
    } else {
      assert Held(s') == Held(s);
    }
  }

  lemma NewKeyIff(s: Fleet, s': Fleet, k: Psk)
    requires s'.radio.slots == s.radio.slots && s'.table == s.table
    requires k != [] && OpenKeys(s.rows) == {} && OpenKeys(s'.rows) == {k} && HashesDiffer(Held(s))
    ensures OpenKeyIsNew(s') && HashesDiffer(Held(s')) <==> IsNewKey(s, k)
  {
    hide WireHash, OpenKeys, SlotKeys, TableKeys;
    assert Held(s') == Held(s) + {k};
    assert OpenKeyIsNew(s') <==>
           k !in TableKeys(s.table) && forall i: Slot | i >= FIRST_SLOT :: s.radio.slots[i].psk != k;
  }

  lemma RotateKeepsCache(fp: Psk -> Fp, keys: set<Psk>, s: Fleet, s': Fleet, a: Action)
    requires a.Rotate? && CacheInv(fp, keys, s) && Next(fp, s, a, s') && Benign(fp, keys, s, a)
    ensures KeyInv(fp, keys, s') && FlowInv(fp, s')
  {
    RotateKeepsKeysIff(fp, keys, s, s', a);
    SameFlow(fp, s, s');
  }

  lemma PhaseAFrame(fp: Psk -> Fp, s: Fleet, a: Action, s': Fleet)
    requires a.PhaseA? && SlotInv(fp, s) && Next(fp, s, a, s')
    ensures Current(s') == Current(s)
    ensures forall i: Slot | i >= FIRST_SLOT :: s'.radio.slots[i] == s.radio.slots[i]
    ensures forall i: Slot | s'.radio.slots[i] != s.radio.slots[i] ::
              a.id in s.rows && IsOpen(s.rows[a.id]) && s'.radio.slots[i].psk == s.rows[a.id].psk
    ensures s'.rows.Keys == s.rows.Keys
    ensures forall i | i in s.rows :: s'.rows[i].psk == s.rows[i].psk && IsOpen(s'.rows[i]) == IsOpen(s.rows[i])
    ensures s'.table == s.table && s'.demoted == s.demoted && s'.now == s.now
  {
    hide AfterPhaseA;
    PhaseARow(s, a.id, a.answers, a.stage, a.pinOk, a.phaseOk);
    PhaseAWritesOther(fp, s, a.id, a.answers, a.stage, a.pinOk, a.phaseOk);
    PrimaryUnique(s'.radio.slots, PrimaryOf(s.radio.slots));
  }

  /** A step that writes nothing but open keys onto the radio holds no new key. */
  lemma HeldShrinks(s: Fleet, s': Fleet)
    requires TableKeys(s'.table) <= TableKeys(s.table) + SlotKeys(s.radio.slots)
    requires OpenKeys(s'.rows) <= OpenKeys(s.rows)
    requires forall i: Slot | s'.radio.slots[i].psk != [] :: s'.radio.slots[i].psk in Held(s)
    ensures Held(s') <= Held(s)
  {
  }

  lemma PhaseAKeepsKeys(fp: Psk -> Fp, keys: set<Psk>, s: Fleet, s': Fleet, a: Action)
    requires a.PhaseA? && SlotInv(fp, s) && Next(fp, s, a, s')
    requires KeyInv(fp, keys, s)
    ensures KeyInv(fp, keys, s')
  {
    PhaseAFrame(fp, s, a, s');
    assert OpenKeys(s'.rows) == OpenKeys(s.rows);
    forall i: Slot | s'.radio.slots[i].psk != []
      ensures s'.radio.slots[i].psk in Held(s)
    {
      if s'.radio.slots[i] == s.radio.slots[i] {
        assert s'.radio.slots[i].psk in SlotKeys(s.radio.slots);
      } else {
        assert s'.radio.slots[i].psk in OpenKeys(s.rows);
      }
    }
    HeldShrinks(s, s');
    HashesDifferSubset(Held(s), Held(s'));
  }

  lemma PhaseAKeepsCache(fp: Psk -> Fp, keys: set<Psk>, s: Fleet, s': Fleet, a: Action)
    requires a.PhaseA? && CacheInv(fp, keys, s) && Next(fp, s, a, s')
    ensures KeyInv(fp, keys, s') && FlowInv(fp, s')
  {
    PhaseAKeepsKeys(fp, keys, s, s', a);
    PhaseAFrame(fp, s, a, s');
    if SomeOpen(s.rows) {
      var i :| i in s.rows && IsOpen(s.rows[i]);
      assert IsOpen(s'.rows[i]);
    }
    SameFlow(fp, s, s');
  }

  lemma RetireKeepsCache(fp: Psk -> Fp, keys: set<Psk>, s: Fleet, s': Fleet, a: Action)
    requires a.Retire? && CacheInv(fp, keys, s) && Next(fp, s, a, s')
    ensures KeyInv(fp, keys, s') && FlowInv(fp, s')
  {
    assert s' == s.(promotes := s'.promotes);
    SameFlow(fp, s, s');
    SameKeys(fp, keys, s, s');
  }

  lemma SameKeys(fp: Psk -> Fp, keys: set<Psk>, s: Fleet, s': Fleet)
    requires KeyInv(fp, keys, s)
    requires s'.radio.slots == s.radio.slots && s'.table == s.table
    requires forall i | i in s'.rows && IsOpen(s'.rows[i]) :: i in s.rows && s.rows[i] == s'.rows[i]
    ensures KeyInv(fp, keys, s')
  {
    assert OpenKeys(s'.rows) <= OpenKeys(s.rows);
    HashesDifferSubset(Held(s), Held(s'));
  }

  // ---------------------------------------------------------------------------
  // Phase C
  // ---------------------------------------------------------------------------

  /** Phase C found no old PRIMARY although the PRIMARY answered: the promote was already committed. */
  lemma AlreadyPromotedKeepsCache(fp: Psk -> Fp, keys: set<Psk>, s: Fleet, s': Fleet, a: Action)
    requires a.PhaseC? && CacheInv(fp, keys, s) && Next(fp, s, a, s')
    requires IsOpen(s.rows[a.job.id]) && a.answers(PrimaryOf(s.radio.slots)).Acked?
    requires FindOld(s.radio.slots, a.answers, fp, s.rows[a.job.id].newFp, 0).None?
    ensures KeyInv(fp, keys, s') && FlowInv(fp, s')
    ensures !InFlight(s)
  {
    var row := s.rows[a.job.id];
    FindOldIs(s.radio.slots, a.answers, fp, row.newFp, 0);
    assert RowFits(fp, row, PrimaryOf(s.radio.slots), fp(Current(s).psk));
    assert Current(s).psk == row.psk;
    assert !InFlight(s) by {
      if row.psk != [] {
        assert row.psk in OpenKeys(s.rows);
      }
    }
    SameFlow(fp, s, s');
    SameKeys(fp, keys, s, s');
  }

  /** What storing the PRIMARY's key does to the table. */
  lemma CachedTable(fp: Psk -> Fp, keys: set<Psk>, s: Fleet, t': Table, slot: Slot, id: nat, at: int)
    requires Fingerprints(fp, keys) && KeysKnown(keys, s) && RowsDescribe(fp, s.table) && ValidTable(s.table)
    requires Current(s).psk != []
    requires AddStep(s.table, t', slot, fp(Current(s).psk), Current(s).psk, WireHash(Current(s).psk), Some(id), at)
    ensures ValidTable(t') && RowsDescribe(fp, t')
    ensures slot >= FIRST_SLOT && slot in t' && t'[slot].psk == Current(s).psk
    ensures forall i | i in t' && i != slot :: i in s.table && t'[i] == s.table[i] && t'[i].psk != Current(s).psk
    ensures t'.Keys == s.table.Keys + {slot}
    ensures TableKeys(t') <= TableKeys(s.table) + {Current(s).psk}
  {
    hide WireHash;
    var key := Current(s).psk;
    AddKeepsSlots(s.table, t', slot, fp(key), key, WireHash(key), Some(id), at);
    if HasFp(s.table, fp(key)) {
      assert s.table[slot].psk in TableKeys(s.table);
      assert s.table[slot].psk == key;
    }
    forall i | i in t' && i != slot
      ensures i in s.table && t'[i] == s.table[i] && t'[i].psk != key
    {
      assert t'[i].fp != t'[slot].fp;
    }
  }

  lemma CachedTracks(fp: Psk -> Fp, keys: set<Psk>, s: Fleet, t': Table, slot: Slot, id: nat, at: int)
    requires TableTracks(fp, s) && at > s.now
    requires AddStep(s.table, t', slot, fp(Current(s).psk), Current(s).psk, WireHash(Current(s).psk), Some(id), at)
    ensures Tracks(t', FpsOf(fp, s.demoted) + [fp(Current(s).psk)])
    ensures DistinctAges(t') && Newer(t', at + 1)
  {
    var key, h := Current(s).psk, FpsOf(fp, s.demoted);
    AddTracks(s.table, t', slot, fp(key), key, WireHash(key), Some(id), at, History(fp, s));
    AddIsNewest(s.table, t', RecoveryCache.Add(fp(key), key, WireHash(key), Some(id), at, slot));
    if InFlight(s) {
      TracksRepeat(t', h, fp(key));
    } else {
      assert History(fp, s) == h;
    }
  }

  lemma TracksRepeat(t: Table, h: seq<Fp>, g: Fp)
    requires Tracks(t, h + [g] + [g])
    ensures Tracks(t, h + [g])
  {
    forall f
      ensures Later(h + [g] + [g], f) == Later(h + [g], f)
      ensures f in h + [g] + [g] <==> f in h + [g]
    {
      RepeatIsIdle(h, g, f);
    }
  }

  /** Stored but not committed: the radio still shows the old state, except that the key is now in flight. */
  lemma UncommittedFlow(fp: Psk -> Fp, keys: set<Psk>, s: Fleet, s': Fleet, slot: Slot, id: nat)
    requires CacheInv(fp, keys, s) && s'.now > s.now && Current(s).psk != []
    requires AddStep(s.table, s'.table, slot, fp(Current(s).psk), Current(s).psk, WireHash(Current(s).psk), Some(id),
                     s'.now)
    requires s'.radio.slots == s.radio.slots && s'.demoted == s.demoted
    requires SomeOpen(s'.rows)
    ensures FlowInv(fp, s')
  {
    CachedTable(fp, keys, s, s'.table, slot, id, s'.now);
    CachedTracks(fp, keys, s, s'.table, slot, id, s'.now);
    assert InFlight(s') by {
      assert s'.table[slot].psk in TableKeys(s'.table);
    }
    forall i: Slot | i >= FIRST_SLOT
      ensures SlotAgrees(s'.table, s'.radio.slots, i) || (i in s'.table && s'.table[i].psk == Current(s').psk)
    {
      if i != slot {
        assert i in s.table <==> i in s'.table;
        assert SlotAgrees(s.table, s.radio.slots, i);
      }
    }
  }

  /** After the commit the slot of the stored key shows it, and the table and the radio agree. */
  lemma CommittedAgrees(s: Fleet, s': Fleet, slot: Slot)
    requires SlotsFollow(s) && slot >= FIRST_SLOT && slot in s'.table && s'.table[slot].psk == Current(s).psk
    requires forall i | i in s'.table && i != slot ::
        i in s.table && s'.table[i] == s.table[i] && s'.table[i].psk != Current(s).psk
    requires s'.table.Keys == s.table.Keys + {slot}
    requires s'.radio.slots[slot] == Channel(Secondary, Current(s).psk)
    requires forall i: Slot | i >= FIRST_SLOT && i != slot :: s'.radio.slots[i] == s.radio.slots[i]
    ensures Agree(s'.table, s'.radio.slots)
  {
    forall i: Slot | i >= FIRST_SLOT
      ensures SlotAgrees(s'.table, s'.radio.slots, i)
    {
      if i != slot {
        assert i in s.table <==> i in s'.table;
        assert SlotAgrees(s.table, s.radio.slots, i);
      }
    }
  }

  /** Stored and committed. */
  lemma CommittedFlow(fp: Psk -> Fp, keys: set<Psk>, s: Fleet, s': Fleet, slot: Slot, id: nat)
    requires CacheInv(fp, keys, s) && s'.now > s.now && Current(s).psk != []
    requires AddStep(s.table, s'.table, slot, fp(Current(s).psk), Current(s).psk, WireHash(Current(s).psk), Some(id),
                     s'.now)
    requires s'.demoted == s.demoted + [Current(s).psk]
    requires slot >= FIRST_SLOT ==> s'.radio.slots[slot] == Channel(Secondary, Current(s).psk)
    requires forall i: Slot | i >= FIRST_SLOT && i != slot :: s'.radio.slots[i] == s.radio.slots[i]
    requires Current(s').psk !in TableKeys(s.table) && Current(s').psk != Current(s).psk
    requires forall i: Slot | i >= FIRST_SLOT :: s.radio.slots[i].psk != Current(s').psk
    ensures FlowInv(fp, s')
  {
    hide AddStep, Tracks, RadioHolds;
    CachedTable(fp, keys, s, s'.table, slot, id, s'.now);
    CachedTracks(fp, keys, s, s'.table, slot, id, s'.now);
    CommittedAgrees(s, s', slot);
    hide *;
    AgreedFlow(fp, s, s');
  }

  /** The flow invariant from its parts, once nothing is in flight and the table agrees with the radio. */
  lemma AgreedFlow(fp: Psk -> Fp, s: Fleet, s': Fleet)
    requires Agree(s'.table, s'.radio.slots) && RowsDescribe(fp, s'.table)
    requires s'.demoted == s.demoted + [Current(s).psk]
    requires Tracks(s'.table, FpsOf(fp, s.demoted) + [fp(Current(s).psk)]) && DistinctAges(s'.table)
    requires Newer(s'.table, s'.now + 1)
    requires Current(s').psk !in TableKeys(s.table) && Current(s').psk != Current(s).psk
    requires TableKeys(s'.table) <= TableKeys(s.table) + {Current(s).psk}
    ensures FlowInv(fp, s')
  {
    hide Tracks;
    assert FpsOf(fp, s'.demoted) == FpsOf(fp, s.demoted) + [fp(Current(s).psk)];
    assert History(fp, s') == FpsOf(fp, s'.demoted);
    AgreeGivesRadioHolds(fp, s');
    assert CurrentIsNew(s') by {
      AgreeIsNew(s');
    }
    hide RadioHolds, RowsDescribe;
  }

  lemma AgreeIsNew(s: Fleet)
    requires Agree(s.table, s.radio.slots) && !InFlight(s)
    ensures CurrentIsNew(s)
  {
    forall i: Slot | i >= FIRST_SLOT && Current(s).psk != []
      ensures s.radio.slots[i].psk != Current(s).psk
    {
      assert SlotAgrees(s.table, s.radio.slots, i);
      assert i in s.table ==> s.table[i].psk in TableKeys(s.table);
    }
  }

  /** Facts shared by the promote cases: the slots of the transaction and the new key. */
  lemma PromoteFacts(fp: Psk -> Fp, keys: set<Psk>, s: Fleet, s': Fleet, a: Action, slot: Option<Slot>)
    requires a.PhaseC? && BaseInv(fp, keys, s) && a.job in s.promotes && IsOpen(s.rows[a.job.id])
    requires s.rows[a.job.id].psk != []
    requires var found := FindOld(s.radio.slots, a.answers, fp, s.rows[a.job.id].newFp, 0);
      found.Some? && PromoteStep(fp, s, s', a.job, found.value, slot, a.at, a.addOk, a.link, a.retireOk, a.clearOk)
    ensures PromoteStep(fp, s, s', a.job, PrimaryOf(s.radio.slots), slot, a.at, a.addOk, a.link, a.retireOk, a.clearOk)
    ensures Some(a.job.staging) == OtherOf(PrimaryOf(s.radio.slots))
    ensures slot.Some? ==> slot.value >= FIRST_SLOT
    ensures s.rows[a.job.id].psk in OpenKeys(s.rows)
    ensures s.rows[a.job.id].psk != Current(s).psk
    ensures s.rows[a.job.id].psk !in TableKeys(s.table)
  {
    PhaseCSlotsDiffer(fp, s, s', a.job, a.answers, slot, a.at, a.addOk, a.link, a.retireOk, a.clearOk);
    FindOldIs(s.radio.slots, a.answers, fp, s.rows[a.job.id].newFp, 0);
    assert RowFits(fp, s.rows[a.job.id], PrimaryOf(s.radio.slots), fp(Current(s).psk));
  }

  ghost predicate DidCommit(s: Fleet, a: Action, slot: Option<Slot>)
    requires a.PhaseC? && a.job.id in s.rows
  {
    var edits := PromoteEdits(a.job.staging, PrimaryOf(s.radio.slots), s.rows[a.job.id].psk, slot, Current(s).psk);
    Committed(a.link, |edits|)
  }

  /** The slots after a committed promote. */
  lemma CommittedSlots(fp: Psk -> Fp, keys: set<Psk>, s: Fleet, s': Fleet, a: Action, slot: Option<Slot>)
    requires a.PhaseC? && SlotInv(fp, s) && a.job.id in s.rows
    requires PromoteStep(fp, s, s', a.job, PrimaryOf(s.radio.slots), slot, a.at, a.addOk, a.link, a.retireOk, a.clearOk)
    requires Some(a.job.staging) == OtherOf(PrimaryOf(s.radio.slots)) && (slot.Some? ==> slot.value >= FIRST_SLOT)
    requires DidCommit(s, a, slot)
    ensures Current(s') == Channel(Primary, s.rows[a.job.id].psk)
    ensures s'.radio.slots[PrimaryOf(s.radio.slots)] == BLANK
    ensures slot.Some? && Current(s).psk != [] ==> s'.radio.slots[slot.value] == Channel(Secondary, Current(s).psk)
    ensures forall i: Slot | i >= FIRST_SLOT && (slot.Some? && Current(s).psk != [] ==> i != slot.value) ::
              s'.radio.slots[i] == s.radio.slots[i]
  {
    var p := PrimaryOf(s.radio.slots);
    PromotedSlots(s.radio.slots, a.job.staging, p, s.rows[a.job.id].psk, slot, Current(s).psk);
    PrimaryUnique(s'.radio.slots, a.job.staging);
  }

  lemma PromoteKeepsFlow(fp: Psk -> Fp, keys: set<Psk>, s: Fleet, s': Fleet, a: Action, slot: Option<Slot>)
    requires a.PhaseC? && CacheInv(fp, keys, s) && a.job in s.promotes && a.at > s.now && IsOpen(s.rows[a.job.id])
    requires s.rows[a.job.id].psk != [] && (a.addOk || Current(s).psk == [])
    requires var found := FindOld(s.radio.slots, a.answers, fp, s.rows[a.job.id].newFp, 0);
      found.Some? && PromoteStep(fp, s, s', a.job, found.value, slot, a.at, a.addOk, a.link, a.retireOk, a.clearOk)
    ensures FlowInv(fp, s')
  {
    PromoteFacts(fp, keys, s, s', a, slot);
    if DidCommit(s, a, slot) {
      CommittedSlots(fp, keys, s, s', a, slot);
      if Current(s).psk != [] {
        CommittedFlow(fp, keys, s, s', slot.value, a.job.id);
      } else {
        PlainPromoteFlow(fp, s, s');
      }
    } else {
      assert SomeOpen(s'.rows) by {
        assert a.job.id in s'.rows && IsOpen(s'.rows[a.job.id]);
      }
      if Current(s).psk != [] {
        UncommittedFlow(fp, keys, s, s', slot.value, a.job.id);
      } else {
        PlainPromoteFlow(fp, s, s');
      }
    }
  }

  /** Promoting away from an unencrypted PRIMARY leaves the cache alone. */
  lemma PlainPromoteFlow(fp: Psk -> Fp, s: Fleet, s': Fleet)
    requires FlowInv(fp, s) && !InFlight(s) && !InFlight(s') && CurrentIsNew(s')
    requires s'.table == s.table && s'.demoted == s.demoted && s'.now > s.now
    requires forall i: Slot | i >= FIRST_SLOT :: s'.radio.slots[i] == s.radio.slots[i]
    ensures FlowInv(fp, s')
  {
    NotInFlightAgree(s);
    forall i: Slot | i >= FIRST_SLOT
      ensures SlotAgrees(s'.table, s'.radio.slots, i)
    {
      assert SlotAgrees(s.table, s.radio.slots, i);
    }
    forall f
      ensures OnRadio(fp, s'.radio.slots, f) <==> OnRadio(fp, s.radio.slots, f)
    {
    }
    assert History(fp, s') == History(fp, s);
  }

  /** The keys on the radio after a promote were held before. */
  lemma PromoteSlotKeys(fp: Psk -> Fp, keys: set<Psk>, s: Fleet, s': Fleet, a: Action, slot: Option<Slot>, i: Slot)
    requires a.PhaseC? && SlotInv(fp, s) && a.job.id in s.rows && KeysKnown(keys, s)
    requires PromoteStep(fp, s, s', a.job, PrimaryOf(s.radio.slots), slot, a.at, a.addOk, a.link, a.retireOk, a.clearOk)
    requires Some(a.job.staging) == OtherOf(PrimaryOf(s.radio.slots)) && (slot.Some? ==> slot.value >= FIRST_SLOT)
    requires s.rows[a.job.id].psk in OpenKeys(s.rows)
    ensures s'.radio.slots[i].psk != [] ==> s'.radio.slots[i].psk in SlotKeys(s.radio.slots) + OpenKeys(s.rows)
    ensures i >= FIRST_SLOT ==> s'.radio.slots[i].psk == s.radio.slots[i].psk || s'.radio.slots[i].psk == Current(s).psk
    ensures s'.radio.slots[i].psk == [] || s'.radio.slots[i].psk == s.rows[a.job.id].psk ||
            exists j: Slot :: s'.radio.slots[i].psk == s.radio.slots[j].psk
  {
    var p := PrimaryOf(s.radio.slots);
    if DidCommit(s, a, slot) {
      PromotedSlots(s.radio.slots, a.job.staging, p, s.rows[a.job.id].psk, slot, Current(s).psk);
      if i != p && i != a.job.staging {
        if slot.Some? && Current(s).psk != [] && i == slot.value {
          assert s'.radio.slots[i].psk == s.radio.slots[p].psk;
        } else {
          assert s'.radio.slots[i] == s.radio.slots[i];
        }
      }
    }
  }

  lemma PromoteKeepsKeys(fp: Psk -> Fp, keys: set<Psk>, s: Fleet, s': Fleet, a: Action, slot: Option<Slot>)
    requires a.PhaseC? && BaseInv(fp, keys, s) && a.job in s.promotes && IsOpen(s.rows[a.job.id])
    requires s.rows[a.job.id].psk != []
    requires var found := FindOld(s.radio.slots, a.answers, fp, s.rows[a.job.id].newFp, 0);
      found.Some? && PromoteStep(fp, s, s', a.job, found.value, slot, a.at, a.addOk, a.link, a.retireOk, a.clearOk)
    ensures KeyInv(fp, keys, s')
  {
    PromoteFacts(fp, keys, s, s', a, slot);
    PromoteTableKeys(fp, keys, s, s', a, slot);
    PromoteKeysKnown(fp, keys, s, s', a, slot);
    assert OpenKeys(s'.rows) <= OpenKeys(s.rows);
    forall i: Slot
      ensures s'.radio.slots[i].psk != [] ==> s'.radio.slots[i].psk in Held(s)
      ensures i >= FIRST_SLOT ==>
                s'.radio.slots[i].psk == s.radio.slots[i].psk || s'.radio.slots[i].psk == Current(s).psk
    {
      PromoteSlotKeys(fp, keys, s, s', a, slot, i);
    }
    hide BaseInv, SlotInv, PromoteStep, KeysKnown, RowsDescribe;
    hide HashesDiffer, OpenKeyIsNew, Held, FindOld, OpenKeys, TableKeys;
    HeldShrinks(s, s');
    HashesDifferSubset(Held(s), Held(s'));
    PromoteOpenKeyIsNew(s, s', s.rows[a.job.id].psk);
  }

  /** The table after a promote describes its keys, which were held before. */
  lemma PromoteTableKeys(fp: Psk -> Fp, keys: set<Psk>, s: Fleet, s': Fleet, a: Action, slot: Option<Slot>)
    requires a.PhaseC? && Fingerprints(fp, keys) && KeysKnown(keys, s) && RowsDescribe(fp, s.table)
    requires ValidTable(s.table)
    requires a.job.id in s.rows
    requires PromoteStep(fp, s, s', a.job, PrimaryOf(s.radio.slots), slot, a.at, a.addOk, a.link, a.retireOk, a.clearOk)
    ensures RowsDescribe(fp, s'.table) && TableKeys(s'.table) <= keys
    ensures TableKeys(s'.table) <= TableKeys(s.table) + SlotKeys(s.radio.slots)
    ensures TableKeys(s'.table) <= TableKeys(s.table) + {Current(s).psk}
  {
    hide AppliedAll, AddStep;
    if Current(s).psk != [] && a.addOk {
      CachedTable(fp, keys, s, s'.table, slot.value, a.job.id, a.at);
      assert Current(s).psk in SlotKeys(s.radio.slots);
    }
  }

  lemma PromoteOpenKeyIsNew(s: Fleet, s': Fleet, k: Psk)
    requires OpenKeyIsNew(s) && k in OpenKeys(s.rows) && k != Current(s).psk
    requires AtMostOneOpen(s.rows)
    requires OpenKeys(s'.rows) <= OpenKeys(s.rows)
    requires TableKeys(s'.table) <= TableKeys(s.table) + {Current(s).psk}
    requires forall i: Slot | i >= FIRST_SLOT ::
      s'.radio.slots[i].psk == s.radio.slots[i].psk || s'.radio.slots[i].psk == Current(s).psk
    ensures OpenKeyIsNew(s')
  {
    forall k' | k' in OpenKeys(s'.rows)
      ensures k' == k
    {
    }
  }

  lemma PromoteKeysKnown(fp: Psk -> Fp, keys: set<Psk>, s: Fleet, s': Fleet, a: Action, slot: Option<Slot>)
    requires a.PhaseC? && SlotInv(fp, s) && KeysKnown(keys, s) && a.job.id in s.rows && IsOpen(s.rows[a.job.id])
    requires PromoteStep(fp, s, s', a.job, PrimaryOf(s.radio.slots), slot, a.at, a.addOk, a.link, a.retireOk, a.clearOk)
    requires Some(a.job.staging) == OtherOf(PrimaryOf(s.radio.slots)) && (slot.Some? ==> slot.value >= FIRST_SLOT)
    requires s.rows[a.job.id].psk in OpenKeys(s.rows) && TableKeys(s'.table) <= keys
    requires [] in keys
    ensures KeysKnown(keys, s')
  {
    forall i: Slot
      ensures s'.radio.slots[i].psk in keys
    {
      PromoteSlotKeys(fp, keys, s, s', a, slot, i);
    }
  }

  /** The read of the PRIMARY slot failed, so Phase C takes the promote for done. */
  lemma ShortcutKeepsCache(fp: Psk -> Fp, keys: set<Psk>, s: Fleet, s': Fleet, a: Action)
    requires a.PhaseC? && CacheInv(fp, keys, s) && Next(fp, s, a, s') && IsOpen(s.rows[a.job.id])
    requires !a.answers(PrimaryOf(s.radio.slots)).Acked? && (!InFlight(s) || !a.retireOk)
    ensures KeyInv(fp, keys, s') && FlowInv(fp, s')
  {
    ShortcutIs(fp, s, s', a);
    hide Next, RadioHolds, TableTracks, SlotsFollow, CurrentIsNew, SlotInv;
    assert InFlight(s) ==> SomeOpen(s'.rows) by {
      assert !a.retireOk ==> IsOpen(s'.rows[a.job.id]);
    }
    SameFlow(fp, s, s');
    SameKeys(fp, keys, s, s');
  }

  /** With the read of the PRIMARY slot failed, Phase C only marks the row. */
  lemma ShortcutIs(fp: Psk -> Fp, s: Fleet, s': Fleet, a: Action)
    requires a.PhaseC? && SlotInv(fp, s) && Next(fp, s, a, s') && IsOpen(s.rows[a.job.id])
    requires !a.answers(PrimaryOf(s.radio.slots)).Acked?
    ensures s'.radio.slots == s.radio.slots && s'.table == s.table && s'.demoted == s.demoted && s'.now == s.now
    ensures s'.rows == s.rows[a.job.id := MarkRetired(s.rows[a.job.id], a.retireOk, false)]
  {
    FindOldIs(s.radio.slots, a.answers, fp, s.rows[a.job.id].newFp, 0);
  }

  /** An attempt without a stored insert that does not commit changes nothing but the clock. */
  lemma IdleAttempt(fp: Psk -> Fp, keys: set<Psk>, s: Fleet, s': Fleet, a: Action, slot: Option<Slot>)
    requires a.PhaseC? && CacheInv(fp, keys, s) && a.job in s.promotes && a.at > s.now && IsOpen(s.rows[a.job.id])
    requires !a.addOk && !Committed(a.link, 2)
    requires var found := FindOld(s.radio.slots, a.answers, fp, s.rows[a.job.id].newFp, 0);
      found.Some? && PromoteStep(fp, s, s', a.job, found.value, slot, a.at, a.addOk, a.link, a.retireOk, a.clearOk)
    ensures KeyInv(fp, keys, s') && FlowInv(fp, s')
  {
    SameFlow(fp, s, s');
    SameKeys(fp, keys, s, s');
  }

  lemma PhaseCKeepsCache(fp: Psk -> Fp, keys: set<Psk>, s: Fleet, s': Fleet, a: Action)
    requires a.PhaseC? && CacheInv(fp, keys, s) && Next(fp, s, a, s') && Benign(fp, keys, s, a)
    ensures KeyInv(fp, keys, s') && FlowInv(fp, s')
  {
    if IsOpen(s.rows[a.job.id]) {
      FindOldIs(s.radio.slots, a.answers, fp, s.rows[a.job.id].newFp, 0);
      var found := FindOld(s.radio.slots, a.answers, fp, s.rows[a.job.id].newFp, 0);
      if !a.answers(PrimaryOf(s.radio.slots)).Acked? {
        ShortcutKeepsCache(fp, keys, s, s', a);
      } else if found.None? {
        AlreadyPromotedKeepsCache(fp, keys, s, s', a);
      } else if s.rows[a.job.id].psk == [] {
        SameFlow(fp, s, s');
        SameKeys(fp, keys, s, s');
      } else {
        PromoteKeepsCache(fp, keys, s, s', a);
      }
    }
  }

  lemma PromoteKeepsCache(fp: Psk -> Fp, keys: set<Psk>, s: Fleet, s': Fleet, a: Action)
    requires a.PhaseC? && CacheInv(fp, keys, s) && Next(fp, s, a, s') && IsOpen(s.rows[a.job.id])
    requires s.rows[a.job.id].psk != [] && (a.addOk || Current(s).psk == [] || !Committed(a.link, 2))
    requires FindOld(s.radio.slots, a.answers, fp, s.rows[a.job.id].newFp, 0).Some?
    ensures KeyInv(fp, keys, s') && FlowInv(fp, s')
  {
    var found := FindOld(s.radio.slots, a.answers, fp, s.rows[a.job.id].newFp, 0);
    var slot: Option<Slot> :|
      PromoteStep(fp, s, s', a.job, found.value, slot, a.at, a.addOk, a.link, a.retireOk, a.clearOk);
    hide BaseInv, PromoteStep, FindOld, KeyInv, FlowInv;
    if a.addOk || Current(s).psk == [] {
      PromoteKeepsKeys(fp, keys, s, s', a, slot);
      PromoteKeepsFlow(fp, keys, s, s', a, slot);
    } else {
      IdleAttempt(fp, keys, s, s', a, slot);
    }
  }

  lemma NextKeepsCache(fp: Psk -> Fp, keys: set<Psk>, s: Fleet, a: Action, s': Fleet)
    requires CacheInv(fp, keys, s) && Next(fp, s, a, s') && Benign(fp, keys, s, a)
    ensures CacheInv(fp, keys, s')
  {
    NextKeepsSlots(fp, s, a, s');
    match a
    case Rotate(_, _, _, _, _) => RotateKeepsCache(fp, keys, s, s', a);
    case PhaseA(_, _, _, _, _) => PhaseAKeepsCache(fp, keys, s, s', a);
    case Retire(_, _) => RetireKeepsCache(fp, keys, s, s', a);
    case PhaseC(_, _, _, _, _, _, _) => PhaseCKeepsCache(fp, keys, s, s', a);
  }

  // ---------------------------------------------------------------------------
  // Runs
  // ---------------------------------------------------------------------------

  ghost predicate BenignRun(fp: Psk -> Fp, keys: set<Psk>, states: seq<Fleet>, actions: seq<Action>) {
    && Rotation.Run(fp, states, actions)
    && Fingerprints(fp, keys)
    && (forall i: Slot :: states[0].radio.slots[i].psk in keys)
    && forall i | 0 <= i < |actions| :: Benign(fp, keys, states[i], actions[i])
  }

  lemma InitCache(fp: Psk -> Fp, keys: set<Psk>, s: Fleet)
    requires Init(s) && SlotInv(fp, s) && Fingerprints(fp, keys)
    requires forall i: Slot :: s.radio.slots[i].psk in keys
    ensures CacheInv(fp, keys, s)
  {
    var p: Slot :| p < 2 && s.radio.slots[p].role == Primary && forall i: Slot | i != p :: s.radio.slots[i] == BLANK;
    PrimaryUnique(s.radio.slots, p);
    assert forall i: Slot | s.radio.slots[i].psk != [] :: i == p;
    assert Held(s) <= {s.radio.slots[p].psk};
    assert History(fp, s) == [] == FpsOf(fp, s.demoted);
    assert Tracks(s.table, []);
    NotInFlightAgree(s);
    AgreeGivesRadioHolds(fp, s);
  }

  /** Every state of every benign run keeps hashes distinct and the recovery slots in step. */
  lemma {:induction false} CacheInvAlways(fp: Psk -> Fp, keys: set<Psk>, states: seq<Fleet>, actions: seq<Action>,
                                          n: nat)
    requires BenignRun(fp, keys, states, actions) && n <= |actions|
    ensures CacheInv(fp, keys, states[n])
  {
    if n == 0 {
      SlotInvAlways(fp, states, actions, 0);
      InitCache(fp, keys, states[0]);
    } else {
      CacheInvAlways(fp, keys, states, actions, n - 1);
      NextKeepsCache(fp, keys, states[n - 1], actions[n - 1], states[n]);
    }
  }

  // ---------------------------------------------------------------------------
  // Decoding
  // ---------------------------------------------------------------------------

  /** The radio tries the lowest keyed slot whose hash is the one on the wire. */
  function DecodeSlot(slots: Slots, hash: Byte, n: nat): Option<Slot>
    requires n <= 8
    decreases 8 - n
  {
    if n == 8 then None
    else if slots[n].role != Disabled && slots[n].psk != [] && WireHash(slots[n].psk) == hash then Some(n)
    else DecodeSlot(slots, hash, n + 1)
  }

  lemma {:induction false} DecodeFinds(slots: Slots, k: Psk, i: Slot, n: nat)
    requires n <= i && slots[i].role != Disabled && slots[i].psk == k != []
    requires HashesDiffer(SlotKeys(slots))
    ensures DecodeSlot(slots, WireHash(k), n).Some?
    ensures slots[DecodeSlot(slots, WireHash(k), n).value].psk == k
    decreases 8 - n
  {
    if slots[n].role != Disabled && slots[n].psk != [] && WireHash(slots[n].psk) == WireHash(k) {
      assert slots[n].psk in SlotKeys(slots) && slots[i].psk in SlotKeys(slots);
    } else {
      DecodeFinds(slots, k, i, n + 1);
    }
  }

  /**
    In every state of every benign run, also between a failed Phase C and its repeat, a
    packet under the current key or under any of the six most recently demoted
    keys is decoded with exactly that key.
   */
  lemma StillDecodable(fp: Psk -> Fp, keys: set<Psk>, states: seq<Fleet>, actions: seq<Action>, n: nat, k: Psk)
    requires BenignRun(fp, keys, states, actions) && n <= |actions|
    requires k in keys && k != []
    requires k == Current(states[n]).psk || AmongLastSix(FpsOf(fp, states[n].demoted), fp(k))
    ensures var slots := states[n].radio.slots;
      DecodeSlot(slots, WireHash(k), 0).Some? && slots[DecodeSlot(slots, WireHash(k), 0).value].psk == k
  {
    CacheInvAlways(fp, keys, states, actions, n);
    var s := states[n];
    HashesDifferSubset(Held(s), SlotKeys(s.radio.slots));
    if k == Current(s).psk {
      DecodeFinds(s.radio.slots, k, PrimaryOf(s.radio.slots), 0);
    } else {
      assert OnRadio(fp, s.radio.slots, fp(k));
      var i: Slot :| i >= FIRST_SLOT && s.radio.slots[i].role == Secondary && s.radio.slots[i].psk != [] &&
                     fp(s.radio.slots[i].psk) == fp(k);
      DecodeFinds(s.radio.slots, k, i, 0);
    }
  }

  /** A wire hash names at most one key among all eight slots, the recovery table and the open rotation. */
  lemma HeldHashNamesOneKey(fp: Psk -> Fp, keys: set<Psk>, states: seq<Fleet>, actions: seq<Action>, n: nat, a: Psk,
                            b: Psk)
    requires BenignRun(fp, keys, states, actions) && n <= |actions|
    requires a in Held(states[n]) && b in Held(states[n]) && WireHash(a) == WireHash(b)
    ensures a == b
  {
    CacheInvAlways(fp, keys, states, actions, n);
  }

  /**
    In every benign run, whenever no rotation is open, the recovery table, the radio's slots
    2..7 and the six most recently demoted keys agree slot by slot.
   */
  lemma RetiredRunsAgree(fp: Psk -> Fp, keys: set<Psk>, states: seq<Fleet>, actions: seq<Action>, n: nat)
    requires BenignRun(fp, keys, states, actions) && n <= |actions|
    requires forall i | i in states[n].rows :: !IsOpen(states[n].rows[i])
    ensures Agree(states[n].table, states[n].radio.slots)
    ensures forall f :: HasFp(states[n].table, f) <==> AmongLastSix(FpsOf(fp, states[n].demoted), f)
    ensures RadioHolds(fp, states[n])
  {
    CacheInvAlways(fp, keys, states, actions, n);
    AgreementAtRest(fp, keys, states[n]);
  }

  // ---------------------------------------------------------------------------
  // Steps that are not benign
  // ---------------------------------------------------------------------------

  /** The table, the recovery slots and the six most recently demoted keys all agree. */
  ghost predicate CacheComplete(fp: Psk -> Fp, s: Fleet) {
    Agree(s.table, s.radio.slots) && RadioHolds(fp, s)
  }

  /** The table and the radio agree exactly when nothing is in flight. */
  lemma CompleteUnlessInFlight(fp: Psk -> Fp, keys: set<Psk>, s: Fleet)
    requires CacheInv(fp, keys, s)
    ensures CacheComplete(fp, s) <==> !InFlight(s)
  {
    if InFlight(s) {
      var i :| i in s.table && s.table[i].psk == Current(s).psk;
      assert i >= FIRST_SLOT && Current(s).psk != [];
      assert !SlotAgrees(s.table, s.radio.slots, i);
    } else {
      NotInFlightAgree(s);
    }
  }

  /** A committed promote completes the cache exactly when this attempt stored the old key, if there is one. */
  lemma CommittedCompleteIff(fp: Psk -> Fp, keys: set<Psk>, s: Fleet, s': Fleet, a: Action, slot: Option<Slot>)
    requires a.PhaseC? && CacheInv(fp, keys, s) && a.job in s.promotes && a.at > s.now && IsOpen(s.rows[a.job.id])
    requires s.rows[a.job.id].psk != []
    requires var found := FindOld(s.radio.slots, a.answers, fp, s.rows[a.job.id].newFp, 0);
      found.Some? && PromoteStep(fp, s, s', a.job, found.value, slot, a.at, a.addOk, a.link, a.retireOk, a.clearOk)
    requires DidCommit(s, a, slot)
    ensures CacheComplete(fp, s') <==> (a.addOk || Current(s).psk == [])
    ensures a.addOk || Current(s).psk == [] || !RadioHolds(fp, s')
  {
    hide AppliedAll, FindOld, AddStep, Tracks;
    PromoteFacts(fp, keys, s, s', a, slot);
    CommittedSlots(fp, keys, s, s', a, slot);
    if a.addOk {
      PromoteKeepsFlow(fp, keys, s, s', a, slot);
      PromoteKeepsKeys(fp, keys, s, s', a, slot);
      assert Current(s').psk !in TableKeys(s'.table) by {
        if Current(s).psk != [] {
          CachedTable(fp, keys, s, s'.table, slot.value, a.job.id, a.at);
        }
      }
      NotInFlightAgree(s');
    } else if Current(s).psk == [] {
      PlainPromoteFlow(fp, s, s');
      NotInFlightAgree(s');
    } else {
      LostInsert(fp, keys, s, s');
    }
  }

  lemma LostInsert(fp: Psk -> Fp, keys: set<Psk>, s: Fleet, s': Fleet)
    requires CacheInv(fp, keys, s) && Current(s).psk != []
    requires s'.table == s.table && s'.demoted == s.demoted + [Current(s).psk]
    requires forall i: Slot | i >= FIRST_SLOT :: s'.radio.slots[i] == s.radio.slots[i]
    ensures !RadioHolds(fp, s')
  {
    hide SlotInv, TableTracks, SlotsFollow, HashesDiffer, OpenKeyIsNew, RowsDescribe;
    var key := Current(s).psk;
    var h' := FpsOf(fp, s'.demoted);
    assert h' == FpsOf(fp, s.demoted) + [fp(key)];
    LaterAppend(FpsOf(fp, s.demoted), fp(key), fp(key));
    assert fp(key) == h'[|h'| - 1];
    assert AmongLastSix(h', fp(key));
    forall i: Slot | i >= FIRST_SLOT
      ensures fp(s'.radio.slots[i].psk) != fp(key)
    {
      assert s.radio.slots[i].psk != key;
    }
    assert !OnRadio(fp, s'.radio.slots, fp(key));
  }

  /**
    A Phase C step that ends with the rotation retired leaves the table, the radio and the demoted
    keys in agreement exactly when: if the PRIMARY answered, its key was already the new one, or
    this attempt stored it, or it was empty; if it did not answer, nothing was in flight.
   */
  lemma CacheCompleteIff(fp: Psk -> Fp, keys: set<Psk>, s: Fleet, s': Fleet, a: Action)
    requires a.PhaseC? && CacheInv(fp, keys, s) && Next(fp, s, a, s')
    requires IsOpen(s.rows[a.job.id]) && s'.rows[a.job.id].phase == Retired
    ensures CacheComplete(fp, s') <==>
            if a.answers(PrimaryOf(s.radio.slots)).Acked? then
              fp(Current(s).psk) != s.rows[a.job.id].newFp ==> a.addOk || Current(s).psk == []
            else
              !InFlight(s)
  {
    FindOldIs(s.radio.slots, a.answers, fp, s.rows[a.job.id].newFp, 0);
    var found := FindOld(s.radio.slots, a.answers, fp, s.rows[a.job.id].newFp, 0);
    if found.None? {
      CompleteUnlessInFlight(fp, keys, s);
      SameComplete(fp, s, s');
      if a.answers(PrimaryOf(s.radio.slots)).Acked? {
        AlreadyPromotedKeepsCache(fp, keys, s, s', a);
      }
    } else {
      RetiredByPromote(fp, keys, s, s', a);
    }
  }

  lemma SameComplete(fp: Psk -> Fp, s: Fleet, s': Fleet)
    requires s'.table == s.table && s'.demoted == s.demoted && s'.radio.slots == s.radio.slots
    ensures CacheComplete(fp, s') <==> CacheComplete(fp, s)
  {
  }

  lemma RetiredByPromote(fp: Psk -> Fp, keys: set<Psk>, s: Fleet, s': Fleet, a: Action)
    requires a.PhaseC? && CacheInv(fp, keys, s) && Next(fp, s, a, s')
    requires IsOpen(s.rows[a.job.id]) && s'.rows[a.job.id].phase == Retired
    requires FindOld(s.radio.slots, a.answers, fp, s.rows[a.job.id].newFp, 0).Some?
    ensures CacheComplete(fp, s') <==> (a.addOk || Current(s).psk == [])
  {
    hide AppliedAll, AddStep;
    FindOldIs(s.radio.slots, a.answers, fp, s.rows[a.job.id].newFp, 0);
    var found := FindOld(s.radio.slots, a.answers, fp, s.rows[a.job.id].newFp, 0);
    hide FindOld;
    var slot: Option<Slot> :|
      PromoteStep(fp, s, s', a.job, found.value, slot, a.at, a.addOk, a.link, a.retireOk, a.clearOk);
    CommittedCompleteIff(fp, keys, s, s', a, slot);
  }

  /** A Phase C step keeps the invariant exactly when it is benign. */
  lemma PhaseCKeepsCacheIff(fp: Psk -> Fp, keys: set<Psk>, s: Fleet, s': Fleet, a: Action)
    requires a.PhaseC? && CacheInv(fp, keys, s) && Next(fp, s, a, s')
    ensures CacheInv(fp, keys, s') <==> Benign(fp, keys, s, a)
  {
    if Benign(fp, keys, s, a) {
      NextKeepsCache(fp, keys, s, a, s');
    } else if a.answers(PrimaryOf(s.radio.slots)).Acked? {
      UnstoredPromoteBreaks(fp, keys, s, s', a);
    } else {
      ShortcutBreaks(fp, keys, s, s', a);
    }
  }

  /** Every step keeps the invariant exactly when it is benign. */
  lemma NextKeepsCacheIff(fp: Psk -> Fp, keys: set<Psk>, s: Fleet, s': Fleet, a: Action)
    requires CacheInv(fp, keys, s) && Next(fp, s, a, s')
    ensures CacheInv(fp, keys, s') <==> Benign(fp, keys, s, a)
  {
    if Benign(fp, keys, s, a) {
      NextKeepsCache(fp, keys, s, a, s');
    } else if a.Rotate? {
      RotateKeepsKeysIff(fp, keys, s, s', a);
    } else {
      PhaseCKeepsCacheIff(fp, keys, s, s', a);
    }
  }

  lemma UnstoredPromoteBreaks(fp: Psk -> Fp, keys: set<Psk>, s: Fleet, s': Fleet, a: Action)
    requires a.PhaseC? && CacheInv(fp, keys, s) && Next(fp, s, a, s') && IsOpen(s.rows[a.job.id])
    requires a.answers(PrimaryOf(s.radio.slots)).Acked?
    requires !a.addOk && Current(s).psk != [] && Promotes(fp, s, a)
    ensures !RadioHolds(fp, s')
  {
    hide AppliedAll, AddStep;
    FindOldIs(s.radio.slots, a.answers, fp, s.rows[a.job.id].newFp, 0);
    var found := FindOld(s.radio.slots, a.answers, fp, s.rows[a.job.id].newFp, 0);
    hide FindOld;
    var slot: Option<Slot> :|
      PromoteStep(fp, s, s', a.job, found.value, slot, a.at, a.addOk, a.link, a.retireOk, a.clearOk);
    CommittedCompleteIff(fp, keys, s, s', a, slot);
  }

  lemma ShortcutBreaks(fp: Psk -> Fp, keys: set<Psk>, s: Fleet, s': Fleet, a: Action)
    requires a.PhaseC? && CacheInv(fp, keys, s) && Next(fp, s, a, s') && IsOpen(s.rows[a.job.id])
    requires !a.answers(PrimaryOf(s.radio.slots)).Acked? && InFlight(s) && a.retireOk
    ensures !FlowInv(fp, s')
  {
    ShortcutIs(fp, s, s', a);
    hide Next, SlotsFollow, TableTracks, RadioHolds, CurrentIsNew, KeyInv, RowsFit, OnePrimary, ValidTable, JobsFit;
    assert InFlight(s') && !SomeOpen(s'.rows);
  }
}
