/**
  Wire hashes under failures: among the radio's slots 0 and 1, the recovery table and the open
  rotation, no two keys ever share a hash, provided RotatePSK's own reads and listing
  answered when it accepted a key. Lost inserts, lost promotes and lost reads in Phase C do
  not matter, and nothing is assumed about the fingerprint.
 */
module WireHashes {
  import opened Prelude
  import opened Keys
  import opened RecoveryCache
  import opened PiRadio
  import opened Rotation
  import opened Decodable

  /** The non-empty keys of slots 0 and 1. */
  ghost function PairKeys(slots: Slots): set<Psk> {
    set i: Slot | i < FIRST_SLOT && slots[i].psk != [] :: slots[i].psk
  }

  ghost function Checked(s: Fleet): set<Psk> {
    PairKeys(s.radio.slots) + TableKeys(s.table) + OpenKeys(s.rows)
  }

  ghost predicate HashInv(fp: Psk -> Fp, s: Fleet) {
    SlotInv(fp, s) && RowsDescribe(fp, s.table) && HashesDiffer(Checked(s))
  }

  /** RotatePSK compared the key it accepted with everything it is meant to be compared with. */
  ghost predicate Compared(s: Fleet, a: Action) {
    a.Rotate? && Admits(s, a.newPsk, a.answers, a.listOk, a.stored) && a.newPsk != [] ==>
      a.listOk && a.answers(0).Acked? && a.answers(1).Acked?
  }

  // ---------------------------------------------------------------------------
  // Every step keeps it
  // ---------------------------------------------------------------------------

  /** A step that brings no key from outside. */
  lemma NoNewKeys(s: Fleet, s': Fleet)
    requires HashesDiffer(Checked(s)) && Checked(s') <= Checked(s)
    ensures HashesDiffer(Checked(s'))
  {
    HashesDifferSubset(Checked(s), Checked(s'));
  }

  lemma RotateKeepsHashes(fp: Psk -> Fp, s: Fleet, a: Action, s': Fleet)
    requires a.Rotate? && HashInv(fp, s) && Next(fp, s, a, s') && Compared(s, a)
    ensures RowsDescribe(fp, s'.table) && HashesDiffer(Checked(s'))
  {
    hide Collides, SlotInv, WireHash;
    assert OpenKeys(s.rows) == {};
    if s'.rows != s.rows && a.newPsk != [] {
      assert OpenKeys(s'.rows) == {a.newPsk};
      forall k | k in PairKeys(s.radio.slots) + TableKeys(s.table)
        ensures WireHash(k) != WireHash(a.newPsk)
      {
        ComparedDiffers(fp, s, a, k);
      }
    } else {
      assert OpenKeys(s'.rows) == {};
      NoNewKeys(s, s');
    }
  }

  /** A key that passed the check differs in hash from what the check looked at. */
  lemma ComparedDiffers(fp: Psk -> Fp, s: Fleet, a: Action, k: Psk)
    requires a.Rotate? && Admits(s, a.newPsk, a.answers, a.listOk, a.stored) && a.newPsk != []
    requires a.listOk && a.answers(0).Acked? && a.answers(1).Acked?
    requires RowsDescribe(fp, s.table) && k in PairKeys(s.radio.slots) + TableKeys(s.table)
    ensures WireHash(k) != WireHash(a.newPsk)
  {
  }

  lemma PhaseAKeepsHashes(fp: Psk -> Fp, s: Fleet, a: Action, s': Fleet)
    requires a.PhaseA? && HashInv(fp, s) && Next(fp, s, a, s')
    ensures RowsDescribe(fp, s'.table) && HashesDiffer(Checked(s'))
  {
    PhaseAFrame(fp, s, a, s');
    hide Next, SlotInv;
    assert OpenKeys(s'.rows) == OpenKeys(s.rows);
    forall i: Slot | i < FIRST_SLOT && s'.radio.slots[i].psk != []
      ensures s'.radio.slots[i].psk in Checked(s)
    {
      if s'.radio.slots[i] == s.radio.slots[i] {
        assert s'.radio.slots[i].psk in PairKeys(s.radio.slots);
      } else {
        assert s'.radio.slots[i].psk in OpenKeys(s.rows);
      }
    }
    NoNewKeys(s, s');
  }

  /** The recovery add of Phase C brings no key but the PRIMARY's. */
  lemma CachedKeys(fp: Psk -> Fp, t: Table, t': Table, slot: Option<Slot>, key: Psk, id: nat, at: int, addOk: bool)
    requires ValidTable(t) && RowsDescribe(fp, t) && Cached(fp, t, t', slot, key, id, at, addOk)
    ensures RowsDescribe(fp, t')
    ensures forall k | k in TableKeys(t') :: k in TableKeys(t) || (k == key && key != [])
  {
    if key != [] && addOk {
      assert forall i | i in t' && i != slot.value :: i in t && t'[i] == t[i];
      forall k | k in TableKeys(t')
        ensures k in TableKeys(t) || k == key
      {
        var i :| i in t' && t'[i].psk == k;
        assert i in t && t'[i].psk == t[i].psk ==> k in TableKeys(t);
      }
    }
  }

  /** The keys in slots 0 and 1 after Phase C's transaction were checked before. */
  lemma PromotePairKeys(fp: Psk -> Fp, s: Fleet, s': Fleet, a: Action, slot: Option<Slot>)
    requires a.PhaseC? && SlotInv(fp, s) && a.job in s.promotes && IsOpen(s.rows[a.job.id])
    requires s.rows[a.job.id].psk != []
    requires var found := FindOld(s.radio.slots, a.answers, fp, s.rows[a.job.id].newFp, 0);
      found.Some? && PromoteStep(fp, s, s', a.job, found.value, slot, a.at, a.addOk, a.link, a.retireOk, a.clearOk)
    ensures PairKeys(s'.radio.slots) <= PairKeys(s.radio.slots) + OpenKeys(s.rows)
  {
    var p, row := PrimaryOf(s.radio.slots), s.rows[a.job.id];
    PhaseCSlotsDiffer(fp, s, s', a.job, a.answers, slot, a.at, a.addOk, a.link, a.retireOk, a.clearOk);
    assert row.psk in OpenKeys(s.rows);
    if DidCommit(s, a, slot) {
      PromotedSlots(s.radio.slots, a.job.staging, p, row.psk, slot, s.radio.slots[p].psk);
      hide AppliedAll, FindOld, Cached, Committed, OpenKeys;
      forall i: Slot | i < FIRST_SLOT && s'.radio.slots[i].psk != []
        ensures s'.radio.slots[i].psk in PairKeys(s.radio.slots) + OpenKeys(s.rows)
      {
        assert i == p || i == a.job.staging;
      }
    }
  }

  lemma PromoteKeepsHashes(fp: Psk -> Fp, s: Fleet, s': Fleet, a: Action, slot: Option<Slot>)
    requires a.PhaseC? && HashInv(fp, s) && a.job in s.promotes && IsOpen(s.rows[a.job.id])
    requires s.rows[a.job.id].psk != []
    requires var found := FindOld(s.radio.slots, a.answers, fp, s.rows[a.job.id].newFp, 0);
      found.Some? && PromoteStep(fp, s, s', a.job, found.value, slot, a.at, a.addOk, a.link, a.retireOk, a.clearOk)
    ensures RowsDescribe(fp, s'.table) && HashesDiffer(Checked(s'))
  {
    PromotePairKeys(fp, s, s', a, slot);
    FindOldIs(s.radio.slots, a.answers, fp, s.rows[a.job.id].newFp, 0);
    CachedKeys(fp, s.table, s'.table, slot, Current(s).psk, a.job.id, a.at, a.addOk);
    hide FindOld, AppliedAll, Cached, Committed;
    assert Current(s).psk != [] ==> Current(s).psk in PairKeys(s.radio.slots);
    assert OpenKeys(s'.rows) <= OpenKeys(s.rows);
    NoNewKeys(s, s');
  }

  lemma PhaseCKeepsHashes(fp: Psk -> Fp, s: Fleet, a: Action, s': Fleet)
    requires a.PhaseC? && HashInv(fp, s) && Next(fp, s, a, s')
    ensures RowsDescribe(fp, s'.table) && HashesDiffer(Checked(s'))
  {
    var row := s.rows[a.job.id];
    var found := FindOld(s.radio.slots, a.answers, fp, row.newFp, 0);
    if IsOpen(row) && found.Some? && row.psk != [] {
      var slot: Option<Slot> :|
        PromoteStep(fp, s, s', a.job, found.value, slot, a.at, a.addOk, a.link, a.retireOk, a.clearOk);
      PromoteKeepsHashes(fp, s, s', a, slot);
    } else {
      assert OpenKeys(s'.rows) <= OpenKeys(s.rows);
      NoNewKeys(s, s');
    }
  }

  lemma NextKeepsHashes(fp: Psk -> Fp, s: Fleet, a: Action, s': Fleet)
    requires HashInv(fp, s) && Next(fp, s, a, s') && Compared(s, a)
    ensures HashInv(fp, s')
  {
    NextKeepsSlots(fp, s, a, s');
    match a
    case Rotate(_, _, _, _, _) => RotateKeepsHashes(fp, s, a, s');
    case PhaseA(_, _, _, _, _) => PhaseAKeepsHashes(fp, s, a, s');
    case Retire(_, _) => assert s' == s.(promotes := s'.promotes);
    case PhaseC(_, _, _, _, _, _, _) => PhaseCKeepsHashes(fp, s, a, s');
  }

  // ---------------------------------------------------------------------------
  // Runs
  // ---------------------------------------------------------------------------

  ghost predicate ComparedRun(fp: Psk -> Fp, states: seq<Fleet>, actions: seq<Action>) {
    Rotation.Run(fp, states, actions) && forall i | 0 <= i < |actions| :: Compared(states[i], actions[i])
  }

  lemma InitHashes(fp: Psk -> Fp, s: Fleet)
    requires Init(s)
    ensures RowsDescribe(fp, s.table) && HashesDiffer(Checked(s))
  {
    var p: Slot :| p < 2 && s.radio.slots[p].role == Primary && forall i: Slot | i != p :: s.radio.slots[i] == BLANK;
    assert Checked(s) <= {s.radio.slots[p].psk};
  }

  lemma {:induction false} HashInvAlways(fp: Psk -> Fp, states: seq<Fleet>, actions: seq<Action>, n: nat)
    requires ComparedRun(fp, states, actions) && n <= |actions|
    ensures HashInv(fp, states[n])
  {
    if n == 0 {
      SlotInvAlways(fp, states, actions, 0);
      InitHashes(fp, states[0]);
    } else {
      HashInvAlways(fp, states, actions, n - 1);
      NextKeepsHashes(fp, states[n - 1], actions[n - 1], states[n]);
    }
  }

  /** In every such run a wire hash names at most one key of slots 0 and 1, the table and the open rotation. */
  lemma HashNamesOneKey(fp: Psk -> Fp, states: seq<Fleet>, actions: seq<Action>, n: nat, a: Psk, b: Psk)
    requires ComparedRun(fp, states, actions) && n <= |actions|
    requires a in Checked(states[n]) && b in Checked(states[n]) && WireHash(a) == WireHash(b)
    ensures a == b
  {
    HashInvAlways(fp, states, actions, n);
  }
}
