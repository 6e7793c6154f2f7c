/**
  How the recovery cache comes back after failures. In any run, whatever Phase C lost before,
  once six different keys were demoted by benign steps, everything module Decodable promises
  holds again: the recovery slots, the table and the demoted keys are back in agreement.
 */
module Healing {
  import opened Prelude
  import opened Keys
  import opened RecoveryCache
  import opened PiRadio
  import opened Rotation
  import opened Decodable

  /** s as if base had been the demoted keys; no step looks at them. */
  ghost function WithDemoted(s: Fleet, base: seq<Psk>): Fleet {
    s.(demoted := base)
  }

  /** Each key of since that is in the table is shown by its slot, or is still in flight. */
  ghost predicate Shown(s: Fleet, since: seq<Psk>) {
    forall i | i in s.table && s.table[i].psk in since ::
      SlotAgrees(s.table, s.radio.slots, i) || s.table[i].psk == Current(s).psk
  }

  /** The table tracks base and then since, and the slots show since. */
  ghost predicate HealInv(fp: Psk -> Fp, keys: set<Psk>, s: Fleet, base: seq<Psk>, since: seq<Psk>) {
    && BaseInv(fp, keys, s)
    && TableTracks(fp, WithDemoted(s, base + since))
    && Shown(s, since)
    && forall k | k in since :: k in keys
  }

  lemma HealParts(fp: Psk -> Fp, keys: set<Psk>, s: Fleet, base: seq<Psk>, since: seq<Psk>)
    ensures HealInv(fp, keys, s, base, since) <==>
            && BaseInv(fp, keys, s)
            && TableTracks(fp, WithDemoted(s, base + since))
            && Shown(s, since)
            && forall k | k in since :: k in keys
  {
  }

  lemma Regroup(base: seq<Psk>, since: seq<Psk>, more: seq<Psk>)
    ensures base + (since + more) == base + since + more
    ensures more == [] ==> base + more == base
  {
  }

  // ---------------------------------------------------------------------------
  // What Phase C does to the table, committed or not
  // ---------------------------------------------------------------------------

  /** A step that leaves table and PRIMARY alone. */
  lemma SameTracks(fp: Psk -> Fp, s: Fleet, s': Fleet, base: seq<Psk>)
    requires TableTracks(fp, WithDemoted(s, base))
    requires s'.table == s.table && Current(s') == Current(s) && s'.now >= s.now
    ensures TableTracks(fp, WithDemoted(s', base))
  {
    assert History(fp, WithDemoted(s', base)) == History(fp, WithDemoted(s, base));
  }

  lemma SameShown(s: Fleet, s': Fleet, since: seq<Psk>)
    requires Shown(s, since) && s'.table == s.table && Current(s') == Current(s)
    requires s.table.Keys <= RecoverySlots()
    requires forall i: Slot | i >= FIRST_SLOT :: s'.radio.slots[i] == s.radio.slots[i]
    ensures Shown(s', since)
  {
    forall i | i in s'.table && s'.table[i].psk in since
      ensures SlotAgrees(s'.table, s'.radio.slots, i) || s'.table[i].psk == Current(s').psk
    {
      assert i >= FIRST_SLOT;
    }
  }

  /** The keys the table stands for after Phase C's transaction. */
  ghost function BaseAfter(s: Fleet, base: seq<Psk>, add: bool, commit: bool): seq<Psk> {
    if commit && (add || InFlight(s)) then base + [Current(s).psk] else base
  }

  lemma TracksFp(fp: Psk -> Fp, base: seq<Psk>, k: Psk)
    ensures FpsOf(fp, base + [k]) == FpsOf(fp, base) + [fp(k)]
  {
  }

  /** Phase C's attempt, seen from the table. */
  lemma AttemptTracks(fp: Psk -> Fp, keys: set<Psk>, s: Fleet, s': Fleet, base: seq<Psk>, slot: Option<Slot>, id: nat,
                      commit: bool)
    requires BaseInv(fp, keys, s) && TableTracks(fp, WithDemoted(s, base)) && s'.now > s.now
    requires slot.None? ==> s'.table == s.table
    requires slot.Some? ==>
               && Current(s).psk != []
               && AddStep(s.table, s'.table, slot.value, fp(Current(s).psk), Current(s).psk, WireHash(Current(s).psk),
                          Some(id), s'.now)
    requires !commit ==> Current(s') == Current(s)
    requires commit ==> Current(s').psk !in TableKeys(s.table) && Current(s').psk != Current(s).psk
    ensures TableTracks(fp, WithDemoted(s', BaseAfter(s, base, slot.Some?, commit)))
  {
    var base' := BaseAfter(s, base, slot.Some?, commit);
    hide BaseInv, AddStep, Tracks, DistinctAges;
    HistoryIs(fp, s, base);
    HistoryIs(fp, s', base');
    TracksFp(fp, base, Current(s).psk);
    if slot.Some? {
      StoredTracks(fp, keys, s, s', base, slot.value, id);
    }
    assert commit ==> !InFlight(s');
  }

  lemma HistoryIs(fp: Psk -> Fp, s: Fleet, base: seq<Psk>)
    ensures History(fp, WithDemoted(s, base)) ==
            if InFlight(s) then FpsOf(fp, base) + [fp(Current(s).psk)] else FpsOf(fp, base)
  {
  }

  lemma StoredTracks(fp: Psk -> Fp, keys: set<Psk>, s: Fleet, s': Fleet, base: seq<Psk>, slot: Slot, id: nat)
    requires BaseInv(fp, keys, s) && TableTracks(fp, WithDemoted(s, base)) && s'.now > s.now && Current(s).psk != []
    requires AddStep(s.table, s'.table, slot, fp(Current(s).psk), Current(s).psk, WireHash(Current(s).psk), Some(id),
                     s'.now)
    ensures Tracks(s'.table, FpsOf(fp, base) + [fp(Current(s).psk)])
    ensures DistinctAges(s'.table) && Newer(s'.table, s'.now + 1)
    ensures Current(s).psk in TableKeys(s'.table)
    ensures TableKeys(s'.table) <= TableKeys(s.table) + {Current(s).psk}
  {
    CachedTracks(fp, keys, WithDemoted(s, base), s'.table, slot, id, s'.now);
    CachedTable(fp, keys, s, s'.table, slot, id, s'.now);
    assert s'.table[slot].psk in TableKeys(s'.table);
  }

  // ---------------------------------------------------------------------------
  // Any step keeps the base
  // ---------------------------------------------------------------------------

  /** Rotations accept new keys only; nothing is asked of Phase C. */
  ghost predicate Keyed(fp: Psk -> Fp, keys: set<Psk>, s: Fleet, a: Action) {
    a.Rotate? ==> Benign(fp, keys, s, a)
  }

  /** Phase C reaches its transaction. */
  ghost predicate Attempts(fp: Psk -> Fp, s: Fleet, a: Action) {
    && a.PhaseC? && a.job.id in s.rows && IsOpen(s.rows[a.job.id]) && s.rows[a.job.id].psk != []
    && FindOld(s.radio.slots, a.answers, fp, s.rows[a.job.id].newFp, 0).Some?
  }

  /** Steps that are no attempt leave the table, the recovery slots, the PRIMARY and the demoted keys alone. */
  lemma IdleStep(fp: Psk -> Fp, s: Fleet, a: Action, s': Fleet)
    requires SlotInv(fp, s) && Next(fp, s, a, s') && !Attempts(fp, s, a)
    ensures s'.table == s.table && s'.demoted == s.demoted && s'.now == s.now && Current(s') == Current(s)
    ensures forall i: Slot | i >= FIRST_SLOT :: s'.radio.slots[i] == s.radio.slots[i]
  {
    if a.PhaseA? {
      PhaseAFrame(fp, s, a, s');
    } else {
      hide SlotInv, FindOld, PromoteStep, Collides;
    }
  }

  lemma IdleKeepsKeys(fp: Psk -> Fp, keys: set<Psk>, s: Fleet, a: Action, s': Fleet)
    requires BaseInv(fp, keys, s) && Next(fp, s, a, s') && Keyed(fp, keys, s, a) && !Attempts(fp, s, a)
    ensures KeyInv(fp, keys, s')
  {
    if a.PhaseA? {
      PhaseAKeepsKeys(fp, keys, s, s', a);
    } else if a.Rotate? {
      hide SlotInv, KeyInv;
      RotateKeepsKeysIff(fp, keys, s, s', a);
    } else {
      IdleRows(fp, s, a, s');
      hide SlotInv, KeyInv, Next, Attempts;
      SameKeys(fp, keys, s, s');
    }
  }

  lemma IdleRows(fp: Psk -> Fp, s: Fleet, a: Action, s': Fleet)
    requires Next(fp, s, a, s') && !Attempts(fp, s, a) && (a.PhaseC? || a.Retire?)
    ensures s'.radio.slots == s.radio.slots && s'.table == s.table
    ensures forall i | i in s'.rows && IsOpen(s'.rows[i]) :: i in s.rows && s.rows[i] == s'.rows[i]
  {
    hide FindOld, PromoteStep;
  }

  lemma NextKeepsBase(fp: Psk -> Fp, keys: set<Psk>, s: Fleet, a: Action, s': Fleet)
    requires BaseInv(fp, keys, s) && Next(fp, s, a, s') && Keyed(fp, keys, s, a)
    ensures BaseInv(fp, keys, s')
  {
    NextKeepsSlots(fp, s, a, s');
    if Attempts(fp, s, a) {
      var found := FindOld(s.radio.slots, a.answers, fp, s.rows[a.job.id].newFp, 0);
      var slot: Option<Slot> :|
        PromoteStep(fp, s, s', a.job, found.value, slot, a.at, a.addOk, a.link, a.retireOk, a.clearOk);
      PromoteKeepsKeys(fp, keys, s, s', a, slot);
    } else {
      IdleKeepsKeys(fp, keys, s, a, s');
    }
  }

  /** One attempt: the table, the PRIMARY and the recovery slots after it. */
  ghost predicate Attempt(fp: Psk -> Fp, s: Fleet, s': Fleet, id: nat, slot: Option<Slot>, commit: bool) {
    && s'.now > s.now
    && (slot.None? ==> s'.table == s.table)
    && (slot.Some? ==>
          && Current(s).psk != [] && slot.value >= FIRST_SLOT
          && AddStep(s.table, s'.table, slot.value, fp(Current(s).psk), Current(s).psk, WireHash(Current(s).psk),
                     Some(id), s'.now))
    && s'.demoted == (if commit && Current(s).psk != [] then s.demoted + [Current(s).psk] else s.demoted)
    && (if commit then Current(s').psk !in TableKeys(s.table) && Current(s').psk != Current(s).psk
        else s'.radio.slots == s.radio.slots)
    && (commit && slot.Some? ==> s'.radio.slots[slot.value] == Channel(Secondary, Current(s).psk))
    && (forall i: Slot | i >= FIRST_SLOT && (commit ==> Some(i) != slot) :: s'.radio.slots[i] == s.radio.slots[i])
  }

  lemma AttemptIs(fp: Psk -> Fp, keys: set<Psk>, s: Fleet, a: Action, s': Fleet)
    returns (slot: Option<Slot>, commit: bool)
    requires BaseInv(fp, keys, s) && Next(fp, s, a, s') && Attempts(fp, s, a)
    ensures Attempt(fp, s, s', a.job.id, slot, commit)
    ensures slot.Some? <==> a.addOk && Current(s).psk != []
    ensures Benign(fp, keys, s, a) && commit ==> slot.Some? || Current(s).psk == []
  {
    slot := AttemptStep(fp, keys, s, a, s');
    commit := DidCommit(s, a, slot);
    hide BaseInv, Next, Attempts, PromoteStep, Benign, DidCommit, AddStep;
    CachedIs(fp, s, s', a, slot);
    AttemptRadio(fp, keys, s, s', a, slot, commit);
    if Benign(fp, keys, s, a) && commit {
      BenignCommits(fp, keys, s, a, slot);
    }
  }

  /** The slot an attempt reports, and what is known when it starts. */
  lemma AttemptStep(fp: Psk -> Fp, keys: set<Psk>, s: Fleet, a: Action, s': Fleet) returns (slot: Option<Slot>)
    requires BaseInv(fp, keys, s) && Next(fp, s, a, s') && Attempts(fp, s, a)
    ensures PromoteStep(fp, s, s', a.job, PrimaryOf(s.radio.slots), slot, a.at, a.addOk, a.link, a.retireOk, a.clearOk)
    ensures Some(a.job.staging) == OtherOf(PrimaryOf(s.radio.slots)) && (slot.Some? ==> slot.value >= FIRST_SLOT)
    ensures s.rows[a.job.id].psk !in TableKeys(s.table) && s.rows[a.job.id].psk != Current(s).psk
    ensures a.answers(PrimaryOf(s.radio.slots)).Acked? && fp(Current(s).psk) != s.rows[a.job.id].newFp
    ensures s'.now == a.at > s.now
  {
    var found := FindOld(s.radio.slots, a.answers, fp, s.rows[a.job.id].newFp, 0);
    slot :| PromoteStep(fp, s, s', a.job, found.value, slot, a.at, a.addOk, a.link, a.retireOk, a.clearOk);
    PromoteFacts(fp, keys, s, s', a, slot);
    FindOldIs(s.radio.slots, a.answers, fp, s.rows[a.job.id].newFp, 0);
    hide FindOld, BaseInv, KeyInv, AddStep, AppliedAll;
  }

  /** A benign attempt that commits stored the key it promotes away from. */
  lemma BenignCommits(fp: Psk -> Fp, keys: set<Psk>, s: Fleet, a: Action, slot: Option<Slot>)
    requires a.PhaseC? && a.job.id in s.rows && IsOpen(s.rows[a.job.id]) && s.rows[a.job.id].psk != []
    requires a.answers(PrimaryOf(s.radio.slots)).Acked? && fp(Current(s).psk) != s.rows[a.job.id].newFp
    requires Benign(fp, keys, s, a) && DidCommit(s, a, slot) && (slot.Some? <==> a.addOk && Current(s).psk != [])
    ensures slot.Some? || Current(s).psk == []
  {
  }

  lemma CachedIs(fp: Psk -> Fp, s: Fleet, s': Fleet, a: Action, slot: Option<Slot>)
    requires a.PhaseC? && a.job.id in s.rows
    requires PromoteStep(fp, s, s', a.job, PrimaryOf(s.radio.slots), slot, a.at, a.addOk, a.link, a.retireOk, a.clearOk)
    ensures slot.Some? <==> a.addOk && Current(s).psk != []
    ensures slot.None? ==> s'.table == s.table
    ensures slot.Some? ==>
              AddStep(s.table, s'.table, slot.value, fp(Current(s).psk), Current(s).psk, WireHash(Current(s).psk),
                      Some(a.job.id), s'.now)
  {
    hide AddStep, AppliedAll, Committed;
  }

  lemma AttemptRadio(fp: Psk -> Fp, keys: set<Psk>, s: Fleet, s': Fleet, a: Action, slot: Option<Slot>, commit: bool)
    requires a.PhaseC? && BaseInv(fp, keys, s) && a.job.id in s.rows && commit == DidCommit(s, a, slot)
    requires PromoteStep(fp, s, s', a.job, PrimaryOf(s.radio.slots), slot, a.at, a.addOk, a.link, a.retireOk, a.clearOk)
    requires Some(a.job.staging) == OtherOf(PrimaryOf(s.radio.slots)) && (slot.Some? ==> slot.value >= FIRST_SLOT)
    requires s.rows[a.job.id].psk !in TableKeys(s.table) && s.rows[a.job.id].psk != Current(s).psk
    ensures s'.demoted == if commit && Current(s).psk != [] then s.demoted + [Current(s).psk] else s.demoted
    ensures commit ==> Current(s').psk !in TableKeys(s.table) && Current(s').psk != Current(s).psk
    ensures !commit ==> s'.radio.slots == s.radio.slots
    ensures commit && slot.Some? ==> s'.radio.slots[slot.value] == Channel(Secondary, Current(s).psk)
    ensures forall i: Slot | i >= FIRST_SLOT && (commit ==> Some(i) != slot) :: s'.radio.slots[i] == s.radio.slots[i]
  {
    CachedIs(fp, s, s', a, slot);
    if commit {
      CommittedSlots(fp, keys, s, s', a, slot);
    }
    hide AddStep, AppliedAll, Cached, BaseInv;
  }

  lemma AttemptTable(fp: Psk -> Fp, keys: set<Psk>, s: Fleet, s': Fleet, base: seq<Psk>, slot: Option<Slot>, id: nat,
                     commit: bool)
    requires BaseInv(fp, keys, s) && TableTracks(fp, WithDemoted(s, base)) && Attempt(fp, s, s', id, slot, commit)
    ensures TableTracks(fp, WithDemoted(s', BaseAfter(s, base, slot.Some?, commit)))
  {
    hide BaseInv, TableTracks, AddStep;
    AttemptTracks(fp, keys, s, s', base, slot, id, commit);
  }

  /** Whatever is lost, there is a list of keys the table stands for. */
  lemma NextKeepsSomeBase(fp: Psk -> Fp, keys: set<Psk>, s: Fleet, a: Action, s': Fleet, base: seq<Psk>)
    returns (base': seq<Psk>)
    requires HealInv(fp, keys, s, base, []) && Next(fp, s, a, s') && Keyed(fp, keys, s, a)
    ensures HealInv(fp, keys, s', base', [])
  {
    assert Attempts(fp, s, a) ==> a.PhaseC?;
    hide HealInv, BaseInv, Shown, Next, TableTracks, Attempts, Attempt, WithDemoted, Current, BaseAfter;
    HealParts(fp, keys, s, base, []);
    Regroup(base, [], []);
    NextKeepsBase(fp, keys, s, a, s');
    if Attempts(fp, s, a) {
      var slot, commit := AttemptIs(fp, keys, s, a, s');
      AttemptTable(fp, keys, s, s', base, slot, a.job.id, commit);
      base' := BaseAfter(s, base, slot.Some?, commit);
    } else {
      IdleStep(fp, s, a, s');
      SameTracks(fp, s, s', base);
      base' := base;
    }
    Regroup(base', [], []);
    NothingShown(s');
    HealParts(fp, keys, s', base', []);
  }

  lemma NothingShown(s: Fleet)
    ensures Shown(s, [])
  {
  }

  // ---------------------------------------------------------------------------
  // Benign steps add to what is shown
  // ---------------------------------------------------------------------------

  lemma AttemptShown(fp: Psk -> Fp, keys: set<Psk>, s: Fleet, s': Fleet, id: nat, slot: Option<Slot>, commit: bool,
                     since: seq<Psk>, since': seq<Psk>)
    requires BaseInv(fp, keys, s) && Shown(s, since) && Attempt(fp, s, s', id, slot, commit)
    requires commit ==> slot.Some? || Current(s).psk == []
    requires since' == if commit && Current(s).psk != [] then since + [Current(s).psk] else since
    ensures Shown(s', since')
  {
    if slot.Some? {
      CachedTable(fp, keys, s, s'.table, slot.value, id, s'.now);
    }
    TableSlots(fp, keys, s);
    hide BaseInv, AddStep;
    RowsShown(fp, s, s', id, slot, commit, since, since');
  }

  lemma RowsShown(fp: Psk -> Fp, s: Fleet, s': Fleet, id: nat, slot: Option<Slot>, commit: bool, since: seq<Psk>,
                  since': seq<Psk>)
    requires Shown(s, since) && Attempt(fp, s, s', id, slot, commit)
    requires commit ==> slot.Some? || Current(s).psk == []
    requires since' == if commit && Current(s).psk != [] then since + [Current(s).psk] else since
    requires forall i | i in s.table :: i >= FIRST_SLOT && s.table[i].psk != []
    requires slot.Some? ==> slot.value in s'.table && s'.table[slot.value].psk == Current(s).psk
    requires forall i | i in s'.table && Some(i) != slot :: i in s.table && s'.table[i] == s.table[i]
    requires slot.Some? ==> forall i | i in s'.table && Some(i) != slot :: s'.table[i].psk != Current(s).psk
    ensures Shown(s', since')
  {
    hide AddStep;
    forall i | i in s'.table && s'.table[i].psk in since'
      ensures SlotAgrees(s'.table, s'.radio.slots, i) || s'.table[i].psk == Current(s').psk
    {
      if Some(i) != slot {
        assert s.table[i].psk in since;
      }
    }
  }

  lemma TableSlots(fp: Psk -> Fp, keys: set<Psk>, s: Fleet)
    requires BaseInv(fp, keys, s)
    ensures forall i | i in s.table :: i >= FIRST_SLOT && s.table[i].psk != []
  {
  }

  /** What a step added to the demoted keys. */
  ghost function Added(s: Fleet, s': Fleet): seq<Psk>
    requires |s.demoted| <= |s'.demoted|
  {
    s'.demoted[|s.demoted|..]
  }

  lemma BenignAttemptHeals(fp: Psk -> Fp, keys: set<Psk>, s: Fleet, a: Action, s': Fleet, base: seq<Psk>,
                           since: seq<Psk>)
    requires HealInv(fp, keys, s, base, since) && Next(fp, s, a, s') && Benign(fp, keys, s, a) && Attempts(fp, s, a)
    ensures |s.demoted| <= |s'.demoted| && s'.demoted == s.demoted + Added(s, s')
    ensures HealInv(fp, keys, s', base, since + Added(s, s'))
    ensures Added(s, s') != [] ==> !InFlight(s')
  {
    assert a.PhaseC?;
    hide HealInv, BaseInv, Shown, Next, TableTracks, Attempts, Attempt, Benign;
    hide BaseAfter, InFlight, WithDemoted, Current;
    HealParts(fp, keys, s, base, since);
    NextKeepsBase(fp, keys, s, a, s');
    var slot, commit := AttemptIs(fp, keys, s, a, s');
    AttemptAdds(fp, keys, s, s', a.job.id, slot, commit, base + since);
    AttemptTable(fp, keys, s, s', base + since, slot, a.job.id, commit);
    CurrentKnown(fp, keys, s);
    var more := Added(s, s');
    hide Added;
    Regroup(base, since, more);
    Regroup(since, more, more);
    AttemptShown(fp, keys, s, s', a.job.id, slot, commit, since, since + more);
    HealParts(fp, keys, s', base, since + more);
  }

  lemma CurrentKnown(fp: Psk -> Fp, keys: set<Psk>, s: Fleet)
    requires BaseInv(fp, keys, s)
    ensures Current(s).psk in keys && (Current(s).psk == [] ==> !InFlight(s))
  {
  }

  /** The demoted keys and the base grow by the same key, if any. */
  lemma AttemptAdds(fp: Psk -> Fp, keys: set<Psk>, s: Fleet, s': Fleet, id: nat, slot: Option<Slot>, commit: bool,
                    base: seq<Psk>)
    requires BaseInv(fp, keys, s) && Attempt(fp, s, s', id, slot, commit)
    requires commit ==> slot.Some? || Current(s).psk == []
    ensures |s.demoted| <= |s'.demoted| && s'.demoted == s.demoted + Added(s, s')
    ensures Added(s, s') == if commit && Current(s).psk != [] then [Current(s).psk] else []
    ensures BaseAfter(s, base, slot.Some?, commit) == base + Added(s, s')
    ensures Added(s, s') != [] ==> !InFlight(s')
  {
    hide BaseInv, AddStep;
    CurrentKnown(fp, keys, s);
    if commit {
      CommitNotInFlight(fp, keys, s, s', id, slot);
    }
    hide InFlight;
    assert base + [] == base && s.demoted + [] == s.demoted;
  }

  lemma CommitNotInFlight(fp: Psk -> Fp, keys: set<Psk>, s: Fleet, s': Fleet, id: nat, slot: Option<Slot>)
    requires BaseInv(fp, keys, s) && Attempt(fp, s, s', id, slot, true)
    ensures !InFlight(s')
  {
    if slot.Some? {
      CachedTable(fp, keys, s, s'.table, slot.value, id, s'.now);
    }
    hide BaseInv, AddStep;
  }

  lemma BenignStepHeals(fp: Psk -> Fp, keys: set<Psk>, s: Fleet, a: Action, s': Fleet, base: seq<Psk>, since: seq<Psk>)
    requires HealInv(fp, keys, s, base, since) && Next(fp, s, a, s') && Benign(fp, keys, s, a)
    ensures |s.demoted| <= |s'.demoted| && s'.demoted == s.demoted + Added(s, s')
    ensures HealInv(fp, keys, s', base, since + Added(s, s'))
    ensures Added(s, s') != [] ==> !InFlight(s')
  {
    if Attempts(fp, s, a) {
      BenignAttemptHeals(fp, keys, s, a, s', base, since);
    } else {
      NextKeepsBase(fp, keys, s, a, s');
      IdleStep(fp, s, a, s');
      SlotsInRange(s.table);
      hide BaseInv, Next, TableTracks, Benign, Attempts;
      SameTracks(fp, s, s', base + since);
      SameShown(s, s', since);
      assert since + [] == since;
    }
  }

  // ---------------------------------------------------------------------------
  // Six different keys are enough
  // ---------------------------------------------------------------------------

  ghost function Distinct6(since: seq<Psk>): set<Psk> {
    set k | k in since
  }

  ghost function FpSet(h: seq<Fp>): set<Fp> {
    set f | f in h
  }

  /** What comes later than f in the second of two stretches does not depend on the first. */
  lemma {:induction false} LaterConcat(g: seq<Fp>, h: seq<Fp>, f: Fp)
    ensures f in h ==> Later(g + h, f) == Later(h, f)
    ensures f !in h ==> Later(g + h, f) >= FpSet(h)
  {
    if h == [] {
      assert g + h == g;
    } else {
      var front, last := h[..|h| - 1], h[|h| - 1];
      assert h == front + [last] && g + h == (g + front) + [last];
      LaterConcat(g, front, f);
      LaterAppend(g + front, last, f);
      LaterAppend(front, last, f);
    }
  }

  lemma FpsConcat(fp: Psk -> Fp, a: seq<Psk>, b: seq<Psk>)
    ensures FpsOf(fp, a + b) == FpsOf(fp, a) + FpsOf(fp, b)
  {
  }

  /** Different keys have different fingerprints. */
  lemma {:induction false} SameCount(fp: Psk -> Fp, keys: set<Psk>, ks: set<Psk>)
    requires InjectiveOn(fp, keys) && ks <= keys
    ensures |set k | k in ks :: fp(k)| == |ks|
    decreases ks
  {
    var fps := set k | k in ks :: fp(k);
    if ks == {} {
      assert fps == {};
    } else {
      var k :| k in ks;
      var rest := ks - {k};
      SameCount(fp, keys, rest);
      var fpsRest := set x | x in rest :: fp(x);
      assert fps == fpsRest + {fp(k)};
      assert fp(k) !in fpsRest;
    }
  }

  lemma SixAreFull(t: Table)
    requires ValidTable(t) && |AllFps(t)| >= CAPACITY
    ensures Full(t)
  {
    FpsCardinality(t, t.Keys);
    assert AllFps(t) == set s | s in t.Keys :: t[s].fp;
    SlotsInRange(t);
    SubsetCardinality(t.Keys, RecoverySlots());
  }

  /** A table that tracks a history ending in six different fingerprints holds none but those, and is full. */
  lemma OnlyTheLast(t: Table, g: seq<Fp>, h: seq<Fp>)
    requires Tracks(t, g + h) && |FpSet(h)| >= CAPACITY
    ensures AllFps(t) <= FpSet(h) && Full(t)
  {
    hide Later, Younger;
    forall f | f in AllFps(t)
      ensures f in FpSet(h)
    {
      var s :| s in t && t[s].fp == f;
      FewYounger(t, s);
      LaterConcat(g, h, f);
      if f !in h {
        SubsetCardinality(FpSet(h), Later(g + h, f));
      }
    }
    if forall f | f in FpSet(h) :: f in AllFps(t) {
      SubsetCardinality(FpSet(h), AllFps(t));
      SixAreFull(t);
    } else {
      var f :| f in FpSet(h) && f !in AllFps(t);
      assert f in g + h;
    }
  }

  /** Then it tracks any other history with the same ending. */
  lemma OtherPrefix(t: Table, g: seq<Fp>, g': seq<Fp>, h: seq<Fp>)
    requires Tracks(t, g + h) && |FpSet(h)| >= CAPACITY
    ensures Tracks(t, g' + h)
  {
    OnlyTheLast(t, g, h);
    forall s | s in t
      ensures t[s].fp in g' + h && Later(g' + h, t[s].fp) == Younger(t, s)
    {
      assert t[s].fp in AllFps(t);
      LaterConcat(g, h, t[s].fp);
      LaterConcat(g', h, t[s].fp);
    }
    forall f | f in g' + h && f !in AllFps(t)
      ensures AllFps(t) <= Later(g' + h, f)
    {
      LaterConcat(g, h, f);
      LaterConcat(g', h, f);
      assert f in h ==> f in g + h;
    }
  }

  /** Once six different keys are shown and nothing is in flight, all is as if nothing had failed. */
  lemma Restored(fp: Psk -> Fp, keys: set<Psk>, s: Fleet, base: seq<Psk>, since: seq<Psk>, before: seq<Psk>)
    requires HealInv(fp, keys, s, base, since) && !InFlight(s) && s.demoted == before + since
    requires |Distinct6(since)| >= CAPACITY
    ensures CacheInv(fp, keys, s)
  {
    var g, g', h := FpsOf(fp, base), FpsOf(fp, before), FpsOf(fp, since);
    FpsConcat(fp, base, since);
    FpsConcat(fp, before, since);
    assert History(fp, WithDemoted(s, base + since)) == g + h;
    SameCount(fp, keys, Distinct6(since));
    assert FpSet(h) == set k | k in Distinct6(since) :: fp(k) by {
      FpSetIs(fp, since);
    }
    OnlyTheLast(s.table, g, h);
    OtherPrefix(s.table, g, g', h);
    ShownAgree(fp, keys, s, since);
    AgreeIsNew(s);
    assert FpsOf(fp, s.demoted) == g' + h == History(fp, s);
    AgreeGivesRadioHolds(fp, s);
  }

  lemma FpSetIs(fp: Psk -> Fp, since: seq<Psk>)
    ensures FpSet(FpsOf(fp, since)) == set k | k in Distinct6(since) :: fp(k)
  {
    forall k | k in since
      ensures fp(k) in FpsOf(fp, since)
    {
      var i :| 0 <= i < |since| && since[i] == k;
      assert FpsOf(fp, since)[i] == fp(k);
    }
  }

  lemma ShownAgree(fp: Psk -> Fp, keys: set<Psk>, s: Fleet, since: seq<Psk>)
    requires BaseInv(fp, keys, s) && Shown(s, since) && !InFlight(s) && forall k | k in since :: k in keys
    requires Full(s.table) && AllFps(s.table) <= FpSet(FpsOf(fp, since))
    ensures Agree(s.table, s.radio.slots)
  {
    forall i: Slot | i >= FIRST_SLOT
      ensures SlotAgrees(s.table, s.radio.slots, i)
    {
      assert i in s.table && s.table[i].fp in AllFps(s.table);
      var j :| 0 <= j < |since| && FpsOf(fp, since)[j] == s.table[i].fp;
      assert since[j] in keys && s.table[i].psk in TableKeys(s.table);
      assert s.table[i].psk == since[j];
    }
  }

  // ---------------------------------------------------------------------------
  // Runs
  // ---------------------------------------------------------------------------

  /** Any run in which RotatePSK accepts new keys only, and no other assumption. */
  ghost predicate KeyedRun(fp: Psk -> Fp, keys: set<Psk>, states: seq<Fleet>, actions: seq<Action>) {
    && Rotation.Run(fp, states, actions)
    && Fingerprints(fp, keys)
    && (forall i: Slot :: states[0].radio.slots[i].psk in keys)
    && forall i | 0 <= i < |actions| :: Keyed(fp, keys, states[i], actions[i])
  }

  lemma {:induction false} SomeBaseAlways(fp: Psk -> Fp, keys: set<Psk>, states: seq<Fleet>, actions: seq<Action>,
                                          n: nat)
    returns (base: seq<Psk>)
    requires KeyedRun(fp, keys, states, actions) && n <= |actions|
    ensures HealInv(fp, keys, states[n], base, [])
  {
    if n == 0 {
      SlotInvAlways(fp, states, actions, 0);
      InitCache(fp, keys, states[0]);
      base := states[0].demoted;
      assert WithDemoted(states[0], base + []) == states[0];
    } else {
      var before := SomeBaseAlways(fp, keys, states, actions, n - 1);
      base := NextKeepsSomeBase(fp, keys, states[n - 1], actions[n - 1], states[n], before);
    }
  }

  /** Six different keys were demoted between steps m and n. */
  ghost predicate SixDemoted(states: seq<Fleet>, m: nat, n: nat)
    requires m < |states| && n < |states|
  {
    |states[m].demoted| <= |states[n].demoted| && |Distinct6(Added(states[m], states[n]))| >= CAPACITY
  }

  ghost predicate BenignBetween(fp: Psk -> Fp, keys: set<Psk>, states: seq<Fleet>, actions: seq<Action>, m: nat, n: nat)
    requires n <= |actions| < |states|
  {
    forall i | m <= i < n :: Benign(fp, keys, states[i], actions[i])
  }

  lemma {:induction false} HealsFrom(fp: Psk -> Fp, keys: set<Psk>, states: seq<Fleet>, actions: seq<Action>,
                                     m: nat, n: nat, base: seq<Psk>)
    requires KeyedRun(fp, keys, states, actions) && m <= n <= |actions|
    requires HealInv(fp, keys, states[m], base, []) && BenignBetween(fp, keys, states, actions, m, n)
    ensures |states[m].demoted| <= |states[n].demoted|
    ensures states[n].demoted == states[m].demoted + Added(states[m], states[n])
    ensures HealInv(fp, keys, states[n], base, Added(states[m], states[n]))
    ensures SixDemoted(states, m, n) ==> CacheInv(fp, keys, states[n])
    decreases n
  {
    hide HealInv, CacheInv, Next, Benign, Keyed;
    if m == n {
      assert Added(states[m], states[n]) == [];
      assert Distinct6([]) == {};
    } else {
      HealsFrom(fp, keys, states, actions, m, n - 1, base);
      hide Added, Distinct6;
      HealsStep(fp, keys, states[m], states[n - 1], actions[n - 1], states[n], base);
    }
  }

  /** One more benign step after state from. */
  lemma HealsStep(fp: Psk -> Fp, keys: set<Psk>, from: Fleet, s: Fleet, a: Action, s': Fleet, base: seq<Psk>)
    requires Next(fp, s, a, s') && Benign(fp, keys, s, a)
    requires |from.demoted| <= |s.demoted| && s.demoted == from.demoted + Added(from, s)
    requires HealInv(fp, keys, s, base, Added(from, s))
    requires |Distinct6(Added(from, s))| >= CAPACITY ==> CacheInv(fp, keys, s)
    ensures |from.demoted| <= |s'.demoted| && s'.demoted == from.demoted + Added(from, s')
    ensures HealInv(fp, keys, s', base, Added(from, s'))
    ensures |Distinct6(Added(from, s'))| >= CAPACITY ==> CacheInv(fp, keys, s')
  {
    hide HealInv, CacheInv, Next, Benign, Distinct6;
    var since := Added(from, s);
    BenignStepHeals(fp, keys, s, a, s', base, since);
    assert s'.demoted == from.demoted + (since + Added(s, s'));
    assert Added(from, s') == since + Added(s, s');
    if |Distinct6(Added(from, s'))| >= CAPACITY {
      if Added(s, s') == [] {
        assert since + [] == since;
        NextKeepsCache(fp, keys, s, a, s');
      } else {
        Restored(fp, keys, s', base, since + Added(s, s'), from.demoted);
      }
    }
  }

  /**
    In every run, whatever messages, reads and inserts Phase C lost up to step m: if the steps
    since then were benign and demoted six different keys, the full invariant holds
    again, and with it everything that follows from it.
   */
  lemma SixKeysHeal(fp: Psk -> Fp, keys: set<Psk>, states: seq<Fleet>, actions: seq<Action>, m: nat, n: nat)
    requires KeyedRun(fp, keys, states, actions) && m <= n <= |actions|
    requires BenignBetween(fp, keys, states, actions, m, n) && SixDemoted(states, m, n)
    ensures CacheInv(fp, keys, states[n])
    ensures RadioHolds(fp, states[n]) && (!InFlight(states[n]) ==> CacheComplete(fp, states[n]))
  {
    var base := SomeBaseAlways(fp, keys, states, actions, m);
    HealsFrom(fp, keys, states, actions, m, n, base);
    CompleteUnlessInFlight(fp, keys, states[n]);
  }
}
