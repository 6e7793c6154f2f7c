/**
  Key rotation as a step system over the controller's radio, the recovery table and the
  rotation rows (internal/fleetsec/channels.go, internal/fleetsec/job_handlers.go).
  A job, once enqueued, may run any number of times. Every step takes as arguments what
  the environment decides: which messages arrive and which database writes succeed.
 */
module Rotation {
  import opened Prelude
  import opened Keys
  import opened RecoveryCache
  import opened PiRadio

  datatype PiPhase = Pending | StagingAdded | Retired

  /** A row of fleet_rotations, without its targets. An empty psk is a NULL column. */
  datatype Rotating = Rotating(newFp: Fp, psk: Psk, staging: Option<Slot>, phase: PiPhase)

  /** A Phase C job. */
  datatype PromoteJob = PromoteJob(id: nat, staging: Slot)

  /**
    demoted lists the keys that a committed promote removed from PRIMARY, oldest first;
    now is the last timestamp handed out by the database.
   */
  datatype Fleet = Fleet(radio: Radio, table: Table, rows: map<nat, Rotating>, promotes: set<PromoteJob>,
                         demoted: seq<Psk>, now: int)

  datatype Action =
    | Rotate(id: nat, newPsk: Psk, answers: Slot -> Delivery, listOk: bool, stored: bool)
    | PhaseA(id: nat, answers: Slot -> Delivery, stage: Delivery, pinOk: bool, phaseOk: bool)
    | Retire(id: nat, gate: bool)
    | PhaseC(job: PromoteJob, answers: Slot -> Delivery, at: int, addOk: bool, link: nat -> Delivery,
             retireOk: bool, clearOk: bool)

  function Current(s: Fleet): Channel {
    s.radio.slots[PrimaryOf(s.radio.slots)]
  }

  predicate IsOpen(r: Rotating) {
    r.phase != Retired
  }

  // ---------------------------------------------------------------------------
  // Steps
  // ---------------------------------------------------------------------------

  /** CheckPSKHashCollision: slots that do not answer and a failed listing are skipped. */
  ghost predicate Collides(s: Fleet, psk: Psk, answers: Slot -> Delivery, listOk: bool) {
    psk != [] &&
    (|| (exists i: Slot :: i < 2 && answers(i).Acked? && s.radio.slots[i].psk != [] &&
                           WireHash(s.radio.slots[i].psk) == WireHash(psk))
     || (listOk && exists i: Slot :: i in s.table && s.table[i].hash == WireHash(psk)))
  }

  /**
    RotatePSK stores a row: the length is valid, the hash does not collide, and stored says that
    the checks that concern neither key nor radio passed and the insert succeeded.
   */
  ghost predicate Admits(s: Fleet, newPsk: Psk, answers: Slot -> Delivery, listOk: bool, stored: bool) {
    stored && ValidPskLength(newPsk) && !Collides(s, newPsk, answers, listOk)
  }

  /** RotatePSK. */
  ghost predicate RotateStep(fp: Psk -> Fp, s: Fleet, s': Fleet, id: nat, newPsk: Psk,
                             answers: Slot -> Delivery, listOk: bool, stored: bool)
  {
    && s'.radio.slots == s.radio.slots
    && s'.table == s.table && s'.promotes == s.promotes && s'.demoted == s.demoted && s'.now == s.now
    && s'.rows ==
       if Admits(s, newPsk, answers, listOk, stored)
       then s.rows[id := Rotating(fp(newPsk), newPsk, None, Pending)]
       else s.rows
  }

  /** phaseAHandler.Run, as far as it touches the radio and the row. */
  ghost function AfterPhaseA(s: Fleet, id: nat, answers: Slot -> Delivery, stage: Delivery, pinOk: bool,
                             phaseOk: bool): Fleet
  {
    if id !in s.rows || s.rows[id].psk == [] then s
    else
      var row := s.rows[id];
      var radio := AfterReads(s.radio, answers, 8);
      var primary := LastPrimary(s.radio.slots, answers, 8);
      var pick := if row.staging.Some? then row.staging else if primary.Some? then OtherOf(primary.value) else None;
      if primary.None? || pick.None? then s.(radio := radio)
      else
        var pinned := if row.staging.None? && pinOk then row.(staging := pick) else row;
        if row.phase != Pending then s.(radio := radio, rows := s.rows[id := pinned])
        else
          var staged := Delivered(radio, Set(Edit(pick.value, Secondary, row.psk)), stage);
          var done := if stage.Acked? && phaseOk then pinned.(phase := StagingAdded) else pinned;
          s.(radio := staged, rows := s.rows[id := done])
  }

  /** RetireOldPSK: enqueues Phase C once the row is staged and the gate is open. */
  ghost function AfterRetire(s: Fleet, id: nat, gate: bool): Fleet {
    if id in s.rows && s.rows[id].phase == StagingAdded && s.rows[id].staging.Some? && gate
    then s.(promotes := s.promotes + {PromoteJob(id, s.rows[id].staging.value)})
    else s
  }

  /** The recovery add inside Phase C: t', and the slot when an add took place. */
  ghost predicate Cached(fp: Psk -> Fp, t: Table, t': Table, slot: Option<Slot>, oldPsk: Psk, id: nat, at: int,
                         addOk: bool)
  {
    if oldPsk != [] && addOk then
      slot.Some? && AddStep(t, t', slot.value, fp(oldPsk), oldPsk, WireHash(oldPsk), Some(id), at)
    else
      slot.None? && t' == t
  }

  /** MarkRotationRetired, then ClearRotationPSK; either write may fail. */
  function MarkRetired(row: Rotating, retireOk: bool, clearOk: bool): Rotating {
    if !retireOk then row
    else if clearOk then row.(phase := Retired, psk := []) else row.(phase := Retired)
  }

  /** Phase C after it found the old PRIMARY in oldSlot: cache, promote, mark. */
  ghost predicate PromoteStep(fp: Psk -> Fp, s: Fleet, s': Fleet, job: PromoteJob, oldSlot: Slot, slot: Option<Slot>,
                              at: int, addOk: bool, link: nat -> Delivery, retireOk: bool, clearOk: bool)
    requires job.id in s.rows
  {
    var row, oldPsk := s.rows[job.id], s.radio.slots[oldSlot].psk;
    var edits := PromoteEdits(job.staging, oldSlot, row.psk, slot, oldPsk);
    var committed := Committed(link, |edits|);
    && Cached(fp, s.table, s'.table, slot, oldPsk, job.id, at, addOk)
    && s'.radio.slots == (if committed then AppliedAll(s.radio.slots, edits) else s.radio.slots)
    && s'.demoted == (if committed && oldPsk != [] then s.demoted + [oldPsk] else s.demoted)
    && s'.rows == (if committed && link(|edits| + 1).Acked?
                   then s.rows[job.id := MarkRetired(row, retireOk, clearOk)] else s.rows)
    && s'.promotes == s.promotes && s'.now == at
  }

  /** phaseCHandler.Run. */
  ghost predicate PhaseCStep(fp: Psk -> Fp, s: Fleet, s': Fleet, job: PromoteJob, answers: Slot -> Delivery,
                             at: int, addOk: bool, link: nat -> Delivery, retireOk: bool, clearOk: bool)
  {
    if job.id !in s.rows || s.rows[job.id].phase == Retired then s' == s
    else
      var row := s.rows[job.id];
      var found := FindOld(s.radio.slots, answers, fp, row.newFp, 0);
      if found.None? then
        && s'.radio.slots == s.radio.slots
        && s' == s.(radio := s'.radio, rows := s.rows[job.id := MarkRetired(row, retireOk, false)])
      else if row.psk == [] then
        && s'.radio.slots == s.radio.slots
        && s' == s.(radio := s'.radio)
      else
        exists slot: Option<Slot> :: PromoteStep(fp, s, s', job, found.value, slot, at, addOk, link, retireOk, clearOk)
  }

  /**
    One step of the system. A rotation starts under a fresh id and only while no other is
    open, a job runs only if it was enqueued, and the clock moves forward.
   */
  ghost predicate Next(fp: Psk -> Fp, s: Fleet, a: Action, s': Fleet) {
    match a
    case Rotate(id, newPsk, answers, listOk, stored) =>
      && id !in s.rows && (forall i | i in s.rows :: !IsOpen(s.rows[i]))
      && RotateStep(fp, s, s', id, newPsk, answers, listOk, stored)
    case PhaseA(id, answers, stage, pinOk, phaseOk) =>
      s' == AfterPhaseA(s, id, answers, stage, pinOk, phaseOk)
    case Retire(id, gate) =>
      s' == AfterRetire(s, id, gate)
    case PhaseC(job, answers, at, addOk, link, retireOk, clearOk) =>
      job in s.promotes && at > s.now &&
      PhaseCStep(fp, s, s', job, answers, at, addOk, link, retireOk, clearOk)
  }

  // ---------------------------------------------------------------------------
  // Slot discipline, under every loss of messages and of database writes
  // ---------------------------------------------------------------------------

  /** What a row says about the radio. p is the PRIMARY slot and current its key's fingerprint. */
  ghost predicate RowFits(fp: Psk -> Fp, r: Rotating, p: Slot, current: Fp) {
    && (IsOpen(r) ==> fp(r.psk) == r.newFp)
    && (r.staging.Some? ==> r.staging.value < 2)
    && (IsOpen(r) && r.staging.Some? && (r.phase == Pending || current != r.newFp) ==> r.staging == OtherOf(p))
  }

  ghost predicate RowsFit(fp: Psk -> Fp, s: Fleet) {
    forall i | i in s.rows :: RowFits(fp, s.rows[i], PrimaryOf(s.radio.slots), fp(Current(s).psk))
  }

  ghost predicate AtMostOneOpen(rows: map<nat, Rotating>) {
    forall i, j | i in rows && j in rows && IsOpen(rows[i]) && IsOpen(rows[j]) :: i == j
  }

  ghost predicate JobsFit(s: Fleet) {
    forall j | j in s.promotes ::
      j.id in s.rows && s.rows[j.id].staging == Some(j.staging) && s.rows[j.id].phase != Pending
  }

  ghost predicate SlotInv(fp: Psk -> Fp, s: Fleet) {
    && OnePrimary(s.radio.slots)
    && ValidTable(s.table)
    && AtMostOneOpen(s.rows)
    && RowsFit(fp, s)
    && JobsFit(s)
  }

  lemma RotateKeepsSlots(fp: Psk -> Fp, s: Fleet, a: Action, s': Fleet)
    requires SlotInv(fp, s) && a.Rotate? && Next(fp, s, a, s')
    ensures SlotInv(fp, s')
  {
    hide Collides;
  }

  /** Phase A writes nothing but the slot of the pair that is not PRIMARY. */
  lemma PhaseAWritesOther(fp: Psk -> Fp, s: Fleet, id: nat, answers: Slot -> Delivery, stage: Delivery, pinOk: bool,
                          phaseOk: bool)
    requires SlotInv(fp, s)
    ensures var s' := AfterPhaseA(s, id, answers, stage, pinOk, phaseOk);
      var p := PrimaryOf(s.radio.slots);
      && PrimaryAt(s'.radio.slots, p)
      && (forall i: Slot | Some(i) != OtherOf(p) :: s'.radio.slots[i] == s.radio.slots[i])
      && (s'.radio.slots != s.radio.slots ==>
            && id in s.rows && s.rows[id].phase == Pending
            && s'.radio.slots == s.radio.slots[OtherOf(p).value := Channel(Secondary, s.rows[id].psk)])
  {
    LastPrimaryIs(s.radio.slots, answers, 8);
    AfterReadsKeepSlots(s.radio, answers, 8);
    if id in s.rows && s.rows[id].phase == Pending && s.rows[id].staging.Some? {
      assert RowFits(fp, s.rows[id], PrimaryOf(s.radio.slots), fp(Current(s).psk));
    }
  }

  /** What Phase A does to the rows: it may pin the staging slot and note that staging is done. */
  lemma PhaseARow(s: Fleet, id: nat, answers: Slot -> Delivery, stage: Delivery, pinOk: bool, phaseOk: bool)
    requires OnePrimary(s.radio.slots)
    ensures var s' := AfterPhaseA(s, id, answers, stage, pinOk, phaseOk);
      && s'.rows.Keys == s.rows.Keys && s'.table == s.table && s'.promotes == s.promotes
      && s'.demoted == s.demoted && s'.now == s.now
      && (forall i | i in s.rows && i != id :: s'.rows[i] == s.rows[i])
      && (id in s.rows ==>
            var row, row' := s.rows[id], s'.rows[id];
            && row'.newFp == row.newFp && row'.psk == row.psk
            && (row.staging.Some? || row'.staging.Some? ==>
                  row'.staging == if row.staging.Some? then row.staging else OtherOf(PrimaryOf(s.radio.slots)))
            && (row'.phase == row.phase || (row.phase == Pending && row'.phase == StagingAdded)))
  {
    LastPrimaryIs(s.radio.slots, answers, 8);
    hide AfterReads, LastPrimary, Delivered, PrimaryAt;
  }

  lemma PhaseAKeepsSlots(fp: Psk -> Fp, s: Fleet, id: nat, answers: Slot -> Delivery, stage: Delivery, pinOk: bool,
                         phaseOk: bool)
    requires SlotInv(fp, s)
    ensures SlotInv(fp, AfterPhaseA(s, id, answers, stage, pinOk, phaseOk))
  {
    var s' := AfterPhaseA(s, id, answers, stage, pinOk, phaseOk);
    var p := PrimaryOf(s.radio.slots);
    PhaseAWritesOther(fp, s, id, answers, stage, pinOk, phaseOk);
    PhaseARow(s, id, answers, stage, pinOk, phaseOk);
    PrimaryUnique(s'.radio.slots, p);
    hide AfterPhaseA, PrimaryAt, ValidTable;
    assert Current(s') == Current(s);
  }

  lemma RetireKeepsSlots(fp: Psk -> Fp, s: Fleet, id: nat, gate: bool)
    requires SlotInv(fp, s)
    ensures SlotInv(fp, AfterRetire(s, id, gate))
  {
  }

  /**
    A Phase C that reaches its transaction wipes the PRIMARY slot, stages in the other of
    the pair, and puts the old key, if anywhere, in a slot of 2..7.
   */
  lemma PhaseCSlotsDiffer(fp: Psk -> Fp, s: Fleet, s': Fleet, job: PromoteJob, answers: Slot -> Delivery,
                          slot: Option<Slot>, at: int, addOk: bool, link: nat -> Delivery, retireOk: bool,
                          clearOk: bool)
    requires SlotInv(fp, s) && job in s.promotes && IsOpen(s.rows[job.id])
    requires var found := FindOld(s.radio.slots, answers, fp, s.rows[job.id].newFp, 0);
      found.Some? && PromoteStep(fp, s, s', job, found.value, slot, at, addOk, link, retireOk, clearOk)
    ensures var p := PrimaryOf(s.radio.slots);
      && FindOld(s.radio.slots, answers, fp, s.rows[job.id].newFp, 0) == Some(p)
      && Some(job.staging) == OtherOf(p)
      && (slot.Some? ==> FIRST_SLOT <= slot.value <= LAST_SLOT)
      && ValidTable(s'.table)
  {
    var row := s.rows[job.id];
    FindOldIs(s.radio.slots, answers, fp, row.newFp, 0);
    assert RowFits(fp, row, PrimaryOf(s.radio.slots), fp(Current(s).psk));
    if slot.Some? {
      var oldPsk := Current(s).psk;
      AddKeepsSlots(s.table, s'.table, slot.value, fp(oldPsk), oldPsk, WireHash(oldPsk), Some(job.id), at);
    }
  }

  lemma PromoteKeepsSlots(fp: Psk -> Fp, s: Fleet, s': Fleet, job: PromoteJob, answers: Slot -> Delivery,
                          slot: Option<Slot>, at: int, addOk: bool, link: nat -> Delivery, retireOk: bool,
                          clearOk: bool)
    requires SlotInv(fp, s) && job in s.promotes && IsOpen(s.rows[job.id])
    requires var found := FindOld(s.radio.slots, answers, fp, s.rows[job.id].newFp, 0);
      found.Some? && PromoteStep(fp, s, s', job, found.value, slot, at, addOk, link, retireOk, clearOk)
    ensures SlotInv(fp, s')
  {
    hide AppliedAll, FindOld, AddStep;
    PhaseCSlotsDiffer(fp, s, s', job, answers, slot, at, addOk, link, retireOk, clearOk);
    var p, row := PrimaryOf(s.radio.slots), s.rows[job.id];
    var oldPsk := s.radio.slots[p].psk;
    if Committed(link, |PromoteEdits(job.staging, p, row.psk, slot, oldPsk)|) {
      PromotedSlots(s.radio.slots, job.staging, p, row.psk, slot, oldPsk);
      PrimaryUnique(s'.radio.slots, job.staging);
      forall i | i in s'.rows
        ensures RowFits(fp, s'.rows[i], job.staging, fp(row.psk))
      {
        assert RowFits(fp, s.rows[i], p, fp(oldPsk));
        assert IsOpen(s.rows[i]) ==> i == job.id;
      }
    }
  }

  lemma PhaseCKeepsSlots(fp: Psk -> Fp, s: Fleet, s': Fleet, job: PromoteJob, answers: Slot -> Delivery,
                         at: int, addOk: bool, link: nat -> Delivery, retireOk: bool, clearOk: bool)
    requires SlotInv(fp, s) && job in s.promotes
    requires PhaseCStep(fp, s, s', job, answers, at, addOk, link, retireOk, clearOk)
    ensures SlotInv(fp, s')
  {
    if IsOpen(s.rows[job.id]) {
      var found := FindOld(s.radio.slots, answers, fp, s.rows[job.id].newFp, 0);
      if found.Some? && s.rows[job.id].psk != [] {
        var slot: Option<Slot> :| PromoteStep(fp, s, s', job, found.value, slot, at, addOk, link, retireOk, clearOk);
        PromoteKeepsSlots(fp, s, s', job, answers, slot, at, addOk, link, retireOk, clearOk);
      }
    }
  }

  lemma NextKeepsSlots(fp: Psk -> Fp, s: Fleet, a: Action, s': Fleet)
    requires SlotInv(fp, s) && Next(fp, s, a, s')
    ensures SlotInv(fp, s')
  {
    match a
    case Rotate(_, _, _, _, _) =>
      RotateKeepsSlots(fp, s, a, s');
    case PhaseA(id, answers, stage, pinOk, phaseOk) =>
      PhaseAKeepsSlots(fp, s, id, answers, stage, pinOk, phaseOk);
    case Retire(id, gate) =>
      RetireKeepsSlots(fp, s, id, gate);
    case PhaseC(job, answers, at, addOk, link, retireOk, clearOk) =>
      PhaseCKeepsSlots(fp, s, s', job, answers, at, addOk, link, retireOk, clearOk);
  }

  // ---------------------------------------------------------------------------
  // Runs
  // ---------------------------------------------------------------------------

  /** A fresh installation: one PRIMARY in slot 0 or 1, every other slot blank, nothing stored. */
  ghost predicate Init(s: Fleet) {
    && (exists p: Slot ::
          p < 2 && s.radio.slots[p].role == Primary && forall i: Slot | i != p :: s.radio.slots[i] == BLANK)
    && s.table == map[] && s.rows == map[] && s.promotes == {} && s.demoted == []
  }

  /** actions[i] leads from states[i] to states[i+1]. */
  ghost predicate Run(fp: Psk -> Fp, states: seq<Fleet>, actions: seq<Action>) {
    && |states| == |actions| + 1
    && Init(states[0])
    && forall i | 0 <= i < |actions| :: Next(fp, states[i], actions[i], states[i + 1])
  }

  /**
    In every state of every run the radio has exactly one PRIMARY, it is in slot 0 or 1,
    and every rotation's staging slot is the other of the two until it is promoted.
   */
  lemma {:induction false} SlotInvAlways(fp: Psk -> Fp, states: seq<Fleet>, actions: seq<Action>, n: nat)
    requires Run(fp, states, actions) && n <= |actions|
    ensures SlotInv(fp, states[n])
  {
    if n == 0 {
      var p: Slot :| p < 2 && states[0].radio.slots[p].role == Primary &&
                     forall i: Slot | i != p :: states[0].radio.slots[i] == BLANK;
      PrimaryUnique(states[0].radio.slots, p);
    } else {
      SlotInvAlways(fp, states, actions, n - 1);
      NextKeepsSlots(fp, states[n - 1], actions[n - 1], states[n]);
    }
  }

  /** The slots written by step n of a run: none but the two of the pair, and recovery slots. */
  ghost predicate WritesWithin(slots: Slots, slots': Slots, allowed: set<Slot>) {
    forall i: Slot | i !in allowed :: slots'[i] == slots[i]
  }

  /**
    Which slots a step may write, whatever is lost: nothing for RotatePSK and RetireOldPSK,
    the other of the pair for Phase A. Phase C either writes nothing, or moves PRIMARY to the
    other of the pair, blanks the old one, and touches at most one slot of 2..7.
   */
  lemma StepWrites(fp: Psk -> Fp, s: Fleet, a: Action, s': Fleet)
    requires SlotInv(fp, s) && Next(fp, s, a, s')
    ensures var p := PrimaryOf(s.radio.slots);
      var other: Slot := if p == 0 then 1 else 0;
      && (a.Rotate? || a.Retire? ==> s'.radio.slots == s.radio.slots)
      && (a.PhaseA? ==> WritesWithin(s.radio.slots, s'.radio.slots, {other}) && PrimaryAt(s'.radio.slots, p))
      && (a.PhaseC? && s'.radio.slots != s.radio.slots ==>
            && PrimaryAt(s'.radio.slots, other)
            && s'.radio.slots[p] == BLANK
            && a.job.staging == other
            && exists r: Slot :: r >= FIRST_SLOT && WritesWithin(s.radio.slots, s'.radio.slots, {p, other, r}))
  {
    if a.PhaseA? {
      PhaseAWritesOther(fp, s, a.id, a.answers, a.stage, a.pinOk, a.phaseOk);
    } else if a.PhaseC? && s'.radio.slots != s.radio.slots {
      PhaseCWrites(fp, s, a, s');
    }
  }

  lemma PhaseCWrites(fp: Psk -> Fp, s: Fleet, a: Action, s': Fleet)
    requires SlotInv(fp, s) && Next(fp, s, a, s') && a.PhaseC? && s'.radio.slots != s.radio.slots
    ensures var p := PrimaryOf(s.radio.slots);
      && Some(a.job.staging) == OtherOf(p)
      && PrimaryAt(s'.radio.slots, a.job.staging)
      && s'.radio.slots[p] == BLANK
      && exists r: Slot :: r >= FIRST_SLOT && WritesWithin(s.radio.slots, s'.radio.slots, {p, a.job.staging, r})
  {
    var p, row := PrimaryOf(s.radio.slots), s.rows[a.job.id];
    var found := FindOld(s.radio.slots, a.answers, fp, row.newFp, 0);
    var slot: Option<Slot> :| PromoteStep(fp, s, s', a.job, found.value, slot, a.at, a.addOk, a.link, a.retireOk,
                                          a.clearOk);
    PhaseCSlotsDiffer(fp, s, s', a.job, a.answers, slot, a.at, a.addOk, a.link, a.retireOk, a.clearOk);
    PromotedSlots(s.radio.slots, a.job.staging, p, row.psk, slot, s.radio.slots[p].psk);
    var r: Slot := if slot.Some? then slot.value else FIRST_SLOT;
    assert WritesWithin(s.radio.slots, s'.radio.slots, {p, a.job.staging, r});
  }

  // ---------------------------------------------------------------------------
  // What the handlers do, not only what they keep
  // ---------------------------------------------------------------------------

  /** RotatePSK adds a pending row for an accepted key and does nothing else to the state. */
  lemma RotateStores(fp: Psk -> Fp, s: Fleet, id: nat, newPsk: Psk, answers: Slot -> Delivery, listOk: bool,
                     stored: bool, s': Fleet)
    requires Next(fp, s, Rotate(id, newPsk, answers, listOk, stored), s')
    ensures id in s'.rows <==>
            && stored && |newPsk| in {0, 16, 32}
            && (newPsk != [] && answers(0).Acked? && s.radio.slots[0].psk != [] ==>
                  WireHash(s.radio.slots[0].psk) != WireHash(newPsk))
            && (newPsk != [] && answers(1).Acked? && s.radio.slots[1].psk != [] ==>
                  WireHash(s.radio.slots[1].psk) != WireHash(newPsk))
            && (newPsk != [] && listOk ==> forall i: Slot | i in s.table :: s.table[i].hash != WireHash(newPsk))
    ensures id in s'.rows ==> s'.rows == s.rows[id := Rotating(fp(newPsk), newPsk, None, Pending)]
    ensures id !in s'.rows ==> s'.rows == s.rows
  {
    hide WireHash;
    if newPsk != [] {
      CollidesIff(s, newPsk, answers, listOk);
    }
    hide Collides;
  }

  lemma CollidesIff(s: Fleet, psk: Psk, answers: Slot -> Delivery, listOk: bool)
    requires psk != []
    ensures Collides(s, psk, answers, listOk) <==>
            || (answers(0).Acked? && s.radio.slots[0].psk != [] && WireHash(s.radio.slots[0].psk) == WireHash(psk))
            || (answers(1).Acked? && s.radio.slots[1].psk != [] && WireHash(s.radio.slots[1].psk) == WireHash(psk))
            || (listOk && exists i: Slot :: i in s.table && s.table[i].hash == WireHash(psk))
  {
    hide WireHash;
  }

  /** The gate, the phase and the pinned slot: only with all of them a Phase C job is queued, and then it is. */
  lemma RetireQueuesIff(fp: Psk -> Fp, s: Fleet, id: nat, gate: bool, s': Fleet, j: PromoteJob)
    requires Next(fp, s, Retire(id, gate), s')
    ensures j in s'.promotes <==>
            || j in s.promotes
            || (gate && j.id == id && id in s.rows && s.rows[id].phase == StagingAdded
                && s.rows[id].staging == Some(j.staging))
    ensures s'.radio == s.radio && s'.table == s.table && s'.rows == s.rows
    ensures s'.demoted == s.demoted && s'.now == s.now
  {
  }

  lemma OthersQueueNothing(fp: Psk -> Fp, s: Fleet, a: Action, s': Fleet)
    requires Next(fp, s, a, s') && !a.Retire?
    ensures s'.promotes == s.promotes
  {
    hide AfterReads, LastPrimary, FindOld, Cached, AppliedAll;
  }

  /** Step i is a RetireOldPSK through an open gate that queued j from a staged row. */
  ghost predicate QueuedAt(states: seq<Fleet>, actions: seq<Action>, j: PromoteJob, i: nat)
    requires i < |actions| < |states|
  {
    && actions[i].Retire? && actions[i].id == j.id && actions[i].gate
    && j.id in states[i].rows && states[i].rows[j.id].phase == StagingAdded
    && states[i].rows[j.id].staging == Some(j.staging)
  }

  /** In every run, a queued Phase C went through an open gate. */
  lemma {:induction false} JobsPassedTheGate(fp: Psk -> Fp, states: seq<Fleet>, actions: seq<Action>, n: nat,
                                             j: PromoteJob)
    requires Run(fp, states, actions) && n <= |actions| && j in states[n].promotes
    ensures exists i: nat :: i < n && QueuedAt(states, actions, j, i)
  {
    assert n > 0;
    var m: nat := n - 1;
    assert Next(fp, states[m], actions[m], states[n]);
    hide Next;
    if j in states[m].promotes {
      JobsPassedTheGate(fp, states, actions, m, j);
    } else {
      if actions[m].Retire? {
        RetireQueuesIff(fp, states[m], actions[m].id, actions[m].gate, states[n], j);
      } else {
        OthersQueueNothing(fp, states[m], actions[m], states[n]);
      }
      assert QueuedAt(states, actions, j, m);
    }
  }

  /**
    What Phase A does when the PRIMARY answers: it pins the other slot of the pair unless one is
    pinned, stages the key there unless that is done, and notes it when staging is acknowledged.
    When the PRIMARY does not answer it does nothing.
   */
  lemma PhaseAStages(fp: Psk -> Fp, s: Fleet, id: nat, answers: Slot -> Delivery, stage: Delivery, pinOk: bool,
                     phaseOk: bool, s': Fleet)
    requires SlotInv(fp, s) && Next(fp, s, PhaseA(id, answers, stage, pinOk, phaseOk), s')
    requires id in s.rows && s.rows[id].psk != []
    ensures var p, row := PrimaryOf(s.radio.slots), s.rows[id];
      var target: Slot := if row.staging.Some? then row.staging.value else if p == 0 then 1 else 0;
      && id in s'.rows
      && (!answers(p).Acked? ==> s'.rows == s.rows && s'.radio.slots == s.radio.slots)
      && (answers(p).Acked? ==>
            && s'.rows[id].staging == (if row.staging.Some? || pinOk then Some(target) else None)
            && s'.rows[id].phase ==
               (if row.phase == Pending && stage.Acked? && phaseOk then StagingAdded else row.phase)
            && s'.radio.slots ==
               if row.phase == Pending && !stage.Lost? then s.radio.slots[target := Channel(Secondary, row.psk)]
               else s.radio.slots)
  {
    LastPrimaryIs(s.radio.slots, answers, 8);
    AfterReadsKeepSlots(s.radio, answers, 8);
    PhaseAOpen(s, answers);
    hide AfterReads, LastPrimary, RowsFit, JobsFit;
  }

  /** If the PRIMARY answered, its read closed any open transaction. */
  lemma PhaseAOpen(s: Fleet, answers: Slot -> Delivery)
    ensures answers(PrimaryOf(s.radio.slots)).Acked? ==> AfterReads(s.radio, answers, 8).open == None
  {
    AfterReadsKeepSlots(s.radio, answers, 8);
    hide AfterReads;
    assert answers(PrimaryOf(s.radio.slots)).Acked? ==> !answers(PrimaryOf(s.radio.slots)).Lost?;
  }

  /** How many edits an attempt of Phase C sends: a recovery edit only for a key that was stored. */
  function EditCount(s: Fleet, addOk: bool): nat {
    if addOk && Current(s).psk != [] then 3 else 2
  }

  /**
    When Phase C marks its rotation retired, and when it erases the key: after the shortcut the mark
    alone decides, otherwise every message up to the commit must be acknowledged.
   */
  lemma RetiresIff(fp: Psk -> Fp, s: Fleet, a: Action, s': Fleet)
    requires SlotInv(fp, s) && Next(fp, s, a, s') && a.PhaseC? && IsOpen(s.rows[a.job.id])
    ensures var row, row' := s.rows[a.job.id], s'.rows[a.job.id];
      var attempts := a.answers(PrimaryOf(s.radio.slots)).Acked? && fp(Current(s).psk) != row.newFp;
      var acked := row.psk != [] && forall i: nat | i <= EditCount(s, a.addOk) + 1 :: a.link(i).Acked?;
      && (row'.phase == Retired <==> a.retireOk && (attempts ==> acked))
      && row'.psk == (if attempts && acked && a.retireOk && a.clearOk then [] else row.psk)
      && row'.newFp == row.newFp && row'.staging == row.staging
  {
    var row := s.rows[a.job.id];
    FindOldIs(s.radio.slots, a.answers, fp, row.newFp, 0);
    var found := FindOld(s.radio.slots, a.answers, fp, row.newFp, 0);
    hide FindOld, SlotInv;
    if found.Some? && row.psk != [] {
      var slot: Option<Slot> :|
        PromoteStep(fp, s, s', a.job, found.value, slot, a.at, a.addOk, a.link, a.retireOk, a.clearOk);
      hide Next;
      AttemptMarks(fp, s, s', a, slot);
    }
  }

  lemma AttemptMarks(fp: Psk -> Fp, s: Fleet, s': Fleet, a: Action, slot: Option<Slot>)
    requires a.PhaseC? && a.job.id in s.rows && IsOpen(s.rows[a.job.id])
    requires PromoteStep(fp, s, s', a.job, PrimaryOf(s.radio.slots), slot, a.at, a.addOk, a.link, a.retireOk, a.clearOk)
    ensures var row := s.rows[a.job.id];
      var acked := forall i: nat | i <= EditCount(s, a.addOk) + 1 :: a.link(i).Acked?;
      && a.job.id in s'.rows
      && s'.rows[a.job.id] ==
         if !(acked && a.retireOk) then row
         else if a.clearOk then row.(phase := Retired, psk := []) else row.(phase := Retired)
  {
    hide AppliedAll, AddStep;
    var n := |PromoteEdits(a.job.staging, PrimaryOf(s.radio.slots), s.rows[a.job.id].psk, slot, Current(s).psk)|;
    assert n == EditCount(s, a.addOk);
    AllAckedIff(a.link, n);
  }

  lemma AllAckedIff(link: nat -> Delivery, n: nat)
    ensures Committed(link, n) && link(n + 1).Acked? <==> forall i: nat | i <= n + 1 :: link(i).Acked?
  {
  }

  // ---------------------------------------------------------------------------
  // Retired without a promote
  // ---------------------------------------------------------------------------

  /**
    Phase C treats "no old PRIMARY answered" as "already promoted". A run of it marks an open
    rotation retired while the radio is still on another key exactly when the read of
    the PRIMARY slot failed and the radio was not on the new key.
   */
  lemma RetiredWithoutPromoteIff(fp: Psk -> Fp, s: Fleet, a: Action, s': Fleet)
    requires SlotInv(fp, s) && Next(fp, s, a, s') && a.PhaseC? && IsOpen(s.rows[a.job.id])
    ensures (s'.rows[a.job.id].phase == Retired && fp(Current(s').psk) != s.rows[a.job.id].newFp)
       <==> (a.retireOk && !a.answers(PrimaryOf(s.radio.slots)).Acked? && fp(Current(s).psk) != s.rows[a.job.id].newFp)
  {
    hide AppliedAll, FindOld, AddStep;
    var row := s.rows[a.job.id];
    FindOldIs(s.radio.slots, a.answers, fp, row.newFp, 0);
    var found := FindOld(s.radio.slots, a.answers, fp, row.newFp, 0);
    assert RowFits(fp, row, PrimaryOf(s.radio.slots), fp(Current(s).psk));
    if found.Some? && row.psk != [] {
      var slot: Option<Slot> :| PromoteStep(fp, s, s', a.job, found.value, slot, a.at, a.addOk, a.link, a.retireOk,
                                            a.clearOk);
      PhaseCSlotsDiffer(fp, s, s', a.job, a.answers, slot, a.at, a.addOk, a.link, a.retireOk, a.clearOk);
      var p := PrimaryOf(s.radio.slots);
      if Committed(a.link, |PromoteEdits(a.job.staging, p, row.psk, slot, Current(s).psk)|) {
        PromotedSlots(s.radio.slots, a.job.staging, p, row.psk, slot, Current(s).psk);
        PrimaryUnique(s'.radio.slots, a.job.staging);
      }
    }
  }
}
