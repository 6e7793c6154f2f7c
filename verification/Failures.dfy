/**
  Complete runs, from a fresh installation to a retired rotation, in which a failed read or a
  failed insert defeats what the rotation is for. They show that the conditions of
  RetiredWithoutPromoteIff, CacheCompleteIff and HookStepIff are met by reachable states.
 */
module Failures {
  import opened Prelude
  import opened Keys
  import opened RecoveryCache
  import opened PiRadio
  import opened Rotation
  import opened Decodable
  import opened DispatcherHook

  const OLD_KEY: Psk := [1, 0, 0, 0, 0, 0, 0, 0, 0, 0, 0, 0, 0, 0, 0, 0]
  const NEW_KEY: Psk := [2, 0, 0, 0, 0, 0, 0, 0, 0, 0, 0, 0, 0, 0, 0, 0]

  /** The radio before and after Phase A, and after the promote. */
  const FRESH: Slots := [Channel(Primary, OLD_KEY), BLANK, BLANK, BLANK, BLANK, BLANK, BLANK, BLANK]
  const STAGED: Slots := [Channel(Primary, OLD_KEY), Channel(Secondary, NEW_KEY), BLANK, BLANK, BLANK, BLANK, BLANK,
                          BLANK]
  const PROMOTED: Slots := [BLANK, Channel(Primary, NEW_KEY), BLANK, BLANK, BLANK, BLANK, BLANK, BLANK]

  const JOB := PromoteJob(0, 1)

  function Answered(): Slot -> Delivery {
    i => Acked
  }

  function AllAcked(): nat -> Delivery {
    i => Acked
  }

  /** Every read answers, except that of the PRIMARY slot. */
  function PrimarySilent(): Slot -> Delivery {
    i => if i == 0 then Lost else Acked
  }

  ghost function NewRow(fp: Psk -> Fp, staging: Option<Slot>, phase: PiPhase): Rotating {
    Rotating(fp(NEW_KEY), NEW_KEY, staging, phase)
  }

  ghost function At(slots: Slots, rows: map<nat, Rotating>, promotes: set<PromoteJob>, demoted: seq<Psk>,
                    now: int): Fleet {
    Fleet(Radio(slots, None), map[], rows, promotes, demoted, now)
  }

  /** The states up to the point where Phase C is queued. */
  ghost function Queued(fp: Psk -> Fp): seq<Fleet> {
    [At(FRESH, map[], {}, [], 0),
     At(FRESH, map[0 := NewRow(fp, None, Pending)], {}, [], 0),
     At(STAGED, map[0 := NewRow(fp, Some(1), StagingAdded)], {}, [], 0),
     At(STAGED, map[0 := NewRow(fp, Some(1), StagingAdded)], {JOB}, [], 0)]
  }

  function Queueing(): seq<Action> {
    [Rotate(0, NEW_KEY, Answered(), true, true), PhaseA(0, Answered(), Acked, true, true), Retire(0, true)]
  }

  lemma KeysDifferInHash()
    ensures WireHash(OLD_KEY) != WireHash(NEW_KEY)
  {
    assert NEW_KEY == OLD_KEY[0 := 2];
    HashSeesOneByte(OLD_KEY, 0, 2);
  }

  lemma FreshIsInit(fp: Psk -> Fp)
    ensures Init(Queued(fp)[0])
    ensures PrimaryAt(FRESH, 0) && PrimaryOf(FRESH) == 0
    ensures PrimaryAt(STAGED, 0) && PrimaryOf(STAGED) == 0
  {
    assert FRESH[0].role == Primary && forall i: Slot | i != 0 :: FRESH[i] == BLANK;
  }

  lemma RotateHappens(fp: Psk -> Fp)
    ensures Next(fp, Queued(fp)[0], Queueing()[0], Queued(fp)[1])
  {
    hide XorAll, Hash;
    KeysDifferInHash();
    var s := Queued(fp)[0];
    assert !Collides(s, NEW_KEY, Answered(), true) by {
      assert FRESH[0].psk == OLD_KEY && FRESH[1].psk == [];
    }
    assert map[][0 := NewRow(fp, None, Pending)] == map[0 := NewRow(fp, None, Pending)];
  }

  lemma PhaseAHappens(fp: Psk -> Fp)
    ensures Next(fp, Queued(fp)[1], Queueing()[1], Queued(fp)[2])
  {
    hide AfterReads, LastPrimary;
    var s := Queued(fp)[1];
    FreshIsInit(fp);
    LastPrimaryIs(FRESH, Answered(), 8);
    AfterReadsKeepSlots(s.radio, Answered(), 8);
    assert FRESH[1 := Channel(Secondary, NEW_KEY)] == STAGED;
  }

  lemma QueuedReached(fp: Psk -> Fp)
    ensures Rotation.Run(fp, Queued(fp), Queueing())
  {
    hide Next;
    FreshIsInit(fp);
    RotateHappens(fp);
    PhaseAHappens(fp);
    RetireHappens(fp);
    forall i | 0 <= i < 3
      ensures Next(fp, Queued(fp)[i], Queueing()[i], Queued(fp)[i + 1])
    {
      assert i == 0 || i == 1 || i == 2;
    }
  }

  lemma RetireHappens(fp: Psk -> Fp)
    ensures Next(fp, Queued(fp)[2], Queueing()[2], Queued(fp)[3])
  {
    assert {} + {JOB} == {JOB};
  }

  lemma RunGrows(fp: Psk -> Fp, states: seq<Fleet>, actions: seq<Action>, a: Action, s: Fleet)
    requires Rotation.Run(fp, states, actions) && Next(fp, states[|actions|], a, s)
    ensures Rotation.Run(fp, states + [s], actions + [a])
  {
    hide Next, Init;
  }

  /**
    Phase C's read of the PRIMARY slot is lost: the rotation ends up retired although the
    radio never left the old key and no recovery entry exists.
   */
  lemma RetiredOnOldKey(fp: Psk -> Fp) returns (states: seq<Fleet>, actions: seq<Action>)
    requires fp(OLD_KEY) != fp(NEW_KEY)
    ensures Rotation.Run(fp, states, actions)
    ensures var s := states[|actions|];
      && 0 in s.rows && s.rows[0].phase == Retired
      && Current(s) == Channel(Primary, OLD_KEY)
      && s.table == map[]
  {
    QueuedReached(fp);
    FreshIsInit(fp);
    var s := Queued(fp)[3];
    FindOldIs(STAGED, PrimarySilent(), fp, fp(NEW_KEY), 0);
    var a := PhaseC(JOB, PrimarySilent(), 1, true, AllAcked(), true, true);
    var s' := s.(rows := s.rows[0 := MarkRetired(s.rows[0], true, false)]);
    assert Next(fp, s, a, s') by {
      hide FindOld;
    }
    RunGrows(fp, Queued(fp), Queueing(), a, s');
    states, actions := Queued(fp) + [s'], Queueing() + [a];
  }

  /**
    Phase C's insert into the recovery table fails: the rotation ends up retired on the new
    key, and no slot of the radio decodes the old one.
   */
  lemma OldKeyForgotten(fp: Psk -> Fp) returns (states: seq<Fleet>, actions: seq<Action>)
    requires fp(OLD_KEY) != fp(NEW_KEY)
    ensures Rotation.Run(fp, states, actions)
    ensures var s := states[|actions|];
      && 0 in s.rows && s.rows[0].phase == Retired
      && Current(s) == Channel(Primary, NEW_KEY)
      && s.demoted == [OLD_KEY]
      && DecodeSlot(s.radio.slots, WireHash(OLD_KEY), 0) == None
  {
    QueuedReached(fp);
    FreshIsInit(fp);
    var s := Queued(fp)[3];
    var a := PhaseC(JOB, Answered(), 1, false, AllAcked(), true, true);
    var s' := Fleet(Radio(PROMOTED, None), map[], s.rows[0 := MarkRetired(s.rows[0], true, true)], {JOB}, [OLD_KEY], 1);
    PromoteHappens(fp, s, s');
    FindOldIs(STAGED, Answered(), fp, fp(NEW_KEY), 0);
    assert Next(fp, s, a, s') by {
      hide FindOld, PromoteStep;
    }
    RunGrows(fp, Queued(fp), Queueing(), a, s');
    states, actions := Queued(fp) + [s'], Queueing() + [a];
    NothingDecodes();
  }

  lemma PromoteHappens(fp: Psk -> Fp, s: Fleet, s': Fleet)
    requires s == Queued(fp)[3]
    requires s' == Fleet(Radio(PROMOTED, None), map[], s.rows[0 := MarkRetired(s.rows[0], true, true)], {JOB},
                         [OLD_KEY], 1)
    ensures PromoteStep(fp, s, s', JOB, 0, None, 1, false, AllAcked(), true, true)
  {
    hide AppliedAll;
    PromotedSlots(STAGED, 1, 0, NEW_KEY, None, OLD_KEY);
    var slots := Promoted(STAGED, 1, 0, NEW_KEY, None, OLD_KEY);
    assert slots[1] == Channel(Primary, NEW_KEY);
    assert forall i: Slot | i >= FIRST_SLOT :: slots[i] == STAGED[i] == BLANK;
    assert slots == PROMOTED;
  }

  lemma NothingDecodes()
    ensures DecodeSlot(PROMOTED, WireHash(OLD_KEY), 0) == None
  {
    hide WireHash;
    KeysDifferInHash();
    NothingFrom(2);
    assert DecodeSlot(PROMOTED, WireHash(OLD_KEY), 1) == None;
  }

  lemma {:induction false} NothingFrom(n: nat)
    requires 2 <= n <= 8
    ensures DecodeSlot(PROMOTED, WireHash(OLD_KEY), n) == None
    decreases 8 - n
  {
    if n < 8 {
      NothingFrom(n + 1);
      assert PROMOTED[n] == BLANK;
    }
  }

  // ---------------------------------------------------------------------------
  // Stored, not committed, then taken for done
  // ---------------------------------------------------------------------------

  /** Every message is acknowledged, except that the commit is lost. */
  function CommitLost(): nat -> Delivery {
    i => if i == 4 then Lost else Acked
  }

  ghost function OldRow(fp: Psk -> Fp): RecoveryCache.Row {
    RecoveryCache.Row(fp(OLD_KEY), OLD_KEY, WireHash(OLD_KEY), 1, Some(0))
  }

  lemma StoredNotCommitted(fp: Psk -> Fp, s: Fleet, s': Fleet)
    requires s == Queued(fp)[3] && s' == s.(table := map[2 := OldRow(fp)], now := 1)
    ensures PromoteStep(fp, s, s', JOB, 0, Some(2), 1, true, CommitLost(), true, true)
  {
    hide WireHash;
    var edits := PromoteEdits(1, 0, NEW_KEY, Some(2), OLD_KEY);
    assert |edits| == 3 && !Committed(CommitLost(), 3);
    assert !HasFp(s.table, fp(OLD_KEY)) && LowestFree(s.table, 2);
    assert s.table[2 := OldRow(fp)] == map[2 := OldRow(fp)];
  }

  /**
    Phase C stores the old key and loses its commit; when it runs again, its read of the
    PRIMARY slot is lost. The rotation ends up retired on the old key, and the recovery table
    claims a slot for that key which the radio does not show.
   */
  lemma RetiredInFlight(fp: Psk -> Fp) returns (states: seq<Fleet>, actions: seq<Action>)
    requires fp(OLD_KEY) != fp(NEW_KEY)
    ensures Rotation.Run(fp, states, actions)
    ensures var s := states[|actions|];
      && 0 in s.rows && s.rows[0].phase == Retired
      && Current(s) == Channel(Primary, OLD_KEY)
      && 2 in s.table && s.table[2].psk == OLD_KEY && s.radio.slots[2] == BLANK
      && !CacheComplete(fp, s)
  {
    QueuedReached(fp);
    FreshIsInit(fp);
    var s := Queued(fp)[3];
    var a1 := PhaseC(JOB, Answered(), 1, true, CommitLost(), true, true);
    var s1 := s.(table := map[2 := OldRow(fp)], now := 1);
    StoredNotCommitted(fp, s, s1);
    FindOldIs(STAGED, Answered(), fp, fp(NEW_KEY), 0);
    assert Next(fp, s, a1, s1) by {
      hide FindOld, PromoteStep;
    }
    RunGrows(fp, Queued(fp), Queueing(), a1, s1);
    var a2 := PhaseC(JOB, PrimarySilent(), 2, true, AllAcked(), true, true);
    var s2 := s1.(rows := s1.rows[0 := MarkRetired(s1.rows[0], true, false)]);
    FindOldIs(STAGED, PrimarySilent(), fp, fp(NEW_KEY), 0);
    assert Next(fp, s1, a2, s2) by {
      hide FindOld, PromoteStep;
    }
    RunGrows(fp, Queued(fp) + [s1], Queueing() + [a1], a2, s2);
    states, actions := Queued(fp) + [s1] + [s2], Queueing() + [a1] + [a2];
    assert !SlotAgrees(s2.table, s2.radio.slots, 2);
  }

  // ---------------------------------------------------------------------------
  // Promoted, but the dispatcher never learns of it
  // ---------------------------------------------------------------------------

  const CACHED: Slots :=
    [BLANK, Channel(Primary, NEW_KEY), Channel(Secondary, OLD_KEY), BLANK, BLANK, BLANK, BLANK, BLANK]

  const KEYS: set<Psk> := {[], OLD_KEY, NEW_KEY}

  /** Every message is acknowledged, except that the reply to the commit is lost. */
  function CommitUnanswered(): nat -> Delivery {
    i => if i == 4 then Unacked else Acked
  }

  ghost function Promoted1(fp: Psk -> Fp): Fleet {
    Fleet(Radio(CACHED, None), map[2 := OldRow(fp)], Queued(fp)[3].rows, {JOB}, [OLD_KEY], 1)
  }

  ghost function Retired2(fp: Psk -> Fp): Fleet {
    var s := Promoted1(fp);
    s.(rows := s.rows[0 := MarkRetired(s.rows[0], true, false)])
  }

  function Attempt1(): Action {
    PhaseC(JOB, Answered(), 1, true, CommitUnanswered(), true, true)
  }

  function Attempt2(): Action {
    PhaseC(JOB, Answered(), 2, true, AllAcked(), true, true)
  }

  ghost function HookStates(fp: Psk -> Fp): seq<Hooked> {
    var q := Queued(fp);
    [Hooked(q[0], map[]), Hooked(q[1], map[]), Hooked(q[2], map[]), Hooked(q[3], map[]),
     Hooked(Promoted1(fp), map[]), Hooked(Retired2(fp), map[])]
  }

  function HookEvents(): seq<Event> {
    [Do(Queueing()[0], true), Do(Queueing()[1], true), Do(Queueing()[2], true),
     Do(Attempt1(), true), Do(Attempt2(), true)]
  }

  lemma Attempt1Happens(fp: Psk -> Fp)
    requires fp(OLD_KEY) != fp(NEW_KEY)
    ensures Next(fp, Queued(fp)[3], Attempt1(), Promoted1(fp))
    ensures !PassesMark(fp, Queued(fp)[3], Attempt1(), Promoted1(fp))
  {
    FreshIsInit(fp);
    var s, s' := Queued(fp)[3], Promoted1(fp);
    FindOldIs(STAGED, Answered(), fp, fp(NEW_KEY), 0);
    assert PromoteStep(fp, s, s', JOB, 0, Some(2), 1, true, CommitUnanswered(), true, true) by {
      hide FindOld, WireHash, AppliedAll;
      Attempt1Slots();
      assert !HasFp(s.table, fp(OLD_KEY)) && LowestFree(s.table, 2);
      assert s.table[2 := OldRow(fp)] == map[2 := OldRow(fp)];
    }
    hide FindOld, PromoteStep;
  }

  lemma Attempt1Slots()
    ensures Promoted(STAGED, 1, 0, NEW_KEY, Some(2), OLD_KEY) == CACHED
    ensures |PromoteEdits(1, 0, NEW_KEY, Some(2), OLD_KEY)| == 3 && Committed(CommitUnanswered(), 3)
  {
    hide AppliedAll;
    PromotedSlots(STAGED, 1, 0, NEW_KEY, Some(2), OLD_KEY);
    var slots := Promoted(STAGED, 1, 0, NEW_KEY, Some(2), OLD_KEY);
    assert forall i: Slot | i > 2 :: slots[i] == STAGED[i] == BLANK;
    assert slots == CACHED;
  }

  lemma Attempt2Happens(fp: Psk -> Fp)
    ensures Next(fp, Promoted1(fp), Attempt2(), Retired2(fp))
    ensures !PassesMark(fp, Promoted1(fp), Attempt2(), Retired2(fp))
  {
    assert PrimaryAt(CACHED, 1);
    PrimaryUnique(CACHED, 1);
    FindOldIs(CACHED, Answered(), fp, fp(NEW_KEY), 0);
    hide FindOld, PromoteStep;
  }

  lemma HookStepHappens(fp: Psk -> Fp, i: nat)
    requires i < 5 && Fingerprints(fp, KEYS)
    ensures HookNext(fp, HookStates(fp)[i], HookEvents()[i], HookStates(fp)[i + 1])
    ensures KnownStep(fp, KEYS, HookStates(fp)[i], HookEvents()[i])
  {
    assert OLD_KEY[0] != NEW_KEY[0];
    assert OLD_KEY in KEYS && NEW_KEY in KEYS && fp(OLD_KEY) != fp(NEW_KEY);
    hide Next, WireHash, NamesRows, Admits, PassesMark, IsNewKey, Fingerprints;
    if i == 0 {
      RotateHappens(fp);
      NewKeyIsNew(fp);
    } else if i == 1 {
      PhaseAHappens(fp);
    } else if i == 2 {
      RetireHappens(fp);
    } else if i == 3 {
      Attempt1Happens(fp);
    } else {
      Attempt2Happens(fp);
    }
    if i < 3 {
      NoMark(fp, HookStates(fp)[i].fleet, HookEvents()[i].action, HookStates(fp)[i + 1].fleet);
    }
  }

  lemma NoMark(fp: Psk -> Fp, s: Fleet, a: Action, s': Fleet)
    ensures !a.PhaseC? ==> !PassesMark(fp, s, a, s')
  {
  }

  lemma NewKeyIsNew(fp: Psk -> Fp)
    ensures IsNewKey(Queued(fp)[0], NEW_KEY)
  {
    KeysDifferInHash();
    hide WireHash;
    var s := Queued(fp)[0];
    forall x | x in SlotKeys(s.radio.slots)
      ensures x == OLD_KEY
    {
      var i: Slot :| s.radio.slots[i].psk != [] && s.radio.slots[i].psk == x;
      assert i == 0;
    }
  }

  /**
    Phase C stores the old key and promotes, but the reply to its commit is lost; when it runs
    again it finds the promote done and marks the rotation retired. Nothing else goes wrong, the
    radio decodes the old key, and the dispatcher's table never learns its hash.
   */
  lemma HookNeverLearns(fp: Psk -> Fp)
    requires Fingerprints(fp, KEYS)
    ensures BenignHookRun(fp, KEYS, HookStates(fp), HookEvents())
    ensures var h := HookStates(fp)[5];
      && h.fleet.rows[0].phase == Retired
      && h.fleet.demoted == [OLD_KEY] && AmongLastSix(FpsOf(fp, h.fleet.demoted), fp(OLD_KEY))
      && OnRadio(fp, h.fleet.radio.slots, fp(OLD_KEY))
      && h.hook == map[]
      && !NamesRows(h.fleet.table, h.hook)
  {
    hide HookNext, KnownStep, WireHash, Init;
    FreshIsInit(fp);
    forall i: nat | i < 5
      ensures HookNext(fp, HookStates(fp)[i], HookEvents()[i], HookStates(fp)[i + 1])
      ensures KnownStep(fp, KEYS, HookStates(fp)[i], HookEvents()[i])
    {
      HookStepHappens(fp, i);
    }
    var s := Retired2(fp);
    assert s.radio.slots[2] == Channel(Secondary, OLD_KEY);
    LaterAppend([], fp(OLD_KEY), fp(OLD_KEY));
    assert FpsOf(fp, s.demoted) == [] + [fp(OLD_KEY)];
    assert s.table[2].hash !in HookStates(fp)[5].hook;
  }
}
