/**
  The controller's radio: eight channel slots, changed by admin messages that may be
  lost, or processed while their reply is lost (internal/fleetsec/channels.go:309-518).
 */
module PiRadio {
  import opened Prelude
  import opened Keys
  import opened RecoveryCache

  datatype Role = Primary | Secondary | Disabled

  datatype Channel = Channel(role: Role, psk: Psk)

  const BLANK := Channel(Disabled, [])

  /** The channel table of a radio. */
  type Slots = s: seq<Channel> | |s| == 8
    witness seq(8, i => BLANK)

  datatype Edit = Edit(slot: Slot, role: Role, psk: Psk)

  datatype Message = Get(slot: Slot) | Begin | Set(edit: Edit) | Commit

  /** open holds the edits of a begin/commit transaction that is not committed yet. */
  datatype Radio = Radio(slots: Slots, open: Option<seq<Edit>>)

  /** What happens to one admin message and its reply. */
  datatype Delivery = Acked | Unacked | Lost

  function Demoted(slots: Slots): Slots {
    seq(8, i requires 0 <= i < 8 => if slots[i].role.Primary? then slots[i].(role := Secondary) else slots[i])
  }

  /** SetChannel: making a slot PRIMARY demotes the previous PRIMARY to SECONDARY. */
  function Applied(slots: Slots, e: Edit): Slots {
    (if e.role.Primary? then Demoted(slots) else slots)[e.slot := Channel(e.role, e.psk)]
  }

  function AppliedAll(slots: Slots, edits: seq<Edit>): Slots
    decreases |edits|
  {
    if edits == [] then slots else AppliedAll(Applied(slots, edits[0]), edits[1..])
  }

  /**
    The firmware's reaction to a message it receives. A read inside a transaction
    discards the pending edits (channels.go:388-391). Begin inside an open
    transaction keeps them, the reading that promises least.
   */
  function Received(r: Radio, m: Message): Radio {
    match m
    case Get(_) => r.(open := None)
    case Begin => r.(open := Some(if r.open.Some? then r.open.value else []))
    case Set(e) =>
      if r.open.Some? then r.(open := Some(r.open.value + [e])) else r.(slots := Applied(r.slots, e))
    case Commit =>
      if r.open.Some? then Radio(AppliedAll(r.slots, r.open.value), None) else r
  }

  function Delivered(r: Radio, m: Message, d: Delivery): Radio {
    if d.Lost? then r else Received(r, m)
  }

  // ---------------------------------------------------------------------------
  // One PRIMARY, in slot 0 or 1
  // ---------------------------------------------------------------------------

  ghost predicate PrimaryAt(slots: Slots, p: Slot) {
    && slots[p].role == Primary
    && forall i: Slot | i != p :: slots[i].role != Primary
  }

  ghost predicate OnePrimary(slots: Slots) {
    PrimaryAt(slots, 0) || PrimaryAt(slots, 1)
  }

  function PrimaryOf(slots: Slots): (p: Slot)
    ensures OnePrimary(slots) ==> PrimaryAt(slots, p)
    ensures p == 0 || p == 1
  {
    if slots[0].role.Primary? then 0 else 1
  }

  lemma PrimaryUnique(slots: Slots, p: Slot)
    requires PrimaryAt(slots, p) && (p == 0 || p == 1)
    ensures OnePrimary(slots) && PrimaryOf(slots) == p
  {
  }

  /** The slot of the pair 0, 1 that p is not. */
  function OtherOf(p: Slot): Option<Slot> {
    if p == 0 then Some(1) else if p == 1 then Some(0) else None
  }

  // ---------------------------------------------------------------------------
  // Reading the slots
  // ---------------------------------------------------------------------------

  /** probeSlotsLocal keeps the last PRIMARY among the slots below n that answered. */
  function LastPrimary(slots: Slots, answers: Slot -> Delivery, n: nat): Option<Slot>
    requires n <= 8
  {
    if n == 0 then None
    else if answers(n - 1).Acked? && slots[n - 1].role.Primary? then Some(n - 1)
    else LastPrimary(slots, answers, n - 1)
  }

  lemma {:induction false} LastPrimaryIs(slots: Slots, answers: Slot -> Delivery, n: nat)
    requires n <= 8 && OnePrimary(slots)
    ensures LastPrimary(slots, answers, n) ==
            if PrimaryOf(slots) < n && answers(PrimaryOf(slots)).Acked? then Some(PrimaryOf(slots)) else None
  {
    if n > 0 {
      LastPrimaryIs(slots, answers, n - 1);
    }
  }

  /** The radio after reads of slots 0..n-1: any read that arrives closes an open transaction. */
  function AfterReads(r: Radio, answers: Slot -> Delivery, n: nat): Radio
    requires n <= 8
  {
    if n == 0 then r else Delivered(AfterReads(r, answers, n - 1), Get(n - 1), answers(n - 1))
  }

  lemma {:induction false} AfterReadsKeepSlots(r: Radio, answers: Slot -> Delivery, n: nat)
    requires n <= 8
    ensures AfterReads(r, answers, n).slots == r.slots
    ensures (exists i: Slot :: i < n && !answers(i).Lost?) ==> AfterReads(r, answers, n).open == None
    ensures r.open == None ==> AfterReads(r, answers, n).open == None
  {
    if n > 0 {
      AfterReadsKeepSlots(r, answers, n - 1);
    }
  }

  /** The scan of Phase C: the first answering PRIMARY at or above n whose key is not the new one. */
  function FindOld(slots: Slots, answers: Slot -> Delivery, fp: Psk -> Fp, newFp: Fp, n: nat): Option<Slot>
    requires n <= 8
    decreases 8 - n
  {
    if n == 8 then None
    else if answers(n).Acked? && slots[n].role.Primary? && fp(slots[n].psk) != newFp then Some(n)
    else FindOld(slots, answers, fp, newFp, n + 1)
  }

  lemma {:induction false} FindOldIs(slots: Slots, answers: Slot -> Delivery, fp: Psk -> Fp, newFp: Fp, n: nat)
    requires n <= 8 && OnePrimary(slots)
    ensures FindOld(slots, answers, fp, newFp, n) ==
            var p := PrimaryOf(slots);
            if n <= p && answers(p).Acked? && fp(slots[p].psk) != newFp then Some(p) else None
    decreases 8 - n
  {
    if n < 8 {
      FindOldIs(slots, answers, fp, newFp, n + 1);
    }
  }

  // ---------------------------------------------------------------------------
  // The promote transaction
  // ---------------------------------------------------------------------------

  /** The edits of migratePiAtomicWithRecovery, in order. */
  function PromoteEdits(staging: Slot, oldSlot: Slot, psk: Psk, recovery: Option<Slot>, oldPsk: Psk): seq<Edit> {
    [Edit(staging, Primary, psk), Edit(oldSlot, Disabled, [])] +
    if recovery.Some? && oldPsk != [] then [Edit(recovery.value, Secondary, oldPsk)] else []
  }

  function Promoted(slots: Slots, staging: Slot, oldSlot: Slot, psk: Psk, recovery: Option<Slot>, oldPsk: Psk): Slots {
    AppliedAll(slots, PromoteEdits(staging, oldSlot, psk, recovery, oldPsk))
  }

  /** All messages before the commit were acknowledged and the commit arrived. */
  ghost predicate Committed(link: nat -> Delivery, edits: nat) {
    && (forall i: nat | i <= edits :: link(i).Acked?)
    && !link(edits + 1).Lost?
  }

  /**
    What a promote does to a radio whose PRIMARY is in slot p: the other of the two
    slots becomes PRIMARY, slot p is wiped, the recovery slot takes the old key and
    nothing else changes.
   */
  lemma PromotedSlots(slots: Slots, staging: Slot, p: Slot, psk: Psk, recovery: Option<Slot>, oldPsk: Psk)
    requires PrimaryAt(slots, p) && staging != p
    requires recovery.Some? ==> recovery.value != p && recovery.value != staging
    ensures var s := Promoted(slots, staging, p, psk, recovery, oldPsk);
      && PrimaryAt(s, staging)
      && s[staging].psk == psk
      && s[p] == BLANK
      && (recovery.Some? && oldPsk != [] ==> s[recovery.value] == Channel(Secondary, oldPsk))
      && forall i: Slot | i != staging && i != p && (recovery.Some? && oldPsk != [] ==> i != recovery.value) ::
          s[i] == slots[i]
  {
    var e := PromoteEdits(staging, p, psk, recovery, oldPsk);
    var s1 := Applied(slots, e[0]);
    var s2 := Applied(s1, e[1]);
    assert AppliedAll(slots, e) == AppliedAll(s1, e[1..]);
    assert AppliedAll(s1, e[1..]) == AppliedAll(s2, e[1..][1..]);
    if recovery.Some? && oldPsk != [] {
      assert e[1..][1..] == [e[2]];
      var s3 := Applied(s2, e[2]);
      assert AppliedAll(s2, [e[2]]) == AppliedAll(s3, []);
    }
  }

  class PiHeltec {
    var radio: Radio

    constructor (slots: Slots)
      ensures radio == Radio(slots, None)
    {
      radio := Radio(slots, None);
    }

    /**
      runLocalAdmin: no error only when the reply came back. An acknowledged message took effect,
      one that was not may have, and only a commit or an edit outside a transaction writes slots.
     */
    method Admin(m: Message, d: Delivery) returns (ok: bool)
      modifies this
      ensures radio == Delivered(old(radio), m, d)
      ensures ok == d.Acked?
      ensures ok ==> radio == Received(old(radio), m)
      ensures radio.slots == old(radio).slots || m.Commit? || (m.Set? && old(radio).open == None)
    {
      if !d.Lost? {
        radio := Received(radio, m);
      }
      ok := d.Acked?;
    }

    /** readLocalChannel. */
    method ReadLocalChannel(idx: Slot, d: Delivery) returns (ch: Option<Channel>)
      modifies this
      ensures radio == Delivered(old(radio), Get(idx), d)
      ensures ch == if d.Acked? then Some(old(radio).slots[idx]) else None
    {
      var ok := Admin(Get(idx), d);
      ch := if ok then Some(radio.slots[idx]) else None;
    }

    /** probeSlotsLocal; None stands for its "no PRIMARY channel found" error. */
    method ProbeSlotsLocal(answers: Slot -> Delivery) returns (primary: Option<Slot>)
      modifies this
      ensures radio == AfterReads(old(radio), answers, 8)
      ensures radio.slots == old(radio).slots
      ensures primary == LastPrimary(old(radio).slots, answers, 8)
      ensures primary.Some? ==> radio.open == None
    {
      primary := None;
      for idx := 0 to 8
        invariant radio == AfterReads(old(radio), answers, idx)
        invariant radio.slots == old(radio).slots
        invariant primary == LastPrimary(old(radio).slots, answers, idx)
        invariant primary.Some? ==> radio.open == None
      {
        var ch := ReadLocalChannel(idx, answers(idx));
        if ch.Some? && ch.value.role.Primary? {
          primary := Some(idx);
        }
      }
    }

    /**
      migratePiAtomicWithRecovery. From a closed transaction the slots either stay as they
      were or take all edits at once, and success is reported only in the second case.
     */
    method MigrateAtomicWithRecovery(staging: Slot, oldSlot: Slot, psk: Psk, recovery: Option<Slot>, oldPsk: Psk,
                                     link: nat -> Delivery)
      returns (ok: bool)
      requires radio.open == None
      modifies this
      ensures var edits := PromoteEdits(staging, oldSlot, psk, recovery, oldPsk);
        && radio.slots == (if Committed(link, |edits|) then AppliedAll(old(radio).slots, edits) else old(radio).slots)
        && (Committed(link, |edits|) ==> radio.open == None)
        && (ok <==> Committed(link, |edits|) && link(|edits| + 1).Acked?)
    {
      var edits := PromoteEdits(staging, oldSlot, psk, recovery, oldPsk);
      ok := Admin(Begin, link(0));
      if !ok {
        return;
      }
      var promote := Edit(staging, Primary, psk);
      ok := Admin(Set(promote), link(1));
      if !ok {
        return;
      }
      var disable := Edit(oldSlot, Disabled, []);
      ok := Admin(Set(disable), link(2));
      if !ok {
        return;
      }
      var next := 3;
      assert radio.open.value == [promote, disable];
      if recovery.Some? && |oldPsk| > 0 {
        ok := Admin(Set(Edit(recovery.value, Secondary, oldPsk)), link(3));
        if !ok {
          return;
        }
        next := 4;
      }
      assert radio.open.value == edits && next == |edits| + 1;
      assert forall i: nat | i <= |edits| :: link(i).Acked?;
      ok := Admin(Commit, link(next));
    }
  }
}
