/**
  The handlers that drive a rotation, as methods over the radio, the recovery store and the
  rotation rows. Each is proved to take exactly one step of the system in module Rotation.
 */
module FleetService {
  import opened Prelude
  import opened Keys
  import opened RecoveryCache
  import opened PiRadio
  import opened Rotation
  import M = Migration
  import H = DispatcherHook

  /** The slot answers with a key of this hash. */
  ghost predicate HasHash(slots: Slots, answers: Slot -> Delivery, i: Slot, hash: Byte) {
    answers(i).Acked? && slots[i].psk != [] && WireHash(slots[i].psk) == hash
  }

  /** Some node to rotate: the local one or a requested one. */
  ghost predicate HasTarget(nodes: seq<nat>, local: nat) {
    exists x :: x != 0 && (x in nodes || x == local)
  }

  lemma TargetsIff(nodes: seq<nat>, local: nat)
    requires forall x :: x in M.RotationNodes(nodes, local) <==> x != 0 && (x in nodes || x == local)
    ensures |M.RotationNodes(nodes, local)| > 0 <==> HasTarget(nodes, local)
  {
    if |M.RotationNodes(nodes, local)| > 0 {
      assert M.RotationNodes(nodes, local)[0] in M.RotationNodes(nodes, local);
    }
  }

  /** The ways in which Phase C ends without an attempt. */
  lemma PhaseCStops(fp: Psk -> Fp, s: Fleet, s': Fleet, a: Action)
    requires a.PhaseC? && s'.radio.slots == s.radio.slots
    requires
      if a.job.id !in s.rows || s.rows[a.job.id].phase == Retired then s' == s
      else
        var row := s.rows[a.job.id];
        if FindOld(s.radio.slots, a.answers, fp, row.newFp, 0).None? then
          s' == s.(radio := s'.radio, rows := s.rows[a.job.id := MarkRetired(row, a.retireOk, false)])
        else
          row.psk == [] && s' == s.(radio := s'.radio)
    ensures PhaseCStep(fp, s, s', a.job, a.answers, a.at, a.addOk, a.link, a.retireOk, a.clearOk)
    ensures !H.PassesMark(fp, s, a, s')
  {
  }

  /** An attempt, as seen from before the reads of Phase C. */
  lemma PhaseCPromotes(fp: Psk -> Fp, s: Fleet, before: Fleet, s': Fleet, a: Action)
    requires a.PhaseC? && a.job.id in s.rows && IsOpen(s.rows[a.job.id]) && s.rows[a.job.id].psk != []
    requires before == s.(radio := before.radio) && before.radio.slots == s.radio.slots
    requires
      var found := FindOld(s.radio.slots, a.answers, fp, s.rows[a.job.id].newFp, 0);
      found.Some? &&
      exists slot ::
        PromoteStep(fp, before, s', a.job, found.value, slot, a.at, a.addOk, a.link, a.retireOk, a.clearOk)
    ensures PhaseCStep(fp, s, s', a.job, a.answers, a.at, a.addOk, a.link, a.retireOk, a.clearOk)
    ensures H.PassesMark(fp, s, a, s') <==> a.job.id in s'.rows && s'.rows[a.job.id].phase == Retired
  {
    hide FindOld, Cached, AppliedAll, Committed;
    var found := FindOld(s.radio.slots, a.answers, fp, s.rows[a.job.id].newFp, 0);
    var slot :| PromoteStep(fp, before, s', a.job, found.value, slot, a.at, a.addOk, a.link, a.retireOk, a.clearOk);
    assert PromoteStep(fp, s, s', a.job, found.value, slot, a.at, a.addOk, a.link, a.retireOk, a.clearOk);
  }

  /** The check looks at the radio's slots and the table alone. */
  lemma CollidesSlots(s: Fleet, t: Fleet, psk: Psk, answers: Slot -> Delivery, listOk: bool)
    requires s.radio.slots == t.radio.slots && s.table == t.table
    ensures Collides(s, psk, answers, listOk) <==> Collides(t, psk, answers, listOk)
  {
  }

  function AttemptLimit(maxAttempts: int): nat {
    if maxAttempts <= 0 then 8 else maxAttempts
  }

  /** The generator stopped at attempt n, and every earlier draw collided. */
  ghost predicate FirstFree(s: Fleet, draws: nat -> Option<Psk>, answers: nat -> Slot -> Delivery, listOk: nat -> bool,
                            limit: nat, n: nat, r: Result<Psk, string>)
  {
    && n <= limit
    && (forall m: nat | m < n :: draws(m).Some? && Collides(s, draws(m).value, answers(m), listOk(m)))
    && match r
       case Ok(psk) => n < limit && draws(n) == Some(psk) && !Collides(s, psk, answers(n), listOk(n))
       case Err(_) => n == limit || draws(n) == None
  }

  /** When Phase A goes on to enqueue Phase B: the PRIMARY answered from a usable slot and staging was acknowledged. */
  ghost predicate PhaseASucceeds(s: Fleet, id: nat, answers: Slot -> Delivery, stage: Delivery) {
    && id in s.rows && s.rows[id].psk != []
    && var primary := LastPrimary(s.radio.slots, answers, 8);
       && primary.Some?
       && (s.rows[id].staging.Some? || primary.value < 2)
       && (s.rows[id].phase == Pending ==> stage.Acked?)
  }

  class Service {
    const fingerprint: Psk -> Fp
    const pi: PiHeltec
    const cache: RecoveryStore
    var rows: map<nat, Rotating>
    var promotes: set<PromoteJob>
    var now: int
    var hook: map<Byte, Fp>
    ghost var demoted: seq<Psk>

    constructor (fingerprint: Psk -> Fp, pi: PiHeltec, cache: RecoveryStore)
      ensures this.fingerprint == fingerprint && this.pi == pi && this.cache == cache
      ensures State() == Fleet(pi.radio, cache.rows, map[], {}, [], 0) && hook == map[]
    {
      this.fingerprint, this.pi, this.cache := fingerprint, pi, cache;
      rows, promotes, now, hook, demoted := map[], {}, 0, map[], [];
    }

    ghost function State(): Fleet
      reads this, pi, cache
    {
      Fleet(pi.radio, cache.rows, rows, promotes, demoted, now)
    }

    /** CheckPSKHashCollision: true when the candidate must be refused. */
    method CheckPSKHashCollision(candidate: Psk, answers: Slot -> Delivery, listOk: bool) returns (clash: bool)
      modifies pi
      ensures clash <==> Collides(old(State()), candidate, answers, listOk)
      ensures clash <==>
              candidate != [] &&
              (|| HasHash(old(pi.radio.slots), answers, 0, WireHash(candidate))
               || HasHash(old(pi.radio.slots), answers, 1, WireHash(candidate))
               || (listOk && exists i: Slot :: i in cache.rows && cache.rows[i].hash == WireHash(candidate)))
      ensures pi.radio.slots == old(pi.radio).slots
    {
      if |candidate| == 0 {
        return false;
      }
      CollidesIff(State(), candidate, answers, listOk);
      var candHash := ChannelHash([], candidate);
      var idx := 0;
      while idx < 2
        invariant 0 <= idx <= 2
        invariant pi.radio.slots == old(pi.radio).slots
        invariant forall i: Slot | i < idx && answers(i).Acked? && pi.radio.slots[i].psk != [] ::
                    WireHash(pi.radio.slots[i].psk) != WireHash(candidate)
      {
        var ch := pi.ReadLocalChannel(idx, answers(idx));
        if ch.Some? && |ch.value.psk| > 0 {
          var h := ChannelHash([], ch.value.psk);
          if h == candHash {
            return true;
          }
        }
        idx := idx + 1;
      }
      if !listOk {
        return false;
      }
      var left := cache.rows.Keys;
      while left != {}
        invariant left <= cache.rows.Keys
        invariant forall i | i in cache.rows && i !in left :: cache.rows[i].hash != WireHash(candidate)
        decreases left
      {
        var i :| i in left;
        if cache.rows[i].hash == candHash {
          return true;
        }
        left := left - {i};
      }
      return false;
    }

    /**
      RotatePSK: refused without the confirmation word, for an invalid length, a negative channel,
      a hash collision or no targets, or when the insert fails. The row stays stored when only the
      enqueueing of Phase A fails.
     */
    method RotatePSK(ack: string, channelIndex: int, newPsk: Psk, nodes: seq<nat>, local: nat, id: nat,
                     answers: Slot -> Delivery, listOk: bool, insertOk: bool, enqueueOk: bool)
      returns (r: Result<nat, string>)
      modifies this, pi
      ensures r.Ok? ==> |newPsk| in {0, 16, 32}
      ensures var stored := ack == "ROTATE" && channelIndex >= 0 && HasTarget(nodes, local) && insertOk;
        && RotateStep(fingerprint, old(State()), State(), id, newPsk, answers, listOk, stored)
        && (r.Ok? <==> Admits(old(State()), newPsk, answers, listOk, stored) && enqueueOk)
        && (r.Ok? ==> r.value == id)
    {
      hide Collides;
      if ack != "ROTATE" {
        return Err("PSK rotation requires Ack=ROTATE");
      }
      if !ValidPskLength(newPsk) {
        return Err("invalid PSK length");
      }
      if channelIndex < 0 {
        return Err("channelIndex must be >= 0");
      }
      var clash := CheckPSKHashCollision(newPsk, answers, listOk);
      if clash {
        return Err("channel hash collision");
      }
      var targets := M.BuildTargets(nodes, local);
      TargetsIff(nodes, local);
      if |targets| == 0 {
        return Err("no valid targets");
      }
      if !insertOk {
        return Err("create rotation");
      }
      rows := rows[id := Rotating(fingerprint(newPsk), newPsk, None, Pending)];
      if !enqueueOk {
        return Err("enqueue phase A");
      }
      return Ok(id);
    }

    /**
      GenerateRandomPSKAvoidCollision. draws(n) is what the random source gives at attempt n,
      None when it fails; each attempt reads the radio and lists the cache anew.
     */
    method GenerateAvoidingCollision(draws: nat -> Option<Psk>, maxAttempts: int, answers: nat -> Slot -> Delivery,
                                     listOk: nat -> bool)
      returns (r: Result<Psk, string>)
      modifies pi
      ensures pi.radio.slots == old(pi.radio).slots
      ensures exists n :: FirstFree(old(State()), draws, answers, listOk, AttemptLimit(maxAttempts), n, r)
      ensures AttemptLimit(maxAttempts) == if maxAttempts <= 0 then 8 else maxAttempts
    {
      hide Collides;
      var limit := AttemptLimit(maxAttempts);
      var n := 0;
      while n < limit
        invariant 0 <= n <= limit
        invariant pi.radio.slots == old(pi.radio).slots
        invariant forall m: nat | m < n ::
            draws(m).Some? && Collides(old(State()), draws(m).value, answers(m), listOk(m))
      {
        if draws(n) == None {
          assert FirstFree(old(State()), draws, answers, listOk, limit, n, Err("random source"));
          return Err("random source");
        }
        var psk := draws(n).value;
        CollidesSlots(State(), old(State()), psk, answers(n), listOk(n));
        var clash := CheckPSKHashCollision(psk, answers(n), listOk(n));
        if !clash {
          assert FirstFree(old(State()), draws, answers, listOk, limit, n, Ok(psk));
          return Ok(psk);
        }
        n := n + 1;
      }
      assert FirstFree(old(State()), draws, answers, listOk, limit, n, Err("could not generate non-colliding PSK"));
      return Err("could not generate non-colliding PSK");
    }

    /** phaseAHandler.Run up to the enqueueing of Phase B. */
    method RunPhaseA(id: nat, answers: Slot -> Delivery, stage: Delivery, pinOk: bool, phaseOk: bool) returns (ok: bool)
      modifies this, pi
      ensures State() == AfterPhaseA(old(State()), id, answers, stage, pinOk, phaseOk)
      ensures ok <==> PhaseASucceeds(old(State()), id, answers, stage)
    {
      hide AfterReads, LastPrimary;
      if id !in rows {
        return false;
      }
      var row := rows[id];
      if |row.psk| == 0 {
        return false;
      }
      var primary := pi.ProbeSlotsLocal(answers);
      if primary.None? {
        return false;
      }
      var staging: Slot;
      if row.staging.Some? {
        staging := row.staging.value;
      } else {
        if primary.value == 0 {
          staging := 1;
        } else if primary.value == 1 {
          staging := 0;
        } else {
          return false;
        }
        if pinOk {
          rows := rows[id := rows[id].(staging := Some(staging))];
        }
      }
      if row.phase == Pending {
        var staged := pi.Admin(Set(Edit(staging, Secondary, row.psk)), stage);
        if !staged {
          return false;
        }
        if phaseOk {
          rows := rows[id := rows[id].(phase := StagingAdded)];
        }
      }
      return true;
    }

    /** RetireOldPSK; gate is the answer of AllManagedNodesOnPSK. */
    method RetireOldPSK(id: nat, gate: bool) returns (ok: bool)
      modifies this
      ensures State() == AfterRetire(old(State()), id, gate)
      ensures ok <==> gate && id in old(rows) && old(rows)[id].phase == StagingAdded && old(rows)[id].staging.Some?
      ensures promotes == if ok then old(promotes) + {PromoteJob(id, old(rows)[id].staging.value)} else old(promotes)
    {
      if id !in rows || rows[id].phase != StagingAdded || rows[id].staging.None? || !gate {
        return false;
      }
      promotes := promotes + {PromoteJob(id, rows[id].staging.value)};
      return true;
    }

    /** The scan of Phase C for the old PRIMARY. */
    method FindOldPrimary(answers: Slot -> Delivery, newFp: Fp) returns (found: Option<Slot>)
      modifies pi
      ensures pi.radio.slots == old(pi.radio).slots
      ensures found == FindOld(pi.radio.slots, answers, fingerprint, newFp, 0)
      ensures found.Some? ==> pi.radio.open == None
    {
      var idx := 0;
      while idx < 8
        invariant 0 <= idx <= 8
        invariant pi.radio.slots == old(pi.radio).slots
        invariant FindOld(pi.radio.slots, answers, fingerprint, newFp, 0) ==
                  FindOld(pi.radio.slots, answers, fingerprint, newFp, idx)
      {
        var ch := pi.ReadLocalChannel(idx, answers(idx));
        if ch.Some? && ch.value.role.Primary? && fingerprint(ch.value.psk) != newFp {
          return Some(idx);
        }
        idx := idx + 1;
      }
      return None;
    }

    /** phaseCHandler.Run. */
    method RunPhaseC(job: PromoteJob, answers: Slot -> Delivery, at: int, addOk: bool, link: nat -> Delivery,
                     retireOk: bool, clearOk: bool, listOk: bool)
      returns (ok: bool)
      requires ValidTable(cache.rows) && forall k :: fingerprint(k) != Blank
      modifies this, pi, cache
      ensures PhaseCStep(fingerprint, old(State()), State(), job, answers, at, addOk, link, retireOk, clearOk)
      ensures ok <==> job.id in rows && rows[job.id].phase == Retired
      ensures var a := PhaseC(job, answers, at, addOk, link, retireOk, clearOk);
        H.HookAfter(fingerprint, old(State()), a, State(), listOk, old(hook), hook)
    {
      hide NamesRows, ValidTable, PhaseCStep, PromoteStep, FindOld, H.PassesMark;
      ghost var s := State();
      ghost var a := PhaseC(job, answers, at, addOk, link, retireOk, clearOk);
      if job.id !in rows {
        PhaseCStops(fingerprint, s, s, a);
        return false;
      }
      if rows[job.id].phase == Retired {
        PhaseCStops(fingerprint, s, s, a);
        return true;
      }
      var row := rows[job.id];
      var found := FindOldPrimary(answers, row.newFp);
      if found.None? {
        rows := rows[job.id := MarkRetired(row, retireOk, false)];
        PhaseCStops(fingerprint, s, State(), a);
        return retireOk;
      }
      if |row.psk| == 0 {
        PhaseCStops(fingerprint, s, State(), a);
        return false;
      }
      ghost var before := State();
      ok := PromotePi(job, found.value, at, addOk, link, retireOk, clearOk, listOk);
      PhaseCPromotes(fingerprint, s, before, State(), a);
    }

    /** The end of Phase C: only a stored mark leads to the rebuild of the dispatcher's table. */
    method MarkAndRebuild(id: nat, retireOk: bool, clearOk: bool, listOk: bool) returns (ok: bool)
      requires id in rows && IsOpen(rows[id])
      modifies this`rows, this`hook
      ensures rows == old(rows)[id := MarkRetired(old(rows)[id], retireOk, clearOk)]
      ensures ok == retireOk && (ok <==> rows[id].phase == Retired)
      ensures if ok && listOk then NamesRows(cache.rows, hook) else hook == old(hook)
    {
      hide NamesRows;
      rows := rows[id := MarkRetired(rows[id], retireOk, clearOk)];
      ok := retireOk;
      if ok && listOk {
        hook := cache.RebuildHashTable();
      }
    }

    /** Stores the key of the old PRIMARY, if it has one. */
    method CacheOld(id: nat, oldPsk: Psk, at: int, addOk: bool) returns (recovery: Option<Slot>)
      requires ValidTable(cache.rows) && forall k :: fingerprint(k) != Blank
      modifies cache
      ensures Cached(fingerprint, old(cache.rows), cache.rows, recovery, oldPsk, id, at, addOk)
    {
      recovery := None;
      if |oldPsk| > 0 {
        var h := ChannelHash([], oldPsk);
        var added := cache.AddRecoveryPSK(fingerprint(oldPsk), oldPsk, h, Some(id), at, addOk);
        if added.Ok? {
          recovery := Some(added.value);
        }
      }
    }

    /** The rest of phaseCHandler.Run, once the old PRIMARY is found: cache, promote, mark. */
    method PromotePi(job: PromoteJob, oldSlot: Slot, at: int, addOk: bool, link: nat -> Delivery, retireOk: bool,
                     clearOk: bool, listOk: bool)
      returns (ok: bool)
      requires ValidTable(cache.rows) && (forall k :: fingerprint(k) != Blank) && pi.radio.open == None
      requires job.id in rows && IsOpen(rows[job.id]) && rows[job.id].psk != []
      modifies this, pi, cache
      ensures exists slot ::
          PromoteStep(fingerprint, old(State()), State(), job, oldSlot, slot, at, addOk, link, retireOk, clearOk)
      ensures ok <==> job.id in rows && rows[job.id].phase == Retired
      ensures if ok && listOk then NamesRows(cache.rows, hook) else hook == old(hook)
    {
      hide NamesRows, Cached, ValidTable, AppliedAll, MarkRetired;
      var row := rows[job.id];
      var oldPsk := pi.radio.slots[oldSlot].psk;
      var recovery := CacheOld(job.id, oldPsk, at, addOk);
      now := at;
      ok := pi.MigrateAtomicWithRecovery(job.staging, oldSlot, row.psk, recovery, oldPsk, link);
      ghost var edits := PromoteEdits(job.staging, oldSlot, row.psk, recovery, oldPsk);
      if Committed(link, |edits|) && |oldPsk| > 0 {
        demoted := demoted + [oldPsk];
      }
      if ok {
        ok := MarkAndRebuild(job.id, retireOk, clearOk, listOk);
      }
      assert PromoteStep(fingerprint, old(State()), State(), job, oldSlot, recovery, at, addOk, link, retireOk,
                         clearOk);
    }
  }
}
