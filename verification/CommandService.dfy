/**
  The locked sections of the command service as methods (internal/commands/service.go). Loops
  over the pending map visit it in any order; each method is proved to take the step that
  module Commands defines without reference to an order.
 */
module CommandService {
  import opened Prelude
  import opened ScanMerge
  import opened Commands

  class Service {
    var cmds: map<nat, Command>
    var pending: set<nat>
    var rate: map<nat, int>
    ghost var byAck: set<nat>

    constructor ()
      ensures State() == Queue(map[], {}, map[], {})
    {
      cmds, pending, rate, byAck := map[], {}, map[], {};
    }

    ghost function State(): Queue
      reads this
    {
      Queue(cmds, pending, rate, byAck)
    }

    method Enqueue(id: nat, cmd: Command, onId: nat, now: int) returns (accepted: bool)
      requires id !in cmds && onId !in cmds && id != onId
      modifies this
      ensures State() == AfterEnqueue(old(State()), id, cmd, onId, now)
      ensures accepted <==> !(cmd.node in old(rate) && now - old(rate)[cmd.node] < NODE_GAP)
    {
      if cmd.node in rate && now - rate[cmd.node] < NODE_GAP {
        return false;
      }
      var retries := if cmd.maxRetries == 0 then 3 else cmd.maxRetries;
      var queued := Command(cmd.node, cmd.kind, cmd.name, cmd.target, Pending, now, None, cmd.params, 0, retries,
                            false, [], [], "", None, None);
      if cmd.name == DEVICE_SCAN {
        queued := queued.(attached := true);
        cmds := cmds[id := queued];
        cmds := cmds[onId := RawRow(id, queued, RAW_ON, now)];
        pending := pending + {id} + {onId};
      } else {
        cmds := cmds[id := queued];
        pending := pending + {id};
      }
      return true;
    }

    method Send(id: nat, ok: bool, now: int)
      requires id in cmds
      modifies this
      ensures State() == AfterSend(old(State()), id, ok, now)
    {
      if !ok {
        cmds := cmds[id := cmds[id].(retries := cmds[id].retries + 1)];
        if cmds[id].retries >= cmds[id].maxRetries {
          cmds := cmds[id := cmds[id].(status := Error)];
          pending := pending - {id};
        }
      } else {
        cmds := cmds[id := cmds[id].(status := Sent, sentAt := Some(now))];
        rate := rate[cmds[id].node := now];
      }
    }

    method HandleACK(id: nat, now: int)
      modifies this
      ensures State() == AfterAck(old(State()), id, now)
    {
      if id !in pending || id !in cmds {
        return;
      }
      cmds := cmds[id := cmds[id].(status := Okay, finished := Some(now))];
      pending := pending - {id};
    }

    /** The search of HandleStructuredACK: the latest matching pending command, in any visiting order. */
    method FindLatest(a: AckFrame) returns (m: Option<nat>)
      ensures m.Some? ==> Latest(State(), a, m.value)
      ensures m.None? ==> forall i :: !Candidate(State(), a, i)
    {
      m := None;
      hide NameMatches;
      var left := pending;
      while left != {}
        invariant left <= pending
        invariant m.None? ==> forall i | i !in left :: !Candidate(State(), a, i)
        invariant m.Some? ==> m.value !in left && Candidate(State(), a, m.value)
        invariant m.Some? ==> forall i | i !in left && Candidate(State(), a, i) ::
            cmds[i].created <= cmds[m.value].created
        decreases left
      {
        var i :| i in left;
        left := left - {i};
        if i in cmds && NameMatches(a, NameOf(cmds[i])) && Active(cmds[i]) {
          if m.None? || cmds[i].created > cmds[m.value].created {
            m := Some(i);
          }
        }
      }
    }

    /** Takes one command out of the pending map, with its RAW_BLE_OFF row. */
    method CloseOne(i: nat, status: Status, child: nat -> nat, now: int)
      requires i in cmds && FreshIds(State(), Parents(State(), {i}), child)
      modifies this
      ensures State() == CloseAll(old(State()), {i}, status, child, now)
    {
      ghost var q := State();
      ParentsAre(q, {i}, i);
      var c := cmds[i];
      var done := c.(status := status, finished := Some(now));
      if (c.name == DEVICE_SCAN || c.name == SCAN) && |c.rows| > 0 {
        var merged := MergeScanRows(c.rows);
        done := done.(detections := merged);
      }
      cmds := cmds[i := done];
      pending := pending - {i};
      byAck := byAck + {i};
      if c.attached && c.name == DEVICE_SCAN {
        assert child(i) !in q.cmds;
        cmds := cmds[child(i) := RawRow(i, c, RAW_OFF, now)];
        pending := pending + {child(i)};
      }
      CloseOneIs(q, State(), i, status, child, now);
    }

    /** The two fan-out loops of HandleStructuredACK. Rows created on the way are PENDING and out of scope. */
    method FanOut(a: AckFrame, target: string, child: nat -> nat, now: int)
      requires FreshIds(State(), Parents(State(), Scope(State(), a, target)), child)
      modifies this
      ensures State() == CloseAll(old(State()), Scope(old(State()), a, target), Okay, child, now)
    {
      hide CloseAll, Parents, FreshIds, ScanClass, AckMatched;
      ghost var q := State();
      ghost var scope := Scope(q, a, target);
      ghost var done: set<nat> := {};
      CloseNone(q, Okay, child, now);
      var left := pending;
      while left != {}
        invariant left <= q.pending
        invariant done == scope - left
        invariant FreshIds(q, Parents(q, done), child)
        invariant State() == CloseAll(q, done, Okay, child, now)
        decreases left
      {
        var i :| i in left;
        left := left - {i};
        FreshSubset(q, done + {i}, scope, child);
        StillThere(q, done, child, now, i);
        if i in cmds && InScope(a, target, cmds[i]) {
          CloseMore(q, done, i, child, now);
          CloseOne(i, Okay, child, now);
          done := done + {i};
        }
      }
      assert done == scope;
    }

    /** child and child2 stand for the random ids of the rows created. */
    method HandleStructuredACK(a: AckFrame, child: nat -> nat, child2: nat -> nat, now: int) returns (m: Option<nat>)
      requires NewIds(State(), child, child2)
      modifies this
      ensures m.None? ==> State() == old(State()) && forall i :: !Candidate(old(State()), a, i)
      ensures m.Some? ==> Latest(old(State()), a, m.value)
      ensures m.Some? ==> StructuredStep(old(State()), State(), a, m.value, child, child2, now)
    {
      m := FindLatest(a);
      if m.None? {
        return;
      }
      ghost var q := State();
      var id := m.value;
      NewIdsAreFresh(q, a, id, child, child2, now);
      hide NameMatches, AckedStatus, InScope;
      var target := cmds[id].target;
      var status := AckedStatus(a);
      cmds := cmds[id := cmds[id].(ackNode := a.node)];
      if status == Running {
        cmds := cmds[id := cmds[id].(status := Running)];
      } else {
        assert Parents(State(), {id}) == Parents(q, {id});
        CloseOne(id, status, child, now);
      }
      assert State() == AckMatched(q, a, id, child, now);
      FanOut(a, target, child2, now);
    }

    /** The checks of EnforceScanTimeouts on one running probe, in their order. */
    method IsOver(text: Text, c: Command, grace: int, now: int) returns (over: bool)
      ensures over <==> WindowOver(text, c, grace, now)
    {
      if c.sentAt.None? {
        return false;
      }
      for k := 0 to |c.params|
        invariant forall i | 0 <= i < k :: !text.forever(c.params[i])
      {
        if text.forever(c.params[k]) {
          return false;
        }
      }
      if |c.params| < 2 {
        return false;
      }
      var d := text.seconds(c.params[1]);
      if d.None? || d.value <= 0 {
        return false;
      }
      return now - c.sentAt.value >= d.value * SECOND + grace;
    }

    method EnforceScanTimeouts(text: Text, grace: int, now: int)
      modifies this`cmds, this`pending
      ensures State() == AfterTimeout(old(State()), text, grace, now)
    {
      hide RunningProbe, WindowOver;
      ghost var q := State();
      var left := pending;
      while left != {}
        invariant left <= q.pending && cmds.Keys == q.cmds.Keys
        invariant forall i :: i in pending <==> i in q.pending && (i in left || !Expires(q, text, grace, now, i))
        invariant forall i | i in q.cmds ::
                    cmds[i] ==
                    if i in left || !Expires(q, text, grace, now, i) then q.cmds[i]
                    else q.cmds[i].(status := Okay, finished := Some(now))
        decreases left
      {
        var i :| i in left;
        left := left - {i};
        if i in cmds && RunningProbe(cmds[i]) {
          var over := IsOver(text, cmds[i], grace, now);
          if over {
            cmds := cmds[i := cmds[i].(status := Okay, finished := Some(now))];
            pending := pending - {i};
          }
        }
      }
      TimeoutIs(q, State(), text, grace, now);
    }

    /** The inner loop of RecordScanDetection. */
    method AlreadyNoted(c: Command, det: Detection) returns (dup: bool)
      ensures dup <==> exists j :: 0 <= j < |c.rows| && c.rows[j].mac == det.mac && c.rows[j].source == det.source
    {
      for k := 0 to |c.rows|
        invariant forall j | 0 <= j < k :: !(c.rows[j].mac == det.mac && c.rows[j].source == det.source)
      {
        if c.rows[k].mac == det.mac && c.rows[k].source == det.source {
          return true;
        }
      }
      return false;
    }

    method RecordScanDetection(nodeId: string, det: Detection)
      modifies this`cmds
      ensures State() == AfterDetection(old(State()), nodeId, det)
    {
      hide Listens;
      if det.mac == 0 || det.source == Other("") {
        return;
      }
      ghost var q := State();
      var left := pending;
      while left != {}
        invariant left <= pending
        invariant cmds.Keys == q.cmds.Keys
        invariant forall i | i in q.cmds ::
                    cmds[i] ==
                    if i in q.pending && i !in left && Listens(q.cmds[i], nodeId) then Noted(q.cmds[i], det)
                    else q.cmds[i]
        decreases left
      {
        var i :| i in left;
        left := left - {i};
        if i in cmds && Listens(cmds[i], nodeId) {
          var dup := AlreadyNoted(cmds[i], det);
          if !dup {
            cmds := cmds[i := cmds[i].(rows := cmds[i].rows + [det])];
          }
        }
      }
      DetectionIs(q, cmds, nodeId, det);
    }
  }

  lemma DetectionIs(q: Queue, cmds: map<nat, Command>, nodeId: string, det: Detection)
    requires det.mac != 0 && det.source != Other("")
    requires cmds.Keys == q.cmds.Keys
    requires forall i | i in q.cmds ::
               cmds[i] == if i in q.pending && Listens(q.cmds[i], nodeId) then Noted(q.cmds[i], det) else q.cmds[i]
    ensures q.(cmds := cmds) == AfterDetection(q, nodeId, det)
  {
    hide Listens, Noted;
    assert cmds == AfterDetection(q, nodeId, det).cmds;
  }

  lemma TimeoutIs(q: Queue, q': Queue, text: Text, grace: int, now: int)
    requires q'.cmds.Keys == q.cmds.Keys && q'.rate == q.rate && q'.byAck == q.byAck
    requires forall i :: i in q'.pending <==> i in q.pending && !Expires(q, text, grace, now, i)
    requires forall i | i in q.cmds ::
               q'.cmds[i] ==
               if Expires(q, text, grace, now, i) then q.cmds[i].(status := Okay, finished := Some(now)) else q.cmds[i]
    ensures q' == AfterTimeout(q, text, grace, now)
  {
    hide Expires;
    ExpiringPend(q, text, grace, now);
    assert q'.cmds == AfterTimeout(q, text, grace, now).cmds;
    assert q'.pending == AfterTimeout(q, text, grace, now).pending;
  }

  lemma ExpiringPend(q: Queue, text: Text, grace: int, now: int)
    ensures forall i | Expires(q, text, grace, now, i) :: i in q.pending
  {
  }

  // ---------------------------------------------------------------------------
  // Closing one at a time
  // ---------------------------------------------------------------------------

  /** Two sources of ids never used before. */
  ghost predicate NewIds(q: Queue, child: nat -> nat, child2: nat -> nat) {
    && (forall p: nat :: child(p) !in q.cmds && child2(p) !in q.cmds)
    && (forall p: nat, r: nat :: child(p) == child(r) ==> p == r)
    && (forall p: nat, r: nat :: child2(p) == child2(r) ==> p == r)
    && (forall p: nat, r: nat :: child(p) != child2(r))
  }

  lemma NewIdsAreFresh(q: Queue, a: AckFrame, m: nat, child: nat -> nat, child2: nat -> nat, now: int)
    requires NewIds(q, child, child2) && m in q.cmds
    ensures FreshIds(q, Parents(q, {m}), child)
    ensures var q1 := AckMatched(q, a, m, child, now);
      FreshIds(q1, Parents(q1, Scope(q1, a, q.cmds[m].target)), child2)
  {
    var q1 := AckMatched(q, a, m, child, now);
    var noted := q.(cmds := q.cmds[m := q.cmds[m].(ackNode := a.node)]);
    if AckedStatus(a) != Running {
      CloseAllShape(noted, {m}, AckedStatus(a), child, now);
    }
    forall p: nat
      ensures child2(p) !in q1.cmds
    {
    }
  }

  lemma FreshSubset(q: Queue, some: set<nat>, ids: set<nat>, child: nat -> nat)
    requires FreshIds(q, Parents(q, ids), child)
    ensures some <= ids ==> FreshIds(q, Parents(q, some), child)
  {
  }

  lemma CloseNone(q: Queue, status: Status, child: nat -> nat, now: int)
    ensures FreshIds(q, Parents(q, {}), child)
    ensures CloseAll(q, {}, status, child, now) == q
  {
    assert Parents(q, {}) == {};
  }

  lemma CloseOneIs(q: Queue, q': Queue, i: nat, status: Status, child: nat -> nat, now: int)
    requires i in q.cmds && FreshIds(q, Parents(q, {i}), child)
    requires q'.rate == q.rate && q'.byAck == q.byAck + {i}
    requires WantsOff(q.cmds[i]) ==>
      && q'.cmds == q.cmds[i := Closed(q.cmds[i], status, now)][child(i) := RawRow(i, q.cmds[i], RAW_OFF, now)]
      && q'.pending == q.pending - {i} + {child(i)}
    requires !WantsOff(q.cmds[i]) ==>
      q'.cmds == q.cmds[i := Closed(q.cmds[i], status, now)] && q'.pending == q.pending - {i}
    ensures q' == CloseAll(q, {i}, status, child, now)
  {
    ParentsAre(q, {i}, i);
    CloseAllShape(q, {i}, status, child, now);
    assert IsClosed(q, {i}, status, child, now, q') by {
      if WantsOff(q.cmds[i]) {
        ClosedWithOff(q, q', i, status, child, now);
      } else {
        ClosedPlain(q, q', i, status, child, now);
      }
    }
    hide *;
    CloseAllUnique(q, {i}, status, child, now, q', CloseAll(q, {i}, status, child, now));
  }

  lemma ClosedWithOff(q: Queue, q': Queue, i: nat, status: Status, child: nat -> nat, now: int)
    requires i in q.cmds && child(i) !in q.cmds && WantsOff(q.cmds[i])
    requires q'.rate == q.rate && q'.byAck == q.byAck + {i}
    requires q'.cmds == q.cmds[i := Closed(q.cmds[i], status, now)][child(i) := RawRow(i, q.cmds[i], RAW_OFF, now)]
    requires q'.pending == q.pending - {i} + {child(i)}
    ensures IsClosed(q, {i}, status, child, now, q')
  {
    assert Parents(q, {i}) == {i};
    hide Parents, Closed, RawRow, WantsOff;
    assert forall j :: CreatedFor({i}, child, j) <==> j == child(i);
  }

  lemma ClosedPlain(q: Queue, q': Queue, i: nat, status: Status, child: nat -> nat, now: int)
    requires i in q.cmds && !WantsOff(q.cmds[i])
    requires q'.rate == q.rate && q'.byAck == q.byAck + {i}
    requires q'.cmds == q.cmds[i := Closed(q.cmds[i], status, now)] && q'.pending == q.pending - {i}
    ensures IsClosed(q, {i}, status, child, now, q')
  {
    assert Parents(q, {i}) == {};
    hide Parents, Closed, RawRow, WantsOff;
    assert forall j :: !CreatedFor({}, child, j);
  }

  /** A command of q that is not closed yet is as it was. */
  lemma StillThere(q: Queue, done: set<nat>, child: nat -> nat, now: int, i: nat)
    requires FreshIds(q, Parents(q, done), child) && i in q.pending && i !in done
    ensures var r := CloseAll(q, done, Okay, child, now);
      i in q.cmds ==> i in r.cmds && r.cmds[i] == q.cmds[i]
    ensures var r := CloseAll(q, done, Okay, child, now);
      i !in q.cmds && i in r.cmds ==> r.cmds[i].status == Pending
  {
    CloseAllShape(q, done, Okay, child, now);
    hide CloseAll, Parents;
    var r := CloseAll(q, done, Okay, child, now);
    if i !in q.cmds && i in r.cmds {
      var p :| p in Parents(q, done) && child(p) == i;
    }
  }

  lemma ParentsGrow(q: Queue, r: Queue, done: set<nat>, i: nat)
    requires i in q.cmds && i in r.cmds && r.cmds[i] == q.cmds[i]
    ensures Parents(q, done + {i}) == Parents(q, done) + Parents(r, {i})
  {
  }

  /** Closing done and then i is closing both. */
  lemma CloseMore(q: Queue, done: set<nat>, i: nat, child: nat -> nat, now: int)
    requires i in q.cmds && i !in done
    requires FreshIds(q, Parents(q, done), child) && FreshIds(q, Parents(q, done + {i}), child)
    ensures var r := CloseAll(q, done, Okay, child, now);
      && i in r.cmds && FreshIds(r, Parents(r, {i}), child)
      && CloseAll(r, {i}, Okay, child, now) == CloseAll(q, done + {i}, Okay, child, now)
  {
    var r := CloseAll(q, done, Okay, child, now);
    CloseAllShape(q, done, Okay, child, now);
    ParentsGrow(q, r, done, i);
    CloseMoreFresh(q, done, i, child, r, now);
    var step := CloseAll(r, {i}, Okay, child, now);
    CloseAllShape(r, {i}, Okay, child, now);
    CloseAllShape(q, done + {i}, Okay, child, now);
    CloseMoreIs(q, done, i, child, now, r, step);
    hide CloseAll, Parents, IsClosed;
    CloseAllUnique(q, done + {i}, Okay, child, now, step, CloseAll(q, done + {i}, Okay, child, now));
  }

  lemma CloseMoreFresh(q: Queue, done: set<nat>, i: nat, child: nat -> nat, r: Queue, now: int)
    requires i in q.cmds && i !in done
    requires FreshIds(q, Parents(q, done + {i}), child)
    requires IsClosed(q, done, Okay, child, now, r)
    requires Parents(q, done + {i}) == Parents(q, done) + Parents(r, {i})
    ensures FreshIds(r, Parents(r, {i}), child)
  {
    ParentsAre(r, {i}, i);
    ParentsAre(q, done, i);
    forall p | p in Parents(r, {i})
      ensures child(p) !in r.cmds
    {
      ParentsAre(r, {i}, p);
      assert forall o | o in Parents(q, done) :: child(o) != child(p);
      assert !CreatedFor(Parents(q, done), child, child(p));
    }
  }

  lemma CloseMoreIs(q: Queue, done: set<nat>, i: nat, child: nat -> nat, now: int, r: Queue, step: Queue)
    requires i in q.cmds && i !in done
    requires FreshIds(q, Parents(q, done + {i}), child)
    requires Parents(q, done + {i}) == Parents(q, done) + Parents(r, {i})
    requires IsClosed(q, done, Okay, child, now, r) && IsClosed(r, {i}, Okay, child, now, step)
    ensures IsClosed(q, done + {i}, Okay, child, now, step)
  {
    ParentsAre(r, {i}, i);
    assert Parents(r, {i}) <= {i};
    hide Parents, Closed, RawRow;
    forall j
      ensures CreatedFor(Parents(q, done + {i}), child, j) <==>
              CreatedFor(Parents(q, done), child, j) || CreatedFor(Parents(r, {i}), child, j)
    {
      CreatedForEither(Parents(q, done), Parents(r, {i}), child, j);
    }
    assert RowsKept(q, done + {i}, Okay, now, step) by {
      hide CreatedFor, RowsMade, PendingIs;
    }
    assert RowsMade(q, done + {i}, child, now, step) by {
      hide CreatedFor, PendingIs, RowsMade, RowsKept;
      RowsMadeMore(q, done, i, child, now, r, step);
    }
    assert PendingIs(q, done + {i}, child, step) by {
      hide CreatedFor, RowsKept, RowsMade;
      PendingMore(q, done, i, child, r, step);
    }
  }

  lemma RowsMadeMore(q: Queue, done: set<nat>, i: nat, child: nat -> nat, now: int, r: Queue, step: Queue)
    requires i in q.cmds && i !in done
    requires FreshIds(q, Parents(q, done + {i}), child)
    requires Parents(q, done + {i}) == Parents(q, done) + Parents(r, {i}) && Parents(r, {i}) <= {i}
    requires RowsKept(q, done, Okay, now, r) && RowsMade(q, done, child, now, r)
    requires RowsKept(r, {i}, Okay, now, step) && RowsMade(r, {i}, child, now, step)
    requires forall j :: CreatedFor(Parents(q, done + {i}), child, j) <==>
                         CreatedFor(Parents(q, done), child, j) || CreatedFor(Parents(r, {i}), child, j)
    ensures RowsMade(q, done + {i}, child, now, step)
  {
    hide CreatedFor, Parents, Closed, RawRow;
    forall p | p in Parents(q, done + {i})
      ensures p in q.cmds && child(p) in step.cmds && step.cmds[child(p)] == RawRow(p, q.cmds[p], RAW_OFF, now)
    {
      ParentsAre(q, done + {i}, p);
      if p in Parents(q, done) {
        assert child(p) in r.cmds && child(p) != i;
      } else {
        assert r.cmds[i] == q.cmds[i];
      }
    }
  }

  lemma CreatedForEither(a: set<nat>, b: set<nat>, child: nat -> nat, j: nat)
    ensures CreatedFor(a + b, child, j) <==> CreatedFor(a, child, j) || CreatedFor(b, child, j)
  {
    if CreatedFor(a, child, j) {
      var p :| p in a && child(p) == j;
      assert p in a + b;
    } else if CreatedFor(b, child, j) {
      var p :| p in b && child(p) == j;
      assert p in a + b;
    }
  }

  lemma PendingMore(q: Queue, done: set<nat>, i: nat, child: nat -> nat, r: Queue, step: Queue)
    requires i in q.cmds && FreshIds(q, Parents(q, done + {i}), child)
    requires Parents(q, done + {i}) == Parents(q, done) + Parents(r, {i})
    requires PendingIs(q, done, child, r) && PendingIs(r, {i}, child, step)
    ensures PendingIs(q, done + {i}, child, step)
  {
    hide Parents;
    assert !CreatedFor(Parents(q, done), child, i);
    forall j
      ensures j in step.pending <==>
              (j in q.pending && j !in done + {i}) || CreatedFor(Parents(q, done + {i}), child, j)
    {
      CreatedForEither(Parents(q, done), Parents(r, {i}), child, j);
    }
  }
}
