/**
  What each step of the command queue does to each command, in the tokens and names of the
  wire protocol. The steps of module Commands are described without their own functions.
 */
module CommandOutcomes {
  import opened Prelude
  import opened ScanMerge
  import opened Commands

  /** The name the source compares: the kind when the name is blank. */
  ghost predicate Named(c: Command, name: string) {
    if c.name == "" then c.kind == name else c.name == name
  }

  /** Only the status, the finishing time and the merged detections may differ. */
  ghost predicate FinishedAs(c: Command, d: Command, status: Status, now: int) {
    d == c.(status := status, finished := Some(now), detections := d.detections)
  }

  // ---------------------------------------------------------------------------
  // Enqueue, send, plain ack, delete
  // ---------------------------------------------------------------------------

  /** Within two seconds of the last successful send to the node nothing changes. */
  lemma RateLimited(q: Queue, id: nat, c: Command, onId: nat, now: int, q': Queue)
    requires Next(q, Enqueue(id, c, onId), now, q')
    requires c.node in q.rate && now - q.rate[c.node] < 2_000_000_000
    ensures q' == q
  {
  }

  /** Otherwise the command waits, and a DEVICE_SCAN_START brings a RAW_BLE_ON to the same target. */
  lemma Queued(q: Queue, id: nat, c: Command, onId: nat, now: int, q': Queue)
    requires Next(q, Enqueue(id, c, onId), now, q')
    requires c.node in q.rate ==> now - q.rate[c.node] >= 2_000_000_000
    ensures id in q'.cmds && id in q'.pending
    ensures var d := q'.cmds[id];
      && d.node == c.node && d.kind == c.kind && d.name == c.name && d.target == c.target && d.params == c.params
      && d.status == Pending && d.created == now && d.sentAt == None && d.finished == None
      && d.retries == 0 && d.maxRetries == (if c.maxRetries == 0 then 3 else c.maxRetries) && d.rows == []
    ensures c.name != "DEVICE_SCAN_START" ==>
              q'.cmds.Keys == q.cmds.Keys + {id} && q'.pending == q.pending + {id}
    ensures c.name == "DEVICE_SCAN_START" ==>
              && q'.cmds.Keys == q.cmds.Keys + {id, onId} && q'.pending == q.pending + {id, onId}
              && var on := q'.cmds[onId];
                 && on.name == on.kind == "RAW_BLE_ON" && on.node == c.node && on.target == c.target
                 && on.status == Pending && on.created == now && on.retries == 0 && on.maxRetries == 3
    ensures forall i | i in q.cmds :: q'.cmds[i] == q.cmds[i]
    ensures q'.rate == q.rate && q'.byAck == q.byAck
  {
  }

  /** A successful send stamps command and node; a failed one counts, and the last one ends in ERROR. */
  lemma SendDone(q: Queue, id: nat, ok: bool, now: int, q': Queue)
    requires Next(q, Send(id, ok), now, q') && id in q.cmds
    ensures var c, d := q.cmds[id], q'.cmds[id];
      && (ok ==>
            && d == c.(status := Sent, sentAt := Some(now))
            && q'.rate == q.rate[c.node := now] && q'.pending == q.pending)
      && (!ok && c.retries + 1 < c.maxRetries ==> d == c.(retries := c.retries + 1) && q'.pending == q.pending)
      && (!ok && c.retries + 1 >= c.maxRetries ==>
            d == c.(retries := c.retries + 1, status := Error) && q'.pending == q.pending - {id})
      && (!ok ==> q'.rate == q.rate)
    ensures q'.cmds.Keys == q.cmds.Keys && forall i | i in q.cmds && i != id :: q'.cmds[i] == q.cmds[i]
  {
  }

  lemma PlainAckDone(q: Queue, id: nat, now: int, q': Queue)
    requires Next(q, HandleAck(id), now, q')
    ensures id in q.pending && id in q.cmds ==>
              && id in q'.cmds && FinishedAs(q.cmds[id], q'.cmds[id], Okay, now) && q'.pending == q.pending - {id}
    ensures !(id in q.pending && id in q.cmds) ==> q' == q
    ensures q'.cmds.Keys == q.cmds.Keys && forall i | i in q.cmds && i != id :: q'.cmds[i] == q.cmds[i]
  {
  }

  // ---------------------------------------------------------------------------
  // Structured acks
  // ---------------------------------------------------------------------------

  ghost predicate StartsWith(s: string, p: string) {
    p <= s
  }

  ghost predicate EndsWith(s: string, p: string) {
    exists front :: s == front + p
  }

  /** Which commands an ack reaches: pending, not finished, and named by the ack, its prefix or its suffix. */
  lemma ReachedIff(q: Queue, a: AckFrame, i: nat)
    ensures Candidate(q, a, i) <==>
            && i in q.pending && i in q.cmds
            && (q.cmds[i].status == Pending || q.cmds[i].status == Sent || q.cmds[i].status == Running)
            && var name := if q.cmds[i].name == "" then q.cmds[i].kind else q.cmds[i].name;
               || name == a.cmdName
               || (a.kind == "CONFIG_ACK" && StartsWith(name, "CONFIG_"))
               || (a.kind == "HB_ACK" && StartsWith(name, "HB_"))
               || (a.kind == "CODE_ACK" && StartsWith(name, "CODE_"))
               || (a.kind == "PROBE_ACK" && StartsWith(name, "PROBE_"))
               || (a.kind == "RAW_BLE_ACK" && StartsWith(name, "RAW_BLE_"))
               || (a.kind == "SCAN_DONE_ACK" && EndsWith(name, "SCAN_START"))
               || (a.kind == "STOP_ACK" && EndsWith(name, "STOP"))
  {
    if i in q.cmds {
      NameReached(a, if q.cmds[i].name == "" then q.cmds[i].kind else q.cmds[i].name);
    }
    hide NameMatches, StartsWith, EndsWith;
  }

  lemma PrefixIff(s: string, p: string)
    ensures HasPrefix(s, p) <==> StartsWith(s, p)
    ensures HasSuffix(s, p) <==> EndsWith(s, p)
  {
    if HasSuffix(s, p) {
      assert s == s[..|s| - |p|] + p;
    }
  }

  lemma NameReached(a: AckFrame, name: string)
    ensures NameMatches(a, name) <==>
            || name == a.cmdName
            || (a.kind == "CONFIG_ACK" && StartsWith(name, "CONFIG_"))
            || (a.kind == "HB_ACK" && StartsWith(name, "HB_"))
            || (a.kind == "CODE_ACK" && StartsWith(name, "CODE_"))
            || (a.kind == "PROBE_ACK" && StartsWith(name, "PROBE_"))
            || (a.kind == "RAW_BLE_ACK" && StartsWith(name, "RAW_BLE_"))
            || (a.kind == "SCAN_DONE_ACK" && EndsWith(name, "SCAN_START"))
            || (a.kind == "STOP_ACK" && EndsWith(name, "STOP"))
  {
    PrefixIff(name, "CONFIG_");
    PrefixIff(name, "HB_");
    PrefixIff(name, "CODE_");
    PrefixIff(name, "PROBE_");
    PrefixIff(name, "RAW_BLE_");
    PrefixIff(name, "SCAN_START");
    PrefixIff(name, "STOP");
    hide HasPrefix, HasSuffix, StartsWith, EndsWith;
  }

  /** Tokens, in upper case, of a failure. */
  ghost predicate FailureToken(t: string) {
    t == "ERROR" || t == "FAILED" || t == "TIMEOUT" || t == "FULL" || t == "NOT_FOUND" || StartsWith(t, "INVALID")
  }

  /** Tokens of a success; TARGET_INTERVAL_ACK repeats the interval it applied. */
  ghost predicate SuccessToken(kind: string, t: string) {
    || t == "" || t == "OK" || t == "COMPLETE" || t == "COMPLETED" || t == "FINISHED" || t == "SUCCESS"
    || t == "STOPPED" || t == "ENABLED" || t == "DISABLED" || t == "ON" || t == "OFF"
    || t == "CANCELLED" || t == "CANCELED" || t == "UPDATED" || t == "EXISTS"
    || StartsWith(t, "INTERVAL") || (kind == "TARGET_INTERVAL_ACK" && t != "")
  }

  ghost function TokenStatus(kind: string, t: string): Status {
    if t == "STARTED" then Running
    else if FailureToken(t) then Error
    else if SuccessToken(kind, t) then Okay
    else Sent
  }

  lemma TokenStatusIs(a: AckFrame)
    ensures AckedStatus(a) == TokenStatus(a.kind, a.upper)
  {
    PrefixIff(a.upper, "INVALID");
    PrefixIff(a.upper, "INTERVAL");
    hide HasPrefix, StartsWith;
  }

  /** The names of running work that a stop halts. */
  ghost predicate ScanName(name: string) {
    || name == "SCAN_START" || name == "DEVICE_SCAN_START" || name == "BASELINE_START" || name == "DRONE_START"
    || name == "DEAUTH_START" || name == "RANDOMIZATION_START" || name == "PROBE_START"
  }

  /** A running command that the ack closes along with the matched one, whose target is given. */
  ghost predicate Halts(a: AckFrame, target: string, c: Command) {
    && c.status == Running
    && var name := if c.name == "" then c.kind else c.name;
       || (a.kind == "PROBE_ACK" && a.upper == "STOPPED" && name == "PROBE_START")
       || (a.kind == "STOP_ACK" && ScanName(name) && (target == "@ALL" || c.target == target))
  }

  lemma HaltsIff(a: AckFrame, target: string, c: Command)
    ensures InScope(a, target, c) <==> Halts(a, target, c)
  {
  }

  /**
    The matched command: STARTED keeps it waiting as RUNNING, unless it is itself a scan that this
    STOP_ACK halts; every other token takes it out with the status the token stands for.
   */
  lemma MatchedOutcome(q: Queue, a: AckFrame, m: nat, child: nat -> nat, child2: nat -> nat, now: int, q': Queue)
    requires Next(q, Structured(a, Some(m), child, child2), now, q')
    ensures m in q'.cmds && q'.cmds[m].ackNode == a.node
    ensures TokenStatus(a.kind, a.upper) != Running ==>
              && m !in q'.pending && m in q'.byAck && q'.cmds[m].finished == Some(now)
              && q'.cmds[m].status == TokenStatus(a.kind, a.upper)
    ensures TokenStatus(a.kind, a.upper) == Running ==>
              var c := q.cmds[m].(status := Running, ackNode := a.node);
              if Halts(a, c.target, c) then
                m !in q'.pending && q'.cmds[m].status == Okay && q'.cmds[m].finished == Some(now)
              else
                m in q'.pending && q'.cmds[m] == c
  {
    TokenStatusIs(a);
    hide AckedStatus, NameMatches, TokenStatus, ScanClass, ScanName;
    var q1 := AckMatched(q, a, m, child, now);
    var scope := Scope(q1, a, q.cmds[m].target);
    MatchedFirst(q, a, m, child, now);
    HaltsIff(a, q.cmds[m].target, q1.cmds[m]);
    assert m in scope <==> m in q1.pending && InScope(a, q.cmds[m].target, q1.cmds[m]);
    hide AckMatched, Scope, Halts, InScope;
    ClosedOne(q1, scope, Okay, child2, now, m);
  }

  lemma ClosedIs(c: Command, status: Status, now: int)
    ensures ClosedAs(c, Closed(c, status, now), status, now)
  {
    hide Merged;
  }

  /** CloseAll, seen from one command that was there before. */
  lemma ClosedOne(q: Queue, ids: set<nat>, status: Status, child: nat -> nat, now: int, i: nat)
    requires FreshIds(q, Parents(q, ids), child) && i in q.cmds
    ensures var q' := CloseAll(q, ids, status, child, now);
      && i in q'.cmds && q'.byAck == q.byAck + ids
      && (i in q'.pending <==> i in q.pending && i !in ids)
      && (i !in ids ==> q'.cmds[i] == q.cmds[i])
      && (i in ids ==> ClosedAs(q.cmds[i], q'.cmds[i], status, now))
  {
    CloseAllShape(q, ids, status, child, now);
    ClosedIs(q.cmds[i], status, now);
    hide CloseAll, Parents, Closed, ClosedAs, RowsMade;
    assert !CreatedFor(Parents(q, ids), child, i);
  }

  /** Closed with a status; the rows of a scan, if it noted any, are merged into its result. */
  ghost predicate ClosedAs(c: Command, d: Command, status: Status, now: int) {
    && FinishedAs(c, d, status, now)
    && d.detections == (if (c.name == "DEVICE_SCAN_START" || c.name == "SCAN_START") && c.rows != [] then Merged(c.rows)
                        else c.detections)
  }

  lemma MatchedFirst(q: Queue, a: AckFrame, m: nat, child: nat -> nat, now: int)
    requires m in q.cmds && m in q.pending && FreshIds(q, Parents(q, {m}), child)
    ensures var q1, c := AckMatched(q, a, m, child, now), q.cmds[m].(ackNode := a.node);
      && m in q1.cmds && q1.cmds[m].ackNode == a.node && q1.cmds[m].target == c.target
      && (AckedStatus(a) == Running ==> m in q1.pending && q1.cmds[m] == c.(status := Running))
      && (AckedStatus(a) != Running ==>
            m !in q1.pending && m in q1.byAck && ClosedAs(c, q1.cmds[m], AckedStatus(a), now))
  {
    hide AckedStatus, CloseAll;
    var noted := q.(cmds := q.cmds[m := q.cmds[m].(ackNode := a.node)]);
    assert Parents(noted, {m}) == Parents(q, {m});
    if AckedStatus(a) != Running {
      ClosedOne(noted, {m}, AckedStatus(a), child, now, m);
    }
  }

  /** A closed scan carries its merged rows. */
  lemma MatchedDetections(q: Queue, a: AckFrame, m: nat, child: nat -> nat, child2: nat -> nat, now: int, q': Queue)
    requires Next(q, Structured(a, Some(m), child, child2), now, q') && TokenStatus(a.kind, a.upper) != Running
    ensures m in q'.cmds && ClosedAs(q.cmds[m].(ackNode := a.node), q'.cmds[m], TokenStatus(a.kind, a.upper), now)
  {
    TokenStatusIs(a);
    hide AckedStatus, NameMatches, TokenStatus;
    MatchedFirst(q, a, m, child, now);
    var q1 := AckMatched(q, a, m, child, now);
    var scope := Scope(q1, a, q.cmds[m].target);
    assert m !in scope;
    hide AckMatched, Scope;
    ClosedOne(q1, scope, Okay, child2, now, m);
  }

  /** Every other command: closed as OK if the ack halts it, and left alone if not. */
  lemma OthersOutcome(q: Queue, a: AckFrame, m: nat, child: nat -> nat, child2: nat -> nat, now: int, q': Queue, i: nat)
    requires Next(q, Structured(a, Some(m), child, child2), now, q') && i in q.cmds && i != m
    ensures i in q'.cmds
    ensures if i in q.pending && Halts(a, q.cmds[m].target, q.cmds[i]) then
              i !in q'.pending && i in q'.byAck && ClosedAs(q.cmds[i], q'.cmds[i], Okay, now)
            else
              q'.cmds[i] == q.cmds[i] && (i in q'.pending <==> i in q.pending)
  {
    hide AckedStatus, NameMatches, ScanClass, ScanName;
    var q1 := AckMatched(q, a, m, child, now);
    var scope := Scope(q1, a, q.cmds[m].target);
    OthersFirst(q, a, m, child, now, i);
    HaltsIff(a, q.cmds[m].target, q.cmds[i]);
    assert i in scope <==> i in q1.pending && InScope(a, q.cmds[m].target, q1.cmds[i]);
    hide AckMatched, Scope, Halts, InScope;
    ClosedOne(q1, scope, Okay, child2, now, i);
  }

  lemma OthersFirst(q: Queue, a: AckFrame, m: nat, child: nat -> nat, now: int, i: nat)
    requires m in q.cmds && FreshIds(q, Parents(q, {m}), child) && i in q.cmds && i != m
    ensures var q1 := AckMatched(q, a, m, child, now);
      i in q1.cmds && q1.cmds[i] == q.cmds[i] && (i in q1.pending <==> i in q.pending)
  {
    hide AckedStatus, CloseAll;
    var noted := q.(cmds := q.cmds[m := q.cmds[m].(ackNode := a.node)]);
    assert Parents(noted, {m}) == Parents(q, {m});
    if AckedStatus(a) != Running {
      ClosedOne(noted, {m}, AckedStatus(a), child, now, i);
    }
  }

  // ---------------------------------------------------------------------------
  // Timeouts and detections
  // ---------------------------------------------------------------------------

  ghost predicate SaysForever(text: Text, params: seq<string>) {
    exists i :: 0 <= i < |params| && text.forever(params[i])
  }

  /** A running probe that was sent with a positive duration, not FOREVER, which is over by more than the grace. */
  ghost predicate Overdue(text: Text, c: Command, grace: int, now: int) {
    && Named(c, "PROBE_START") && c.status == Running && c.sentAt.Some?
    && !SaysForever(text, c.params) && |c.params| >= 2
    && match text.seconds(c.params[1])
       case Some(d) => d > 0 && now - c.sentAt.value >= d * 1_000_000_000 + grace
       case None => false
  }

  lemma OverdueIff(text: Text, c: Command, grace: int, now: int)
    ensures RunningProbe(c) && WindowOver(text, c, grace, now) <==> Overdue(text, c, grace, now)
  {
    assert HasForever(text, c.params) <==> SaysForever(text, c.params);
    hide HasForever, SaysForever;
  }

  lemma TimeoutOutcome(q: Queue, text: Text, grace: int, now: int, q': Queue, i: nat)
    requires Next(q, Timeout(text, grace), now, q') && i in q.cmds
    ensures i in q'.cmds
    ensures if i in q.pending && Overdue(text, q.cmds[i], grace, now) then
              i !in q'.pending && q'.cmds[i] == q.cmds[i].(status := Okay, finished := Some(now))
            else
              q'.cmds[i] == q.cmds[i] && (i in q'.pending <==> i in q.pending)
  {
    OverdueIff(text, q.cmds[i], grace, now);
    hide RunningProbe, WindowOver, Overdue;
  }

  /** A running scan that a detection of this node concerns. */
  ghost predicate Hears(c: Command, nodeId: string) {
    && (Named(c, "DEVICE_SCAN_START") || Named(c, "SCAN_START")) && c.status == Running
    && (c.target == "@ALL" || c.target == "@" + nodeId || c.ackNode == nodeId)
  }

  ghost predicate HasRow(rows: seq<Detection>, det: Detection) {
    exists k :: 0 <= k < |rows| && rows[k].mac == det.mac && rows[k].source == det.source
  }

  lemma DetectionOutcome(q: Queue, nodeId: string, det: Detection, now: int, q': Queue, i: nat)
    requires Next(q, Detect(nodeId, det), now, q') && i in q.cmds
    ensures i in q'.cmds && q'.pending == q.pending
    ensures var c := q.cmds[i];
      q'.cmds[i] ==
      if det.mac != 0 && det.source != Other("") && i in q.pending && Hears(c, nodeId) && !HasRow(c.rows, det)
      then c.(rows := c.rows + [det])
      else c
  {
    HearsIff(q.cmds[i], nodeId);
    hide Listens, Hears;
  }

  lemma HearsIff(c: Command, nodeId: string)
    ensures Listens(c, nodeId) <==> Hears(c, nodeId)
  {
  }
}
