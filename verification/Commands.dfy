/**
  The command queue (internal/commands/service.go:161-650, 802-867, 976-1043): commands wait
  in a pending map, acks close them by name, a STOP ack closes the scans it halts, and every
  DEVICE_SCAN_START is bracketed by RAW_BLE_ON and RAW_BLE_OFF.
 */
module Commands {
  import opened Prelude
  import opened ScanMerge

  datatype Status = Pending | Sent | Running | Okay | Error

  /**
    A Command. name falls back to kind when it is blank. attached is autoRawAttached. parent
    names the command a RAW_BLE row was created for; the source keeps no such field.
   */
  datatype Command = Command(node: nat, kind: string, name: string, target: string, status: Status, created: int,
                             sentAt: Option<int>, params: seq<string>, retries: nat, maxRetries: nat, attached: bool,
                             rows: seq<Detection>, detections: seq<Detection>, ackNode: string,
                             finished: Option<int>, parent: Option<nat>)

  /**
    cmds holds every command ever queued; pending the ids still waiting; rate the last send to
    each node; byAck the ids that a structured ack closed, itself or by its fan-out.
   */
  datatype Queue = Queue(cmds: map<nat, Command>, pending: set<nat>, rate: map<nat, int>, byAck: set<nat>)

  const DEVICE_SCAN := "DEVICE_SCAN_START"
  const SCAN := "SCAN_START"
  const RAW_ON := "RAW_BLE_ON"
  const RAW_OFF := "RAW_BLE_OFF"
  const ALL := "@ALL"

  const NODE_GAP := 2 * SECOND

  function NameOf(c: Command): string {
    if c.name == "" then c.kind else c.name
  }

  predicate Active(c: Command) {
    c.status == Pending || c.status == Sent || c.status == Running
  }

  // ---------------------------------------------------------------------------
  // Building blocks
  // ---------------------------------------------------------------------------

  /** The RAW_BLE_ON or RAW_BLE_OFF row created for a parent. */
  function RawRow(id: nat, parent: Command, name: string, now: int): Command {
    Command(parent.node, name, name, parent.target, Pending, now, None, [], 0, 3, false, [], [], "", None, Some(id))
  }

  /** Leaving the pending map: a scan's rows are merged into its result. */
  function Closed(c: Command, status: Status, now: int): Command {
    var done := c.(status := status, finished := Some(now));
    if (c.name == DEVICE_SCAN || c.name == SCAN) && c.rows != [] then done.(detections := Merged(c.rows)) else done
  }

  predicate WantsOff(c: Command) {
    c.attached && c.name == DEVICE_SCAN
  }

  /** The commands of ids that get a RAW_BLE_OFF when they close. */
  function Parents(q: Queue, ids: set<nat>): set<nat> {
    set p | p in ids && p in q.cmds && WantsOff(q.cmds[p])
  }

  /** Fresh, pairwise different ids for the rows created for parents. */
  ghost predicate FreshIds(q: Queue, parents: set<nat>, child: nat -> nat) {
    && (forall p | p in parents :: child(p) !in q.cmds)
    && (forall p, r | p in parents && r in parents && child(p) == child(r) :: p == r)
  }

  /** Closes ids with a status each, and creates their RAW_BLE_OFF rows. */
  ghost function CloseAll(q: Queue, ids: set<nat>, status: Status, child: nat -> nat, now: int): Queue
    requires FreshIds(q, Parents(q, ids), child)
  {
    var kids := set p | p in Parents(q, ids) :: child(p);
    Queue((map i | i in q.cmds :: if i in ids then Closed(q.cmds[i], status, now) else q.cmds[i]) +
            (map p | p in Parents(q, ids) :: child(p) := RawRow(p, q.cmds[p], RAW_OFF, now)),
          q.pending - ids + kids, q.rate, q.byAck + ids)
  }

  // ---------------------------------------------------------------------------
  // Acks
  // ---------------------------------------------------------------------------

  predicate HasPrefix(s: string, p: string) {
    |p| <= |s| && s[..|p|] == p
  }

  predicate HasSuffix(s: string, p: string) {
    |p| <= |s| && s[|s| - |p|..] == p
  }

  /** An ack with the command name its kind maps to; upper is its status in upper case. */
  datatype AckFrame = AckFrame(kind: string, cmdName: string, upper: string, node: string)

  function WantPrefix(kind: string): string {
    if kind == "CONFIG_ACK" then "CONFIG_"
    else if kind == "HB_ACK" then "HB_"
    else if kind == "CODE_ACK" then "CODE_"
    else if kind == "PROBE_ACK" then "PROBE_"
    else if kind == "RAW_BLE_ACK" then "RAW_BLE_"
    else ""
  }

  function WantSuffix(kind: string): string {
    if kind == "SCAN_DONE_ACK" then SCAN else if kind == "STOP_ACK" then "STOP" else ""
  }

  predicate NameMatches(a: AckFrame, name: string) {
    || name == a.cmdName
    || (WantPrefix(a.kind) != "" && HasPrefix(name, WantPrefix(a.kind)))
    || (WantSuffix(a.kind) != "" && HasSuffix(name, WantSuffix(a.kind)))
  }

  /** A pending command that the ack may close. */
  predicate Candidate(q: Queue, a: AckFrame, i: nat) {
    i in q.pending && i in q.cmds && NameMatches(a, NameOf(q.cmds[i])) && Active(q.cmds[i])
  }

  /** A candidate of greatest creation time. */
  ghost predicate Latest(q: Queue, a: AckFrame, m: nat) {
    Candidate(q, a, m) && forall i | Candidate(q, a, i) :: q.cmds[i].created <= q.cmds[m].created
  }

  /** The status an ack leads to. An unrecognised token leaves SENT. */
  function AckedStatus(a: AckFrame): Status {
    var intervalOk := a.kind == "TARGET_INTERVAL_ACK" && !HasPrefix(a.upper, "INVALID") && a.upper != "";
    if a.upper == "STARTED" then Running
    else if a.upper in {"ERROR", "FAILED", "TIMEOUT", "FULL", "NOT_FOUND"} || HasPrefix(a.upper, "INVALID") then Error
    else if a.upper in {"", "OK", "COMPLETE", "COMPLETED", "FINISHED", "SUCCESS", "STOPPED", "ENABLED", "DISABLED",
                        "ON", "OFF", "CANCELLED", "CANCELED", "UPDATED", "EXISTS"} then Okay
    else if HasPrefix(a.upper, "INTERVAL") || intervalOk then Okay
    else Sent
  }

  predicate ScanClass(name: string) {
    name in {SCAN, DEVICE_SCAN, "BASELINE_START", "DRONE_START", "DEAUTH_START", "RANDOMIZATION_START", "PROBE_START"}
  }

  /** Which running commands an ack that matched a command with this target closes as well. */
  predicate InScope(a: AckFrame, target: string, c: Command) {
    c.status == Running &&
    (|| (a.kind == "PROBE_ACK" && a.upper == "STOPPED" && NameOf(c) == "PROBE_START")
     || (a.kind == "STOP_ACK" && ScanClass(NameOf(c)) && (target == ALL || c.target == target)))
  }

  function Scope(q: Queue, a: AckFrame, target: string): set<nat> {
    set i | i in q.pending && i in q.cmds && InScope(a, target, q.cmds[i])
  }

  /** The matched command after the ack, still pending when it is now running. */
  ghost function AckMatched(q: Queue, a: AckFrame, m: nat, child: nat -> nat, now: int): Queue
    requires m in q.cmds && FreshIds(q, Parents(q, {m}), child)
  {
    var noted := q.(cmds := q.cmds[m := q.cmds[m].(ackNode := a.node)]);
    if AckedStatus(a) == Running then q.(cmds := q.cmds[m := q.cmds[m].(ackNode := a.node, status := Running)])
    else CloseAll(noted, {m}, AckedStatus(a), child, now)
  }

  /** HandleStructuredACK once a command matched: first that command, then the others in scope. */
  ghost predicate StructuredStep(q: Queue, q': Queue, a: AckFrame, m: nat, child: nat -> nat, child2: nat -> nat,
                                 now: int)
    requires m in q.cmds
  {
    && FreshIds(q, Parents(q, {m}), child)
    && var q1 := AckMatched(q, a, m, child, now);
       var scope := Scope(q1, a, q.cmds[m].target);
       && FreshIds(q1, Parents(q1, scope), child2)
       && q' == CloseAll(q1, scope, Okay, child2, now)
  }

  // ---------------------------------------------------------------------------
  // The other steps
  // ---------------------------------------------------------------------------

  /** Enqueue, with the id of the RAW_BLE_ON row it may create. */
  function AfterEnqueue(q: Queue, id: nat, c: Command, onId: nat, now: int): Queue {
    if c.node in q.rate && now - q.rate[c.node] < NODE_GAP then q
    else
      var retries := if c.maxRetries == 0 then 3 else c.maxRetries;
      var queued := Command(c.node, c.kind, c.name, c.target, Pending, now, None, c.params, 0, retries,
                            c.name == DEVICE_SCAN, [], [], "", None, None);
      if c.name == DEVICE_SCAN then
        q.(cmds := q.cmds[id := queued][onId := RawRow(id, queued, RAW_ON, now)], pending := q.pending + {id, onId})
      else
        q.(cmds := q.cmds[id := queued], pending := q.pending + {id})
  }

  /** The second locked section of send. The command may have left the pending map by then. */
  function AfterSend(q: Queue, id: nat, ok: bool, now: int): Queue {
    if id !in q.cmds then q
    else
      var c := q.cmds[id];
      if ok then q.(cmds := q.cmds[id := c.(status := Sent, sentAt := Some(now))], rate := q.rate[c.node := now])
      else if c.retries + 1 >= c.maxRetries then
        q.(cmds := q.cmds[id := c.(retries := c.retries + 1, status := Error)], pending := q.pending - {id})
      else q.(cmds := q.cmds[id := c.(retries := c.retries + 1)])
  }

  /** HandleACK. */
  function AfterAck(q: Queue, id: nat, now: int): Queue {
    if id !in q.pending || id !in q.cmds then q
    else q.(cmds := q.cmds[id := q.cmds[id].(status := Okay, finished := Some(now))], pending := q.pending - {id})
  }

  predicate RunningProbe(c: Command) {
    NameOf(c) == "PROBE_START" && c.status == Running
  }

  /**
    The library's reading of a parameter: whether it is FOREVER but for blanks and letter case, and
    the number it spells but for blanks, if it does.
   */
  datatype Text = Text(forever: string -> bool, seconds: string -> Option<int>)

  predicate HasForever(text: Text, params: seq<string>) {
    exists i :: 0 <= i < |params| && text.forever(params[i])
  }

  /** The duration in seconds that the second parameter sets, unless some parameter says FOREVER. */
  function Duration(text: Text, params: seq<string>): Option<int> {
    if HasForever(text, params) || |params| < 2 then None
    else
      match text.seconds(params[1])
      case Some(d) => if d > 0 then Some(d) else None
      case None => None
  }

  /** The duration of a sent probe and the grace period have passed. */
  predicate WindowOver(text: Text, c: Command, grace: int, now: int) {
    && c.sentAt.Some? && Duration(text, c.params).Some?
    && now - c.sentAt.value >= Duration(text, c.params).value * SECOND + grace
  }

  /** A running probe whose window is over. */
  predicate Expires(q: Queue, text: Text, grace: int, now: int, i: nat) {
    i in q.pending && i in q.cmds && RunningProbe(q.cmds[i]) && WindowOver(text, q.cmds[i], grace, now)
  }

  /** EnforceScanTimeouts closes the running probes whose window is over. */
  function AfterTimeout(q: Queue, text: Text, grace: int, now: int): Queue {
    var ids := set i | i in q.pending && Expires(q, text, grace, now, i);
    q.(cmds := map i | i in q.cmds :: if i in ids then q.cmds[i].(status := Okay, finished := Some(now)) else q.cmds[i],
       pending := q.pending - ids)
  }

  predicate Listens(c: Command, nodeId: string) {
    && (NameOf(c) == DEVICE_SCAN || NameOf(c) == SCAN) && c.status == Running
    && (c.target == ALL || c.target == "@" + nodeId || c.ackNode == nodeId)
  }

  /** A detection is noted once for each device and source. */
  function Noted(c: Command, det: Detection): Command {
    if exists i :: 0 <= i < |c.rows| && c.rows[i].mac == det.mac && c.rows[i].source == det.source then c
    else c.(rows := c.rows + [det])
  }

  /** RecordScanDetection. */
  function AfterDetection(q: Queue, nodeId: string, det: Detection): Queue {
    if det.mac == 0 || det.source == Other("") then q
    else
      q.(cmds := map i | i in q.cmds ::
           if i in q.pending && Listens(q.cmds[i], nodeId) then Noted(q.cmds[i], det) else q.cmds[i])
  }

  datatype Event =
    | Enqueue(id: nat, cmd: Command, onId: nat)
    | Send(id: nat, ok: bool)
    | HandleAck(id: nat)
    | Structured(ack: AckFrame, matched: Option<nat>, child: nat -> nat, child2: nat -> nat)
    | Delete(id: nat)
    | Timeout(text: Text, grace: int)
    | Detect(nodeId: string, det: Detection)

  ghost predicate Next(q: Queue, e: Event, now: int, q': Queue) {
    match e
    case Enqueue(id, c, onId) =>
      id !in q.cmds && onId !in q.cmds && id != onId && q' == AfterEnqueue(q, id, c, onId, now)
    case Send(id, ok) => q' == AfterSend(q, id, ok, now)
    case HandleAck(id) => q' == AfterAck(q, id, now)
    case Structured(a, matched, child, child2) =>
      if matched.Some? then Latest(q, a, matched.value) && StructuredStep(q, q', a, matched.value, child, child2, now)
      else (forall i :: !Candidate(q, a, i)) && q' == q
    case Delete(id) => q' == q.(pending := q.pending - {id})
    case Timeout(text, grace) => q' == AfterTimeout(q, text, grace, now)
    case Detect(nodeId, det) => q' == AfterDetection(q, nodeId, det)
  }

  // ---------------------------------------------------------------------------
  // The invariant
  // ---------------------------------------------------------------------------

  ghost predicate IsChild(q: Queue, p: nat, name: string, c: nat) {
    c in q.cmds && q.cmds[c].parent == Some(p) && q.cmds[c].name == name
  }

  ghost predicate HasChild(q: Queue, p: nat, name: string) {
    exists c :: IsChild(q, p, name, c)
  }

  ghost predicate AtMostOneChild(q: Queue, p: nat, name: string) {
    forall c, d | IsChild(q, p, name, c) && IsChild(q, p, name, d) :: c == d
  }

  ghost predicate PendingOk(q: Queue) {
    && (forall i | i in q.pending :: i in q.cmds && Active(q.cmds[i]))
    && (forall i | i in q.byAck :: i in q.cmds && i !in q.pending)
  }

  /** The RAW_BLE rows of command p. */
  ghost predicate PairOk(q: Queue, p: nat)
    requires p in q.cmds
  {
    && (q.cmds[p].attached <==> q.cmds[p].name == DEVICE_SCAN)
    && (q.cmds[p].attached ==> q.cmds[p].parent == None)
    && AtMostOneChild(q, p, RAW_ON) && AtMostOneChild(q, p, RAW_OFF)
    && (HasChild(q, p, RAW_ON) <==> q.cmds[p].attached)
    && (HasChild(q, p, RAW_OFF) <==> q.cmds[p].attached && p in q.byAck)
  }

  /** A created row goes to the same target as its parent. */
  ghost predicate ChildOk(q: Queue, c: nat)
    requires c in q.cmds
  {
    q.cmds[c].parent.Some? ==>
      var p := q.cmds[c].parent.value;
      p in q.cmds && q.cmds[c].target == q.cmds[p].target && q.cmds[c].node == q.cmds[p].node
  }

  ghost predicate Inv(q: Queue) {
    && PendingOk(q)
    && (forall i | i in q.cmds :: PairOk(q, i) && ChildOk(q, i))
  }

  /** The fields that decide pairing. */
  ghost predicate SameShape(c: Command, d: Command) {
    c.name == d.name && c.target == d.target && c.node == d.node && c.attached == d.attached && c.parent == d.parent
  }

  /** A step that touches only statuses, results and the pending set keeps the pairing. */
  lemma SameShapeKeepsPairs(q: Queue, q': Queue)
    requires forall i | i in q.cmds :: PairOk(q, i) && ChildOk(q, i)
    requires q'.cmds.Keys == q.cmds.Keys && q'.byAck == q.byAck
    requires forall i | i in q.cmds :: SameShape(q.cmds[i], q'.cmds[i])
    ensures forall i | i in q'.cmds :: PairOk(q', i) && ChildOk(q', i)
  {
    forall p, name, c
      ensures IsChild(q', p, name, c) <==> IsChild(q, p, name, c)
    {
    }
    forall i | i in q'.cmds
      ensures PairOk(q', i) && ChildOk(q', i)
    {
      assert PairOk(q, i) && ChildOk(q, i);
      SameChildren(q, q', i, RAW_ON);
      SameChildren(q, q', i, RAW_OFF);
    }
  }

  lemma SameChildren(q: Queue, q': Queue, p: nat, name: string)
    requires forall c :: IsChild(q', p, name, c) <==> IsChild(q, p, name, c)
    ensures HasChild(q', p, name) <==> HasChild(q, p, name)
    ensures AtMostOneChild(q', p, name) <==> AtMostOneChild(q, p, name)
  {
    if HasChild(q, p, name) {
      var c :| IsChild(q, p, name, c);
      assert IsChild(q', p, name, c);
    }
    if HasChild(q', p, name) {
      var c :| IsChild(q', p, name, c);
      assert IsChild(q, p, name, c);
    }
  }

  // ---------------------------------------------------------------------------
  // Every step keeps it
  // ---------------------------------------------------------------------------

  lemma EnqueueChildren(q: Queue, q': Queue, id: nat, onId: nat, p: nat, name: string, c: nat)
    requires id !in q.cmds && onId !in q.cmds && id != onId
    requires q'.cmds.Keys == q.cmds.Keys + {id, onId}
    requires forall i | i in q.cmds :: q'.cmds[i] == q.cmds[i]
    requires q'.cmds[id].parent == None && q'.cmds[onId].parent == Some(id) && q'.cmds[onId].name == RAW_ON
    ensures IsChild(q', p, name, c) <==> IsChild(q, p, name, c) || (p == id && name == RAW_ON && c == onId)
  {
  }

  lemma EnqueueScanPairs(q: Queue, q': Queue, id: nat, onId: nat)
    requires Inv(q) && id !in q.cmds && onId !in q.cmds && id != onId
    requires q'.cmds.Keys == q.cmds.Keys + {id, onId} && q'.byAck == q.byAck
    requires forall i | i in q.cmds :: q'.cmds[i] == q.cmds[i]
    requires q'.cmds[id].parent == None && q'.cmds[id].attached && q'.cmds[id].name == DEVICE_SCAN
    requires q'.cmds[onId].parent == Some(id) && q'.cmds[onId].name == RAW_ON && !q'.cmds[onId].attached
    requires q'.cmds[onId].target == q'.cmds[id].target && q'.cmds[onId].node == q'.cmds[id].node
    ensures forall i | i in q'.cmds :: PairOk(q', i) && ChildOk(q', i)
  {
    forall p, name, c
      ensures IsChild(q', p, name, c) <==> IsChild(q, p, name, c) || (p == id && name == RAW_ON && c == onId)
    {
      EnqueueChildren(q, q', id, onId, p, name, c);
    }
    assert |RAW_ON| != |RAW_OFF| && |RAW_ON| != |DEVICE_SCAN|;
    forall i | i in q'.cmds
      ensures PairOk(q', i) && ChildOk(q', i)
    {
      if i in q.cmds {
        assert PairOk(q, i) && ChildOk(q, i);
        SameChildren(q, q', i, RAW_ON);
        SameChildren(q, q', i, RAW_OFF);
      } else {
        NoChildren(q, i, RAW_ON);
        NoChildren(q, i, RAW_OFF);
        if i == id {
          assert IsChild(q', id, RAW_ON, onId);
        }
      }
    }
  }

  /** An id not in use has no children. */
  lemma NoChildren(q: Queue, p: nat, name: string)
    requires Inv(q) && p !in q.cmds
    ensures forall c :: !IsChild(q, p, name, c)
  {
    forall c
      ensures !IsChild(q, p, name, c)
    {
      if c in q.cmds {
        assert ChildOk(q, c);
      }
    }
  }

  lemma EnqueuePlainPairs(q: Queue, q': Queue, id: nat)
    requires Inv(q) && id !in q.cmds
    requires q'.cmds.Keys == q.cmds.Keys + {id} && q'.byAck == q.byAck
    requires forall i | i in q.cmds :: q'.cmds[i] == q.cmds[i]
    requires q'.cmds[id].parent == None && !q'.cmds[id].attached && q'.cmds[id].name != DEVICE_SCAN
    ensures forall i | i in q'.cmds :: PairOk(q', i) && ChildOk(q', i)
  {
    forall p, name, c
      ensures IsChild(q', p, name, c) <==> IsChild(q, p, name, c)
    {
    }
    forall i | i in q'.cmds
      ensures PairOk(q', i) && ChildOk(q', i)
    {
      SameChildren(q, q', i, RAW_ON);
      SameChildren(q, q', i, RAW_OFF);
      if i in q.cmds {
        assert PairOk(q, i) && ChildOk(q, i);
      } else {
        NoChildren(q, i, RAW_ON);
        NoChildren(q, i, RAW_OFF);
      }
    }
  }

  lemma EnqueueKeepsInv(q: Queue, id: nat, c: Command, onId: nat, now: int)
    requires Inv(q) && id !in q.cmds && onId !in q.cmds && id != onId
    ensures Inv(AfterEnqueue(q, id, c, onId, now))
  {
    hide PairOk, ChildOk;
    var q' := AfterEnqueue(q, id, c, onId, now);
    assert PendingOk(q');
    if q' != q {
      if c.name == DEVICE_SCAN {
        EnqueueScanPairs(q, q', id, onId);
      } else {
        EnqueuePlainPairs(q, q', id);
      }
    }
  }

  /** i is the id of a row created for one of parents. */
  ghost predicate CreatedFor(parents: set<nat>, child: nat -> nat, i: nat) {
    exists p :: p in parents && child(p) == i
  }

  ghost predicate RowsKept(q: Queue, ids: set<nat>, status: Status, now: int, q': Queue) {
    forall i | i in q.cmds ::
      i in q'.cmds && q'.cmds[i] == if i in ids then Closed(q.cmds[i], status, now) else q.cmds[i]
  }

  ghost predicate RowsMade(q: Queue, ids: set<nat>, child: nat -> nat, now: int, q': Queue) {
    && (forall p | p in Parents(q, ids) ::
          child(p) in q'.cmds && q'.cmds[child(p)] == RawRow(p, q.cmds[p], RAW_OFF, now))
    && (forall i | i in q'.cmds && i !in q.cmds :: CreatedFor(Parents(q, ids), child, i))
  }

  ghost predicate PendingIs(q: Queue, ids: set<nat>, child: nat -> nat, q': Queue) {
    forall i :: i in q'.pending <==> (i in q.pending && i !in ids) || CreatedFor(Parents(q, ids), child, i)
  }

  /** What CloseAll leaves of the commands that were there, and what it adds. */
  ghost predicate IsClosed(q: Queue, ids: set<nat>, status: Status, child: nat -> nat, now: int, q': Queue) {
    && RowsKept(q, ids, status, now, q')
    && RowsMade(q, ids, child, now, q')
    && PendingIs(q, ids, child, q')
    && q'.byAck == q.byAck + ids && q'.rate == q.rate
  }

  lemma CloseAllShape(q: Queue, ids: set<nat>, status: Status, child: nat -> nat, now: int)
    requires FreshIds(q, Parents(q, ids), child)
    ensures IsClosed(q, ids, status, child, now, CloseAll(q, ids, status, child, now))
  {
    hide Closed, RawRow, WantsOff;
    var q' := CloseAll(q, ids, status, child, now);
    assert RowsKept(q, ids, status, now, q');
    assert RowsMade(q, ids, child, now, q') by {
      CloseAllMakes(q, ids, status, child, now);
    }
    assert PendingIs(q, ids, child, q') by {
      hide Parents;
    }
  }

  lemma CloseAllMakes(q: Queue, ids: set<nat>, status: Status, child: nat -> nat, now: int)
    requires FreshIds(q, Parents(q, ids), child)
    ensures RowsMade(q, ids, child, now, CloseAll(q, ids, status, child, now))
  {
    hide Closed, RawRow, WantsOff;
    var q' := CloseAll(q, ids, status, child, now);
    forall i | i in q'.cmds && i !in q.cmds
      ensures CreatedFor(Parents(q, ids), child, i)
    {
    }
  }

  /** The description determines the result. */
  lemma CloseAllUnique(q: Queue, ids: set<nat>, status: Status, child: nat -> nat, now: int, r: Queue, q': Queue)
    requires IsClosed(q, ids, status, child, now, r) && IsClosed(q, ids, status, child, now, q')
    ensures r == q'
  {
    hide Parents, Closed, RawRow;
    assert r.pending == q'.pending;
    forall i
      ensures i in r.cmds <==> i in q'.cmds
    {
    }
    forall i | i in r.cmds
      ensures r.cmds[i] == q'.cmds[i]
    {
      if i !in q.cmds {
        var p :| p in Parents(q, ids) && child(p) == i;
      }
    }
    assert r.cmds == q'.cmds;
  }

  lemma ClosedKeepsShape(c: Command, status: Status, now: int)
    ensures SameShape(c, Closed(c, status, now))
  {
  }

  lemma CloseAllChildren(q: Queue, ids: set<nat>, status: Status, child: nat -> nat, now: int, p: nat, name: string,
                         c: nat)
    requires FreshIds(q, Parents(q, ids), child)
    ensures IsChild(CloseAll(q, ids, status, child, now), p, name, c) <==>
            IsChild(q, p, name, c) || (p in Parents(q, ids) && name == RAW_OFF && c == child(p))
  {
    CloseAllShape(q, ids, status, child, now);
    hide CloseAll, Parents, Closed;
    var q' := CloseAll(q, ids, status, child, now);
    if c in q.cmds {
      ClosedKeepsShape(q.cmds[c], status, now);
      assert IsChild(q', p, name, c) <==> IsChild(q, p, name, c);
    } else if c in q'.cmds {
      var r :| r in Parents(q, ids) && child(r) == c;
      assert q'.cmds[c].parent == Some(r) && q'.cmds[c].name == RAW_OFF;
    }
  }

  lemma CloseAllPairs(q: Queue, ids: set<nat>, status: Status, child: nat -> nat, now: int)
    requires Inv(q) && ids <= q.pending && FreshIds(q, Parents(q, ids), child)
    ensures var q' := CloseAll(q, ids, status, child, now);
      forall i | i in q'.cmds :: PairOk(q', i) && ChildOk(q', i)
  {
    var q' := CloseAll(q, ids, status, child, now);
    CloseAllShape(q, ids, status, child, now);
    assert |RAW_ON| != |RAW_OFF|;
    forall i | i in q'.cmds
      ensures PairOk(q', i) && ChildOk(q', i)
    {
      CloseAllPair(q, ids, status, child, now, i);
    }
  }

  lemma CloseAllPair(q: Queue, ids: set<nat>, status: Status, child: nat -> nat, now: int, i: nat)
    requires Inv(q) && ids <= q.pending && FreshIds(q, Parents(q, ids), child)
    requires i in CloseAll(q, ids, status, child, now).cmds
    ensures PairOk(CloseAll(q, ids, status, child, now), i) && ChildOk(CloseAll(q, ids, status, child, now), i)
  {
    var q' := CloseAll(q, ids, status, child, now);
    CloseAllShape(q, ids, status, child, now);
    hide CloseAll, Parents, FreshIds, Closed;
    if i in q.cmds {
      OldPair(q, ids, status, child, now, i);
    } else {
      var p :| p in Parents(q, ids) && child(p) == i;
      ParentsAre(q, ids, p);
      ClosedKeepsShape(q.cmds[p], status, now);
      NewPair(q, ids, status, child, now, i);
    }
  }

  /** A command that was there before. */
  lemma OldPair(q: Queue, ids: set<nat>, status: Status, child: nat -> nat, now: int, i: nat)
    requires Inv(q) && ids <= q.pending && FreshIds(q, Parents(q, ids), child) && i in q.cmds
    ensures i in CloseAll(q, ids, status, child, now).cmds
    ensures PairOk(CloseAll(q, ids, status, child, now), i) && ChildOk(CloseAll(q, ids, status, child, now), i)
  {
    var q' := CloseAll(q, ids, status, child, now);
    CloseAllShape(q, ids, status, child, now);
    hide CloseAll, Parents, FreshIds, Closed;
    ClosedKeepsShape(q.cmds[i], status, now);
    assert PairOk(q, i) && ChildOk(q, i);
    if q.cmds[i].parent.Some? {
      ClosedKeepsShape(q.cmds[q.cmds[i].parent.value], status, now);
    }
    OnChildrenSame(q, ids, status, child, now, i);
    OffChildren(q, ids, status, child, now, i);
    ParentsAre(q, ids, i);
  }

  /** A row just created has no children. */
  lemma NewPair(q: Queue, ids: set<nat>, status: Status, child: nat -> nat, now: int, i: nat)
    requires Inv(q) && FreshIds(q, Parents(q, ids), child) && i !in q.cmds
    requires i in CloseAll(q, ids, status, child, now).cmds
    ensures PairOk(CloseAll(q, ids, status, child, now), i)
  {
    var q' := CloseAll(q, ids, status, child, now);
    CloseAllShape(q, ids, status, child, now);
    NoChildren(q, i, RAW_ON);
    NoChildren(q, i, RAW_OFF);
    hide CloseAll, FreshIds, Closed, Parents, IsChild;
    ParentsAre(q, ids, i);
    OnChildrenSame(q, ids, status, child, now, i);
    OffChildren(q, ids, status, child, now, i);
    var p :| p in Parents(q, ids) && child(p) == i;
    assert |RAW_OFF| != |DEVICE_SCAN|;
  }

  lemma OnChildrenSame(q: Queue, ids: set<nat>, status: Status, child: nat -> nat, now: int, i: nat)
    requires FreshIds(q, Parents(q, ids), child)
    ensures HasChild(CloseAll(q, ids, status, child, now), i, RAW_ON) <==> HasChild(q, i, RAW_ON)
    ensures AtMostOneChild(CloseAll(q, ids, status, child, now), i, RAW_ON) <==> AtMostOneChild(q, i, RAW_ON)
  {
    var q' := CloseAll(q, ids, status, child, now);
    assert |RAW_ON| != |RAW_OFF|;
    hide CloseAll, Parents, FreshIds, IsChild;
    forall c
      ensures IsChild(q', i, RAW_ON, c) <==> IsChild(q, i, RAW_ON, c)
    {
      CloseAllChildren(q, ids, status, child, now, i, RAW_ON, c);
    }
    SameChildren(q, q', i, RAW_ON);
  }

  lemma OffChildren(q: Queue, ids: set<nat>, status: Status, child: nat -> nat, now: int, i: nat)
    requires FreshIds(q, Parents(q, ids), child)
    requires i in Parents(q, ids) ==> !HasChild(q, i, RAW_OFF)
    ensures HasChild(CloseAll(q, ids, status, child, now), i, RAW_OFF) <==>
            HasChild(q, i, RAW_OFF) || i in Parents(q, ids)
    ensures AtMostOneChild(q, i, RAW_OFF) ==> AtMostOneChild(CloseAll(q, ids, status, child, now), i, RAW_OFF)
  {
    var q' := CloseAll(q, ids, status, child, now);
    hide CloseAll, Parents, FreshIds, IsChild;
    forall c
      ensures IsChild(q', i, RAW_OFF, c) <==> IsChild(q, i, RAW_OFF, c) || (i in Parents(q, ids) && c == child(i))
    {
      CloseAllChildren(q, ids, status, child, now, i, RAW_OFF, c);
    }
    if i in Parents(q, ids) {
      assert IsChild(q', i, RAW_OFF, child(i));
    } else {
      SameChildren(q, q', i, RAW_OFF);
    }
  }

  lemma ParentsAre(q: Queue, ids: set<nat>, i: nat)
    ensures i in Parents(q, ids) <==> i in ids && i in q.cmds && WantsOff(q.cmds[i])
  {
  }

  lemma CloseAllKeepsInv(q: Queue, ids: set<nat>, status: Status, child: nat -> nat, now: int)
    requires Inv(q) && ids <= q.pending && FreshIds(q, Parents(q, ids), child)
    ensures Inv(CloseAll(q, ids, status, child, now))
  {
    CloseAllPairs(q, ids, status, child, now);
    CloseAllPending(q, ids, status, child, now);
  }

  lemma CloseAllPending(q: Queue, ids: set<nat>, status: Status, child: nat -> nat, now: int)
    requires PendingOk(q) && ids <= q.pending && FreshIds(q, Parents(q, ids), child)
    ensures PendingOk(CloseAll(q, ids, status, child, now))
  {
    var q' := CloseAll(q, ids, status, child, now);
    CloseAllShape(q, ids, status, child, now);
    hide CloseAll, Parents;
    forall i | i in q'.pending
      ensures i in q'.cmds && Active(q'.cmds[i])
    {
      if !(i in q.pending && i !in ids) {
        var p :| p in Parents(q, ids) && child(p) == i;
      }
    }
    forall i | i in q'.byAck
      ensures i in q'.cmds && i !in q'.pending
    {
      assert i in q.cmds;
    }
  }

  lemma AckMatchedKeepsInv(q: Queue, a: AckFrame, m: nat, child: nat -> nat, now: int)
    requires Inv(q) && m in q.pending && FreshIds(q, Parents(q, {m}), child)
    ensures Inv(AckMatched(q, a, m, child, now))
  {
    hide AckedStatus, CloseAll, PairOk, ChildOk;
    if AckedStatus(a) == Running {
      SameShapeKeepsPairs(q, AckMatched(q, a, m, child, now));
    } else {
      var noted := q.(cmds := q.cmds[m := q.cmds[m].(ackNode := a.node)]);
      SameShapeKeepsPairs(q, noted);
      assert Inv(noted);
      assert Parents(noted, {m}) == Parents(q, {m});
      CloseAllKeepsInv(noted, {m}, AckedStatus(a), child, now);
    }
  }

  lemma StructuredKeepsInv(q: Queue, q': Queue, a: AckFrame, m: nat, child: nat -> nat, child2: nat -> nat, now: int)
    requires Inv(q) && m in q.pending && StructuredStep(q, q', a, m, child, child2, now)
    ensures Inv(q')
  {
    AckMatchedKeepsInv(q, a, m, child, now);
    var q1 := AckMatched(q, a, m, child, now);
    CloseAllKeepsInv(q1, Scope(q1, a, q.cmds[m].target), Okay, child2, now);
  }

  lemma SimpleKeepsInv(q: Queue, q': Queue)
    requires Inv(q)
    requires q'.cmds.Keys == q.cmds.Keys && q'.byAck == q.byAck && q'.pending <= q.pending
    requires forall i | i in q.cmds :: SameShape(q.cmds[i], q'.cmds[i])
    requires forall i | i in q'.pending :: Active(q.cmds[i]) ==> Active(q'.cmds[i])
    ensures Inv(q')
  {
    SameShapeKeepsPairs(q, q');
  }

  /** The steps that go over all commands. */
  lemma SweepKeepsInv(q: Queue, e: Event, now: int, q': Queue)
    requires Inv(q) && Next(q, e, now, q') && (e.Timeout? || e.Detect?)
    ensures Inv(q')
  {
    hide PairOk, ChildOk, Listens, WindowOver, RunningProbe;
    SimpleKeepsInv(q, q');
  }

  lemma PlainKeepsInv(q: Queue, e: Event, now: int, q': Queue)
    requires Inv(q) && Next(q, e, now, q') && (e.Send? || e.HandleAck? || e.Delete?)
    ensures Inv(q')
  {
    hide PairOk, ChildOk;
    SimpleKeepsInv(q, q');
  }

  lemma NextKeepsInv(q: Queue, e: Event, now: int, q': Queue)
    requires Inv(q) && Next(q, e, now, q')
    ensures Inv(q')
  {
    hide Inv, StructuredStep, NameMatches, AfterEnqueue, AfterSend, AfterAck, AfterTimeout, AfterDetection;
    match e
    case Enqueue(id, c, onId) => EnqueueKeepsInv(q, id, c, onId, now);
    case Structured(a, matched, child, child2) =>
      if matched.Some? {
        StructuredKeepsInv(q, q', a, matched.value, child, child2, now);
      }
    case Timeout(_, _) => SweepKeepsInv(q, e, now, q');
    case Detect(_, _) => SweepKeepsInv(q, e, now, q');
    case _ => PlainKeepsInv(q, e, now, q');
  }

  // ---------------------------------------------------------------------------
  // Runs
  // ---------------------------------------------------------------------------

  ghost predicate Run(states: seq<Queue>, events: seq<Event>, times: seq<int>) {
    && |states| == |events| + 1 && |times| == |events|
    && states[0] == Queue(map[], {}, map[], {})
    && forall i | 0 <= i < |events| :: Next(states[i], events[i], times[i], states[i + 1])
  }

  lemma {:induction false} InvAlways(states: seq<Queue>, events: seq<Event>, times: seq<int>, n: nat)
    requires Run(states, events, times) && n <= |events|
    ensures Inv(states[n])
  {
    if n > 0 {
      InvAlways(states, events, times, n - 1);
      NextKeepsInv(states[n - 1], events[n - 1], times[n - 1], states[n]);
    }
  }

  /** Exactly one row with this name was created for p, and it goes to p's target. */
  ghost predicate ExactlyOne(q: Queue, p: nat, name: string)
    requires p in q.cmds
  {
    && AtMostOneChild(q, p, name)
    && exists c :: IsChild(q, p, name, c) && q.cmds[c].target == q.cmds[p].target && q.cmds[c].node == q.cmds[p].node
  }

  /**
    In every run: a pending command is PENDING, SENT or RUNNING; an accepted DEVICE_SCAN_START
    has exactly one RAW_BLE_ON; it never has two RAW_BLE_OFF, and it has exactly one once
    an ack closed it, by matching it or by its fan-out, and none before or otherwise.
   */
  lemma ScansAreBracketed(states: seq<Queue>, events: seq<Event>, times: seq<int>, n: nat, p: nat)
    requires Run(states, events, times) && n <= |events| && p in states[n].cmds
    ensures var q := states[n];
      && (p in q.pending ==> Active(q.cmds[p]))
      && (q.cmds[p].name == DEVICE_SCAN ==> ExactlyOne(q, p, RAW_ON) && AtMostOneChild(q, p, RAW_OFF))
      && (q.cmds[p].name == DEVICE_SCAN && p in q.byAck ==> ExactlyOne(q, p, RAW_OFF))
      && (q.cmds[p].name != DEVICE_SCAN || p !in q.byAck ==> !HasChild(q, p, RAW_OFF))
  {
    InvAlways(states, events, times, n);
    var q := states[n];
    assert PairOk(q, p);
    if q.cmds[p].attached {
      var c :| IsChild(q, p, RAW_ON, c);
      assert ChildOk(q, c);
      if p in q.byAck {
        var d :| IsChild(q, p, RAW_OFF, d);
        assert ChildOk(q, d);
      }
    }
  }

  // ---------------------------------------------------------------------------
  // Scope of a STOP ack
  // ---------------------------------------------------------------------------

  /** A running scan that a STOP to this target halts. */
  predicate Halted(c: Command, target: string) {
    c.status == Running && ScanClass(NameOf(c)) && (target == ALL || c.target == target)
  }

  lemma AckMatchedFrame(q: Queue, a: AckFrame, m: nat, child: nat -> nat, now: int, i: nat)
    requires Inv(q) && m in q.pending && FreshIds(q, Parents(q, {m}), child)
    requires i in q.cmds && i != m
    ensures var q1 := AckMatched(q, a, m, child, now);
      i in q1.cmds && q1.cmds[i] == q.cmds[i] && (i in q1.pending <==> i in q.pending)
  {
    var noted := q.(cmds := q.cmds[m := q.cmds[m].(ackNode := a.node)]);
    assert Parents(noted, {m}) == Parents(q, {m});
    if AckedStatus(a) != Running {
      CloseAllFrame(noted, {m}, AckedStatus(a), child, now, i);
    }
  }

  lemma CloseAllFrame(q: Queue, ids: set<nat>, status: Status, child: nat -> nat, now: int, i: nat)
    requires FreshIds(q, Parents(q, ids), child) && i in q.cmds && i !in ids
    ensures var q' := CloseAll(q, ids, status, child, now);
      i in q'.cmds && q'.cmds[i] == q.cmds[i] && (i in q'.pending <==> i in q.pending)
  {
  }

  /**
    Once a STOP ack matched a command, no running scan in that command's scope is pending,
    and every other command that is not in scope is untouched.
   */
  lemma StopClosesItsScope(q: Queue, q': Queue, a: AckFrame, m: nat, child: nat -> nat, child2: nat -> nat, now: int)
    requires Inv(q) && a.kind == "STOP_ACK" && Latest(q, a, m)
    requires StructuredStep(q, q', a, m, child, child2, now)
    ensures forall i | i in q'.pending :: i in q'.cmds && !Halted(q'.cmds[i], q.cmds[m].target)
    ensures forall i | i in q.cmds && i != m && !(i in q.pending && Halted(q.cmds[i], q.cmds[m].target)) ::
              i in q'.cmds && q'.cmds[i] == q.cmds[i] && (i in q'.pending <==> i in q.pending)
    ensures forall i | i in q.pending && i != m && Halted(q.cmds[i], q.cmds[m].target) ::
              i in q'.cmds && i !in q'.pending && q'.cmds[i].status == Okay && i in q'.byAck
  {
    var target := q.cmds[m].target;
    var q1 := AckMatched(q, a, m, child, now);
    var scope := Scope(q1, a, target);
    AckMatchedKeepsInv(q, a, m, child, now);
    StopScope(q1, a, target);
    CloseAllShape(q1, scope, Okay, child2, now);
    hide IsClosed, PendingOk, PairOk, ChildOk, InScope, AckMatched, CloseAll, Parents, Scope, Candidate, NameMatches;
    NothingHaltedPending(q1, scope, target, child2, now, q');
    forall i | i in q.cmds && i != m
      ensures i in q1.cmds && q1.cmds[i] == q.cmds[i] && (i in q1.pending <==> i in q.pending)
    {
      AckMatchedFrame(q, a, m, child, now, i);
    }
    forall i | i in q.cmds && i != m && !(i in q.pending && Halted(q.cmds[i], target))
      ensures i in q'.cmds && q'.cmds[i] == q.cmds[i] && (i in q'.pending <==> i in q.pending)
    {
      CloseAllFrame(q1, scope, Okay, child2, now, i);
    }
    forall i | i in q.pending && i != m && Halted(q.cmds[i], target)
      ensures i in q'.cmds && i !in q'.pending && q'.cmds[i].status == Okay && i in q'.byAck
    {
      CloseAllGone(q1, scope, child2, now, i);
    }
  }

  lemma NothingHaltedPending(q: Queue, scope: set<nat>, target: string, child: nat -> nat, now: int, q': Queue)
    requires Inv(q) && IsClosed(q, scope, Okay, child, now, q')
    requires forall i | i in q.pending && Halted(q.cmds[i], target) :: i in scope
    ensures forall i | i in q'.pending :: i in q'.cmds && !Halted(q'.cmds[i], target)
  {
    hide Parents, PairOk, ChildOk, ScanClass, Closed;
    forall i | i in q'.pending
      ensures i in q'.cmds && !Halted(q'.cmds[i], target)
    {
      if !(i in q.pending && i !in scope) {
        var p :| p in Parents(q, scope) && child(p) == i;
      }
    }
  }

  lemma StopScope(q: Queue, a: AckFrame, target: string)
    requires a.kind == "STOP_ACK"
    ensures forall i :: i in Scope(q, a, target) <==> i in q.pending && i in q.cmds && Halted(q.cmds[i], target)
  {
  }

  lemma CloseAllGone(q: Queue, ids: set<nat>, child: nat -> nat, now: int, i: nat)
    requires FreshIds(q, Parents(q, ids), child) && i in q.cmds && i in ids
    ensures var q' := CloseAll(q, ids, Okay, child, now);
      i in q'.cmds && i !in q'.pending && q'.cmds[i].status == Okay && i in q'.byAck
  {
  }
}
