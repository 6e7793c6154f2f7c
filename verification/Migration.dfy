/**
  Phase B: moving remote nodes to the new key and recording the result
  (internal/fleetsec/job_handlers.go:197-302, internal/fleetsec/channels.go:395-474,
  internal/fleetsec/channels.go:722-839). Frames may be lost, delayed and duplicated; the
  only assumption about the mesh is that a packet naming node n as its sender came from n.
 */
module Migration {
  import opened Prelude
  import opened Keys
  import opened RecoveryCache
  import opened PiRadio
  import T = Tracker

  datatype Phase = Pending | PushingB | HasNewPsk | PromotingC | OnNewPsk | RetiredC | FailedB | FailedC

  datatype Target = Target(node: nat, phase: Phase)

  /** A fleet_rotations row: the recorded fingerprint, the key (empty once cleared) and the targets. */
  datatype Record = Record(fp: Fp, psk: Psk, targets: seq<Target>)

  /** A get_channel request sent to a node. */
  datatype Request = Request(id: nat, node: nat, slot: Slot)

  /** A node's answer to a get_channel request: the channel it reports for that slot. */
  datatype Answer = Answer(node: nat, requestId: nat, slot: Slot, channel: Channel)

  /** A commit-verify probe sent by a Phase B job of a rotation. */
  datatype Probe = Probe(rotation: nat, request: Request)

  /**
    A running Phase B job with its in-memory copy of the targets. waiting is the transaction
    of a probe whose outcome it has not looked at.
   */
  datatype Worker = Worker(rotation: nat, node: nat, staging: Slot, psk: Psk, targets: seq<Target>,
                           waiting: Option<nat>)

  /** Another writer of a row, RetryRotation or Phase C, with the targets it is about to store. */
  datatype Editor = Editor(rotation: nat, targets: seq<Target>)

  datatype State = State(local: nat, tracker: T.State, rows: map<nat, Record>, requests: set<Request>,
                         probes: set<Probe>, answers: set<Answer>, air: set<T.Packet>, workers: map<nat, Worker>,
                         editors: map<nat, Editor>)

  datatype Event =
    | Rotate(id: nat, psk: Psk, nodes: seq<nat>)
    | ClearKey(id: nat)
    | Load(w: nat, rotation: nat, node: nat, staging: Slot)
    | SendProbe(w: nat, id: nat)
    | Judge(w: nat)
    | GiveUp(w: nat)
    | PatchRow(w: nat)
    | StoreTargets(w: nat)
    | Finish(w: nat)
    | LoadRetry(ed: nat, rotation: nat, wanted: set<nat>)
    | LoadLocalDone(ed: nat, rotation: nat)
    | StoreEdit(ed: nat)
    | OtherRequest(id: nat, node: nat, slot: Slot)
    | AnswerRequest(request: Request, channel: Channel, passkey: seq<Byte>)
    | OtherPacket(packet: T.Packet)
    | Track(event: T.Event)

  // ---------------------------------------------------------------------------
  // Target lists
  // ---------------------------------------------------------------------------

  /** The first target of a node gets a phase; other targets keep theirs. */
  function SetPhase(ts: seq<Target>, node: nat, phase: Phase): seq<Target> {
    if ts == [] then []
    else if ts[0].node == node then [Target(node, phase)] + ts[1..]
    else [ts[0]] + SetPhase(ts[1..], node, phase)
  }

  function PhaseOf(ts: seq<Target>, node: nat): Option<Phase> {
    if ts == [] then None else if ts[0].node == node then Some(ts[0].phase) else PhaseOf(ts[1..], node)
  }

  /** The reset that RetryRotation applies to each wanted target. */
  function RetryPhase(p: Phase): Phase {
    match p
    case FailedB => Pending
    case PushingB => Pending
    case FailedC => HasNewPsk
    case PromotingC => HasNewPsk
    case _ => p
  }

  function Reset(ts: seq<Target>, wanted: set<nat>): seq<Target> {
    seq(|ts|, i requires 0 <= i < |ts| =>
        if ts[i].node in wanted then ts[i].(phase := RetryPhase(ts[i].phase)) else ts[i])
  }

  function Fresh(nodes: seq<nat>): seq<Target> {
    seq(|nodes|, i requires 0 <= i < |nodes| => Target(nodes[i], Pending))
  }

  /** The nodes of nodes[..n] that are not zero, each once, in order of first occurrence. */
  function Unique(nodes: seq<nat>, n: nat): seq<nat>
    requires n <= |nodes|
  {
    if n == 0 then []
    else
      var front := Unique(nodes, n - 1);
      if nodes[n - 1] == 0 || nodes[n - 1] in front then front else front + [nodes[n - 1]]
  }

  function RotationNodes(nodes: seq<nat>, local: nat): seq<nat> {
    var remote := Unique(nodes, |nodes|);
    if local != 0 && local !in remote then remote + [local] else remote
  }

  lemma {:induction false} UniqueIs(nodes: seq<nat>, n: nat)
    requires n <= |nodes|
    ensures Distinct(Unique(nodes, n))
    ensures forall x :: x in Unique(nodes, n) <==> x != 0 && x in nodes[..n]
  {
    if n > 0 {
      UniqueIs(nodes, n - 1);
      assert nodes[..n] == nodes[..n - 1] + [nodes[n - 1]];
    }
  }

  /** x is at position p, and y only later, if at all. */
  ghost predicate RequestedBefore(nodes: seq<nat>, p: nat, x: nat, y: nat) {
    p < |nodes| && nodes[p] == x && y !in nodes[..p + 1]
  }

  /** Nodes stand in the order in which they are first requested. */
  lemma {:induction false} UniqueInOrder(nodes: seq<nat>, n: nat, i: nat, j: nat)
    requires n <= |nodes| && i < j < |Unique(nodes, n)|
    ensures exists p: nat :: p < n && RequestedBefore(nodes, p, Unique(nodes, n)[i], Unique(nodes, n)[j])
  {
    var front := Unique(nodes, n - 1);
    if j < |front| {
      UniqueInOrder(nodes, n - 1, i, j);
      var p: nat :| p < n - 1 && RequestedBefore(nodes, p, front[i], front[j]);
      assert p < n && RequestedBefore(nodes, p, Unique(nodes, n)[i], Unique(nodes, n)[j]);
    } else {
      UniqueIs(nodes, n - 1);
      assert Unique(nodes, n) == front + [nodes[n - 1]];
      assert front[i] in nodes[..n - 1];
      var before := nodes[..n - 1];
      var p: nat :| p < n - 1 && before[p] == front[i];
      assert nodes[p] == front[i];
      var upTo := nodes[..p + 1];
      assert upTo == before[..p + 1];
      assert forall x | x in upTo :: x in before;
      assert nodes[n - 1] !in before;
      assert p < n && RequestedBefore(nodes, p, Unique(nodes, n)[i], Unique(nodes, n)[j]);
    }
  }

  /** A local node that was not requested comes last. */
  lemma LocalComesLast(nodes: seq<nat>, local: nat)
    requires local != 0 && local !in nodes
    ensures RotationNodes(nodes, local) == Unique(nodes, |nodes|) + [local]
  {
    UniqueIs(nodes, |nodes|);
    assert nodes[..|nodes|] == nodes;
  }

  /** The target list of RotatePSK: every requested node once, none zero, the local node included. */
  method BuildTargets(nodes: seq<nat>, local: nat) returns (targets: seq<Target>)
    ensures targets == Fresh(RotationNodes(nodes, local))
    ensures forall t | t in targets :: t.phase == Pending
    ensures Distinct(RotationNodes(nodes, local))
    ensures forall x :: x in RotationNodes(nodes, local) <==> x != 0 && (x in nodes || x == local)
  {
    var seen := [];
    targets := [];
    for i := 0 to |nodes|
      invariant seen == Unique(nodes, i)
      invariant targets == Fresh(seen)
    {
      if nodes[i] != 0 && nodes[i] !in seen {
        seen := seen + [nodes[i]];
        targets := targets + [Target(nodes[i], Pending)];
      }
    }
    UniqueIs(nodes, |nodes|);
    assert nodes[..|nodes|] == nodes;
    if local != 0 && local !in seen {
      targets := targets + [Target(local, Pending)];
    }
  }

  lemma {:induction false} SetPhaseAt(ts: seq<Target>, node: nat, phase: Phase, n: nat)
    requires n <= |ts| && forall j | 0 <= j < n :: ts[j].node != node
    ensures n < |ts| && ts[n].node == node ==>
              SetPhase(ts, node, phase) == ts[n := Target(node, phase)] && PhaseOf(ts, node) == Some(ts[n].phase)
    ensures n == |ts| ==> SetPhase(ts, node, phase) == ts && PhaseOf(ts, node) == None
  {
    if n > 0 {
      var rest := ts[1..];
      assert forall j | 0 <= j < n - 1 :: rest[j] == ts[j + 1];
      SetPhaseAt(rest, node, phase, n - 1);
      assert ts == [ts[0]] + rest;
    }
  }

  /** transitionTarget on the in-memory slice: the first target of the node takes the phase. */
  method TransitionTarget(current: array<Target>, node: nat, phase: Phase) returns (found: bool)
    modifies current
    ensures current[..] == SetPhase(old(current[..]), node, phase)
    ensures found <==> PhaseOf(old(current[..]), node).Some?
  {
    hide SetPhase, PhaseOf;
    var i := 0;
    while i < current.Length && current[i].node != node
      invariant 0 <= i <= current.Length
      invariant current[..] == old(current[..])
      invariant forall j | 0 <= j < i :: current[j].node != node
    {
      i := i + 1;
    }
    SetPhaseAt(current[..], node, phase, i);
    found := i < current.Length;
    if found {
      current[i] := Target(node, phase);
    }
  }

  /** The reset loop of RetryRotation over the in-memory slice. */
  method ResetTargets(current: array<Target>, wanted: set<nat>) returns (anyEligible: bool)
    modifies current
    ensures current[..] == Reset(old(current[..]), wanted)
    ensures forall i | 0 <= i < current.Length && old(current[i]).node !in wanted :: current[i] == old(current[i])
    ensures forall i | 0 <= i < current.Length && old(current[i]).node in wanted ::
        && current[i].node == old(current[i]).node
        && match old(current[i]).phase
           case FailedB => current[i].phase == Pending
           case PushingB => current[i].phase == Pending
           case FailedC => current[i].phase == HasNewPsk
           case PromotingC => current[i].phase == HasNewPsk
           case _ => current[i].phase == old(current[i]).phase
    ensures anyEligible <==> exists t ::
        t in old(current[..]) && t.node in wanted && t.phase != OnNewPsk && t.phase != RetiredC
  {
    ghost var was := current[..];
    anyEligible := false;
    for i := 0 to current.Length
      invariant forall j | 0 <= j < i :: current[j] == Reset(was, wanted)[j]
      invariant forall j | i <= j < current.Length :: current[j] == was[j]
      invariant anyEligible <==> exists j ::
          0 <= j < i && was[j].node in wanted && was[j].phase != OnNewPsk && was[j].phase != RetiredC
    {
      if current[i].node in wanted {
        match current[i].phase {
          case FailedB => current[i] := current[i].(phase := Pending); anyEligible := true;
          case PushingB => current[i] := current[i].(phase := Pending); anyEligible := true;
          case FailedC => current[i] := current[i].(phase := HasNewPsk); anyEligible := true;
          case PromotingC => current[i] := current[i].(phase := HasNewPsk); anyEligible := true;
          case OnNewPsk =>
          case RetiredC =>
          case Pending => anyEligible := true;
          case HasNewPsk => anyEligible := true;
        }
      }
    }
    assert current[..] == Reset(was, wanted);
  }

  // ---------------------------------------------------------------------------
  // Steps
  // ---------------------------------------------------------------------------

  /** The test of migrateRemoteAtomic on the reply to a probe: PRIMARY with the rotation's key. */
  predicate Verified(fp: Psk -> Fp, psk: Psk, r: T.Reply) {
    match T.SendResult(r)
    case Ok(Some(msg)) => msg.channel.Some? && msg.channel.value.role == Primary && fp(msg.channel.value.psk) == fp(psk)
    case _ => false
  }

  /** The node reports a channel with role PRIMARY whose key has fingerprint f. */
  predicate ShowsKey(r: T.Reply, fp: Psk -> Fp, f: Fp) {
    match r
    case GotAdmin(_, Some(AdminMsg(Some(Channel(Primary, key)), _))) => fp(key) == f
    case _ => false
  }

  lemma VerifiedIff(fp: Psk -> Fp, psk: Psk, r: T.Reply)
    ensures Verified(fp, psk, r) <==> ShowsKey(r, fp, fp(psk))
  {
  }

  /** The verify loop of migrateRemoteAtomic over the replies to the probes sent before its deadline. */
  method CommitVerify(fp: Psk -> Fp, psk: Psk, replies: seq<T.Reply>) returns (ok: bool)
    ensures ok <==> exists i :: 0 <= i < |replies| && Verified(fp, psk, replies[i])
    ensures ok <==> exists i :: 0 <= i < |replies| && ShowsKey(replies[i], fp, fp(psk))
  {
    forall i | 0 <= i < |replies|
      ensures Verified(fp, psk, replies[i]) <==> ShowsKey(replies[i], fp, fp(psk))
    {
      VerifiedIff(fp, psk, replies[i]);
    }
    hide ShowsKey;
    for i := 0 to |replies|
      invariant forall j | 0 <= j < i :: !Verified(fp, psk, replies[j])
    {
      var result := T.SendResult(replies[i]);
      if result.Ok? && result.value.Some? {
        var channel := result.value.value.channel;
        if channel.Some? && channel.value.role == Primary && fp(channel.value.psk) == fp(psk) {
          return true;
        }
      }
    }
    return false;
  }

  ghost predicate Registers(s: State, id: nat) {
    id != 0 && id !in s.tracker.table
  }

  ghost predicate Enabled(s: State, e: Event) {
    match e
    case Rotate(id, _, _) => id !in s.rows
    case ClearKey(id) => id in s.rows
    case Load(w, rotation, node, staging) =>
      && w !in s.workers && rotation in s.rows && node != 0 && s.rows[rotation].psk != []
      && PhaseOf(s.rows[rotation].targets, node).Some?
      && PhaseOf(s.rows[rotation].targets, node).value !in {OnNewPsk, RetiredC}
    case SendProbe(w, id) => w in s.workers && Registers(s, id)
    case Judge(w) =>
      && w in s.workers && s.workers[w].waiting.Some? && s.workers[w].waiting.value < |s.tracker.txs|
      && s.tracker.txs[s.workers[w].waiting.value].received != []
    case GiveUp(w) => w in s.workers
    case PatchRow(w) =>
      && w in s.workers && s.workers[w].rotation in s.rows
      && PhaseOf(s.workers[w].targets, s.workers[w].node).Some?
    case StoreTargets(w) => w in s.workers && s.workers[w].rotation in s.rows
    case Finish(w) => w in s.workers
    case LoadRetry(ed, rotation, _) => ed !in s.editors && rotation in s.rows
    case LoadLocalDone(ed, rotation) => ed !in s.editors && rotation in s.rows
    case StoreEdit(ed) => ed in s.editors && s.editors[ed].rotation in s.rows
    case OtherRequest(id, _, _) => Registers(s, id)
    case AnswerRequest(request, _, _) => request in s.requests
    case OtherPacket(p) => p.RoutingPacket? || p.msg.None? || p.msg.value.channel.None?
    case Track(te) => T.Enabled(s.tracker, te) && (te.Inbound? ==> te.packet in s.air)
  }

  /** Begin for a get_channel request: an admin reply from the node itself is expected. */
  ghost function Asked(s: State, q: Request): State
    requires Registers(s, q.id)
  {
    s.(tracker := T.After(s.tracker, T.Register(q.id, true, q.node)), requests := s.requests + {q})
  }

  ghost function WithRow(s: State, rotation: nat, ts: seq<Target>): State
    requires rotation in s.rows
  {
    s.(rows := s.rows[rotation := s.rows[rotation].(targets := ts)])
  }

  ghost function WithWorker(s: State, w: nat, k: Worker): State {
    s.(workers := s.workers[w := k])
  }

  ghost function After(fp: Psk -> Fp, s: State, e: Event): State
    requires Enabled(s, e)
  {
    match e
    case Rotate(id, psk, nodes) => s.(rows := s.rows[id := Record(fp(psk), psk, Fresh(RotationNodes(nodes, s.local)))])
    case ClearKey(id) => s.(rows := s.rows[id := s.rows[id].(psk := [])])
    case Load(w, rotation, node, staging) =>
      var row := s.rows[rotation];
      WithWorker(s, w, Worker(rotation, node, staging, row.psk, SetPhase(row.targets, node, PushingB), None))
    case SendProbe(w, id) =>
      var k := s.workers[w];
      var q := Request(id, k.node, k.staging);
      WithWorker(Asked(s, q).(probes := s.probes + {Probe(k.rotation, q)}), w, k.(waiting := Some(|s.tracker.txs|)))
    case Judge(w) =>
      var k := s.workers[w];
      var r := s.tracker.txs[k.waiting.value].received[0];
      WithWorker(s, w, if Verified(fp, k.psk, r)
                       then k.(waiting := None, targets := SetPhase(k.targets, k.node, OnNewPsk))
                       else k.(waiting := None))
    case GiveUp(w) =>
      var k := s.workers[w];
      WithWorker(s, w, k.(targets := SetPhase(k.targets, k.node, FailedB)))
    case PatchRow(w) =>
      var k := s.workers[w];
      WithRow(s, k.rotation, SetPhase(s.rows[k.rotation].targets, k.node, PhaseOf(k.targets, k.node).value))
    case StoreTargets(w) => WithRow(s, s.workers[w].rotation, s.workers[w].targets)
    case Finish(w) => s.(workers := s.workers - {w})
    case LoadRetry(ed, rotation, wanted) =>
      s.(editors := s.editors[ed := Editor(rotation, Reset(s.rows[rotation].targets, wanted))])
    case LoadLocalDone(ed, rotation) =>
      s.(editors := s.editors[ed := Editor(rotation, SetPhase(s.rows[rotation].targets, s.local, OnNewPsk))])
    case StoreEdit(ed) => WithRow(s, s.editors[ed].rotation, s.editors[ed].targets).(editors := s.editors - {ed})
    case OtherRequest(id, node, slot) => Asked(s, Request(id, node, slot))
    case AnswerRequest(q, ch, passkey) =>
      s.(answers := s.answers + {Answer(q.node, q.id, q.slot, ch)},
         air := s.air + {T.AdminPacket(q.node, q.id, Some(T.AdminMsg(Some(ch), passkey)))})
    case OtherPacket(p) => s.(air := s.air + {p})
    case Track(te) => s.(tracker := T.After(s.tracker, te))
  }

  // ---------------------------------------------------------------------------
  // What the steps record
  // ---------------------------------------------------------------------------

  /** Setting a phase changes that node's phase and no other, and adds no target. */
  lemma {:induction false} SetPhaseIs(ts: seq<Target>, node: nat, phase: Phase, other: nat)
    ensures PhaseOf(SetPhase(ts, node, phase), other) ==
            if other == node && PhaseOf(ts, node).Some? then Some(phase) else PhaseOf(ts, other)
  {
    if ts != [] && ts[0].node != node {
      SetPhaseIs(ts[1..], node, phase, other);
      assert SetPhase(ts, node, phase)[1..] == SetPhase(ts[1..], node, phase);
    } else if ts != [] {
      assert SetPhase(ts, node, phase)[1..] == ts[1..];
    }
  }

  /** A Phase B job starts from the row, only for a target that is not done, and moves it to phase_b_pushing. */
  lemma LoadStarts(fp: Psk -> Fp, s: State, w: nat, rotation: nat, node: nat, staging: Slot, other: nat)
    requires Enabled(s, Load(w, rotation, node, staging))
    ensures var row, k := s.rows[rotation], After(fp, s, Load(w, rotation, node, staging)).workers[w];
      && row.psk != [] && PhaseOf(row.targets, node) !in {None, Some(OnNewPsk), Some(RetiredC)}
      && k.psk == row.psk && k.node == node && k.rotation == rotation && k.staging == staging
      && PhaseOf(k.targets, other) == if other == node then Some(PushingB) else PhaseOf(row.targets, other)
  {
    SetPhaseIs(s.rows[rotation].targets, node, PushingB, other);
    hide SetPhase, PhaseOf;
  }

  /**
    What a Phase B job makes of the reply to its probe: it moves its target to on_new_psk exactly
    when the reply shows a PRIMARY channel with the fingerprint of the rotation's key, and leaves
    every other phase alone.
   */
  lemma JudgeRecords(fp: Psk -> Fp, s: State, w: nat, other: nat)
    requires Enabled(s, Judge(w)) && PhaseOf(s.workers[w].targets, s.workers[w].node).Some?
    ensures var k, k' := s.workers[w], After(fp, s, Judge(w)).workers[w];
      var shows := match s.tracker.txs[k.waiting.value].received[0]
                   case GotAdmin(_, Some(AdminMsg(Some(Channel(Primary, key)), _))) => fp(key) == fp(k.psk)
                   case _ => false;
      && PhaseOf(k'.targets, other) == (if other == k.node && shows then Some(OnNewPsk) else PhaseOf(k.targets, other))
      && k'.node == k.node && k'.rotation == k.rotation && k'.psk == k.psk
  {
    var k := s.workers[w];
    SetPhaseIs(k.targets, k.node, OnNewPsk, other);
    VerifiedIff(fp, k.psk, s.tracker.txs[k.waiting.value].received[0]);
    hide SetPhase, PhaseOf, Verified;
  }

  /** Giving up moves the job's target to failed_b. */
  lemma GiveUpRecords(fp: Psk -> Fp, s: State, w: nat, other: nat)
    requires Enabled(s, GiveUp(w)) && PhaseOf(s.workers[w].targets, s.workers[w].node).Some?
    ensures var k, k' := s.workers[w], After(fp, s, GiveUp(w)).workers[w];
      PhaseOf(k'.targets, other) == if other == k.node then Some(FailedB) else PhaseOf(k.targets, other)
  {
    SetPhaseIs(s.workers[w].targets, s.workers[w].node, FailedB, other);
    hide SetPhase, PhaseOf;
  }

  /** Persisting patches the row with the job's phase of its own target, or replaces it by the job's copy. */
  lemma PersistRecords(fp: Psk -> Fp, s: State, w: nat, other: nat)
    ensures Enabled(s, PatchRow(w)) && PhaseOf(s.rows[s.workers[w].rotation].targets, s.workers[w].node).Some? ==>
              var k := s.workers[w];
              var row, row' := s.rows[k.rotation], After(fp, s, PatchRow(w)).rows[k.rotation];
              && row'.fp == row.fp && row'.psk == row.psk
              && PhaseOf(row'.targets, other) ==
                 if other == k.node then PhaseOf(k.targets, k.node) else PhaseOf(row.targets, other)
    ensures Enabled(s, StoreTargets(w)) ==>
              After(fp, s, StoreTargets(w)).rows[s.workers[w].rotation].targets == s.workers[w].targets
  {
    if Enabled(s, PatchRow(w)) {
      var k := s.workers[w];
      SetPhaseIs(s.rows[k.rotation].targets, k.node, PhaseOf(k.targets, k.node).value, other);
    }
    hide SetPhase, PhaseOf;
  }

  /** RetryRotation's copy: wanted targets go back to their resting phase, all others stay. */
  lemma RetryRecords(fp: Psk -> Fp, s: State, ed: nat, rotation: nat, wanted: set<nat>)
    requires Enabled(s, LoadRetry(ed, rotation, wanted))
    ensures var was := s.rows[rotation].targets;
      var now := After(fp, s, LoadRetry(ed, rotation, wanted)).editors[ed].targets;
      && |now| == |was|
      && forall i | 0 <= i < |was| ::
           && now[i].node == was[i].node
           && now[i].phase ==
              if was[i].node !in wanted then was[i].phase
              else if was[i].phase == FailedB || was[i].phase == PushingB then Pending
              else if was[i].phase == FailedC || was[i].phase == PromotingC then HasNewPsk
              else was[i].phase
  {
  }

  /** Phase C moves the local node to on_new_psk in its copy and erases the key; a stored copy replaces the list. */
  lemma EditorRecords(fp: Psk -> Fp, s: State, ed: nat, rotation: nat, other: nat)
    ensures Enabled(s, LoadLocalDone(ed, rotation)) ==>
              var was := s.rows[rotation].targets;
              PhaseOf(After(fp, s, LoadLocalDone(ed, rotation)).editors[ed].targets, other) ==
              if other == s.local && PhaseOf(was, s.local).Some? then Some(OnNewPsk) else PhaseOf(was, other)
    ensures Enabled(s, StoreEdit(ed)) ==>
              After(fp, s, StoreEdit(ed)).rows[s.editors[ed].rotation] ==
              s.rows[s.editors[ed].rotation].(targets := s.editors[ed].targets)
    ensures Enabled(s, ClearKey(rotation)) ==>
              After(fp, s, ClearKey(rotation)).rows[rotation] == s.rows[rotation].(psk := [])
  {
    if Enabled(s, LoadLocalDone(ed, rotation)) {
      SetPhaseIs(s.rows[rotation].targets, s.local, OnNewPsk, other);
    }
    hide SetPhase, PhaseOf;
  }

  ghost predicate HasTarget(ts: seq<Target>, node: nat) {
    exists t :: t in ts && t.node == node
  }

  lemma FreshIs(nodes: seq<nat>)
    ensures forall t | t in Fresh(nodes) :: t.phase == Pending && t.node in nodes
    ensures forall x :: HasTarget(Fresh(nodes), x) <==> x in nodes
  {
    forall x | x in nodes
      ensures HasTarget(Fresh(nodes), x)
    {
      var i :| 0 <= i < |nodes| && nodes[i] == x;
      assert Fresh(nodes)[i] in Fresh(nodes);
    }
  }

  /** A new rotation starts with exactly the requested nodes and the local one, none zero, all pending. */
  lemma RotateRecords(fp: Psk -> Fp, s: State, id: nat, psk: Psk, nodes: seq<nat>)
    requires Enabled(s, Rotate(id, psk, nodes))
    ensures var row := After(fp, s, Rotate(id, psk, nodes)).rows[id];
      && row.psk == psk && row.fp == fp(psk)
      && (forall t | t in row.targets :: t.phase == Pending)
      && (forall x :: HasTarget(row.targets, x) <==> x != 0 && (x in nodes || x == s.local))
  {
    RotationNodesAre(nodes, s.local);
    FreshIs(RotationNodes(nodes, s.local));
    hide RotationNodes, Fresh, HasTarget;
  }

  lemma RotationNodesAre(nodes: seq<nat>, local: nat)
    ensures forall x :: x in RotationNodes(nodes, local) <==> x != 0 && (x in nodes || x == local)
  {
    UniqueIs(nodes, |nodes|);
    assert nodes[..|nodes|] == nodes;
  }

  // ---------------------------------------------------------------------------
  // Evidence
  // ---------------------------------------------------------------------------

  /**
    The node was probed for this rotation, and itself answered a request with the probe's id
    by reporting a PRIMARY channel whose key has fingerprint f.
   */
  ghost predicate ProvedBy(fp: Psk -> Fp, s: State, rotation: nat, node: nat, f: Fp, p: Probe, a: Answer) {
    && p in s.probes && p.rotation == rotation && p.request in s.requests && p.request.node == node
    && a in s.answers && a.node == node && a.requestId == p.request.id
    && a.channel.role == Primary && fp(a.channel.psk) == f
  }

  ghost predicate Proved(fp: Psk -> Fp, s: State, rotation: nat, node: nat, f: Fp) {
    exists p, a :: ProvedBy(fp, s, rotation, node, f, p, a)
  }

  /** Every remote target recorded as migrated is proved. */
  ghost predicate TargetsProved(fp: Psk -> Fp, s: State, rotation: nat, ts: seq<Target>, f: Fp) {
    forall i | 0 <= i < |ts| && ts[i].phase == OnNewPsk && ts[i].node != s.local ::
        Proved(fp, s, rotation, ts[i].node, f)
  }

  ghost predicate RowsProved(fp: Psk -> Fp, s: State) {
    forall r | r in s.rows :: RowProved(fp, s, r)
  }

  ghost predicate WorkerOk(fp: Psk -> Fp, s: State, k: Worker) {
    && k.rotation in s.rows && fp(k.psk) == s.rows[k.rotation].fp && k.node != 0
    && TargetsProved(fp, s, k.rotation, k.targets, s.rows[k.rotation].fp)
    && (k.waiting.Some? ==>
          && k.waiting.value < |s.tracker.txs|
          && var tx := s.tracker.txs[k.waiting.value];
             && tx.expectedFrom == k.node && tx.expectsAdmin
             && Probe(k.rotation, Request(tx.id, k.node, k.staging)) in s.probes
             && Request(tx.id, k.node, k.staging) in s.requests)
  }

  ghost predicate EditorOk(fp: Psk -> Fp, s: State, ed: Editor) {
    ed.rotation in s.rows && TargetsProved(fp, s, ed.rotation, ed.targets, s.rows[ed.rotation].fp)
  }

  /** A channel report in the air was made by the node it names, about a slot it was asked for. */
  ghost predicate AirOk(s: State) {
    && s.tracker.log <= s.air
    && (forall p | p in s.air && p.AdminPacket? && p.msg.Some? && p.msg.value.channel.Some? ::
          Reported(s, p.from, p.requestId, p.msg.value.channel.value))
    && (forall a | a in s.answers :: Request(a.requestId, a.node, a.slot) in s.requests)
  }

  ghost predicate Reported(s: State, node: nat, id: nat, ch: Channel) {
    exists a :: a in s.answers && a.node == node && a.requestId == id && a.channel == ch
  }

  ghost predicate Inv(fp: Psk -> Fp, s: State) {
    && T.Inv(s.tracker)
    && AirOk(s)
    && RowsProved(fp, s)
    && (forall w | w in s.workers :: WorkerOk(fp, s, s.workers[w]))
    && (forall ed | ed in s.editors :: EditorOk(fp, s, s.editors[ed]))
  }

  // ---------------------------------------------------------------------------
  // Every step keeps it
  // ---------------------------------------------------------------------------

  /** s' knows everything s knows: evidence, transactions and rotation fingerprints. */
  ghost predicate Extends(s: State, s': State) {
    && s'.local == s.local
    && s.probes <= s'.probes && s.requests <= s'.requests && s.answers <= s'.answers
    && (forall r | r in s.rows :: r in s'.rows && s'.rows[r].fp == s.rows[r].fp)
    && |s.tracker.txs| <= |s'.tracker.txs|
    && (forall k: nat | k < |s.tracker.txs| :: SameTx(s.tracker.txs[k], s'.tracker.txs[k]))
  }

  ghost predicate SameTx(a: T.Tx, b: T.Tx) {
    a.id == b.id && a.expectsAdmin == b.expectsAdmin && a.expectedFrom == b.expectedFrom
  }

  lemma TrackerExtends(t: T.State, te: T.Event)
    requires T.Enabled(t, te)
    ensures |t.txs| <= |T.After(t, te).txs|
    ensures forall k: nat | k < |t.txs| :: SameTx(t.txs[k], T.After(t, te).txs[k])
  {
  }

  lemma StepExtends(fp: Psk -> Fp, s: State, e: Event)
    requires Enabled(s, e)
    ensures Extends(s, After(fp, s, e))
  {
    if e.Track? {
      TrackerExtends(s.tracker, e.event);
    }
  }

  lemma TargetsCarry(fp: Psk -> Fp, s: State, s': State, rotation: nat, ts: seq<Target>, f: Fp)
    requires Extends(s, s') && TargetsProved(fp, s, rotation, ts, f)
    ensures TargetsProved(fp, s', rotation, ts, f)
  {
    forall i | 0 <= i < |ts| && ts[i].phase == OnNewPsk && ts[i].node != s'.local
      ensures Proved(fp, s', rotation, ts[i].node, f)
    {
      var p, a :| ProvedBy(fp, s, rotation, ts[i].node, f, p, a);
      assert ProvedBy(fp, s', rotation, ts[i].node, f, p, a);
    }
  }

  lemma WorkerCarries(fp: Psk -> Fp, s: State, s': State, k: Worker)
    requires Extends(s, s') && WorkerOk(fp, s, k)
    ensures WorkerOk(fp, s', k)
  {
    TargetsCarry(fp, s, s', k.rotation, k.targets, s.rows[k.rotation].fp);
  }

  lemma EditorCarries(fp: Psk -> Fp, s: State, s': State, ed: Editor)
    requires Extends(s, s') && EditorOk(fp, s, ed)
    ensures EditorOk(fp, s', ed)
  {
    TargetsCarry(fp, s, s', ed.rotation, ed.targets, s.rows[ed.rotation].fp);
  }

  /** Setting a phase other than migrated, or a proved one, keeps a list proved. */
  lemma {:induction false} SetPhaseProved(fp: Psk -> Fp, s: State, rotation: nat, ts: seq<Target>, f: Fp, node: nat,
                                          phase: Phase)
    requires TargetsProved(fp, s, rotation, ts, f)
    requires phase == OnNewPsk && node != s.local ==> Proved(fp, s, rotation, node, f)
    ensures TargetsProved(fp, s, rotation, SetPhase(ts, node, phase), f)
  {
    if ts != [] {
      var rest := ts[1..];
      assert TargetsProved(fp, s, rotation, rest, f) by {
        forall i | 0 <= i < |rest| && rest[i].phase == OnNewPsk && rest[i].node != s.local
          ensures Proved(fp, s, rotation, rest[i].node, f)
        {
          assert rest[i] == ts[i + 1];
        }
      }
      if ts[0].node == node {
        ConsProved(fp, s, rotation, Target(node, phase), rest, f);
      } else {
        SetPhaseProved(fp, s, rotation, rest, f, node, phase);
        assert ts[0].phase == OnNewPsk && ts[0].node != s.local ==> Proved(fp, s, rotation, ts[0].node, f);
        ConsProved(fp, s, rotation, ts[0], SetPhase(rest, node, phase), f);
      }
    }
  }

  lemma ConsProved(fp: Psk -> Fp, s: State, rotation: nat, t: Target, rest: seq<Target>, f: Fp)
    requires TargetsProved(fp, s, rotation, rest, f)
    requires t.phase == OnNewPsk && t.node != s.local ==> Proved(fp, s, rotation, t.node, f)
    ensures TargetsProved(fp, s, rotation, [t] + rest, f)
  {
  }

  lemma {:induction false} PhaseOfProved(fp: Psk -> Fp, s: State, rotation: nat, ts: seq<Target>, f: Fp, node: nat)
    requires TargetsProved(fp, s, rotation, ts, f)
    requires PhaseOf(ts, node) == Some(OnNewPsk) && node != s.local
    ensures Proved(fp, s, rotation, node, f)
  {
    if ts[0].node == node {
      assert ts[0].phase == OnNewPsk;
    } else {
      var rest := ts[1..];
      forall i | 0 <= i < |rest| && rest[i].phase == OnNewPsk && rest[i].node != s.local
        ensures Proved(fp, s, rotation, rest[i].node, f)
      {
        assert rest[i] == ts[i + 1];
      }
      PhaseOfProved(fp, s, rotation, rest, f, node);
    }
  }

  lemma ResetProved(fp: Psk -> Fp, s: State, rotation: nat, ts: seq<Target>, f: Fp, wanted: set<nat>)
    requires TargetsProved(fp, s, rotation, ts, f)
    ensures TargetsProved(fp, s, rotation, Reset(ts, wanted), f)
  {
    var r := Reset(ts, wanted);
    forall i | 0 <= i < |r| && r[i].phase == OnNewPsk && r[i].node != s.local
      ensures Proved(fp, s, rotation, r[i].node, f)
    {
      assert ts[i].phase == OnNewPsk;
    }
  }

  /** A verified reply proves the node migrated. */
  lemma VerifiedProves(fp: Psk -> Fp, s: State, k: Worker)
    requires Inv(fp, s) && WorkerOk(fp, s, k) && k.waiting.Some?
    requires s.tracker.txs[k.waiting.value].received != []
    requires Verified(fp, k.psk, s.tracker.txs[k.waiting.value].received[0])
    ensures Proved(fp, s, k.rotation, k.node, s.rows[k.rotation].fp)
  {
    var tx := s.tracker.txs[k.waiting.value];
    var r := tx.received[0];
    assert T.TxOk(s.tracker, k.waiting.value);
    assert r.GotAdmin? && r.from == k.node;
    assert T.AdminPacket(r.from, tx.id, r.msg) in s.air;
    var ch := r.msg.value.channel.value;
    assert Reported(s, k.node, tx.id, ch);
    var a :| a in s.answers && a.node == k.node && a.requestId == tx.id && a.channel == ch;
    var p := Probe(k.rotation, Request(tx.id, k.node, k.staging));
    assert ProvedBy(fp, s, k.rotation, k.node, s.rows[k.rotation].fp, p, a);
  }

  ghost predicate RowProved(fp: Psk -> Fp, s: State, r: nat)
    requires r in s.rows
  {
    && TargetsProved(fp, s, r, s.rows[r].targets, s.rows[r].fp)
    && (s.rows[r].psk != [] ==> fp(s.rows[r].psk) == s.rows[r].fp)
  }

  /** A row whose targets a step replaced by proved ones. */
  lemma RowStored(fp: Psk -> Fp, s: State, s': State, r: nat)
    requires Extends(s, s') && r in s.rows && RowProved(fp, s, r)
    requires s'.rows[r].psk == s.rows[r].psk || s'.rows[r].psk == []
    requires TargetsProved(fp, s, r, s'.rows[r].targets, s.rows[r].fp)
    ensures RowProved(fp, s', r)
  {
    TargetsCarry(fp, s, s', r, s'.rows[r].targets, s.rows[r].fp);
  }

  lemma PatchKept(fp: Psk -> Fp, s: State, e: Event, r: nat)
    requires Inv(fp, s) && Enabled(s, e) && e.PatchRow? && r in s.rows
    ensures RowProved(fp, After(fp, s, e), r)
  {
    var k := s.workers[e.w];
    assert WorkerOk(fp, s, k);
    PatchProved(fp, s, k);
    StepExtends(fp, s, e);
    assert RowProved(fp, s, r);
    RowStored(fp, s, After(fp, s, e), r);
  }

  lemma StoreKept(fp: Psk -> Fp, s: State, e: Event, r: nat)
    requires Inv(fp, s) && Enabled(s, e) && (e.StoreTargets? || e.StoreEdit?) && r in s.rows
    ensures RowProved(fp, After(fp, s, e), r)
  {
    hide T.Inv, T.After, AirOk, TargetsProved, Extends, SetPhase, PhaseOf, Reset, Fresh;
    if e.StoreTargets? {
      assert WorkerOk(fp, s, s.workers[e.w]);
    } else {
      assert EditorOk(fp, s, s.editors[e.ed]);
    }
    StepExtends(fp, s, e);
    assert RowProved(fp, s, r);
    RowStored(fp, s, After(fp, s, e), r);
  }

  lemma RotateKept(fp: Psk -> Fp, s: State, e: Event, r: nat)
    requires Inv(fp, s) && Enabled(s, e) && (e.Rotate? || e.ClearKey?) && r in After(fp, s, e).rows
    ensures RowProved(fp, After(fp, s, e), r)
  {
    if r in s.rows {
      StepExtends(fp, s, e);
      assert RowProved(fp, s, r);
      RowStored(fp, s, After(fp, s, e), r);
    }
  }

  lemma RowsKept(fp: Psk -> Fp, s: State, e: Event, r: nat)
    requires Inv(fp, s) && Enabled(s, e)
    requires r in After(fp, s, e).rows
    ensures RowProved(fp, After(fp, s, e), r)
  {
    hide T.Inv, T.After, AirOk, TargetsProved, WorkerOk, EditorOk, Extends, SetPhase, PhaseOf, Reset, Fresh;
    if e.PatchRow? {
      PatchKept(fp, s, e, r);
    } else if e.StoreTargets? || e.StoreEdit? {
      StoreKept(fp, s, e, r);
    } else if e.Rotate? || e.ClearKey? {
      RotateKept(fp, s, e, r);
    } else {
      StepExtends(fp, s, e);
      RowStored(fp, s, After(fp, s, e), r);
    }
  }

  lemma PatchProved(fp: Psk -> Fp, s: State, k: Worker)
    requires RowsProved(fp, s) && WorkerOk(fp, s, k) && PhaseOf(k.targets, k.node).Some?
    ensures TargetsProved(fp, s, k.rotation,
                          SetPhase(s.rows[k.rotation].targets, k.node, PhaseOf(k.targets, k.node).value),
                          s.rows[k.rotation].fp)
  {
    var phase, f := PhaseOf(k.targets, k.node).value, s.rows[k.rotation].fp;
    if phase == OnNewPsk && k.node != s.local {
      PhaseOfProved(fp, s, k.rotation, k.targets, f, k.node);
    }
    SetPhaseProved(fp, s, k.rotation, s.rows[k.rotation].targets, f, k.node, phase);
  }

  lemma WorkersKept(fp: Psk -> Fp, s: State, e: Event, w: nat)
    requires Inv(fp, s) && Enabled(s, e)
    requires w in After(fp, s, e).workers
    ensures WorkerOk(fp, After(fp, s, e), After(fp, s, e).workers[w])
  {
    hide T.Inv, T.After, AirOk, TargetsProved, RowsProved, EditorOk, Extends, SetPhase, PhaseOf, Reset, Fresh;
    var s' := After(fp, s, e);
    StepExtends(fp, s, e);
    if w in s.workers {
      assert WorkerOk(fp, s, s.workers[w]);
      WorkerCarries(fp, s, s', s.workers[w]);
    }
    if (e.SendProbe? || e.Judge? || e.GiveUp?) && e.w == w {
      WorkerStep(fp, s, e);
    } else if e.Load? && e.w == w {
      LoadOk(fp, s, e);
    }
  }

  lemma LoadOk(fp: Psk -> Fp, s: State, e: Event)
    requires Inv(fp, s) && Enabled(s, e) && e.Load?
    ensures WorkerOk(fp, After(fp, s, e), After(fp, s, e).workers[e.w])
  {
    var row := s.rows[e.rotation];
    SetPhaseProved(fp, s, e.rotation, row.targets, row.fp, e.node, PushingB);
    StepExtends(fp, s, e);
    TargetsCarry(fp, s, After(fp, s, e), e.rotation, SetPhase(row.targets, e.node, PushingB), row.fp);
  }

  /** The targets a worker holds after its own step. */
  lemma WorkerTargetsProved(fp: Psk -> Fp, s: State, e: Event, w: nat)
    requires Inv(fp, s) && Enabled(s, e) && w in s.workers && w in After(fp, s, e).workers
    requires e.SendProbe? || e.Judge? || e.GiveUp?
    ensures TargetsProved(fp, s, s.workers[w].rotation, After(fp, s, e).workers[w].targets,
                          s.rows[s.workers[w].rotation].fp)
  {
    hide T.Inv, T.After, AirOk, TargetsProved, EditorOk, SetPhase, PhaseOf, Reset, Fresh;
    var k := s.workers[w];
    assert WorkerOk(fp, s, k);
    var f := s.rows[k.rotation].fp;
    if e.Judge? && e.w == w && Verified(fp, k.psk, s.tracker.txs[k.waiting.value].received[0]) {
      VerifiedProves(fp, s, k);
      SetPhaseProved(fp, s, k.rotation, k.targets, f, k.node, OnNewPsk);
    } else if e.GiveUp? && e.w == w {
      SetPhaseProved(fp, s, k.rotation, k.targets, f, k.node, FailedB);
    }
  }

  lemma WorkerStep(fp: Psk -> Fp, s: State, e: Event)
    requires Inv(fp, s) && Enabled(s, e) && (e.SendProbe? || e.Judge? || e.GiveUp?)
    ensures WorkerOk(fp, After(fp, s, e), After(fp, s, e).workers[e.w])
  {
    var s', k := After(fp, s, e), s.workers[e.w];
    assert WorkerOk(fp, s, k);
    WorkerTargetsProved(fp, s, e, e.w);
    StepExtends(fp, s, e);
    TargetsCarry(fp, s, s', k.rotation, s'.workers[e.w].targets, s.rows[k.rotation].fp);
  }

  lemma EditorsKept(fp: Psk -> Fp, s: State, e: Event, ed: nat)
    requires Inv(fp, s) && Enabled(s, e)
    requires ed in After(fp, s, e).editors
    ensures EditorOk(fp, After(fp, s, e), After(fp, s, e).editors[ed])
  {
    hide T.Inv, T.After, AirOk, TargetsProved, WorkerOk, SetPhase, PhaseOf, Reset, Fresh;
    var s' := After(fp, s, e);
    StepExtends(fp, s, e);
    if ed in s.editors {
      assert EditorOk(fp, s, s.editors[ed]);
      EditorCarries(fp, s, s', s.editors[ed]);
    } else {
      match e
      case LoadRetry(_, rotation, wanted) =>
        ResetProved(fp, s, rotation, s.rows[rotation].targets, s.rows[rotation].fp, wanted);
        TargetsCarry(fp, s, s', rotation, s'.editors[ed].targets, s.rows[rotation].fp);
      case LoadLocalDone(_, rotation) =>
        SetPhaseProved(fp, s, rotation, s.rows[rotation].targets, s.rows[rotation].fp, s.local, OnNewPsk);
        TargetsCarry(fp, s, s', rotation, s'.editors[ed].targets, s.rows[rotation].fp);
    }
  }

  lemma AirKept(fp: Psk -> Fp, s: State, e: Event)
    requires AirOk(s) && Enabled(s, e)
    ensures AirOk(After(fp, s, e))
  {
    var s' := After(fp, s, e);
    forall p | p in s'.air && p.AdminPacket? && p.msg.Some? && p.msg.value.channel.Some?
      ensures Reported(s', p.from, p.requestId, p.msg.value.channel.value)
    {
      if p in s.air {
        var ch := p.msg.value.channel.value;
        var a :| a in s.answers && a.node == p.from && a.requestId == p.requestId && a.channel == ch;
        assert a in s'.answers;
      } else {
        var q := e.request;
        assert Answer(q.node, q.id, q.slot, e.channel) in s'.answers;
      }
    }
  }

  lemma TrackerKept(fp: Psk -> Fp, s: State, e: Event)
    requires T.Inv(s.tracker) && Enabled(s, e)
    ensures T.Inv(After(fp, s, e).tracker)
  {
    match e
    case SendProbe(w, id) => T.StepKeepsInv(s.tracker, T.Register(id, true, s.workers[w].node));
    case OtherRequest(id, node, _) => T.StepKeepsInv(s.tracker, T.Register(id, true, node));
    case Track(te) => T.StepKeepsInv(s.tracker, te);
    case _ =>
  }

  lemma StepKeepsInv(fp: Psk -> Fp, s: State, e: Event)
    requires Inv(fp, s) && Enabled(s, e)
    ensures Inv(fp, After(fp, s, e))
  {
    var s' := After(fp, s, e);
    TrackerKept(fp, s, e);
    AirKept(fp, s, e);
    forall r | r in s'.rows
      ensures RowProved(fp, s', r)
    {
      RowsKept(fp, s, e, r);
    }
    forall w | w in s'.workers
      ensures WorkerOk(fp, s', s'.workers[w])
    {
      WorkersKept(fp, s, e, w);
    }
    forall ed | ed in s'.editors
      ensures EditorOk(fp, s', s'.editors[ed])
    {
      EditorsKept(fp, s, e, ed);
    }
  }

  // ---------------------------------------------------------------------------
  // Runs
  // ---------------------------------------------------------------------------

  ghost predicate Init(s: State) {
    s == State(s.local, T.EMPTY, map[], {}, {}, {}, {}, map[], map[])
  }

  ghost predicate Run(fp: Psk -> Fp, states: seq<State>, events: seq<Event>) {
    && |states| == |events| + 1
    && Init(states[0])
    && forall i | 0 <= i < |events| :: Enabled(states[i], events[i]) && states[i + 1] == After(fp, states[i], events[i])
  }

  lemma {:induction false} InvAlways(fp: Psk -> Fp, states: seq<State>, events: seq<Event>, n: nat)
    requires Run(fp, states, events) && n <= |events|
    ensures Inv(fp, states[n])
  {
    if n > 0 {
      InvAlways(fp, states, events, n - 1);
      StepKeepsInv(fp, states[n - 1], events[n - 1]);
    }
  }

  /**
    A remote target recorded as migrated was probed for that rotation and answered with role
    PRIMARY and the rotation's fingerprint, whatever frames were lost, delayed or repeated,
    and however stale the copies are that other writers store.
   */
  lemma MigratedMeansAnswered(fp: Psk -> Fp, states: seq<State>, events: seq<Event>, n: nat, rotation: nat, i: nat)
    requires Run(fp, states, events) && n <= |events|
    requires rotation in states[n].rows && i < |states[n].rows[rotation].targets|
    requires states[n].rows[rotation].targets[i].phase == OnNewPsk
    requires states[n].rows[rotation].targets[i].node != states[n].local
    ensures Proved(fp, states[n], rotation, states[n].rows[rotation].targets[i].node, states[n].rows[rotation].fp)
  {
    InvAlways(fp, states, events, n);
  }

  /** When no request id is reused for the same node, that answer was about the probe's staging slot. */
  lemma AnswerIsAboutStagingSlot(fp: Psk -> Fp, states: seq<State>, events: seq<Event>, n: nat,
                                 rotation: nat, node: nat, f: Fp, p: Probe, a: Answer)
    requires Run(fp, states, events) && n <= |events|
    requires forall q, r | q in states[n].requests && r in states[n].requests && q.id == r.id && q.node == r.node ::
        q == r
    requires ProvedBy(fp, states[n], rotation, node, f, p, a)
    ensures a.slot == p.request.slot
  {
    InvAlways(fp, states, events, n);
    assert Request(a.requestId, a.node, a.slot) in states[n].requests;
  }
}
