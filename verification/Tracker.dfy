/**
  The correlator of outbound admin packets and their replies
  (internal/fleetsec/transactions.go) and the wait in Service.send
  (internal/fleetsec/service.go:346-392). Every section under the mutex and every channel
  operation is one step, and steps of different goroutines interleave freely.
 */
module Tracker {
  import opened Prelude
  import opened PiRadio

  /** The Routing payload of an ack: not decodable, error reason NONE, or another reason. */
  datatype Ack = Undecodable | Success | BadSessionKey | OtherError(code: nat)

  /** A decoded AdminMessage: the channel of a get_channel_response and the session passkey. */
  datatype AdminMsg = AdminMsg(channel: Option<Channel>, passkey: seq<Byte>)

  datatype Packet =
    | RoutingPacket(from: nat, requestId: nat, ack: Ack)
    | AdminPacket(from: nat, requestId: nat, msg: Option<AdminMsg>)

  /** What lands on a reply channel. */
  datatype Reply = GotAck(from: nat, ack: Ack) | GotAdmin(from: nat, msg: Option<AdminMsg>) | TimedOut | Cancelled

  /**
    A pendingTx with its one-slot reply channel. sends counts the values ever put on the
    channel and received lists those taken off.
   */
  datatype Tx = Tx(id: nat, expectsAdmin: bool, expectedFrom: nat,
                   buffer: Option<Reply>, closed: bool, sends: nat, received: seq<Reply>)

  /** A goroutine that took a transaction out of the map: about to send, or about to close. */
  datatype Deliverer = Sending(tx: nat, reply: Reply) | Closing(tx: nat)

  /**
    txs lists every transaction ever begun; table is the map guarded by the mutex. panicked
    becomes true on a send on, or a close of, a closed channel. log holds the packets that
    reached the handlers.
   */
  datatype State = State(txs: seq<Tx>, table: map<nat, nat>, threads: map<nat, Deliverer>, log: set<Packet>,
                         passkeys: map<nat, seq<Byte>>, panicked: bool)

  datatype Event =
    | Register(id: nat, expectsAdmin: bool, expectedFrom: nat)
    | Inbound(thread: nat, packet: Packet)
    | Expire(thread: nat, tx: nat, timeout: bool)
    | Send(thread: nat)
    | Close(thread: nat)
    | Receive(tx: nat)

  const EMPTY := State([], map[], map[], {}, map[], false)

  // ---------------------------------------------------------------------------
  // The sections under the mutex
  // ---------------------------------------------------------------------------

  /** The transaction a packet resolves, if any: the filters of HandleRoutingAck and HandleAdminReply. */
  function Resolves(txs: seq<Tx>, table: map<nat, nat>, p: Packet): Option<nat> {
    if p.requestId == 0 || p.requestId !in table || table[p.requestId] >= |txs| then None
    else
      var tx := txs[table[p.requestId]];
      if tx.expectedFrom != 0 && p.from != tx.expectedFrom then None
      else if p.RoutingPacket? && tx.expectsAdmin && p.ack == Success then None
      else Some(table[p.requestId])
  }

  function ReplyOf(p: Packet): Reply {
    match p
    case RoutingPacket(from, _, ack) => GotAck(from, ack)
    case AdminPacket(from, _, msg) => GotAdmin(from, msg)
  }

  /** The map of Tracker, with the sections under its mutex as methods. */
  class TransactionMap {
    var txs: seq<Tx>
    var table: map<nat, nat>

    constructor ()
      ensures txs == [] && table == map[]
    {
      txs, table := [], map[];
    }

    ghost predicate Valid()
      reads this
    {
      forall id | id in table :: table[id] < |txs|
    }

    /** Begin: refused for id 0 and for an id in flight. */
    method Begin(id: nat, expectsAdmin: bool, expectedFrom: nat) returns (tx: Option<nat>)
      requires Valid()
      modifies this
      ensures Valid()
      ensures tx.Some? <==> id != 0 && id !in old(table)
      ensures tx.Some? ==> tx.value == |old(txs)| && table == old(table)[id := tx.value]
      ensures tx.Some? ==> txs == old(txs) + [Tx(id, expectsAdmin, expectedFrom, None, false, 0, [])]
      ensures tx.None? ==> txs == old(txs) && table == old(table)
    {
      if id == 0 || id in table {
        return None;
      }
      txs := txs + [Tx(id, expectsAdmin, expectedFrom, None, false, 0, [])];
      table := table[id := |txs| - 1];
      return Some(|txs| - 1);
    }

    /** The locked part of HandleRoutingAck. */
    method TakeForAck(from: nat, requestId: nat, ack: Ack) returns (tx: Option<nat>)
      requires Valid()
      modifies this`table
      ensures Valid()
      ensures tx == Resolves(txs, old(table), RoutingPacket(from, requestId, ack))
      ensures tx.Some? <==>
              && requestId != 0 && requestId in old(table)
              && var t := txs[old(table)[requestId]];
                 && (t.expectedFrom == 0 || from == t.expectedFrom)
                 && !(t.expectsAdmin && ack == Success)
      ensures tx.Some? ==> tx.value == old(table)[requestId]
      ensures table == if tx.Some? then old(table) - {requestId} else old(table)
    {
      if requestId == 0 || requestId !in table {
        return None;
      }
      var failed := ack.Undecodable? || !ack.Success?;
      var t := txs[table[requestId]];
      if t.expectedFrom != 0 && from != t.expectedFrom {
        return None;
      }
      if t.expectsAdmin && !failed {
        return None;
      }
      tx := Some(table[requestId]);
      table := table - {requestId};
    }

    /** The locked part of HandleAdminReply. */
    method TakeForAdmin(from: nat, requestId: nat, msg: Option<AdminMsg>) returns (tx: Option<nat>)
      requires Valid()
      modifies this`table
      ensures Valid()
      ensures tx == Resolves(txs, old(table), AdminPacket(from, requestId, msg))
      ensures tx.Some? <==>
              && requestId != 0 && requestId in old(table)
              && var t := txs[old(table)[requestId]];
                 t.expectedFrom == 0 || from == t.expectedFrom
      ensures tx.Some? ==> tx.value == old(table)[requestId]
      ensures table == if tx.Some? then old(table) - {requestId} else old(table)
    {
      if requestId == 0 || requestId !in table {
        return None;
      }
      var t := txs[table[requestId]];
      if t.expectedFrom != 0 && from != t.expectedFrom {
        return None;
      }
      tx := Some(table[requestId]);
      table := table - {requestId};
    }

    /** removeAndClose: by id, whichever transaction now has it. */
    method RemoveById(id: nat) returns (tx: Option<nat>)
      requires Valid()
      modifies this`table
      ensures Valid()
      ensures tx == if id in old(table) then Some(old(table)[id]) else None
      ensures table == old(table) - {id}
    {
      tx := if id in table then Some(table[id]) else None;
      table := table - {id};
    }
  }

  // ---------------------------------------------------------------------------
  // Steps
  // ---------------------------------------------------------------------------

  function Take(s: State, thread: nat, id: nat, tx: nat, reply: Reply): State {
    s.(table := s.table - {id}, threads := s.threads[thread := Sending(tx, reply)])
  }

  /** Service.send's use of a received reply: the session passkey cache. */
  function LearnPasskey(passkeys: map<nat, seq<Byte>>, tx: Tx, r: Reply): map<nat, seq<Byte>> {
    if tx.expectedFrom == 0 then passkeys
    else if r.GotAdmin? && r.msg.Some? && r.msg.value.passkey != [] then
      passkeys[tx.expectedFrom := r.msg.value.passkey]
    else if r.GotAck? && r.ack == BadSessionKey then passkeys - {tx.expectedFrom}
    else passkeys
  }

  ghost predicate Enabled(s: State, e: Event) {
    match e
    case Register(_, _, _) => true
    case Inbound(t, _) => t !in s.threads
    case Expire(t, k, _) => t !in s.threads && k < |s.txs|
    case Send(t) => t in s.threads && s.threads[t].Sending? && s.threads[t].tx < |s.txs| &&
                    (s.txs[s.threads[t].tx].buffer.None? || s.txs[s.threads[t].tx].closed)
    case Close(t) => t in s.threads && s.threads[t].Closing? && s.threads[t].tx < |s.txs|
    case Receive(k) => k < |s.txs| && s.txs[k].buffer.Some?
  }

  /** A watcher may fire at any time: its deadline and its caller are not modelled. */
  ghost function After(s: State, e: Event): State
    requires Enabled(s, e)
  {
    match e
    case Register(id, ea, from) =>
      if id == 0 || id in s.table then s
      else s.(txs := s.txs + [Tx(id, ea, from, None, false, 0, [])], table := s.table[id := |s.txs|])
    case Inbound(t, p) =>
      var s1 := s.(log := s.log + {p});
      var tx := Resolves(s.txs, s.table, p);
      if tx.Some? then Take(s1, t, p.requestId, tx.value, ReplyOf(p)) else s1
    case Expire(t, k, timeout) =>
      var id := s.txs[k].id;
      if id in s.table then Take(s, t, id, s.table[id], if timeout then TimedOut else Cancelled) else s
    case Send(t) =>
      var k := s.threads[t].tx;
      var tx := s.txs[k];
      if tx.closed then s.(panicked := true)
      else s.(txs := s.txs[k := tx.(buffer := Some(s.threads[t].reply), sends := tx.sends + 1)],
              threads := s.threads[t := Closing(k)])
    case Close(t) =>
      var k := s.threads[t].tx;
      if s.txs[k].closed then s.(panicked := true)
      else s.(txs := s.txs[k := s.txs[k].(closed := true)], threads := s.threads - {t})
    case Receive(k) =>
      var tx := s.txs[k];
      s.(txs := s.txs[k := tx.(buffer := None, received := tx.received + [tx.buffer.value])],
         passkeys := LearnPasskey(s.passkeys, tx, tx.buffer.value))
  }

  // ---------------------------------------------------------------------------
  // The invariant
  // ---------------------------------------------------------------------------

  ghost predicate Registered(s: State, k: nat)
    requires k < |s.txs|
  {
    s.txs[k].id in s.table && s.table[s.txs[k].id] == k
  }

  ghost predicate Held(s: State, k: nat) {
    exists t :: t in s.threads && s.threads[t].tx == k
  }

  /** Delivered once, and closed. */
  ghost predicate Finished(s: State, k: nat)
    requires k < |s.txs|
  {
    s.txs[k].closed && s.txs[k].sends == 1
  }

  /** Held, and by one deliverer only. */
  ghost predicate HeldOnce(s: State, k: nat) {
    && Held(s, k)
    && forall t, u | t in s.threads && u in s.threads && s.threads[t].tx == k && s.threads[u].tx == k :: t == u
  }

  /** A transaction is registered, or held by one deliverer, or finished, and only one of these. */
  ghost predicate InOneState(s: State, k: nat)
    requires k < |s.txs|
  {
    || (Registered(s, k) && !Held(s, k) && !Finished(s, k))
    || (!Registered(s, k) && HeldOnce(s, k) && !Finished(s, k))
    || (!Registered(s, k) && !Held(s, k) && Finished(s, k))
  }

  /** The reply channel holds what was sent and not yet received. */
  ghost predicate ChannelOk(tx: Tx) {
    || (tx.sends == 0 && !tx.closed && tx.buffer == None && tx.received == [])
    || (tx.sends == 1 && tx.buffer.Some? && tx.received == [])
    || (tx.sends == 1 && tx.buffer == None && |tx.received| == 1)
  }

  /** The reply is a timeout, a cancellation, or a packet of the log that the transaction accepts. */
  ghost predicate Justified(log: set<Packet>, tx: Tx, r: Reply) {
    match r
    case GotAck(from, ack) =>
      && RoutingPacket(from, tx.id, ack) in log
      && (tx.expectedFrom != 0 ==> from == tx.expectedFrom)
      && !(tx.expectsAdmin && ack == Success)
    case GotAdmin(from, msg) =>
      && AdminPacket(from, tx.id, msg) in log
      && (tx.expectedFrom != 0 ==> from == tx.expectedFrom)
    case _ => true
  }

  ghost predicate TxOk(s: State, k: nat)
    requires k < |s.txs|
  {
    var tx := s.txs[k];
    && ChannelOk(tx)
    && (Registered(s, k) ==> tx.sends == 0)
    && (!Registered(s, k) && !Held(s, k) ==> tx.closed)
    && (tx.buffer.Some? ==> Justified(s.log, tx, tx.buffer.value))
    && (tx.received != [] ==> Justified(s.log, tx, tx.received[0]))
  }

  ghost predicate ThreadOk(s: State, t: nat)
    requires t in s.threads
  {
    var d := s.threads[t];
    && d.tx < |s.txs|
    && !Registered(s, d.tx)
    && !s.txs[d.tx].closed
    && (d.Sending? ==> s.txs[d.tx].sends == 0 && Justified(s.log, s.txs[d.tx], d.reply))
    && (d.Closing? ==> s.txs[d.tx].sends == 1)
  }

  ghost predicate PasskeysOk(log: set<Packet>, passkeys: map<nat, seq<Byte>>) {
    forall n | n in passkeys :: n != 0 && PasskeyFrom(log, n, passkeys[n])
  }

  /** Node n itself sent an admin message carrying this passkey. */
  ghost predicate PasskeyFrom(log: set<Packet>, n: nat, passkey: seq<Byte>) {
    exists p :: p in log && p.AdminPacket? && p.from == n && p.msg.Some? && p.msg.value.passkey == passkey
  }

  ghost predicate Inv(s: State) {
    && !s.panicked
    && (forall id | id in s.table :: id != 0 && s.table[id] < |s.txs| && s.txs[s.table[id]].id == id)
    && (forall k: nat | k < |s.txs| :: TxOk(s, k))
    && (forall t | t in s.threads :: ThreadOk(s, t))
    && (forall t, u | t in s.threads && u in s.threads && t != u :: s.threads[t].tx != s.threads[u].tx)
    && PasskeysOk(s.log, s.passkeys)
  }

  lemma InvMeansOneState(s: State, k: nat)
    requires Inv(s) && k < |s.txs|
    ensures InOneState(s, k)
  {
    assert TxOk(s, k);
    if Held(s, k) {
      var t :| t in s.threads && s.threads[t].tx == k;
      assert ThreadOk(s, t);
    }
  }

  // ---------------------------------------------------------------------------
  // Every step keeps it
  // ---------------------------------------------------------------------------

  lemma PasskeysGrow(log: set<Packet>, more: set<Packet>, passkeys: map<nat, seq<Byte>>)
    requires PasskeysOk(log, passkeys) && log <= more
    ensures PasskeysOk(more, passkeys)
  {
    forall n | n in passkeys
      ensures PasskeyFrom(more, n, passkeys[n])
    {
      var p :| p in log && p.AdminPacket? && p.from == n && p.msg.Some? && p.msg.value.passkey == passkeys[n];
      assert p in more;
    }
  }

  lemma BeginKeepsInv(s: State, id: nat, ea: bool, from: nat)
    requires Inv(s)
    ensures Inv(After(s, Register(id, ea, from)))
  {
    var s' := After(s, Register(id, ea, from));
    if s' != s {
      forall k: nat | k < |s'.txs|
        ensures TxOk(s', k)
      {
        if k < |s.txs| {
          assert TxOk(s, k);
          assert s'.txs[k] == s.txs[k];
          assert Registered(s', k) <==> Registered(s, k);
          assert Held(s', k) <==> Held(s, k);
        }
      }
      forall t | t in s'.threads
        ensures ThreadOk(s', t)
      {
        assert ThreadOk(s, t);
      }
    }
  }

  /** Recording a packet that resolves nothing. */
  lemma LogKeepsInv(s: State, p: Packet)
    requires Inv(s)
    ensures Inv(s.(log := s.log + {p}))
  {
    var s' := s.(log := s.log + {p});
    forall k: nat | k < |s'.txs|
      ensures TxOk(s', k)
    {
      assert TxOk(s, k);
      assert Registered(s', k) <==> Registered(s, k);
      assert Held(s', k) <==> Held(s, k);
    }
    forall t | t in s'.threads
      ensures ThreadOk(s', t)
    {
      assert ThreadOk(s, t);
    }
    PasskeysGrow(s.log, s'.log, s.passkeys);
  }

  /** Taking a registered transaction out of the map hands it to exactly one deliverer. */
  lemma TakeKeepsInv(s: State, t: nat, id: nat, reply: Reply)
    requires Inv(s) && t !in s.threads && id in s.table
    requires Justified(s.log, s.txs[s.table[id]], reply)
    ensures Inv(Take(s, t, id, s.table[id], reply))
  {
    var k0 := s.table[id];
    var s' := Take(s, t, id, k0, reply);
    assert Registered(s, k0);
    assert TxOk(s, k0);
    forall u | u in s.threads
      ensures s.threads[u].tx != k0
    {
      assert ThreadOk(s, u);
    }
    forall k: nat | k < |s'.txs|
      ensures TxOk(s', k)
    {
      assert TxOk(s, k);
      if k == k0 {
        assert s'.threads[t].tx == k;
        assert Held(s', k);
      } else {
        assert Registered(s', k) <==> Registered(s, k);
        HeldElsewhere(s, s', t, k);
      }
    }
    forall u | u in s'.threads
      ensures ThreadOk(s', u)
    {
      if u != t {
        assert ThreadOk(s, u);
      }
    }
  }

  /** A change at thread t alone does not alter who holds a transaction that t never had. */
  lemma HeldElsewhere(s: State, s': State, t: nat, k: nat)
    requires forall u | u != t :: u in s.threads <==> u in s'.threads
    requires forall u | u != t && u in s.threads :: s.threads[u].tx == s'.threads[u].tx
    requires t in s.threads ==> s.threads[t].tx != k
    requires t in s'.threads ==> s'.threads[t].tx != k
    ensures Held(s, k) <==> Held(s', k)
  {
    if Held(s, k) {
      var u :| u in s.threads && s.threads[u].tx == k;
      assert u in s'.threads && s'.threads[u].tx == k;
    }
    if Held(s', k) {
      var u :| u in s'.threads && s'.threads[u].tx == k;
      assert u in s.threads && s.threads[u].tx == k;
    }
  }

  lemma InboundKeepsInv(s: State, t: nat, p: Packet)
    requires Inv(s) && t !in s.threads
    ensures Inv(After(s, Inbound(t, p)))
  {
    LogKeepsInv(s, p);
    var tx := Resolves(s.txs, s.table, p);
    if tx.Some? {
      TakeKeepsInv(s.(log := s.log + {p}), t, p.requestId, ReplyOf(p));
    }
  }

  lemma ExpireKeepsInv(s: State, t: nat, k: nat, timeout: bool)
    requires Inv(s) && t !in s.threads && k < |s.txs|
    ensures Inv(After(s, Expire(t, k, timeout)))
  {
    if s.txs[k].id in s.table {
      TakeKeepsInv(s, t, s.txs[k].id, if timeout then TimedOut else Cancelled);
    }
  }

  lemma OthersKeepTxOk(s: State, s': State, t: nat, k0: nat, k: nat)
    requires Inv(s) && |s'.txs| == |s.txs| && k < |s.txs| && k != k0
    requires s'.txs[k] == s.txs[k] && s'.table == s.table && s'.log == s.log
    requires forall u | u != t :: u in s.threads <==> u in s'.threads
    requires forall u | u != t && u in s.threads :: s.threads[u] == s'.threads[u]
    requires t in s.threads ==> s.threads[t].tx == k0
    requires t in s'.threads ==> s'.threads[t].tx == k0
    ensures TxOk(s', k)
  {
    assert TxOk(s, k);
    HeldElsewhere(s, s', t, k);
  }

  lemma SendKeepsInv(s: State, t: nat)
    requires Inv(s) && Enabled(s, Send(t))
    ensures Inv(After(s, Send(t)))
  {
    assert ThreadOk(s, t);
    var k0 := s.threads[t].tx;
    assert TxOk(s, k0);
    var s' := After(s, Send(t));
    forall k: nat | k < |s'.txs|
      ensures TxOk(s', k)
    {
      if k != k0 {
        OthersKeepTxOk(s, s', t, k0, k);
      } else {
        assert s'.threads[t].tx == k0;
        assert Held(s', k0);
      }
    }
    forall u | u in s'.threads
      ensures ThreadOk(s', u)
    {
      assert ThreadOk(s, u);
    }
  }

  lemma CloseKeepsInv(s: State, t: nat)
    requires Inv(s) && Enabled(s, Close(t))
    ensures Inv(After(s, Close(t)))
  {
    assert ThreadOk(s, t);
    var k0 := s.threads[t].tx;
    assert TxOk(s, k0);
    var s' := After(s, Close(t));
    forall k: nat | k < |s'.txs|
      ensures TxOk(s', k)
    {
      if k != k0 {
        OthersKeepTxOk(s, s', t, k0, k);
      }
    }
    forall u | u in s'.threads
      ensures ThreadOk(s', u)
    {
      assert ThreadOk(s, u);
      assert s.threads[u].tx != k0;
    }
  }

  lemma ReceiveKeepsInv(s: State, k0: nat)
    requires Inv(s) && Enabled(s, Receive(k0))
    ensures Inv(After(s, Receive(k0)))
  {
    assert TxOk(s, k0);
    var s' := After(s, Receive(k0));
    forall k: nat | k < |s'.txs|
      ensures TxOk(s', k)
    {
      assert TxOk(s, k);
      assert Registered(s', k) <==> Registered(s, k);
      assert Held(s', k) <==> Held(s, k);
    }
    forall u | u in s'.threads
      ensures ThreadOk(s', u)
    {
      assert ThreadOk(s, u);
      assert Registered(s', s.threads[u].tx) <==> Registered(s, s.threads[u].tx);
    }
    LearnKeepsPasskeys(s.log, s.passkeys, s.txs[k0], s.txs[k0].buffer.value);
  }

  lemma LearnKeepsPasskeys(log: set<Packet>, passkeys: map<nat, seq<Byte>>, tx: Tx, r: Reply)
    requires PasskeysOk(log, passkeys) && Justified(log, tx, r)
    ensures PasskeysOk(log, LearnPasskey(passkeys, tx, r))
  {
    if tx.expectedFrom != 0 && r.GotAdmin? && r.msg.Some? && r.msg.value.passkey != [] {
      assert AdminPacket(r.from, tx.id, r.msg) in log;
      assert PasskeyFrom(log, tx.expectedFrom, r.msg.value.passkey);
    }
  }

  lemma StepKeepsInv(s: State, e: Event)
    requires Inv(s) && Enabled(s, e)
    ensures Inv(After(s, e))
  {
    match e
    case Register(id, ea, from) => BeginKeepsInv(s, id, ea, from);
    case Inbound(t, p) => InboundKeepsInv(s, t, p);
    case Expire(t, k, timeout) => ExpireKeepsInv(s, t, k, timeout);
    case Send(t) => SendKeepsInv(s, t);
    case Close(t) => CloseKeepsInv(s, t);
    case Receive(k) => ReceiveKeepsInv(s, k);
  }

  // ---------------------------------------------------------------------------
  // Runs
  // ---------------------------------------------------------------------------

  ghost predicate Run(states: seq<State>, events: seq<Event>) {
    && |states| == |events| + 1
    && states[0] == EMPTY
    && forall i | 0 <= i < |events| :: Enabled(states[i], events[i]) && states[i + 1] == After(states[i], events[i])
  }

  lemma {:induction false} InvAlways(states: seq<State>, events: seq<Event>, n: nat)
    requires Run(states, events) && n <= |events|
    ensures Inv(states[n])
  {
    if n > 0 {
      InvAlways(states, events, n - 1);
      StepKeepsInv(states[n - 1], events[n - 1]);
    }
  }

  /**
    For every interleaving: nothing panics; each transaction is in exactly one of the three
    states, a taken one with one deliverer; at most one reply ever reaches its channel; whoever
    is about to send finds the channel open and with room; and a closed channel has delivered a
    reply or still holds it.
   */
  lemma DeliveredExactlyOnce(states: seq<State>, events: seq<Event>, n: nat)
    requires Run(states, events) && n <= |events|
    ensures var s := states[n];
      && !s.panicked
      && (forall k: nat | k < |s.txs| ::
            && InOneState(s, k)
            && s.txs[k].sends <= 1 && |s.txs[k].received| <= s.txs[k].sends
            && (s.txs[k].closed ==> s.txs[k].buffer.Some? || |s.txs[k].received| == 1))
      && (forall t | t in s.threads && s.threads[t].Sending? ::
            s.threads[t].tx < |s.txs| && !s.txs[s.threads[t].tx].closed && s.txs[s.threads[t].tx].buffer == None)
  {
    InvAlways(states, events, n);
    var s := states[n];
    forall k: nat | k < |s.txs|
      ensures InOneState(s, k)
      ensures s.txs[k].sends <= 1 && |s.txs[k].received| <= s.txs[k].sends
      ensures s.txs[k].closed ==> s.txs[k].buffer.Some? || |s.txs[k].received| == 1
    {
      InvMeansOneState(s, k);
      assert TxOk(s, k);
    }
    forall t | t in s.threads && s.threads[t].Sending?
      ensures s.threads[t].tx < |s.txs| && !s.txs[s.threads[t].tx].closed && s.txs[s.threads[t].tx].buffer == None
    {
      assert ThreadOk(s, t);
      assert TxOk(s, s.threads[t].tx);
    }
  }

  /** What Service.send makes of the reply it received. */
  function SendResult(r: Reply): Result<Option<AdminMsg>, string> {
    match r
    case GotAdmin(_, msg) => Ok(msg)
    case GotAck(_, Success) => Ok(None)
    case GotAck(_, _) => Err("routing error")
    case TimedOut => Err("transaction timeout")
    case Cancelled => Err("cancelled")
  }

  // ---------------------------------------------------------------------------
  // What the waiter receives is what took its transaction
  // ---------------------------------------------------------------------------

  /** Event i is an inbound packet that takes transaction k out of the map. */
  ghost predicate TakesAt(states: seq<State>, events: seq<Event>, k: nat, i: nat)
    requires i < |events| < |states|
  {
    events[i].Inbound? && Resolves(states[i].txs, states[i].table, events[i].packet) == Some(k)
  }

  /** Transaction k is out of the map, and whatever is on its way to the waiter, or there, is r. */
  ghost predicate Carries(s: State, k: nat, r: Reply) {
    && k < |s.txs| && !Registered(s, k)
    && (forall t | t in s.threads && s.threads[t].tx == k && s.threads[t].Sending? :: s.threads[t].reply == r)
    && (s.txs[k].buffer.Some? ==> s.txs[k].buffer.value == r)
    && (s.txs[k].received != [] ==> s.txs[k].received[0] == r)
  }

  lemma TakeCarries(s: State, e: Event, k: nat)
    requires Inv(s) && e.Inbound? && Enabled(s, e) && Resolves(s.txs, s.table, e.packet) == Some(k)
    ensures Carries(After(s, e), k, ReplyOf(e.packet))
  {
    hide Justified, PasskeysOk;
    assert Registered(s, k);
    assert TxOk(s, k);
    forall t | t in s.threads
      ensures s.threads[t].tx != k
    {
      assert ThreadOk(s, t);
    }
  }

  /** A step under the mutex hands out registered transactions only. */
  lemma LockedCarriesOn(s: State, e: Event, k: nat, r: Reply)
    requires Inv(s) && Enabled(s, e) && Carries(s, k, r) && (e.Register? || e.Inbound? || e.Expire?)
    ensures Carries(After(s, e), k, r)
  {
    hide TxOk, ThreadOk, PasskeysOk;
  }

  /** Once out of the map a transaction stays out, and nothing replaces what it carries. */
  lemma CarriesOn(s: State, e: Event, k: nat, r: Reply)
    requires Inv(s) && Enabled(s, e) && Carries(s, k, r)
    ensures Carries(After(s, e), k, r)
  {
    if e.Register? || e.Inbound? || e.Expire? {
      LockedCarriesOn(s, e, k, r);
    } else {
      assert TxOk(s, k);
      hide TxOk, ThreadOk, PasskeysOk, LearnPasskey, ReplyOf, Resolves;
    }
  }

  lemma {:induction false} TakenCarries(states: seq<State>, events: seq<Event>, k: nat, i: nat, n: nat)
    requires Run(states, events) && i < n <= |events| && TakesAt(states, events, k, i)
    ensures Carries(states[n], k, ReplyOf(events[i].packet))
  {
    hide Inv, Carries, Enabled, After;
    var m: nat := n - 1;
    InvAlways(states, events, m);
    if i == m {
      TakeCarries(states[m], events[m], k);
    } else {
      TakenCarries(states, events, k, i, m);
      CarriesOn(states[m], events[m], k, ReplyOf(events[i].packet));
    }
  }

  predicate FromPacket(r: Reply) {
    r.GotAck? || r.GotAdmin?
  }

  /** Some packet before step n took k and became r. */
  ghost predicate TookAs(states: seq<State>, events: seq<Event>, k: nat, r: Reply, n: nat)
    requires n <= |events| < |states|
  {
    exists i: nat :: i < n && TakesAt(states, events, k, i) && ReplyOf(events[i].packet) == r
  }

  /** Every ack or admin reply in a thread, a buffer or a waiter comes from such a packet. */
  ghost predicate Sourced(states: seq<State>, events: seq<Event>, n: nat)
    requires n <= |events| < |states|
  {
    var s := states[n];
    && (forall t | t in s.threads && s.threads[t].Sending? && FromPacket(s.threads[t].reply) ::
          TookAs(states, events, s.threads[t].tx, s.threads[t].reply, n))
    && (forall k: nat | k < |s.txs| && s.txs[k].buffer.Some? && FromPacket(s.txs[k].buffer.value) ::
          TookAs(states, events, k, s.txs[k].buffer.value, n))
    && (forall k: nat | k < |s.txs| && s.txs[k].received != [] && FromPacket(s.txs[k].received[0]) ::
          TookAs(states, events, k, s.txs[k].received[0], n))
  }

  lemma TookAsGrows(states: seq<State>, events: seq<Event>, k: nat, r: Reply, m: nat, n: nat)
    requires m <= n <= |events| < |states| && TookAs(states, events, k, r, m)
    ensures TookAs(states, events, k, r, n)
  {
    var i: nat :| i < m && TakesAt(states, events, k, i) && ReplyOf(events[i].packet) == r;
    assert i < n;
  }

  /** The replies a step puts somewhere new were there before, or its packet takes the transaction. */
  lemma StepSources(s: State, e: Event)
    requires Inv(s) && Enabled(s, e)
    ensures var s' := After(s, e);
      && (forall t | t in s'.threads && s'.threads[t].Sending? && FromPacket(s'.threads[t].reply) ::
            || (t in s.threads && s.threads[t] == s'.threads[t])
            || (e.Inbound? && Resolves(s.txs, s.table, e.packet) == Some(s'.threads[t].tx)
                && ReplyOf(e.packet) == s'.threads[t].reply))
      && (forall k: nat | k < |s'.txs| && s'.txs[k].buffer.Some? ::
            || (k < |s.txs| && s'.txs[k].buffer == s.txs[k].buffer)
            || (exists t :: t in s.threads && s.threads[t] == Sending(k, s'.txs[k].buffer.value)))
      && (forall k: nat | k < |s'.txs| && s'.txs[k].received != [] ::
            && k < |s.txs|
            && (|| (s.txs[k].received != [] && s'.txs[k].received[0] == s.txs[k].received[0])
                || s.txs[k].buffer == Some(s'.txs[k].received[0])))
  {
    hide Justified, PasskeysOk, LearnPasskey, Resolves, TxOk, ThreadOk;
    if e.Send? {
      assert s.threads[e.thread] == Sending(s.threads[e.thread].tx, s.threads[e.thread].reply);
    }
  }

  lemma {:induction false} SourcedAlways(states: seq<State>, events: seq<Event>, n: nat)
    requires Run(states, events) && n <= |events|
    ensures Sourced(states, events, n)
  {
    if n > 0 {
      var m: nat := n - 1;
      SourcedAlways(states, events, m);
      InvAlways(states, events, m);
      SourcedStep(states, events, m);
    }
  }

  lemma SourcedStep(states: seq<State>, events: seq<Event>, m: nat)
    requires m < |events| < |states| && Sourced(states, events, m) && Inv(states[m])
    requires Enabled(states[m], events[m]) && states[m + 1] == After(states[m], events[m])
    ensures Sourced(states, events, m + 1)
  {
    var s, s', e, n := states[m], states[m + 1], events[m], m + 1;
    StepSources(s, e);
    hide Inv, Enabled, After, Resolves, TookAs;
    forall t | t in s'.threads && s'.threads[t].Sending? && FromPacket(s'.threads[t].reply)
      ensures TookAs(states, events, s'.threads[t].tx, s'.threads[t].reply, n)
    {
      if t in s.threads && s.threads[t] == s'.threads[t] {
        TookAsGrows(states, events, s.threads[t].tx, s.threads[t].reply, m, n);
      } else {
        TookNow(states, events, s'.threads[t].tx, s'.threads[t].reply, m);
      }
    }
    forall k: nat | k < |s'.txs| && s'.txs[k].buffer.Some? && FromPacket(s'.txs[k].buffer.value)
      ensures TookAs(states, events, k, s'.txs[k].buffer.value, n)
    {
      TookAsGrows(states, events, k, s'.txs[k].buffer.value, m, n);
    }
    forall k: nat | k < |s'.txs| && s'.txs[k].received != [] && FromPacket(s'.txs[k].received[0])
      ensures TookAs(states, events, k, s'.txs[k].received[0], n)
    {
      TookAsGrows(states, events, k, s'.txs[k].received[0], m, n);
    }
  }

  lemma TookNow(states: seq<State>, events: seq<Event>, k: nat, r: Reply, m: nat)
    requires m < |events| < |states| && TakesAt(states, events, k, m) && ReplyOf(events[m].packet) == r
    ensures TookAs(states, events, k, r, m + 1)
  {
    assert m < m + 1;
  }

  /**
    send reports no error only if, while the transaction was registered, a packet with that
    request id arrived from the addressed node and became its reply, and for a Get request
    only if that packet is an admin message. In particular the local loopback ack never
    completes a request to another node.
   */
  lemma SendOkMeansAnswered(states: seq<State>, events: seq<Event>, n: nat, k: nat)
    requires Run(states, events) && n <= |events| && k < |states[n].txs|
    requires states[n].txs[k].received != [] && SendResult(states[n].txs[k].received[0]).Ok?
    requires states[n].txs[k].expectedFrom != 0
    ensures var tx := states[n].txs[k];
      exists i: nat :: i < n && TakesAt(states, events, k, i) && Answers(events[i].packet, tx)
  {
    InvAlways(states, events, n);
    SourcedAlways(states, events, n);
    var s, tx := states[n], states[n].txs[k];
    assert TxOk(s, k);
    assert TookAs(states, events, k, tx.received[0], n);
    var i: nat :| i < n && TakesAt(states, events, k, i) && ReplyOf(events[i].packet) == tx.received[0];
    TakenById(states, events, k, i, n);
    assert Answers(events[i].packet, tx);
  }

  /** The packet is from the node the transaction waits for, bears its id, and is the reply it received. */
  ghost predicate Answers(p: Packet, tx: Tx) {
    && p.requestId == tx.id && p.from == tx.expectedFrom
    && tx.received != [] && ReplyOf(p) == tx.received[0]
    && (tx.expectsAdmin ==> p.AdminPacket?)
  }

  /** The packet that takes a transaction bears its id. */
  lemma {:induction false} TakenById(states: seq<State>, events: seq<Event>, k: nat, i: nat, n: nat)
    requires Run(states, events) && i <= n <= |events| && i < |events| && TakesAt(states, events, k, i)
    ensures k < |states[n].txs| && states[n].txs[k].id == events[i].packet.requestId
    decreases n
  {
    InvAlways(states, events, i);
    if i < n {
      TakenById(states, events, k, i, n - 1);
      TxKept(states[n - 1], events[n - 1], k);
    }
  }

  lemma TxKept(s: State, e: Event, k: nat)
    requires Enabled(s, e) && k < |s.txs|
    ensures k < |After(s, e).txs| && After(s, e).txs[k].id == s.txs[k].id
  {
    hide LearnPasskey, Resolves;
  }

  /**
    A Get whose send ended without an error was taken by an inbound packet, and what send
    returns is what decoding that packet gave: the message when it decodes, nothing when not.
   */
  lemma GetReturnsWhatArrived(states: seq<State>, events: seq<Event>, n: nat, k: nat)
    requires Run(states, events) && n <= |events| && k < |states[n].txs|
    requires states[n].txs[k].received != [] && SendResult(states[n].txs[k].received[0]).Ok?
    requires states[n].txs[k].expectsAdmin
    ensures exists i: nat :: i < n && TakesAt(states, events, k, i)
    ensures forall i: nat | i < n && TakesAt(states, events, k, i) ::
              && events[i].packet.AdminPacket?
              && SendResult(states[n].txs[k].received[0]) == Ok(events[i].packet.msg)
  {
    InvAlways(states, events, n);
    SourcedAlways(states, events, n);
    assert TxOk(states[n], k);
    assert TookAs(states, events, k, states[n].txs[k].received[0], n);
    forall i: nat | i < n && TakesAt(states, events, k, i)
      ensures events[i].packet.AdminPacket?
      ensures SendResult(states[n].txs[k].received[0]) == Ok(events[i].packet.msg)
    {
      TakenCarries(states, events, k, i, n);
    }
  }

  /** Event i is a watcher that takes transaction k out of the map. */
  ghost predicate ExpiresAt(states: seq<State>, events: seq<Event>, k: nat, i: nat)
    requires i < |events| < |states|
  {
    && events[i].Expire? && events[i].tx < |states[i].txs|
    && var id := states[i].txs[events[i].tx].id;
       id in states[i].table && states[i].table[id] == k
  }

  lemma ExpireCarries(s: State, e: Event, k: nat)
    requires Inv(s) && e.Expire? && Enabled(s, e)
    requires s.txs[e.tx].id in s.table && s.table[s.txs[e.tx].id] == k
    ensures Carries(After(s, e), k, if e.timeout then TimedOut else Cancelled)
  {
    hide Justified, PasskeysOk;
    assert Registered(s, k);
    assert TxOk(s, k);
    forall t | t in s.threads
      ensures s.threads[t].tx != k
    {
      assert ThreadOk(s, t);
    }
  }

  lemma {:induction false} ExpiredCarries(states: seq<State>, events: seq<Event>, k: nat, i: nat, n: nat)
    requires Run(states, events) && i < n <= |events| && ExpiresAt(states, events, k, i)
    ensures Carries(states[n], k, if events[i].timeout then TimedOut else Cancelled)
  {
    hide Inv, Carries, Enabled, After;
    var m: nat := n - 1;
    InvAlways(states, events, m);
    if i == m {
      ExpireCarries(states[m], events[m], k);
    } else {
      ExpiredCarries(states, events, k, i, m);
      CarriesOn(states[m], events[m], k, if events[i].timeout then TimedOut else Cancelled);
    }
  }

  /**
    What send returns, by what took its transaction: without an error exactly for an admin message
    and for a successful ack. The ack gives no message, the admin message gives itself; any other
    ack, one that does not decode, a timeout and a cancellation give an error.
   */
  lemma SendOutcome(states: seq<State>, events: seq<Event>, n: nat, k: nat, i: nat)
    requires Run(states, events) && n <= |events| && k < |states[n].txs| && states[n].txs[k].received != [] && i < n
    ensures TakesAt(states, events, k, i) ==>
              var p, r := events[i].packet, SendResult(states[n].txs[k].received[0]);
              && (r.Ok? <==> p.AdminPacket? || (p.RoutingPacket? && p.ack == Success))
              && (p.AdminPacket? ==> r == Ok(p.msg))
              && (p.RoutingPacket? && p.ack == Success ==> r == Ok(None))
    ensures ExpiresAt(states, events, k, i) ==>
              && states[n].txs[k].received[0] == (if events[i].timeout then TimedOut else Cancelled)
              && SendResult(states[n].txs[k].received[0]).Err?
  {
    if TakesAt(states, events, k, i) {
      TakenCarries(states, events, k, i, n);
    }
    if ExpiresAt(states, events, k, i) {
      ExpiredCarries(states, events, k, i, n);
    }
    hide TakesAt, ExpiresAt, Run;
  }

  /** A watcher replied, and what it replied. */
  ghost predicate ExpiredAs(states: seq<State>, events: seq<Event>, k: nat, n: nat)
    requires n <= |events| < |states|
  {
    exists i: nat :: i < n && ExpiresAt(states, events, k, i)
  }

  /** Every timeout or cancellation under way or received comes from a watcher that took the transaction. */
  ghost predicate Timed(states: seq<State>, events: seq<Event>, n: nat)
    requires n <= |events| < |states|
  {
    var s := states[n];
    && (forall t | t in s.threads && s.threads[t].Sending? && !FromPacket(s.threads[t].reply) ::
          ExpiredAs(states, events, s.threads[t].tx, n))
    && (forall k: nat | k < |s.txs| && s.txs[k].buffer.Some? && !FromPacket(s.txs[k].buffer.value) ::
          ExpiredAs(states, events, k, n))
    && (forall k: nat | k < |s.txs| && s.txs[k].received != [] && !FromPacket(s.txs[k].received[0]) ::
          ExpiredAs(states, events, k, n))
  }

  lemma ExpiredAsGrows(states: seq<State>, events: seq<Event>, k: nat, m: nat)
    requires m < |events| < |states|
    ensures ExpiredAs(states, events, k, m) || ExpiresAt(states, events, k, m) ==> ExpiredAs(states, events, k, m + 1)
  {
    if ExpiredAs(states, events, k, m) {
      var i: nat :| i < m && ExpiresAt(states, events, k, i);
      assert i < m + 1;
    }
  }

  /** A new timeout or cancellation in a thread comes from the step's own watcher. */
  lemma StepExpires(s: State, e: Event)
    requires Inv(s) && Enabled(s, e)
    ensures var s' := After(s, e);
      forall t | t in s'.threads && s'.threads[t].Sending? && !FromPacket(s'.threads[t].reply) ::
        || (t in s.threads && s.threads[t] == s'.threads[t])
        || (e.Expire? && e.tx < |s.txs| && s.txs[e.tx].id in s.table && s.table[s.txs[e.tx].id] == s'.threads[t].tx)
  {
    hide Justified, PasskeysOk, LearnPasskey, Resolves, TxOk, ThreadOk;
  }

  lemma TimedStep(states: seq<State>, events: seq<Event>, m: nat)
    requires m < |events| < |states| && Timed(states, events, m) && Inv(states[m])
    requires Enabled(states[m], events[m]) && states[m + 1] == After(states[m], events[m])
    ensures Timed(states, events, m + 1)
  {
    var s, s', e, n := states[m], states[m + 1], events[m], m + 1;
    StepSources(s, e);
    StepExpires(s, e);
    hide Inv, Enabled, After, Resolves, ExpiredAs;
    forall t | t in s'.threads && s'.threads[t].Sending? && !FromPacket(s'.threads[t].reply)
      ensures ExpiredAs(states, events, s'.threads[t].tx, n)
    {
      ExpiredAsGrows(states, events, s'.threads[t].tx, m);
    }
    forall k: nat | k < |s'.txs| && s'.txs[k].buffer.Some? && !FromPacket(s'.txs[k].buffer.value)
      ensures ExpiredAs(states, events, k, n)
    {
      ExpiredAsGrows(states, events, k, m);
    }
    forall k: nat | k < |s'.txs| && s'.txs[k].received != [] && !FromPacket(s'.txs[k].received[0])
      ensures ExpiredAs(states, events, k, n)
    {
      ExpiredAsGrows(states, events, k, m);
    }
  }

  lemma {:induction false} TimedAlways(states: seq<State>, events: seq<Event>, n: nat)
    requires Run(states, events) && n <= |events|
    ensures Timed(states, events, n)
  {
    if n > 0 {
      var m: nat := n - 1;
      TimedAlways(states, events, m);
      InvAlways(states, events, m);
      TimedStep(states, events, m);
    }
  }

  /** A waiter that received a reply has one step to thank for it: a packet or a watcher took its transaction. */
  lemma ReplyHasCause(states: seq<State>, events: seq<Event>, n: nat, k: nat)
    requires Run(states, events) && n <= |events| && k < |states[n].txs| && states[n].txs[k].received != []
    ensures exists i: nat :: i < n && (TakesAt(states, events, k, i) || ExpiresAt(states, events, k, i))
  {
    SourcedAlways(states, events, n);
    TimedAlways(states, events, n);
    hide Run, TakesAt, ExpiresAt;
    var r := states[n].txs[k].received[0];
    if FromPacket(r) {
      assert TookAs(states, events, k, r, n);
    } else {
      assert ExpiredAs(states, events, k, n);
    }
  }

  /**
    What a reply does to the session passkeys: an admin message with a passkey from the addressed
    node replaces that node's, a BAD_SESSION_KEY ack drops it, and nothing else changes any.
   */
  lemma PasskeyLearned(s: State, k: nat, r: Reply)
    requires Enabled(s, Receive(k)) && s.txs[k].buffer == Some(r)
    ensures var node, s' := s.txs[k].expectedFrom, After(s, Receive(k));
      var learnt := r.GotAdmin? && r.msg.Some? && r.msg.value.passkey != [];
      && (node != 0 && learnt ==> node in s'.passkeys && s'.passkeys[node] == r.msg.value.passkey)
      && (node != 0 && r.GotAck? && r.ack == BadSessionKey ==> node !in s'.passkeys)
      && (forall m | m != node ::
            (m in s'.passkeys <==> m in s.passkeys) && (m in s.passkeys ==> s'.passkeys[m] == s.passkeys[m]))
      && (node == 0 || (!learnt && !(r.GotAck? && r.ack == BadSessionKey)) ==> s'.passkeys == s.passkeys)
  {
  }

  /** If every admin packet from the node under that id decodes, a Get without an error returns a message. */
  lemma GetReturnsMessage(states: seq<State>, events: seq<Event>, n: nat, k: nat)
    requires Run(states, events) && n <= |events| && k < |states[n].txs|
    requires states[n].txs[k].received != [] && SendResult(states[n].txs[k].received[0]).Ok?
    requires states[n].txs[k].expectsAdmin && states[n].txs[k].expectedFrom != 0
    requires forall p | p in states[n].log && p.AdminPacket? && p.requestId == states[n].txs[k].id ::
               p.from == states[n].txs[k].expectedFrom ==> p.msg.Some?
    ensures SendResult(states[n].txs[k].received[0]).value.Some?
  {
    InvAlways(states, events, n);
    assert TxOk(states[n], k);
  }

  // A Get whose reply does not decode, step by step.
  const GARBLED := AdminPacket(7, 1, None)
  const ASKED := Tx(1, true, 7, None, false, 0, [])
  const REPLIED := Tx(1, true, 7, Some(GotAdmin(7, None)), false, 1, [])
  const ENDED := Tx(1, true, 7, None, false, 1, [GotAdmin(7, None)])

  ghost function GarbledStates(): seq<State> {
    [EMPTY,
     State([ASKED], map[1 := 0], map[], {}, map[], false),
     State([ASKED], map[], map[0 := Sending(0, GotAdmin(7, None))], {GARBLED}, map[], false),
     State([REPLIED], map[], map[0 := Closing(0)], {GARBLED}, map[], false),
     State([ENDED], map[], map[0 := Closing(0)], {GARBLED}, map[], false)]
  }

  function GarbledEvents(): seq<Event> {
    [Register(1, true, 7), Inbound(0, GARBLED), Send(0), Receive(0)]
  }

  lemma GarbledStep(i: nat)
    requires i < 4
    ensures var s, e := GarbledStates()[i], GarbledEvents()[i];
      Enabled(s, e) && After(s, e) == GarbledStates()[i + 1]
  {
    var s := GarbledStates()[i];
    if i == 0 {
      assert [] + [ASKED] == [ASKED] && map[][1 := 0] == map[1 := 0];
    } else if i == 1 {
      assert Resolves(s.txs, s.table, GARBLED) == Some(0);
      assert map[1 := 0] - {1} == map[] && {} + {GARBLED} == {GARBLED};
    } else if i == 2 {
      assert [ASKED][0 := REPLIED] == [REPLIED];
      assert s.threads[0 := Closing(0)] == map[0 := Closing(0)];
    } else {
      assert [REPLIED][0 := ENDED] == [ENDED];
      assert [] + [GotAdmin(7, None)] == [GotAdmin(7, None)];
    }
  }

  /** A run in which a Get ends without an error and without a message. */
  lemma GetWithoutMessage()
    ensures Run(GarbledStates(), GarbledEvents())
    ensures var tx := GarbledStates()[4].txs[0];
      tx.expectsAdmin && SendResult(tx.received[0]) == Ok(None)
  {
    hide Enabled, After;
    forall i: nat | i < 4
      ensures Enabled(GarbledStates()[i], GarbledEvents()[i])
      ensures GarbledStates()[i + 1] == After(GarbledStates()[i], GarbledEvents()[i])
    {
      GarbledStep(i);
    }
  }

  /** A cached session passkey was issued by the node it is cached for. */
  lemma PasskeysAreAuthentic(states: seq<State>, events: seq<Event>, n: nat, node: nat)
    requires Run(states, events) && n <= |events| && node in states[n].passkeys
    ensures PasskeyFrom(states[n].log, node, states[n].passkeys[node])
  {
    InvAlways(states, events, n);
  }
}
