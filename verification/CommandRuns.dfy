/**
  What whole runs of the command queue guarantee about sending, retrying and leaving the
  pending map, and two runs in which a command that left it is not finished.
 */
module CommandRuns {
  import opened Prelude
  import opened ScanMerge
  import opened Commands
  import CommandService

  // ---------------------------------------------------------------------------
  // What one step does to one command
  // ---------------------------------------------------------------------------

  /** Everything a step other than a send leaves alone. */
  ghost predicate SameSends(c: Command, d: Command) {
    c.node == d.node && c.retries == d.retries && c.maxRetries == d.maxRetries
  }

  lemma ClosedSameSends(c: Command, status: Status, now: int)
    ensures SameSends(c, Closed(c, status, now)) && Closed(c, status, now).status == status
  {
  }

  /** CloseAll, seen from one command that was there before. */
  lemma CloseAllOne(q: Queue, ids: set<nat>, status: Status, child: nat -> nat, now: int, p: nat)
    requires FreshIds(q, Parents(q, ids), child) && p in q.cmds
    ensures var q' := CloseAll(q, ids, status, child, now);
      && p in q'.cmds && SameSends(q.cmds[p], q'.cmds[p])
      && (p in q'.pending <==> p in q.pending && p !in ids)
      && q'.cmds[p].status == if p in ids then status else q.cmds[p].status
  {
    CloseAllShape(q, ids, status, child, now);
    ClosedSameSends(q.cmds[p], status, now);
    hide CloseAll, Parents, Closed;
    var q' := CloseAll(q, ids, status, child, now);
    assert !CreatedFor(Parents(q, ids), child, p);
  }

  lemma AckMatchedOne(q: Queue, a: AckFrame, m: nat, child: nat -> nat, now: int, p: nat)
    requires m in q.cmds && p in q.cmds && FreshIds(q, Parents(q, {m}), child)
    ensures var q1 := AckMatched(q, a, m, child, now);
      && p in q1.cmds && SameSends(q.cmds[p], q1.cmds[p])
      && (p in q1.pending <==> p in q.pending && (p == m ==> AckedStatus(a) == Running))
      && q1.cmds[p].status == if p == m then AckedStatus(a) else q.cmds[p].status
  {
    hide AckedStatus, CloseAll;
    var noted := q.(cmds := q.cmds[m := q.cmds[m].(ackNode := a.node)]);
    assert Parents(noted, {m}) == Parents(q, {m});
    if AckedStatus(a) != Running {
      CloseAllOne(noted, {m}, AckedStatus(a), child, now, p);
    }
  }

  lemma StructuredOne(q: Queue, q': Queue, a: AckFrame, m: nat, child: nat -> nat, child2: nat -> nat, now: int, p: nat)
    requires m in q.pending && m in q.cmds && p in q.cmds && StructuredStep(q, q', a, m, child, child2, now)
    ensures p in q'.cmds && SameSends(q.cmds[p], q'.cmds[p])
    ensures p !in q.pending ==> p !in q'.pending && (p == m || q'.cmds[p].status == q.cmds[p].status)
    ensures p in q.pending && p !in q'.pending ==>
              q'.cmds[p].status == Okay || (p == m && q'.cmds[p].status == AckedStatus(a) != Running)
    ensures p == m && AckedStatus(a) == Sent ==> p !in q'.pending && q'.cmds[p].status == Sent
  {
    AckMatchedOne(q, a, m, child, now, p);
    var q1 := AckMatched(q, a, m, child, now);
    var scope := Scope(q1, a, q.cmds[m].target);
    assert p in scope ==> p in q1.pending;
    CloseAllOne(q1, scope, Okay, child2, now, p);
  }

  /** Every step, seen from one command that was there before. */
  lemma StepOne(q: Queue, e: Event, now: int, q': Queue, p: nat)
    requires Next(q, e, now, q') && p in q.cmds
    ensures p in q'.cmds && (p in q'.pending ==> p in q.pending)
    ensures e.Send? && e.id == p ==> q' == AfterSend(q, p, e.ok, now)
    ensures !(e.Send? && e.id == p) ==> SameSends(q.cmds[p], q'.cmds[p])
    ensures !(e.Send? && e.id == p) && p !in q.pending ==> q'.cmds[p].status == q.cmds[p].status
  {
    hide StructuredStep, AckedStatus, NameMatches, Active, RunningProbe, WindowOver;
    if e.Structured? && e.matched.Some? {
      StructuredOne(q, q', e.ack, e.matched.value, e.child, e.child2, now, p);
    }
  }

  // ---------------------------------------------------------------------------
  // Leaving the pending map
  // ---------------------------------------------------------------------------

  /** The step leaves p outside the pending map with a status that is not final. */
  ghost predicate Unfinishes(q: Queue, e: Event, q': Queue, p: nat) {
    && p in q.cmds && p !in q'.pending
    && (|| (e.Send? && e.id == p && e.ok)
        || (p in q.pending && e.Delete? && e.id == p)
        || (p in q.pending && e.Structured? && e.matched == Some(p) && AckedStatus(e.ack) == Sent))
  }

  /** A failed send that uses up the retries of p. */
  ghost predicate UsesUp(q: Queue, e: Event, p: nat) {
    e.Send? && e.id == p && !e.ok && p in q.cmds && q.cmds[p].retries + 1 >= q.cmds[p].maxRetries
  }

  lemma LeavingOne(q: Queue, e: Event, now: int, q': Queue, p: nat)
    requires Inv(q) && Next(q, e, now, q') && p in q.pending && p !in q'.pending
    ensures p in q.cmds && p in q'.cmds
    ensures Active(q'.cmds[p]) <==> Unfinishes(q, e, q', p)
  {
    hide StructuredStep, AckedStatus, NameMatches, RunningProbe, WindowOver, PairOk, ChildOk;
    StepOne(q, e, now, q', p);
    if e.Structured? && e.matched.Some? {
      StructuredOne(q, q', e.ack, e.matched.value, e.child, e.child2, now, p);
      NotPendingStatus(e.ack);
    }
  }

  lemma NotPendingStatus(a: AckFrame)
    ensures AckedStatus(a) != Pending
  {
  }

  /** New commands start out pending and untried. */
  lemma NewIsPending(q: Queue, e: Event, now: int, q': Queue, p: nat)
    requires Next(q, e, now, q') && p !in q.cmds && p in q'.cmds && Inv(q)
    ensures p in q'.pending && q'.cmds[p].retries == 0 < q'.cmds[p].maxRetries
  {
    hide AckedStatus, NameMatches, RunningProbe, WindowOver, PairOk, ChildOk;
    if e.Structured? && e.matched.Some? {
      var m := e.matched.value;
      NewFromAck(q, q', e.ack, m, e.child, e.child2, now, p);
    }
  }

  lemma NewFromAck(q: Queue, q': Queue, a: AckFrame, m: nat, child: nat -> nat, child2: nat -> nat, now: int, p: nat)
    requires m in q.cmds && m in q.pending && StructuredStep(q, q', a, m, child, child2, now)
    requires p !in q.cmds && p in q'.cmds
    ensures p in q'.pending && q'.cmds[p].retries == 0 < q'.cmds[p].maxRetries
  {
    hide AckedStatus, AckMatched, CloseAll, Parents, FreshIds;
    var q1 := AckMatched(q, a, m, child, now);
    var scope := Scope(q1, a, q.cmds[m].target);
    if p in q1.cmds {
      NewFromMatch(q, a, m, child, now, p);
      assert p !in scope;
      CloseAllOne(q1, scope, Okay, child2, now, p);
    } else {
      NewFromClose(q1, scope, Okay, child2, now, p);
    }
  }

  /** A row that the matched command brings. */
  lemma NewFromMatch(q: Queue, a: AckFrame, m: nat, child: nat -> nat, now: int, p: nat)
    requires m in q.cmds && FreshIds(q, Parents(q, {m}), child)
    requires p !in q.cmds && p in AckMatched(q, a, m, child, now).cmds
    ensures var q1 := AckMatched(q, a, m, child, now);
      p in q1.pending && q1.cmds[p].status == Pending && q1.cmds[p].retries == 0 < q1.cmds[p].maxRetries
  {
    hide AckedStatus, CloseAll;
    var noted := q.(cmds := q.cmds[m := q.cmds[m].(ackNode := a.node)]);
    assert Parents(noted, {m}) == Parents(q, {m});
    assert AckedStatus(a) != Running;
    NewFromClose(noted, {m}, AckedStatus(a), child, now, p);
  }

  lemma NewFromClose(q: Queue, ids: set<nat>, status: Status, child: nat -> nat, now: int, p: nat)
    requires FreshIds(q, Parents(q, ids), child) && p !in q.cmds && p in CloseAll(q, ids, status, child, now).cmds
    ensures var q' := CloseAll(q, ids, status, child, now);
      p in q'.pending && q'.cmds[p].status == Pending && q'.cmds[p].retries == 0 < q'.cmds[p].maxRetries
  {
    CloseAllShape(q, ids, status, child, now);
    hide CloseAll, Parents, Closed, RowsKept;
    var o :| o in Parents(q, ids) && child(o) == p;
  }

  /** A command that has left the pending map never returns to it. */
  lemma {:induction false} NeverPendingAgain(states: seq<Queue>, events: seq<Event>, times: seq<int>, i: nat, j: nat,
                                             p: nat)
    requires Run(states, events, times) && i <= j <= |events|
    requires p in states[i].cmds && p !in states[i].pending
    ensures p in states[j].cmds && p !in states[j].pending
    decreases j - i
  {
    hide Next;
    if i < j {
      StepOne(states[i], events[i], times[i], states[i + 1], p);
      NeverPendingAgain(states, events, times, i + 1, j, p);
    }
  }

  /** Step k left p unfinished, and no later send before n used up its retries. */
  ghost predicate LeftAt(states: seq<Queue>, events: seq<Event>, n: nat, p: nat, k: nat)
    requires n <= |events| < |states|
  {
    && k < n && Unfinishes(states[k], events[k], states[k + 1], p)
    && forall j | k < j < n :: !UsesUp(states[j], events[j], p)
  }

  ghost predicate LeftUnfinished(states: seq<Queue>, events: seq<Event>, n: nat, p: nat)
    requires n <= |events| < |states|
  {
    exists k :: LeftAt(states, events, n, p, k)
  }

  /**
    In every run, a command outside the pending map is neither OK nor ERROR exactly when it was
    deleted while pending, or closed by an ack with an unrecognised token, or sent
    successfully after it left, and no later failed send used up its retries.
   */
  lemma {:induction false} RemovedUnfinishedIff(states: seq<Queue>, events: seq<Event>, times: seq<int>, n: nat, p: nat)
    requires Run(states, events, times) && n <= |events|
    requires p in states[n].cmds && p !in states[n].pending
    ensures Active(states[n].cmds[p]) <==> LeftUnfinished(states, events, n, p)
  {
    hide Inv, Active, Unfinishes, UsesUp, LeftUnfinished;
    assert n > 0;
    var m: nat := n - 1;
    InvAlways(states, events, times, m);
    var q, e, q' := states[m], events[m], states[n];
    assert Next(q, e, times[m], q');
    hide Next;
    if p in q.pending {
      LeavingOne(q, e, times[m], q', p);
      OnlyNow(states, events, times, m, p);
    } else {
      assert p in q.cmds by {
        if p !in q.cmds {
          NewIsPending(q, e, times[m], q', p);
        }
      }
      RemovedUnfinishedIff(states, events, times, m, p);
      AfterLeaving(q, e, times[m], q', p);
      StillLeft(states, events, m, p);
    }
  }

  /** While p was pending nothing had left it unfinished. */
  lemma OnlyNow(states: seq<Queue>, events: seq<Event>, times: seq<int>, m: nat, p: nat)
    requires Run(states, events, times) && m < |events| && p in states[m].pending
    ensures LeftUnfinished(states, events, m + 1, p) <==> Unfinishes(states[m], events[m], states[m + 1], p)
  {
    hide Next;
    if Unfinishes(states[m], events[m], states[m + 1], p) {
      assert LeftAt(states, events, m + 1, p, m);
    }
    forall k: nat | k < m
      ensures !Unfinishes(states[k], events[k], states[k + 1], p)
    {
      if Unfinishes(states[k], events[k], states[k + 1], p) {
        StepOne(states[k], events[k], times[k], states[k + 1], p);
        NeverPendingAgain(states, events, times, k + 1, m, p);
      }
    }
  }

  /** What a step does to the status of a command outside the pending map. */
  lemma AfterLeaving(q: Queue, e: Event, now: int, q': Queue, p: nat)
    requires Next(q, e, now, q') && p in q.cmds && p !in q.pending
    ensures p in q'.cmds
    ensures Active(q'.cmds[p]) <==> Unfinishes(q, e, q', p) || (Active(q.cmds[p]) && !UsesUp(q, e, p))
    ensures Unfinishes(q, e, q', p) ==> !UsesUp(q, e, p)
  {
    StepOne(q, e, now, q', p);
  }

  lemma StillLeft(states: seq<Queue>, events: seq<Event>, m: nat, p: nat)
    requires m < |events| < |states|
    requires Unfinishes(states[m], events[m], states[m + 1], p) ==> !UsesUp(states[m], events[m], p)
    ensures LeftUnfinished(states, events, m + 1, p) <==>
            (|| Unfinishes(states[m], events[m], states[m + 1], p)
             || (LeftUnfinished(states, events, m, p) && !UsesUp(states[m], events[m], p)))
  {
    hide Unfinishes, UsesUp;
    if LeftUnfinished(states, events, m + 1, p) {
      var k: nat :| LeftAt(states, events, m + 1, p, k);
      assert k < m ==> LeftAt(states, events, m, p, k);
    }
    if Unfinishes(states[m], events[m], states[m + 1], p) {
      assert LeftAt(states, events, m + 1, p, m);
    } else if LeftUnfinished(states, events, m, p) && !UsesUp(states[m], events[m], p) {
      var k: nat :| LeftAt(states, events, m, p, k);
      assert LeftAt(states, events, m + 1, p, k);
    }
  }

  // ---------------------------------------------------------------------------
  // Sending
  // ---------------------------------------------------------------------------

  /** How many sends of p failed before step n. */
  ghost function FailedSends(states: seq<Queue>, events: seq<Event>, p: nat, n: nat): nat
    requires n <= |events| <= |states|
  {
    if n == 0 then 0
    else
      var e := events[n - 1];
      FailedSends(states, events, p, n - 1) +
      if e.Send? && e.id == p && !e.ok && p in states[n - 1].cmds then 1 else 0
  }

  lemma {:induction false} NoneBefore(states: seq<Queue>, events: seq<Event>, times: seq<int>, p: nat, n: nat)
    requires Run(states, events, times) && n <= |events| && p !in states[n].cmds
    ensures FailedSends(states, events, p, n) == 0
  {
    hide Next;
    if n > 0 {
      assert p !in states[n - 1].cmds by {
        if p in states[n - 1].cmds {
          StepOne(states[n - 1], events[n - 1], times[n - 1], states[n], p);
        }
      }
      NoneBefore(states, events, times, p, n - 1);
    }
  }

  /**
    In every run a command's retry counter is the number of its failed sends, and it leaves the
    pending map no later than when they reach its limit.
   */
  lemma {:induction false} RetriesAreFailures(states: seq<Queue>, events: seq<Event>, times: seq<int>, p: nat, n: nat)
    requires Run(states, events, times) && n <= |events| && p in states[n].cmds
    ensures states[n].cmds[p].retries == FailedSends(states, events, p, n)
    ensures p in states[n].pending ==> FailedSends(states, events, p, n) < states[n].cmds[p].maxRetries
  {
    assert n > 0;
    var m: nat := n - 1;
    assert Next(states[m], events[m], times[m], states[n]);
    hide Next, Inv;
    if p in states[m].cmds {
      StepOne(states[m], events[m], times[m], states[n], p);
      RetriesAreFailures(states, events, times, p, m);
    } else {
      InvAlways(states, events, times, m);
      NoneBefore(states, events, times, p, m);
      NewIsPending(states[m], events[m], times[m], states[n], p);
    }
  }

  /** The rate table remembers every successful send, or a later one to the same node. */
  lemma {:induction false} RateRemembers(states: seq<Queue>, events: seq<Event>, times: seq<int>, j: nat, n: nat)
    requires Run(states, events, times) && j < n <= |events|
    requires forall a, b | 0 <= a < b < |times| :: times[a] <= times[b]
    requires events[j].Send? && events[j].ok && events[j].id in states[j].cmds
    ensures var node := states[j].cmds[events[j].id].node;
      node in states[n].rate && states[n].rate[node] >= times[j]
  {
    var m: nat := n - 1;
    assert Next(states[m], events[m], times[m], states[n]);
    if j < m {
      RateRemembers(states, events, times, j, m);
      RateGrows(states[m], events[m], times[m], states[n]);
    }
  }

  lemma RateGrows(q: Queue, e: Event, now: int, q': Queue)
    requires Next(q, e, now, q')
    ensures forall node | node in q.rate :: node in q'.rate && (q'.rate[node] == q.rate[node] || q'.rate[node] == now)
  {
    hide AckedStatus, NameMatches, RunningProbe, WindowOver;
    if e.Structured? && e.matched.Some? {
      RateAfterAck(q, q', e.ack, e.matched.value, e.child, e.child2, now);
    }
  }

  lemma RateAfterAck(q: Queue, q': Queue, a: AckFrame, m: nat, child: nat -> nat, child2: nat -> nat, now: int)
    requires m in q.cmds && StructuredStep(q, q', a, m, child, child2, now)
    ensures q'.rate == q.rate
  {
    hide AckedStatus;
  }

  /** In every run a command is accepted only two seconds or more after every successful send to its node. */
  lemma AcceptedAfterGap(states: seq<Queue>, events: seq<Event>, times: seq<int>, j: nat, n: nat)
    requires Run(states, events, times) && j < n < |events|
    requires forall a, b | 0 <= a < b < |times| :: times[a] <= times[b]
    requires events[j].Send? && events[j].ok && events[j].id in states[j].cmds
    requires events[n].Enqueue? && events[n].cmd.node == states[j].cmds[events[j].id].node
    requires states[n + 1] != states[n]
    ensures times[n] - times[j] >= NODE_GAP
  {
    RateRemembers(states, events, times, j, n);
    assert Next(states[n], events[n], times[n], states[n + 1]);
  }

  // ---------------------------------------------------------------------------
  // Two runs that end with a removed command in SENT
  // ---------------------------------------------------------------------------

  const PING := Command(5, "STATUS", "STATUS", "@N5", Pending, 0, None, [], 0, 3, false, [], [], "", None, None)
  const CLOSED_SENT := PING.(status := Sent, ackNode := "N5", finished := Some(1))
  const CLOSED_OKAY := PING.(status := Okay, ackNode := "N5", finished := Some(1))
  const SENT_AGAIN := CLOSED_OKAY.(status := Sent, sentAt := Some(2))

  function StatusAck(token: string): AckFrame {
    AckFrame("STATUS_ACK", "STATUS", token, "N5")
  }

  const ASKED := Queue(map[0 := PING], {0}, map[], {})

  function Successor(): nat -> nat {
    i => i + 1
  }

  lemma PingQueued()
    ensures Next(Queue(map[], {}, map[], {}), Enqueue(0, PING, 1), 0, ASKED)
  {
    assert map[][0 := PING] == map[0 := PING] && {} + {0} == {0};
    PingIsPlain();
  }

  lemma PingMatches(token: string)
    ensures Latest(ASKED, StatusAck(token), 0)
  {
  }

  /** The queue once the command is closed. */
  ghost function Done(c: Command): Queue {
    Queue(map[0 := c], {}, map[], {0})
  }

  lemma PingAcked(token: string, c: Command)
    requires AckedStatus(StatusAck(token)) != Running
    requires c == PING.(status := AckedStatus(StatusAck(token)), ackNode := "N5", finished := Some(1))
    ensures Parents(ASKED, {0}) == {}
    ensures AckMatched(ASKED, StatusAck(token), 0, Successor(), 1) == Done(c)
  {
    var a := StatusAck(token);
    PingIsPlain();
    var noted := ASKED.(cmds := ASKED.cmds[0 := PING.(ackNode := "N5")]);
    assert Parents(ASKED, {0}) == {} && Parents(noted, {0}) == {};
    assert Closed(noted.cmds[0], AckedStatus(a), 1) == c;
    hide NameMatches, AckedStatus, Parents, CloseAll, Closed;
    assert noted.cmds[0 := c] == map[0 := c];
    CommandService.CloseOneIs(noted, Done(c), 0, AckedStatus(a), Successor(), 1);
  }

  lemma PingClosed(token: string, c: Command)
    requires AckedStatus(StatusAck(token)) != Running
    requires c == PING.(status := AckedStatus(StatusAck(token)), ackNode := "N5", finished := Some(1))
    ensures var e := Structured(StatusAck(token), Some(0), Successor(), Successor());
      Next(ASKED, e, 1, Done(c))
  {
    hide NameMatches, AckedStatus, Latest, StructuredStep, Closed, CloseAll, AckMatched;
    PingMatches(token);
    PingAcked(token, c);
    assert Scope(Done(c), StatusAck(token), PING.target) == {};
    AckOnly(ASKED, Done(c), StatusAck(token), 0, Successor(), Successor(), 1);
  }

  /** An ack whose command brings no row and whose scope is empty. */
  lemma AckOnly(q: Queue, q1: Queue, a: AckFrame, m: nat, child: nat -> nat, child2: nat -> nat, now: int)
    requires m in q.cmds && Parents(q, {m}) == {} && AckMatched(q, a, m, child, now) == q1
    requires Scope(q1, a, q.cmds[m].target) == {}
    ensures StructuredStep(q, q1, a, m, child, child2, now)
  {
    hide AckedStatus, AckMatched, Scope, CloseAll;
    assert Parents(q1, {}) == {};
    NothingToClose(q1, child2, now);
  }

  lemma PingIsPlain()
    ensures PING.name != DEVICE_SCAN && PING.name != SCAN
  {
    assert PING.name[2] != DEVICE_SCAN[2] && PING.name[1] != SCAN[1];
  }

  lemma NothingToClose(q: Queue, child: nat -> nat, now: int)
    requires Parents(q, {}) == {}
    ensures CloseAll(q, {}, Okay, child, now) == q
  {
  }

  lemma TokenStatus()
    ensures AckedStatus(StatusAck("WAT")) == Sent && AckedStatus(StatusAck("OK")) == Okay
  {
    assert "WAT"[0] == 'W';
  }

  lemma PingSent()
    ensures Next(Done(CLOSED_OKAY), Send(0, true), 2, Queue(map[0 := SENT_AGAIN], {}, map[5 := 2], {0}))
  {
    assert Done(CLOSED_OKAY).cmds[0 := SENT_AGAIN] == map[0 := SENT_AGAIN] && map[][5 := 2] == map[5 := 2];
  }

  ghost function UnknownStates(): seq<Queue> {
    [Queue(map[], {}, map[], {}), ASKED, Done(CLOSED_SENT)]
  }

  function UnknownEvents(): seq<Event> {
    [Enqueue(0, PING, 1), Structured(StatusAck("WAT"), Some(0), Successor(), Successor())]
  }

  /** An ack with an unrecognised token removes the command and leaves it SENT. */
  lemma UnknownTokenLeavesSent()
    ensures Run(UnknownStates(), UnknownEvents(), [0, 1])
    ensures var q := UnknownStates()[2];
      0 !in q.pending && 0 in q.byAck && q.cmds[0].status == Sent
  {
    hide Next, AckedStatus;
    PingQueued();
    TokenStatus();
    PingClosed("WAT", CLOSED_SENT);
  }

  ghost function LateStates(): seq<Queue> {
    [Queue(map[], {}, map[], {}), ASKED, Done(CLOSED_OKAY),
     Queue(map[0 := SENT_AGAIN], {}, map[5 := 2], {0})]
  }

  function LateEvents(): seq<Event> {
    [Enqueue(0, PING, 1), Structured(StatusAck("OK"), Some(0), Successor(), Successor()), Send(0, true)]
  }

  /** A send that returns after the ack writes SENT over OK. */
  lemma LateSendReopens()
    ensures Run(LateStates(), LateEvents(), [0, 1, 2])
    ensures LateStates()[2].cmds[0].status == Okay
    ensures var q := LateStates()[3];
      0 !in q.pending && 0 in q.byAck && q.cmds[0].status == Sent
  {
    hide Next, AckedStatus;
    PingQueued();
    TokenStatus();
    PingClosed("OK", CLOSED_OKAY);
    PingSent();
  }
}
