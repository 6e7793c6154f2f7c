/**
  Duplicate filters with pruned tables: mesh packets (internal/meshtastic/dispatcher.go:484-510)
  and alert lines (cmd/diginode-cc/main.go:724-758). Times are nanoseconds.
 */
module Dedup {
  import opened Prelude

  /** One call: the key, its time and the answer. */
  datatype Arrival<K> = Arrival(key: K, time: int, dup: bool)

  /** Whether the call stamped the table: with refresh every call does, otherwise only accepted ones. */
  predicate Stamps<K>(a: Arrival<K>, refresh: bool) {
    refresh || !a.dup
  }

  /** The reference: some stamping call with this key lies less than the window back. */
  ghost predicate SeenWithin<K>(h: seq<Arrival<K>>, refresh: bool, key: K, now: int, window: int) {
    exists i :: 0 <= i < |h| && h[i].key == key && Stamps(h[i], refresh) && now - h[i].time < window
  }

  /** What the table answers. */
  predicate Hit<K(==)>(table: map<K, int>, key: K, now: int, window: int) {
    key in table && now - table[key] < window
  }

  ghost predicate StampedBy<K>(h: seq<Arrival<K>>, refresh: bool, key: K, time: int) {
    exists i :: 0 <= i < |h| && h[i].key == key && Stamps(h[i], refresh) && h[i].time == time
  }

  /** The table holds the last stamp of each key, except stamps too old to matter. */
  ghost predicate Tied<K(!new)>(table: map<K, int>, h: seq<Arrival<K>>, refresh: bool, clock: int, window: int) {
    && (forall i | 0 <= i < |h| :: h[i].time <= clock)
    && (forall k | k in table :: StampedBy(h, refresh, k, table[k]))
    && (forall i | 0 <= i < |h| && Stamps(h[i], refresh) ::
          if h[i].key in table then h[i].time <= table[h[i].key] else clock - h[i].time >= window)
  }

  /** With a clock that does not run backwards the pruned table answers as the full history would. */
  lemma AnswerIsExact<K(!new)>(table: map<K, int>, h: seq<Arrival<K>>, refresh: bool, clock: int, window: int, key: K,
                               now: int)
    requires Tied(table, h, refresh, clock, window) && now >= clock
    ensures Hit(table, key, now, window) <==> SeenWithin(h, refresh, key, now, window)
  {
    if Hit(table, key, now, window) {
      var i :| 0 <= i < |h| && h[i].key == key && Stamps(h[i], refresh) && h[i].time == table[key];
    }
  }

  /** Time passing keeps the tie. */
  lemma TiedLater<K(!new)>(table: map<K, int>, h: seq<Arrival<K>>, refresh: bool, clock: int, window: int, now: int)
    requires Tied(table, h, refresh, clock, window) && (h == [] || now >= clock)
    ensures Tied(table, h, refresh, now, window)
  {
    forall k | k in table
      ensures StampedBy(h, refresh, k, table[k])
    {
    }
  }

  /** The table after a call, before pruning. */
  function Stamped<K>(table: map<K, int>, key: K, now: int, dup: bool, refresh: bool): map<K, int> {
    if dup && !refresh then table else table[key := now]
  }

  /** after is before without some entries that are at least a window old. */
  ghost predicate Pruned<K(!new)>(before: map<K, int>, after: map<K, int>, now: int, window: int) {
    && (forall k | k in after :: k in before && after[k] == before[k])
    && (forall k | k in before && k !in after :: now - before[k] >= window)
  }

  /** One call, followed by any amount of pruning, keeps the tie. */
  lemma TiedNext<K(!new)>(table: map<K, int>, after: map<K, int>, h: seq<Arrival<K>>, refresh: bool, clock: int,
                          window: int, key: K, now: int, dup: bool)
    requires Tied(table, h, refresh, clock, window) && now >= clock
    requires Pruned(Stamped(table, key, now, dup, refresh), after, now, window)
    ensures Tied(after, h + [Arrival(key, now, dup)], refresh, now, window)
  {
    var a := Arrival(key, now, dup);
    var h' := h + [a];
    var mid := Stamped(table, key, now, dup, refresh);
    forall k | k in after
      ensures StampedBy(h', refresh, k, after[k])
    {
      if k in table && mid[k] == table[k] {
        var i :| 0 <= i < |h| && h[i].key == k && Stamps(h[i], refresh) && h[i].time == table[k];
        assert h'[i] == h[i];
      } else {
        assert h'[|h|] == a;
      }
    }
    forall i | 0 <= i < |h'| && Stamps(h'[i], refresh)
      ensures if h'[i].key in after then h'[i].time <= after[h'[i].key] else now - h'[i].time >= window
    {
      assert i < |h| ==> h'[i] == h[i];
    }
  }

  // ---------------------------------------------------------------------------
  // Runs
  // ---------------------------------------------------------------------------

  /** tables[i] answers call i, and is stamped and pruned into tables[i+1]; the clock never runs backwards. */
  ghost predicate Run<K(!new)>(tables: seq<map<K, int>>, calls: seq<Arrival<K>>, refresh: bool, window: int) {
    && |tables| == |calls| + 1
    && tables[0] == map[]
    && (forall i, j | 0 <= i < j < |calls| :: calls[i].time <= calls[j].time)
    && (forall i | 0 <= i < |calls| :: calls[i].dup == Hit(tables[i], calls[i].key, calls[i].time, window))
    && (forall i | 0 <= i < |calls| ::
          Pruned(Stamped(tables[i], calls[i].key, calls[i].time, calls[i].dup, refresh), tables[i + 1], calls[i].time,
                 window))
  }

  lemma {:induction false} RunTied<K(!new)>(tables: seq<map<K, int>>, calls: seq<Arrival<K>>, refresh: bool,
                                            window: int, n: nat, clock: int)
    requires Run(tables, calls, refresh, window) && n <= |calls|
    requires n > 0 ==> clock == calls[n - 1].time
    ensures Tied(tables[n], calls[..n], refresh, clock, window)
  {
    if n > 0 {
      var c := calls[n - 1];
      var before := if n > 1 then calls[n - 2].time else c.time;
      RunTied(tables, calls, refresh, window, n - 1, before);
      TiedNext(tables[n - 1], tables[n], calls[..n - 1], refresh, before, window, c.key, c.time, c.dup);
      assert calls[..n] == calls[..n - 1] + [c];
    }
  }

  /** In every run, however it prunes, each call is answered by the reference on the calls before it. */
  lemma PruningIsInvisible<K(!new)>(tables: seq<map<K, int>>, calls: seq<Arrival<K>>, refresh: bool, window: int,
                                    n: nat)
    requires Run(tables, calls, refresh, window) && n < |calls|
    ensures calls[n].dup <==> SeenWithin(calls[..n], refresh, calls[n].key, calls[n].time, window)
  {
    var clock := if n > 0 then calls[n - 1].time else calls[n].time;
    RunTied(tables, calls, refresh, window, n, clock);
    AnswerIsExact(tables[n], calls[..n], refresh, clock, window, calls[n].key, calls[n].time);
  }

  // ---------------------------------------------------------------------------
  // The two filters
  // ---------------------------------------------------------------------------

  const PACKET_WINDOW := 15 * SECOND
  const PACKET_KEYS := 512
  const ALERT_WINDOW := 5 * SECOND
  const ALERT_KEYS := 256

  /** A uint32. */
  type Word = w: int | 0 <= w < TWO32

  /** A packet is told by its sender and the sender's packet id. */
  datatype Packet = Packet(from: Word, id: Word)

  /** uint64(from)<<32 | uint64(id). */
  function PacketKey(p: Packet): nat {
    p.from * TWO32 + p.id
  }

  lemma PacketKeyInjective(p: Packet, q: Packet)
    requires PacketKey(p) == PacketKey(q)
    ensures p == q
  {
    var d := p.from - q.from;
    assert d * TWO32 == q.id - p.id;
  }

  /** The calls as the table sees them. */
  function Keyed(calls: seq<Arrival<Packet>>): seq<Arrival<nat>> {
    seq(|calls|, i requires 0 <= i < |calls| => Arrival(PacketKey(calls[i].key), calls[i].time, calls[i].dup))
  }

  /** No two packets share a key, so asking for the key is asking for the packet. */
  lemma KeyedSeesPackets(calls: seq<Arrival<Packet>>, refresh: bool, p: Packet, now: int, window: int)
    ensures SeenWithin(Keyed(calls), refresh, PacketKey(p), now, window) <==> SeenWithin(calls, refresh, p, now, window)
  {
    var keyed := Keyed(calls);
    if SeenWithin(keyed, refresh, PacketKey(p), now, window) {
      var i :|
        0 <= i < |keyed| && keyed[i].key == PacketKey(p) && Stamps(keyed[i], refresh) && now - keyed[i].time < window;
      PacketKeyInjective(calls[i].key, p);
      assert calls[i].key == p && Stamps(calls[i], refresh);
    }
    if SeenWithin(calls, refresh, p, now, window) {
      var i :| 0 <= i < |calls| && calls[i].key == p && Stamps(calls[i], refresh) && now - calls[i].time < window;
      assert keyed[i].key == PacketKey(p) && Stamps(keyed[i], refresh);
    }
  }

  /** Deletes the entries stamped before the cutoff. */
  method Prune<K(==, !new)>(table: map<K, int>, cutoff: int) returns (kept: map<K, int>)
    ensures forall k | k in kept :: k in table && kept[k] == table[k]
    ensures forall k | k in table :: k in kept <==> table[k] >= cutoff
  {
    kept := table;
    var left := table.Keys;
    while left != {}
      invariant left <= table.Keys
      invariant forall k | k in kept :: k in table && kept[k] == table[k]
      invariant forall k | k in table :: k in kept <==> k in left || table[k] >= cutoff
      decreases left
    {
      var k :| k in left;
      left := left - {k};
      if table[k] < cutoff {
        kept := kept - {k};
      }
    }
  }

  class PacketFilter {
    var dedup: map<nat, int>
    ghost var calls: seq<Arrival<Packet>>
    ghost var clock: int

    constructor ()
      ensures Valid() && calls == []
    {
      dedup, calls, clock := map[], [], 0;
    }

    ghost predicate Valid()
      reads this
    {
      Tied(dedup, Keyed(calls), false, clock, PACKET_WINDOW)
    }

    /** isDuplicate: true exactly when the same packet was accepted less than 15 seconds ago. */
    method IsDuplicate(p: Packet, now: int) returns (dup: bool)
      requires Valid() && (calls == [] || now >= clock)
      modifies this
      ensures Valid() && clock == now
      ensures dup <==> SeenWithin(old(calls), false, p, now, 15_000_000_000)
      ensures calls == old(calls) + [Arrival(p, now, dup)]
    {
      hide Tied, SeenWithin;
      var key := PacketKey(p);
      ghost var table, h := dedup, Keyed(calls);
      TiedLater(dedup, h, false, clock, PACKET_WINDOW, now);
      AnswerIsExact(dedup, h, false, now, PACKET_WINDOW, key, now);
      KeyedSeesPackets(calls, false, p, now, PACKET_WINDOW);
      if key in dedup && now - dedup[key] < PACKET_WINDOW {
        dup := true;
      } else {
        dup := false;
        dedup := dedup[key := now];
        if |dedup| > PACKET_KEYS {
          dedup := Prune(dedup, now - PACKET_WINDOW);
        }
      }
      TiedNext(table, dedup, h, false, now, PACKET_WINDOW, key, now, dup);
      calls, clock := calls + [Arrival(p, now, dup)], now;
      assert Keyed(calls) == h + [Arrival(key, now, dup)];
    }
  }

  class AlertFilter {
    var cache: map<string, int>
    ghost var calls: seq<Arrival<string>>
    ghost var clock: int

    constructor ()
      ensures Valid() && calls == []
    {
      cache, calls, clock := map[], [], 0;
    }

    ghost predicate Valid()
      reads this
    {
      Tied(cache, calls, true, clock, ALERT_WINDOW)
    }

    /** isDuplicateAlert: a line is dropped exactly when it last arrived, kept or dropped, less than 5 seconds ago. */
    method IsDuplicateAlert(raw: string, now: int) returns (dup: bool)
      requires Valid() && (calls == [] || now >= clock)
      modifies this
      ensures raw == "" ==> !dup && calls == old(calls) && cache == old(cache) && clock == old(clock)
      ensures raw != "" ==> clock == now
      ensures raw != "" ==> (dup <==> SeenWithin(old(calls), true, raw, now, 5_000_000_000))
      ensures raw != "" ==> calls == old(calls) + [Arrival(raw, now, dup)]
      ensures Valid()
    {
      if raw == "" {
        return false;
      }
      hide Tied, SeenWithin;
      ghost var table, h := cache, calls;
      TiedLater(cache, h, true, clock, ALERT_WINDOW, now);
      AnswerIsExact(cache, h, true, now, ALERT_WINDOW, raw, now);
      if raw in cache && now - cache[raw] < ALERT_WINDOW {
        cache := cache[raw := now];
        dup := true;
      } else {
        dup := false;
        cache := cache[raw := now];
        if |cache| > ALERT_KEYS {
          cache := Prune(cache, now - ALERT_WINDOW * 2);
        }
      }
      TiedNext(table, cache, h, true, now, ALERT_WINDOW, raw, now, dup);
      calls, clock := calls + [Arrival(raw, now, dup)], now;
    }
  }
}
