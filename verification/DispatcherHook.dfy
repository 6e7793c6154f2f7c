/**
  The dispatcher's table from wire hashes to recovery keys (internal/fleetsec/recovery_hook.go).
  It is a copy in memory, empty after a restart: only the load in the background that follows a
  restart, and a Phase C that passes its mark, read the recovery table into it, and only when
  the listing succeeds.
 */
module DispatcherHook {
  import opened Prelude
  import opened Keys
  import opened RecoveryCache
  import opened PiRadio
  import opened Rotation
  import opened Decodable
  import opened WireHashes

  datatype Hooked = Hooked(fleet: Fleet, hook: map<Byte, Fp>)

  /** listOk says whether the listing of the recovery table succeeds, if there is one. */
  datatype Event = Do(action: Action, listOk: bool) | Restart | Load(listOk: bool)

  /** Phase C promoted and marked the rotation retired; the shortcut returns before the rebuild. */
  ghost predicate PassesMark(fp: Psk -> Fp, s: Fleet, a: Action, s': Fleet) {
    && a.PhaseC? && a.job.id in s.rows && IsOpen(s.rows[a.job.id])
    && FindOld(s.radio.slots, a.answers, fp, s.rows[a.job.id].newFp, 0).Some?
    && a.job.id in s'.rows && s'.rows[a.job.id].phase == Retired
  }

  /** What a handler does to the dispatcher's table. */
  ghost predicate HookAfter(fp: Psk -> Fp, s: Fleet, a: Action, s': Fleet, listOk: bool, hook: map<Byte, Fp>,
                            hook': map<Byte, Fp>)
  {
    if PassesMark(fp, s, a, s') && listOk then NamesRows(s'.table, hook') else hook' == hook
  }

  ghost predicate HookNext(fp: Psk -> Fp, h: Hooked, e: Event, h': Hooked) {
    match e
    case Do(a, listOk) =>
      Next(fp, h.fleet, a, h'.fleet) && HookAfter(fp, h.fleet, a, h'.fleet, listOk, h.hook, h'.hook)
    case Restart =>
      h' == Hooked(h.fleet, map[])
    case Load(listOk) =>
      h'.fleet == h.fleet && if listOk then NamesRows(h.fleet.table, h'.hook) else h'.hook == h.hook
  }

  /** Phase C stores a key that the recovery table does not have. */
  ghost predicate AddsRow(fp: Psk -> Fp, s: Fleet, a: Action) {
    && a.PhaseC? && a.addOk && a.job.id in s.rows && IsOpen(s.rows[a.job.id]) && s.rows[a.job.id].psk != []
    && FindOld(s.radio.slots, a.answers, fp, s.rows[a.job.id].newFp, 0).Some?
    && Current(s).psk != [] && !HasFp(s.table, fp(Current(s).psk))
  }

  // ---------------------------------------------------------------------------
  // When the dispatcher's table is right
  // ---------------------------------------------------------------------------

  /** The names of the rows are their hashes and fingerprints. */
  lemma NamesAlike(t: Table, t': Table, hook: map<Byte, Fp>)
    requires t'.Keys == t.Keys && forall s | s in t :: t'[s].hash == t[s].hash && t'[s].fp == t[s].fp
    requires NamesRows(t, hook)
    ensures NamesRows(t', hook)
  {
    forall h | h in hook
      ensures exists s :: LastWithHash(t', h, s) && t'[s].fp == hook[h]
    {
      var s :| LastWithHash(t, h, s) && t[s].fp == hook[h];
      assert LastWithHash(t', h, s);
    }
  }

  /** Only a new row changes what the table names. */
  lemma SameNames(fp: Psk -> Fp, s: Fleet, a: Action, s': Fleet, hook: map<Byte, Fp>)
    requires SlotInv(fp, s) && Next(fp, s, a, s') && !AddsRow(fp, s, a) && NamesRows(s.table, hook)
    ensures NamesRows(s'.table, hook)
  {
    hide NamesRows;
    if a.PhaseC? && s'.table != s.table {
      var found := FindOld(s.radio.slots, a.answers, fp, s.rows[a.job.id].newFp, 0);
      var slot: Option<Slot> :|
        PromoteStep(fp, s, s', a.job, found.value, slot, a.at, a.addOk, a.link, a.retireOk, a.clearOk);
      FindOldIs(s.radio.slots, a.answers, fp, s.rows[a.job.id].newFp, 0);
      assert HasFp(s.table, fp(Current(s).psk));
      NamesAlike(s.table, s'.table, hook);
    } else if a.PhaseA? {
      PhaseARow(s, a.id, a.answers, a.stage, a.pinOk, a.phaseOk);
    }
  }

  /** A new row has a hash that no row had. */
  lemma NewNames(fp: Psk -> Fp, s: Fleet, a: Action, s': Fleet, hook: map<Byte, Fp>)
    requires HashInv(fp, s) && Next(fp, s, a, s') && AddsRow(fp, s, a) && NamesRows(s.table, hook)
    ensures !NamesRows(s'.table, hook)
  {
    var key := Current(s).psk;
    var found := FindOld(s.radio.slots, a.answers, fp, s.rows[a.job.id].newFp, 0);
    var slot: Option<Slot> :|
      PromoteStep(fp, s, s', a.job, found.value, slot, a.at, a.addOk, a.link, a.retireOk, a.clearOk);
    FindOldIs(s.radio.slots, a.answers, fp, s.rows[a.job.id].newFp, 0);
    assert s'.table == s.table[slot.value := RecoveryCache.Row(fp(key), key, WireHash(key), a.at, Some(a.job.id))];
    hide Next, PromoteStep, FindOld, SlotInv, WireHash;
    assert key in PairKeys(s.radio.slots);
    forall i | i in s.table
      ensures s.table[i].hash != WireHash(key)
    {
      assert s.table[i].psk in TableKeys(s.table) && s.table[i].fp != fp(key);
    }
    assert WireHash(key) !in hook;
    assert s'.table[slot.value].hash == WireHash(key);
  }

  /**
    From a dispatcher's table that names the rows, a handler leaves one that does exactly when it
    added no new row, or it passed its mark and the listing succeeded.
   */
  lemma HookStepIff(fp: Psk -> Fp, h: Hooked, a: Action, listOk: bool, h': Hooked)
    requires HashInv(fp, h.fleet) && NamesRows(h.fleet.table, h.hook) && HookNext(fp, h, Do(a, listOk), h')
    ensures NamesRows(h'.fleet.table, h'.hook) <==>
            !AddsRow(fp, h.fleet, a) || (PassesMark(fp, h.fleet, a, h'.fleet) && listOk)
  {
    hide NamesRows, AddsRow, PassesMark, Next, HashInv;
    if !(PassesMark(fp, h.fleet, a, h'.fleet) && listOk) {
      if AddsRow(fp, h.fleet, a) {
        NewNames(fp, h.fleet, a, h'.fleet, h.hook);
      } else {
        HashInvSlots(fp, h.fleet);
        SameNames(fp, h.fleet, a, h'.fleet, h.hook);
      }
    }
  }

  lemma HashInvSlots(fp: Psk -> Fp, s: Fleet)
    requires HashInv(fp, s)
    ensures SlotInv(fp, s)
  {
  }

  /** A restart leaves it right exactly when there is nothing to know; the load makes up for it. */
  lemma RestartIff(fp: Psk -> Fp, h: Hooked, e: Event, h': Hooked)
    requires HookNext(fp, h, e, h') && !e.Do?
    ensures NamesRows(h'.fleet.table, h'.hook) <==>
            if e.Restart? then h.fleet.table == map[] else e.listOk || NamesRows(h.fleet.table, h.hook)
  {
    if e.Restart? && h.fleet.table != map[] {
      var i :| i in h.fleet.table;
      assert h.fleet.table[i].hash !in h'.hook;
    }
  }

  // ---------------------------------------------------------------------------
  // Runs
  // ---------------------------------------------------------------------------

  ghost predicate HookRun(fp: Psk -> Fp, states: seq<Hooked>, events: seq<Event>) {
    && |states| == |events| + 1
    && Init(states[0].fleet) && states[0].hook == map[]
    && forall i | 0 <= i < |events| :: HookNext(fp, states[i], events[i], states[i + 1])
  }

  /** The step reads the recovery table. */
  ghost predicate Rebuilds(fp: Psk -> Fp, h: Hooked, e: Event, h': Hooked) {
    match e
    case Do(a, listOk) => PassesMark(fp, h.fleet, a, h'.fleet) && listOk
    case Restart => false
    case Load(listOk) => listOk
  }

  /** The step leaves the dispatcher's table behind: a new row it does not know, or an empty one. */
  ghost predicate Spoils(fp: Psk -> Fp, h: Hooked, e: Event) {
    match e
    case Do(a, _) => AddsRow(fp, h.fleet, a)
    case Restart => h.fleet.table != map[]
    case Load(_) => false
  }

  /** Every step that spoils the dispatcher's table was followed by one, itself included, that rebuilds it. */
  ghost predicate UpToDate(fp: Psk -> Fp, states: seq<Hooked>, events: seq<Event>, n: nat)
    requires n <= |events| < |states|
  {
    n == 0 ||
    Rebuilds(fp, states[n - 1], events[n - 1], states[n]) ||
    (UpToDate(fp, states, events, n - 1) && !Spoils(fp, states[n - 1], events[n - 1]))
  }

  ghost predicate KnownStep(fp: Psk -> Fp, keys: set<Psk>, h: Hooked, e: Event) {
    e.Do? ==> Benign(fp, keys, h.fleet, e.action)
  }

  ghost predicate BenignHookRun(fp: Psk -> Fp, keys: set<Psk>, states: seq<Hooked>, events: seq<Event>) {
    && HookRun(fp, states, events)
    && Fingerprints(fp, keys)
    && (forall i: Slot :: states[0].fleet.radio.slots[i].psk in keys)
    && forall i | 0 <= i < |events| :: KnownStep(fp, keys, states[i], events[i])
  }

  lemma InitSlots(fp: Psk -> Fp, s: Fleet)
    requires Init(s)
    ensures SlotInv(fp, s)
  {
    SlotInvAlways(fp, [s], [], 0);
  }

  lemma {:induction false} HookCacheInv(fp: Psk -> Fp, keys: set<Psk>, states: seq<Hooked>, events: seq<Event>, n: nat)
    requires BenignHookRun(fp, keys, states, events) && n <= |events|
    ensures CacheInv(fp, keys, states[n].fleet)
  {
    hide CacheInv, Next, Benign, Init;
    if n == 0 {
      InitSlots(fp, states[0].fleet);
      InitCache(fp, keys, states[0].fleet);
    } else {
      HookCacheInv(fp, keys, states, events, n - 1);
      var h, e, h' := states[n - 1], events[n - 1], states[n];
      assert HookNext(fp, h, e, h') && KnownStep(fp, keys, h, e);
      if e.Do? {
        NextKeepsCache(fp, keys, h.fleet, e.action, h'.fleet);
      }
    }
  }

  /** The invariant of the rotation keeps the checked keys apart by hash. */
  lemma CacheHashes(fp: Psk -> Fp, keys: set<Psk>, s: Fleet)
    requires CacheInv(fp, keys, s)
    ensures HashInv(fp, s)
  {
    hide SlotInv, FlowInv, WireHash;
    PairIsHeld(s);
    HashesDifferSubset(Held(s), Checked(s));
  }

  lemma PairIsHeld(s: Fleet)
    ensures Checked(s) <= Held(s)
  {
  }

  lemma {:induction false} UpToDateNames(fp: Psk -> Fp, keys: set<Psk>, states: seq<Hooked>, events: seq<Event>, n: nat)
    requires BenignHookRun(fp, keys, states, events) && n <= |events| && UpToDate(fp, states, events, n)
    ensures NamesRows(states[n].fleet.table, states[n].hook)
  {
    hide CacheInv, HashInv, AddsRow, PassesMark, Next;
    if n > 0 {
      var h, e, h' := states[n - 1], events[n - 1], states[n];
      assert HookNext(fp, h, e, h');
      if !Rebuilds(fp, h, e, h') {
        UpToDateNames(fp, keys, states, events, n - 1);
        HookCacheInv(fp, keys, states, events, n - 1);
        CacheHashes(fp, keys, h.fleet);
        hide NamesRows;
        if e.Do? {
          HookStepIff(fp, h, e.action, e.listOk, h');
        } else {
          RestartIff(fp, h, e, h');
        }
      }
    }
  }

  /**
    In every run of benign steps, with no rotation open and the dispatcher's table up to date: it
    has the wire hash of a held key exactly when the key is one of the six most recently demoted,
    and maps it to that key's fingerprint.
   */
  lemma HookNamesKey(fp: Psk -> Fp, keys: set<Psk>, states: seq<Hooked>, events: seq<Event>, n: nat, k: Psk)
    requires BenignHookRun(fp, keys, states, events) && n <= |events| && UpToDate(fp, states, events, n)
    requires forall i | i in states[n].fleet.rows :: !IsOpen(states[n].fleet.rows[i])
    requires k in Held(states[n].fleet)
    ensures AmongLastSix(FpsOf(fp, states[n].fleet.demoted), fp(k)) <==> WireHash(k) in states[n].hook
    ensures WireHash(k) in states[n].hook ==> states[n].hook[WireHash(k)] == fp(k)
  {
    HookCacheInv(fp, keys, states, events, n);
    UpToDateNames(fp, keys, states, events, n);
    NamedKey(fp, keys, states[n].fleet, states[n].hook, k);
  }

  lemma NamedKey(fp: Psk -> Fp, keys: set<Psk>, s: Fleet, hook: map<Byte, Fp>, k: Psk)
    requires CacheInv(fp, keys, s) && NamesRows(s.table, hook) && k in Held(s)
    requires forall i | i in s.rows :: !IsOpen(s.rows[i])
    ensures AmongLastSix(FpsOf(fp, s.demoted), fp(k)) <==> WireHash(k) in hook
    ensures WireHash(k) in hook ==> hook[WireHash(k)] == fp(k)
  {
    hide WireHash, AmongLastSix, SlotInv, FlowInv, Agree;
    AgreementAtRest(fp, keys, s);
    if WireHash(k) in hook {
      var i :| i in s.table && s.table[i].hash == WireHash(k) && s.table[i].fp == hook[WireHash(k)];
      assert s.table[i].psk in TableKeys(s.table);
      assert s.table[i].psk == k;
    }
    if HasFp(s.table, fp(k)) {
      var i :| i in s.table && s.table[i].fp == fp(k);
      assert s.table[i].psk in TableKeys(s.table);
      HeldKnown(keys, s);
      assert s.table[i].psk == k;
    }
  }

  lemma HeldKnown(keys: set<Psk>, s: Fleet)
    requires KeysKnown(keys, s)
    ensures Held(s) <= keys
  {
  }
}
