/**
  The fixed-window rate limiter (internal/ratelimit/ratelimit.go:10-80). Clients are opaque
  and times are nanoseconds.
 */
module RateLimit {
  import opened Prelude

  datatype Bucket = Bucket(count: nat, resetAt: int)

  /** One request: when it came, when the window it was counted in began, and the answer. */
  datatype Request = Request(time: int, start: int, allowed: bool)

  /** How many requests of h were counted in the window that began at start. */
  function Counted(h: seq<Request>, start: int): nat {
    if h == [] then 0 else Counted(h[..|h| - 1], start) + if h[|h| - 1].start == start then 1 else 0
  }

  /** How many of them were allowed. */
  function AllowedFrom(h: seq<Request>, start: int): nat {
    if h == [] then 0
    else AllowedFrom(h[..|h| - 1], start) + if h[|h| - 1].allowed && h[|h| - 1].start == start then 1 else 0
  }

  /** How many requests were allowed from time t to time t + span, both included. */
  function AllowedIn(h: seq<Request>, t: int, span: int): nat {
    if h == [] then 0
    else AllowedIn(h[..|h| - 1], t, span) + if h[|h| - 1].allowed && t <= h[|h| - 1].time <= t + span then 1 else 0
  }

  /** The limiter without any table: what the requests so far determine. */
  function Decide(h: seq<Request>, limit: int, window: int, now: int): Request {
    if h == [] || now > h[|h| - 1].start + window then Request(now, now, true)
    else
      var start := h[|h| - 1].start;
      Request(now, start, Counted(h, start) + 1 <= limit)
  }

  /** h is a possible log: times do not decrease and each entry is decided by the ones before it. */
  ghost predicate IsLog(h: seq<Request>, limit: int, window: int) {
    && (forall i, j | 0 <= i < j < |h| :: h[i].time <= h[j].time)
    && (forall i | 0 <= i < |h| :: h[i] == Decide(h[..i], limit, window, h[i].time))
  }

  // ---------------------------------------------------------------------------
  // At most twice the limit in any span of one window
  // ---------------------------------------------------------------------------

  /** Windows last as long as they should, and different ones do not overlap. */
  ghost predicate Spaced(h: seq<Request>, window: int) {
    && (forall i | 0 <= i < |h| :: h[i].start <= h[i].time <= h[i].start + window)
    && (forall i, j | 0 <= i <= j < |h| :: h[i].start == h[j].start || h[i].start + window < h[j].start)
  }

  lemma IsLogPrefix(h: seq<Request>, limit: int, window: int, n: nat)
    requires IsLog(h, limit, window) && n <= |h|
    ensures IsLog(h[..n], limit, window)
  {
    hide Decide;
    forall i | 0 <= i < n
      ensures h[..n][i] == Decide(h[..n][..i], limit, window, h[..n][i].time)
    {
      assert h[..n][..i] == h[..i];
    }
  }

  /** One more request, in the last window or after its end. */
  lemma SpacedGrows(h: seq<Request>, r: Request, window: int)
    requires Spaced(h, window) && window >= 0 && r.start <= r.time <= r.start + window
    requires h != [] ==> r.start == h[|h| - 1].start || h[|h| - 1].start + window < r.start
    ensures Spaced(h + [r], window)
  {
    var h' := h + [r];
    forall i, j | 0 <= i <= j < |h'|
      ensures h'[i].start == h'[j].start || h'[i].start + window < h'[j].start
    {
      if i < |h| && j == |h| {
        assert h[i].start == h[|h| - 1].start || h[i].start + window < h[|h| - 1].start;
      }
    }
  }

  lemma {:induction false} LogSpaced(h: seq<Request>, limit: int, window: int)
    requires IsLog(h, limit, window) && window >= 0
    ensures Spaced(h, window)
  {
    if h != [] {
      var n := |h| - 1;
      IsLogPrefix(h, limit, window, n);
      LogSpaced(h[..n], limit, window);
      assert h[n] == Decide(h[..n], limit, window, h[n].time);
      assert n > 0 ==> h[n - 1].time <= h[n].time;
      hide IsLog, Counted, Decide;
      DecideIs(h[..n], limit, window, h[n].time);
      if n > 0 {
        LastInWindow(h[..n], window);
      }
      hide Spaced;
      SpacedGrows(h[..n], h[n], window);
      assert h == h[..n] + [h[n]];
    }
  }

  lemma LastInWindow(h: seq<Request>, window: int)
    requires Spaced(h, window) && h != []
    ensures h[|h| - 1].start <= h[|h| - 1].time
  {
  }

  /** In one window at most the limit is allowed, and at most one per request counted. */
  lemma {:induction false} WindowBound(h: seq<Request>, limit: int, window: int, start: int)
    requires IsLog(h, limit, window) && limit >= 1 && window >= 0
    ensures AllowedFrom(h, start) <= limit && AllowedFrom(h, start) <= Counted(h, start)
  {
    if h != [] {
      var n := |h| - 1;
      IsLogPrefix(h, limit, window, n);
      WindowBound(h[..n], limit, window, start);
      assert h[n] == Decide(h[..n], limit, window, h[n].time);
      if h[n].start == start && (n == 0 || h[n].time > h[n - 1].start + window) {
        LogSpaced(h, limit, window);
        NewWindowIsEmpty(h, window);
      }
    }
  }

  /** How many of n requests in one window are allowed: the first always, the others up to the limit. */
  function Quota(n: nat, limit: int): nat {
    if n == 0 then 0 else if limit < 1 then 1 else if n < limit then n else limit
  }

  /** No request is refused before the limit is used up. */
  lemma {:induction false} WindowExact(h: seq<Request>, limit: int, window: int, start: int)
    requires IsLog(h, limit, window) && window >= 0
    ensures AllowedFrom(h, start) == Quota(Counted(h, start), limit)
  {
    if h != [] {
      var n := |h| - 1;
      IsLogPrefix(h, limit, window, n);
      WindowExact(h[..n], limit, window, start);
      assert h[n] == Decide(h[..n], limit, window, h[n].time);
      assert n > 0 ==> h[n - 1].time <= h[n].time;
      LogSpaced(h, limit, window);
      OpenedIsEmpty(h, limit, window);
      hide IsLog, Spaced;
    }
  }

  /** A request that does not fall in the window before it opens one that counted nothing yet. */
  lemma OpenedIsEmpty(h: seq<Request>, limit: int, window: int)
    requires IsLog(h, limit, window) && window >= 0 && h != []
    ensures var n := |h| - 1;
      n == 0 || h[n].time > h[n - 1].start + window ==> Counted(h[..n], h[n].start) == 0
  {
    var n := |h| - 1;
    LogSpaced(h, limit, window);
    assert h[n] == Decide(h[..n], limit, window, h[n].time);
    if n == 0 || h[n].time > h[n - 1].start + window {
      NewWindowIsEmpty(h, window);
    }
  }

  /** A request opens a window exactly when it comes after the end of the one before it. */
  lemma OpensIff(h: seq<Request>, limit: int, window: int, i: nat)
    requires IsLog(h, limit, window) && i < |h|
    ensures h[i].start == if i == 0 || h[i].time > h[i - 1].start + window then h[i].time else h[i - 1].start
  {
    assert h[i] == Decide(h[..i], limit, window, h[i].time);
  }

  /** A window that just began has counted nothing before. */
  lemma {:induction false} NewWindowIsEmpty(h: seq<Request>, window: int)
    requires h != [] && Spaced(h, window) && window >= 0
    requires |h| == 1 || h[|h| - 1].start > h[|h| - 2].start
    ensures Counted(h[..|h| - 1], h[|h| - 1].start) == 0
  {
    var n := |h| - 1;
    forall i | 0 <= i < n
      ensures h[..n][i].start != h[n].start
    {
      assert h[i].start <= h[n - 1].start;
    }
    NoneCounted(h[..n], h[n].start);
  }

  lemma {:induction false} NoneCounted(h: seq<Request>, start: int)
    requires forall i | 0 <= i < |h| :: h[i].start != start
    ensures Counted(h, start) == 0
  {
    if h != [] {
      NoneCounted(h[..|h| - 1], start);
    }
  }

  /** The requests of one span come from at most two windows. */
  ghost predicate TwoWindows(h: seq<Request>, t: int, span: int, a: int, b: int) {
    forall i | 0 <= i < |h| && t <= h[i].time <= t + span :: h[i].start == a || h[i].start == b
  }

  lemma {:induction false} SpanBound(h: seq<Request>, t: int, span: int, a: int, b: int)
    requires TwoWindows(h, t, span, a, b)
    ensures AllowedIn(h, t, span) <= AllowedFrom(h, a) + AllowedFrom(h, b)
  {
    if h != [] {
      var n := |h| - 1;
      forall i | 0 <= i < n && t <= h[..n][i].time <= t + span
        ensures h[..n][i].start == a || h[..n][i].start == b
      {
        assert h[..n][i] == h[i];
      }
      SpanBound(h[..n], t, span, a, b);
    }
  }

  /** Picks the two windows: that of the first request in the span and that of the last. */
  lemma TwoWindowsExist(h: seq<Request>, window: int, t: int) returns (a: int, b: int)
    requires Spaced(h, window) && window >= 0
    requires forall i, j | 0 <= i < j < |h| :: h[i].time <= h[j].time
    ensures TwoWindows(h, t, window, a, b)
  {
    if exists i :: 0 <= i < |h| && t <= h[i].time <= t + window {
      var lo :| 0 <= lo < |h| && t <= h[lo].time <= t + window;
      a, b := h[lo].start, h[lo].start;
      if j :| 0 <= j < |h| && t <= h[j].time <= t + window && h[j].start != a {
        b := h[j].start;
        forall i | 0 <= i < |h| && t <= h[i].time <= t + window
          ensures h[i].start == a || h[i].start == b
        {
          NoThirdWindow(h, window, t, lo, j, i);
        }
      }
    } else {
      a, b := 0, 0;
    }
  }

  lemma NoThirdWindow(h: seq<Request>, window: int, t: int, i: nat, j: nat, k: nat)
    requires Spaced(h, window) && window >= 0 && i < |h| && j < |h| && k < |h|
    requires t <= h[i].time <= t + window && t <= h[j].time <= t + window && t <= h[k].time <= t + window
    ensures h[k].start == h[i].start || h[k].start == h[j].start || h[i].start == h[j].start
  {
  }

  /** In any span of one window, both ends included, at most twice the limit is allowed. */
  lemma AtMostTwiceTheLimit(h: seq<Request>, limit: int, window: int, t: int)
    requires IsLog(h, limit, window) && limit >= 1 && window >= 0
    ensures AllowedIn(h, t, window) <= 2 * limit
  {
    LogSpaced(h, limit, window);
    var a, b := TwoWindowsExist(h, window, t);
    SpanBound(h, t, window, a, b);
    WindowBound(h, limit, window, a);
    WindowBound(h, limit, window, b);
  }

  // ---------------------------------------------------------------------------
  // The table, with cleanup at arbitrary times
  // ---------------------------------------------------------------------------

  /** What the bucket of a client says about its log; a missing bucket has expired. */
  ghost predicate Reflects(bucket: Option<Bucket>, h: seq<Request>, clock: int, window: int) {
    match bucket
    case None => h == [] || clock > h[|h| - 1].start + window
    case Some(b) =>
      && h != []
      && b.resetAt == h[|h| - 1].start + window
      && (window >= 0 ==> b.count == Counted(h, h[|h| - 1].start))
  }

  /** The bucket of one client and the requests it made, seen at time clock. */
  ghost predicate Tied(bucket: Option<Bucket>, h: seq<Request>, clock: int, limit: int, window: int) {
    && IsLog(h, limit, window)
    && (forall i | 0 <= i < |h| :: h[i].time <= clock)
    && Reflects(bucket, h, clock, window)
  }

  function Lookup(buckets: map<nat, Bucket>, ip: nat): Option<Bucket> {
    if ip in buckets then Some(buckets[ip]) else None
  }

  function LogOf(logs: map<nat, seq<Request>>, ip: nat): seq<Request> {
    if ip in logs then logs[ip] else []
  }

  class Limiter {
    const limit: int
    const window: int
    var buckets: map<nat, Bucket>
    ghost var logs: map<nat, seq<Request>>
    ghost var clock: int

    constructor (limit: int, window: int, now: int)
      ensures Valid() && clock == now && logs == map[] && this.limit == limit && this.window == window
    {
      this.limit, this.window := limit, window;
      buckets, logs, clock := map[], map[], now;
    }

    ghost predicate Valid()
      reads this
    {
      forall ip :: Tied(Lookup(buckets, ip), LogOf(logs, ip), clock, limit, window)
    }

    /** Allow answers what the requests so far determine, whatever the cleanup removed. */
    method Allow(ip: nat, now: int) returns (allowed: bool)
      requires Valid() && now >= clock
      modifies this
      ensures Valid() && clock == now
      ensures allowed == Decide(LogOf(old(logs), ip), limit, window, now).allowed
      ensures logs == old(logs)[ip := LogOf(old(logs), ip) + [Decide(LogOf(old(logs), ip), limit, window, now)]]
    {
      hide Tied, Decide;
      ghost var h := LogOf(logs, ip);
      ghost var r := Decide(h, limit, window, now);
      ghost var before, log0 := buckets, logs;
      assert Tied(Lookup(buckets, ip), h, clock, limit, window);
      if ip !in buckets || now > buckets[ip].resetAt {
        buckets := buckets[ip := Bucket(1, now + window)];
        allowed := true;
      } else {
        buckets := buckets[ip := buckets[ip].(count := buckets[ip].count + 1)];
        allowed := buckets[ip].count <= limit;
      }
      AnswerStaysTied(Lookup(before, ip), h, clock, limit, window, now);
      logs := logs[ip := h + [r]];
      forall k
        ensures Tied(Lookup(buckets, k), LogOf(logs, k), now, limit, window)
      {
        if k != ip {
          assert Lookup(buckets, k) == Lookup(before, k) && LogOf(logs, k) == LogOf(log0, k);
          WaitingStaysTied(Lookup(before, k), Lookup(before, k), LogOf(log0, k), clock, limit, window, now);
        }
      }
      clock := now;
    }

    /** Whatever was swept in between, no client gets more than twice the limit in any span of one window. */
    lemma NeverOverTwice(ip: nat, t: int)
      requires Valid() && limit >= 1 && window >= 0
      ensures AllowedIn(LogOf(logs, ip), t, window) <= 2 * limit
    {
      assert Tied(Lookup(buckets, ip), LogOf(logs, ip), clock, limit, window);
      AtMostTwiceTheLimit(LogOf(logs, ip), limit, window, t);
    }

    /** One sweep of cleanup. */
    method Cleanup(now: int)
      requires Valid() && now >= clock
      modifies this
      ensures Valid() && clock == now && logs == old(logs)
    {
      hide Tied;
      ghost var before := buckets;
      var left := buckets.Keys;
      while left != {}
        invariant left <= before.Keys
        invariant forall k | k in buckets :: k in before && buckets[k] == before[k]
        invariant forall k | k in before && k !in buckets :: now > before[k].resetAt
        invariant logs == old(logs) && clock == old(clock)
        decreases left
      {
        var k :| k in left;
        left := left - {k};
        if k in buckets && now > buckets[k].resetAt {
          buckets := buckets - {k};
        }
      }
      forall ip
        ensures Tied(Lookup(buckets, ip), LogOf(logs, ip), now, limit, window)
      {
        assert Tied(Lookup(before, ip), LogOf(logs, ip), clock, limit, window);
        WaitingStaysTied(Lookup(before, ip), Lookup(buckets, ip), LogOf(logs, ip), clock, limit, window, now);
      }
      clock := now;
    }
  }

  /** Time passing, and dropping a bucket whose window is over, keep the tie. */
  lemma WaitingStaysTied(bucket: Option<Bucket>, bucket': Option<Bucket>, h: seq<Request>, clock: int, limit: int,
                         window: int, now: int)
    requires Tied(bucket, h, clock, limit, window) && now >= clock
    requires bucket' == bucket || (bucket' == None && bucket.Some? && now > bucket.value.resetAt)
    ensures Tied(bucket', h, now, limit, window)
  {
    hide IsLog, Counted;
  }

  function NextBucket(bucket: Option<Bucket>, window: int, now: int): Bucket {
    if bucket == None || now > bucket.value.resetAt then Bucket(1, now + window)
    else bucket.value.(count := bucket.value.count + 1)
  }

  /** The bucket Allow leaves behind, and the answer it reads off it. */
  lemma AnswerStaysTied(bucket: Option<Bucket>, h: seq<Request>, clock: int, limit: int, window: int, now: int)
    requires Tied(bucket, h, clock, limit, window) && now >= clock
    ensures
      var r, b := Decide(h, limit, window, now), NextBucket(bucket, window, now);
      && Tied(Some(b), h + [r], now, limit, window)
      && (r.allowed <==> bucket == None || now > bucket.value.resetAt || b.count <= limit)
  {
    hide IsLog, Decide, Reflects, NextBucket;
    var r := Decide(h, limit, window, now);
    DecideIs(h, limit, window, now);
    LogGrows(h, r, limit, window, now);
    TimesKept(h, r, clock, now);
    if h != [] {
      LastStart(h, limit, window);
    }
    AnswerReflects(bucket, h, clock, limit, window, now);
  }

  lemma AnswerReflects(bucket: Option<Bucket>, h: seq<Request>, clock: int, limit: int, window: int, now: int)
    requires IsLog(h, limit, window) && (forall i | 0 <= i < |h| :: h[i].time <= now)
    requires Reflects(bucket, h, clock, window) && now >= clock
    requires h != [] ==> h[|h| - 1].start <= now
    ensures
      var r, b := Decide(h, limit, window, now), NextBucket(bucket, window, now);
      && Reflects(Some(b), h + [r], now, window)
      && (r.allowed <==> bucket == None || now > bucket.value.resetAt || b.count <= limit)
  {
    CountContinues(h, limit, window, now);
    hide IsLog, Counted, Decide;
    var r := Decide(h, limit, window, now);
    DecideIs(h, limit, window, now);
    assert (h + [r])[|h + [r]| - 1] == r;
  }

  lemma DecideIs(h: seq<Request>, limit: int, window: int, now: int)
    ensures var r := Decide(h, limit, window, now);
      && r.time == now
      && (h == [] || now > h[|h| - 1].start + window ==> r.start == now && r.allowed)
      && (h != [] && now <= h[|h| - 1].start + window ==>
            r.start == h[|h| - 1].start && (r.allowed <==> Counted(h, h[|h| - 1].start) + 1 <= limit))
  {
  }

  lemma TimesKept(h: seq<Request>, r: Request, clock: int, now: int)
    requires (forall i | 0 <= i < |h| :: h[i].time <= clock) && r.time == now >= clock
    ensures forall i | 0 <= i < |h + [r]| :: (h + [r])[i].time <= now
  {
  }

  /** The count of a request's window: one more than before, or one if the window is new. */
  lemma CountContinues(h: seq<Request>, limit: int, window: int, now: int)
    requires IsLog(h, limit, window) && forall i | 0 <= i < |h| :: h[i].time <= now
    ensures var r := Decide(h, limit, window, now);
      window >= 0 ==>
        Counted(h + [r], r.start) ==
        if h == [] || now > h[|h| - 1].start + window then 1 else Counted(h, h[|h| - 1].start) + 1
  {
    hide IsLog, Spaced, Counted, Decide;
    var r := Decide(h, limit, window, now);
    DecideIs(h, limit, window, now);
    LogGrows(h, r, limit, window, now);
    if window >= 0 {
      LogSpaced(h + [r], limit, window);
      CountedGrows(h, r, window);
    }
  }

  lemma {:induction false} LastStart(h: seq<Request>, limit: int, window: int)
    requires IsLog(h, limit, window) && h != []
    ensures h[|h| - 1].start <= h[|h| - 1].time
  {
    var n := |h| - 1;
    assert h[n] == Decide(h[..n], limit, window, h[n].time);
    if n > 0 {
      IsLogPrefix(h, limit, window, n);
      LastStart(h[..n], limit, window);
    }
  }

  lemma LogGrows(h: seq<Request>, r: Request, limit: int, window: int, now: int)
    requires IsLog(h, limit, window) && r == Decide(h, limit, window, now)
    requires forall i | 0 <= i < |h| :: h[i].time <= now
    ensures IsLog(h + [r], limit, window)
  {
    var h' := h + [r];
    forall i | 0 <= i < |h'|
      ensures h'[i] == Decide(h'[..i], limit, window, h'[i].time)
    {
      if i < |h| {
        assert h'[..i] == h[..i];
      } else {
        assert h'[..i] == h;
      }
    }
  }

  lemma CountedGrows(h: seq<Request>, r: Request, window: int)
    requires Spaced(h + [r], window) && window >= 0
    ensures Counted(h + [r], r.start) == Counted(h, r.start) + 1
    ensures h == [] || r.start > h[|h| - 1].start ==> Counted(h, r.start) == 0
  {
    var h' := h + [r];
    assert h'[..|h|] == h;
    if h == [] || r.start > h[|h| - 1].start {
      assert h != [] ==> h'[|h| - 1] == h[|h| - 1];
      NewWindowIsEmpty(h', window);
    }
  }
}
