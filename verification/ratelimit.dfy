/** The per-IP rate limiter of the lead endpoint (`allow` in
    api/notify-lead.js). Its state is a map from client IP to the
    timestamps (milliseconds) of that client's accepted requests; the clock
    reading is a parameter instead of `Date.now()`, and the state is threaded
    through calls instead of living in a module-level `Map`. */
module RateLimit {

  type Hits = map<string, seq<int>>

  /** The defaults `allow` is called with: a 15-minute window and at most
      20 accepted requests in it. */
  const DefaultWindowMs: int := 15 * 60 * 1000
  const DefaultMax: int := 20

  /** `hits.get(ip) || []`. */
  function Stored(hits: Hits, ip: string): seq<int> {
    if ip in hits then hits[ip] else []
  }

  /** `ts.filter(t => now - t < windowMs)`: the timestamps still inside the
      window, in their original order. */
  function Recent(ts: seq<int>, now: int, windowMs: int): (r: seq<int>)
    ensures |r| <= |ts|
    ensures forall t :: t in r <==> t in ts && now - t < windowMs
    ensures (forall t :: t in ts ==> now - t >= windowMs) ==> r == []
    ensures forall t :: multiset(r)[t] == if now - t < windowMs then multiset(ts)[t] else 0
  {
    if |ts| == 0 then []
    else
      var last := ts[|ts| - 1];
      assert ts == ts[..|ts| - 1] + [last];
      assert last in ts;
      assert forall t :: t in ts[..|ts| - 1] ==> t in ts;
      var kept := Recent(ts[..|ts| - 1], now, windowMs);
      if now - last < windowMs then kept + [last] else kept
  }

  /** Pruning distributes over concatenation, so the kept timestamps stay
      in their original order. */
  lemma {:induction false} RecentAppend(a: seq<int>, b: seq<int>, now: int, windowMs: int)
    ensures Recent(a + b, now, windowMs) == Recent(a, now, windowMs) + Recent(b, now, windowMs)
    decreases |b|
  {
    if |b| == 0 {
      assert a + b == a;
    } else {
      var init := b[..|b| - 1];
      var last := b[|b| - 1];
      assert (a + b)[..|a + b| - 1] == a + init;
      assert (a + b)[|a + b| - 1] == last;
      RecentAppend(a, init, now, windowMs);
    }
  }

  /** The verdict of one `allow` call and the limiter state after it. */
  datatype Decision = Decision(allowed: bool, hits: Hits)

  /** One call of `allow(ip, windowMs, max)` at clock reading `now`: the
      request is accepted exactly when fewer than `max` of the client's
      timestamps are inside the window. An accepted request stores the
      pruned list followed by `now`; a rejected one stores nothing, not even
      the pruned list. */
  function Allow(hits: Hits, ip: string, now: int, windowMs: int, max: int): (d: Decision)
    ensures d.allowed <==> |Recent(Stored(hits, ip), now, windowMs)| < max
    ensures !d.allowed ==> d.hits == hits
    ensures d.allowed ==> ip in d.hits && d.hits[ip] == Recent(Stored(hits, ip), now, windowMs) + [now]
    ensures d.allowed ==> |d.hits[ip]| <= max
    ensures d.hits.Keys == hits.Keys + (if d.allowed then {ip} else {})
    ensures forall other :: other in hits && other != ip ==> d.hits[other] == hits[other]
  {
    var arr := Recent(Stored(hits, ip), now, windowMs);
    if |arr| >= max then Decision(false, hits)
    else Decision(true, hits[ip := arr + [now]])
  }

  /** A client with no stored timestamps, or whose timestamps are all at
      least `windowMs` old, is accepted whenever `max >= 1`, and its list
      becomes exactly `[now]`. */
  lemma AllowAfterQuietWindow(hits: Hits, ip: string, now: int, windowMs: int, max: int)
    requires max >= 1
    requires forall t :: t in Stored(hits, ip) ==> now - t >= windowMs
    ensures Allow(hits, ip, now, windowMs, max).allowed
    ensures Allow(hits, ip, now, windowMs, max).hits[ip] == [now]
  {
    var r := Recent(Stored(hits, ip), now, windowMs);
    assert r + [now] == [now];
  }

  /** Pruning twice is pruning once. */
  lemma {:induction false} RecentIdempotent(ts: seq<int>, now: int, windowMs: int)
    ensures Recent(Recent(ts, now, windowMs), now, windowMs) == Recent(ts, now, windowMs)
  {
    if |ts| > 0 {
      var init := ts[..|ts| - 1];
      var last := ts[|ts| - 1];
      RecentIdempotent(init, now, windowMs);
      var ri := Recent(init, now, windowMs);
      if now - last < windowMs {
        assert Recent(ts, now, windowMs) == ri + [last];
        assert Recent(ri + [last], now, windowMs) == Recent(ri, now, windowMs) + [last] by {
          assert (ri + [last])[..|ri + [last]| - 1] == ri;
        }
      } else {
        assert Recent(ts, now, windowMs) == ri;
      }
    }
  }

  /** A timestamp taken at the current clock reading counts inside any
      positive window. */
  lemma RecentAppendNow(ts: seq<int>, now: int, windowMs: int)
    requires windowMs > 0
    ensures Recent(ts + [now], now, windowMs) == Recent(ts, now, windowMs) + [now]
  {
    assert (ts + [now])[..|ts + [now]| - 1] == ts;
  }

  /** As the clock advances, no more timestamps are inside the window. */
  lemma {:induction false} RecentShrinks(ts: seq<int>, now: int, later: int, windowMs: int)
    requires now <= later
    ensures |Recent(ts, later, windowMs)| <= |Recent(ts, now, windowMs)|
  {
    if |ts| > 0 {
      RecentShrinks(ts[..|ts| - 1], now, later, windowMs);
    }
  }

  /** The limiter's guarantee: no client has more than `max` timestamps
      inside the window ending at `now`. */
  predicate WithinLimit(hits: Hits, now: int, windowMs: int, max: int) {
    forall ip :: ip in hits ==> |Recent(hits[ip], now, windowMs)| <= max
  }

  /** `allow` keeps the guarantee, at the call's own clock reading and at
      every later one. */
  lemma AllowKeepsLimit(hits: Hits, ip: string, now: int, later: int, windowMs: int, max: int)
    requires max >= 0 && now <= later
    requires WithinLimit(hits, now, windowMs, max)
    ensures WithinLimit(Allow(hits, ip, now, windowMs, max).hits, later, windowMs, max)
  {
    var d := Allow(hits, ip, now, windowMs, max);
    forall k | k in d.hits
      ensures |Recent(d.hits[k], later, windowMs)| <= max
    {
      RecentShrinks(d.hits[k], now, later, windowMs);
      if d.allowed && k == ip {
        var r := Recent(Stored(hits, ip), now, windowMs);
        assert |Recent(r + [now], now, windowMs)| <= |r + [now]|;
      }
    }
  }

  /** The verdicts of `n` consecutive calls for one client at one fixed
      clock reading. */
  function Burst(hits: Hits, ip: string, now: int, windowMs: int, max: int, n: nat): (r: seq<bool>)
    ensures |r| == n
    decreases n
  {
    if n == 0 then []
    else
      var d := Allow(hits, ip, now, windowMs, max);
      [d.allowed] + Burst(d.hits, ip, now, windowMs, max, n - 1)
  }

  /** With a positive window and a fixed clock, a client that already has
      `c` timestamps in the window is accepted for exactly its first
      `max - c` calls and rejected for every call after that. */
  lemma {:induction false} BurstShape(hits: Hits, ip: string, now: int, windowMs: int, max: int, n: nat)
    requires windowMs > 0
    ensures forall i :: 0 <= i < n ==>
      Burst(hits, ip, now, windowMs, max, n)[i] == (|Recent(Stored(hits, ip), now, windowMs)| + i < max)
    decreases n
  {
    if n > 0 {
      var d := Allow(hits, ip, now, windowMs, max);
      var c := |Recent(Stored(hits, ip), now, windowMs)|;
      AllowCounts(hits, ip, now, windowMs, max);
      BurstShape(d.hits, ip, now, windowMs, max, n - 1);
      var b := Burst(hits, ip, now, windowMs, max, n);
      forall i | 0 <= i < n
        ensures b[i] == (c + i < max)
      {
        if i > 0 {
          assert b[i] == Burst(d.hits, ip, now, windowMs, max, n - 1)[i - 1];
        }
      }
    }
  }

  /** At an unchanged clock reading, an accepted call adds exactly one
      timestamp to the client's window and a rejected one adds none. */
  lemma AllowCounts(hits: Hits, ip: string, now: int, windowMs: int, max: int)
    requires windowMs > 0
    ensures var d := Allow(hits, ip, now, windowMs, max);
      |Recent(Stored(d.hits, ip), now, windowMs)|
        == |Recent(Stored(hits, ip), now, windowMs)| + (if d.allowed then 1 else 0)
  {
    var d := Allow(hits, ip, now, windowMs, max);
    if d.allowed {
      var r := Recent(Stored(hits, ip), now, windowMs);
      assert Stored(d.hits, ip) == r + [now];
      RecentAppendNow(r, now, windowMs);
      RecentIdempotent(Stored(hits, ip), now, windowMs);
    }
  }

  /** For a client with nothing in the window, `max` consecutive calls at
      one clock reading are accepted and the next one is rejected. */
  lemma BurstFromQuiet(hits: Hits, ip: string, now: int, windowMs: int, max: nat)
    requires windowMs > 0
    requires Recent(Stored(hits, ip), now, windowMs) == []
    ensures Burst(hits, ip, now, windowMs, max, max + 1) == seq(max, _ => true) + [false]
  {
    BurstShape(hits, ip, now, windowMs, max, max + 1);
  }
}
