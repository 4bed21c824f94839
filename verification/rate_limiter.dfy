/**
 * The in-memory sliding-window rate limiter: per client IP, the times of the
 * requests accepted within the last `period`. Times are nanoseconds (`time.Time`
 * compared with `After`); the clock reading of each call is a parameter. The
 * mutexes, and the goroutine that runs the cleanup every five minutes, are not
 * modelled: each call here is one critical section.
 */
module RateLimiter {
  import opened Durations

  datatype Visitor = Visitor(lastSeen: int, requests: seq<int>)

  datatype Limiter = Limiter(visitors: map<string, Visitor>, rate: int, period: int)

  /** Visitors idle for longer than this are dropped by the cleanup. */
  const IdleLimit: int := 10 * Minute

  /** The presets: 5 requests per minute for sensitive endpoints, 60 for the rest. */
  const StrictRate: int := 5
  const ModerateRate: int := 60

  function NewLimiter(rate: int, period: int): (r: Limiter)
    ensures r.visitors == map[] && r.rate == rate && r.period == period
  {
    Limiter(map[], rate, period)
  }

  function Strict(): Limiter {
    NewLimiter(StrictRate, Minute)
  }

  function Moderate(): Limiter {
    NewLimiter(ModerateRate, Minute)
  }

  /** The most requests a visitor can hold: `rate`, or none when the rate is not positive. */
  function Cap(rate: int): (r: nat) {
    if rate > 0 then rate else 0
  }

  // ---------------------------------------------------------------------------
  // One call

  /** The stored times strictly after the cutoff, in their order. */
  function Kept(rs: seq<int>, cutoff: int): (r: seq<int>)
    ensures |r| <= |rs|
  {
    if |rs| == 0 then []
    else
      var last := rs[|rs| - 1];
      Kept(rs[..|rs| - 1], cutoff) + (if last > cutoff then [last] else [])
  }

  /** Exactly the stored times after the cutoff survive the filter. */
  lemma {:induction false} KeptMembers(rs: seq<int>, cutoff: int)
    ensures forall t :: t in Kept(rs, cutoff) <==> t in rs && t > cutoff
  {
    if |rs| > 0 {
      KeptMembers(rs[..|rs| - 1], cutoff);
      assert rs == rs[..|rs| - 1] + [rs[|rs| - 1]];
    }
  }

  /**
   * `allow` on one visitor: record the call time, drop the requests at or
   * before now − period, then refuse when `rate` or more remain, or record now
   * and accept. A refusal stores the filtered list but not the refused call.
   */
  function Step(v: Visitor, now: int, rate: int, period: int): (r: (Visitor, bool))
    ensures r.0.lastSeen == now
    ensures r.1 <==> |Kept(v.requests, now - period)| < rate
    ensures r.0.requests == Kept(v.requests, now - period) + (if r.1 then [now] else [])
  {
    var kept := Kept(v.requests, now - period);
    if |kept| >= rate then (Visitor(now, kept), false)
    else (Visitor(now, kept + [now]), true)
  }

  /** `allow`: finds or creates the visitor for `ip` and applies one call to it. */
  function Allow(l: Limiter, ip: string, now: int): (r: (Limiter, bool))
    ensures r.0.rate == l.rate && r.0.period == l.period
    ensures ip in r.0.visitors && r.0.visitors[ip].lastSeen == now
    ensures r.0.visitors.Keys == l.visitors.Keys + {ip}
    ensures forall other | other in l.visitors && other != ip :: r.0.visitors[other] == l.visitors[other]
  {
    var v := if ip in l.visitors then l.visitors[ip] else Visitor(now, []);
    var s := Step(v, now, l.rate, l.period);
    (l.(visitors := l.visitors[ip := s.0]), s.1)
  }

  /** No visitor holds more than `rate` requests. */
  predicate Bounded(l: Limiter) {
    forall ip | ip in l.visitors :: |l.visitors[ip].requests| <= Cap(l.rate)
  }

  /** The bound on stored requests is preserved by every call. */
  lemma AllowBounded(l: Limiter, ip: string, now: int)
    requires Bounded(l)
    ensures Bounded(Allow(l, ip, now).0)
  {
  }

  /** A fresh limiter is bounded. */
  lemma NewBounded(rate: int, period: int)
    ensures Bounded(NewLimiter(rate, period))
  {
  }

  /** With a positive rate, the first call of a new visitor is always accepted. */
  lemma FirstCallAccepted(l: Limiter, ip: string, now: int)
    requires ip !in l.visitors && l.rate > 0
    ensures Allow(l, ip, now).1
  {
  }

  /** With a rate of zero or less, every call is refused. */
  lemma NonPositiveRateRefuses(l: Limiter, ip: string, now: int)
    requires l.rate <= 0
    ensures !Allow(l, ip, now).1
  {
  }

  // ---------------------------------------------------------------------------
  // Cleanup

  /** `cleanupVisitors`, one pass: drops visitors last seen more than 10 minutes before now. */
  function Cleanup(l: Limiter, now: int): (r: Limiter)
    ensures r.rate == l.rate && r.period == l.period
    ensures forall ip :: ip in r.visitors <==> ip in l.visitors && now - l.visitors[ip].lastSeen <= IdleLimit
    ensures forall ip | ip in r.visitors :: r.visitors[ip] == l.visitors[ip]
  {
    l.(visitors := map ip | ip in l.visitors && now - l.visitors[ip].lastSeen <= IdleLimit :: l.visitors[ip])
  }

  /** A second pass at the same time removes nothing more. */
  lemma CleanupIdempotent(l: Limiter, now: int)
    ensures Cleanup(Cleanup(l, now), now) == Cleanup(l, now)
  {
  }

  /** The cleanup keeps the bound, and never drops the visitor of a call made at that time. */
  lemma CleanupKeepsCurrent(l: Limiter, ip: string, now: int)
    requires Bounded(l)
    ensures Bounded(Cleanup(l, now))
    ensures ip in Cleanup(Allow(l, ip, now).0, now).visitors
  {
  }

  // ---------------------------------------------------------------------------
  // Traces: the sliding-window guarantee

  predicate Sorted(ts: seq<int>) {
    forall i, j | 0 <= i < j < |ts| :: ts[i] <= ts[j]
  }

  /** The calls of one visitor at times `ts`, and the decisions, in order. */
  function Replay(v: Visitor, ts: seq<int>, rate: int, period: int): (r: (Visitor, seq<bool>))
    ensures |r.1| == |ts|
  {
    if |ts| == 0 then (v, [])
    else
      var prev := Replay(v, ts[..|ts| - 1], rate, period);
      var s := Step(prev.0, ts[|ts| - 1], rate, period);
      (s.0, prev.1 + [s.1])
  }

  /** The accepted call times strictly after the cutoff, in order. */
  function Window(ts: seq<int>, ds: seq<bool>, cutoff: int): (r: seq<int>)
    requires |ts| == |ds|
    ensures |r| <= |ts|
  {
    if |ts| == 0 then []
    else
      var n := |ts| - 1;
      Window(ts[..n], ds[..n], cutoff) + (if ds[n] && ts[n] > cutoff then [ts[n]] else [])
  }

  lemma WindowSnoc(ts: seq<int>, ds: seq<bool>, c: int)
    requires |ts| == |ds| > 0
    ensures Window(ts, ds, c) == Window(ts[..|ts| - 1], ds[..|ds| - 1], c)
      + (if ds[|ds| - 1] && ts[|ts| - 1] > c then [ts[|ts| - 1]] else [])
  {
  }

  lemma {:induction false} KeptConcat(a: seq<int>, b: seq<int>, c: int)
    ensures Kept(a + b, c) == Kept(a, c) + Kept(b, c)
    decreases |b|
  {
    if |b| == 0 {
      assert a + b == a;
    } else {
      var n := |b| - 1;
      assert (a + b)[..|a + b| - 1] == a + b[..n];
      KeptConcat(a, b[..n], c);
    }
  }

  /** Filtering a window again at a later cutoff gives the later window. */
  lemma {:induction false} KeptWindow(ts: seq<int>, ds: seq<bool>, c1: int, c2: int)
    requires |ts| == |ds| && c1 <= c2
    ensures Kept(Window(ts, ds, c1), c2) == Window(ts, ds, c2)
  {
    if |ts| > 0 {
      var n := |ts| - 1;
      var tail := if ds[n] && ts[n] > c1 then [ts[n]] else [];
      KeptConcat(Window(ts[..n], ds[..n], c1), tail, c2);
      KeptWindow(ts[..n], ds[..n], c1, c2);
      if |tail| == 1 {
        assert tail[..0] == [];
      }
    }
  }

  /** However the calls are timed, no visitor ever stores more than `rate` requests. */
  lemma {:induction false} ReplayBounded(v: Visitor, ts: seq<int>, rate: int, period: int)
    requires |v.requests| <= Cap(rate)
    ensures |Replay(v, ts, rate, period).0.requests| <= Cap(rate)
  {
    if |ts| > 0 {
      ReplayBounded(v, ts[..|ts| - 1], rate, period);
    }
  }

  /**
   * For calls in time order, the stored list after each call is exactly the
   * accepted call times within the last period ending at that call.
   */
  lemma {:induction false} ReplayState(v: Visitor, ts: seq<int>, rate: int, period: int)
    requires v.requests == [] && period > 0 && Sorted(ts) && |ts| > 0
    ensures Replay(v, ts, rate, period).0.requests
      == Window(ts, Replay(v, ts, rate, period).1, ts[|ts| - 1] - period)
  {
    var n := |ts| - 1;
    if n == 0 {
      var prev := Replay(v, ts[..n], rate, period);
      assert Kept(prev.0.requests, ts[n] - period) == [] == Window(ts[..n], prev.1, ts[n] - period);
      StepMatchesWindow(prev.0, prev.1, ts, rate, period);
    } else {
      ReplayState(v, ts[..n], rate, period);
      assert ts[n - 1] <= ts[n];
      ReplayExtend(v, ts, rate, period);
    }
  }

  /** The step of the induction: the window at the previous call, cut again at this one. */
  lemma {:induction false} ReplayExtend(v: Visitor, ts: seq<int>, rate: int, period: int)
    requires |ts| >= 2 && period > 0 && ts[|ts| - 2] <= ts[|ts| - 1]
    requires Replay(v, ts[..|ts| - 1], rate, period).0.requests
      == Window(ts[..|ts| - 1], Replay(v, ts[..|ts| - 1], rate, period).1, ts[..|ts| - 1][|ts[..|ts| - 1]| - 1] - period)
    ensures Replay(v, ts, rate, period).0.requests
      == Window(ts, Replay(v, ts, rate, period).1, ts[|ts| - 1] - period)
  {
    var n := |ts| - 1;
    var front := ts[..n];
    var prev := Replay(v, front, rate, period);
    assert front[|front| - 1] == ts[n - 1];
    KeptWindow(front, prev.1, front[|front| - 1] - period, ts[n] - period);
    StepMatchesWindow(prev.0, prev.1, ts, rate, period);
  }

  /** One more call extends the window exactly as the step extends the stored list. */
  lemma {:induction false} StepMatchesWindow(w: Visitor, ds: seq<bool>, ts: seq<int>, rate: int, period: int)
    requires |ts| == |ds| + 1 && period > 0
    requires Kept(w.requests, ts[|ts| - 1] - period) == Window(ts[..|ts| - 1], ds, ts[|ts| - 1] - period)
    ensures Step(w, ts[|ts| - 1], rate, period).0.requests
      == Window(ts, ds + [Step(w, ts[|ts| - 1], rate, period).1], ts[|ts| - 1] - period)
  {
    var n := |ts| - 1;
    var s := Step(w, ts[n], rate, period);
    var all := ds + [s.1];
    assert all[..n] == ds;
    WindowSnoc(ts, all, ts[n] - period);
  }

  /** The decisions for a prefix of the calls are the prefix of the decisions. */
  lemma {:induction false} ReplayPrefix(v: Visitor, ts: seq<int>, rate: int, period: int, m: nat)
    requires m <= |ts|
    ensures Replay(v, ts[..m], rate, period).1 == Replay(v, ts, rate, period).1[..m]
    decreases |ts|
  {
    if m < |ts| {
      var n := |ts| - 1;
      assert ts[..n][..m] == ts[..m];
      ReplayPrefix(v, ts[..n], rate, period, m);
    } else {
      assert ts[..m] == ts;
    }
  }

  /**
   * The sliding-window guarantee: at every call, the calls accepted within
   * the period ending at it, that call included, number at most `rate`.
   */
  lemma {:induction false} SlidingWindow(v: Visitor, ts: seq<int>, rate: int, period: int, k: nat)
    requires v.requests == [] && period > 0 && Sorted(ts) && k < |ts|
    ensures var ds := Replay(v, ts, rate, period).1;
      |Window(ts[..k + 1], ds[..k + 1], ts[k] - period)| <= Cap(rate)
  {
    ReplayPrefix(v, ts, rate, period, k + 1);
    var p := ts[..k + 1];
    assert Sorted(p);
    assert p[|p| - 1] == ts[k];
    ReplayState(v, p, rate, period);
    ReplayBounded(v, p, rate, period);
  }

  function Min(a: int, b: int): int {
    if a < b then a else b
  }

  /**
   * A burst: calls from a new visitor that all fall within one period. The
   * stored list is the times of the first `rate` of them.
   */
  lemma {:induction false} BurstStored(v: Visitor, ts: seq<int>, rate: int, period: int)
    requires v.requests == [] && |ts| > 0 && Sorted(ts) && ts[|ts| - 1] - ts[0] < period
    ensures Replay(v, ts, rate, period).0.requests == ts[..Min(|ts|, Cap(rate))]
  {
    var n := |ts| - 1;
    var front := ts[..n];
    var prev := Replay(v, front, rate, period);
    if n > 0 {
      assert front[n - 1] == ts[n - 1] <= ts[n] && front[0] == ts[0];
      BurstStored(v, front, rate, period);
    }
    assert forall i | 0 <= i < n :: ts[0] <= ts[i];
    BurstStep(prev.0, ts, rate, period);
  }

  /** One call of a burst: it passes while fewer than `rate` came before it. */
  lemma {:induction false} BurstStep(w: Visitor, ts: seq<int>, rate: int, period: int)
    requires |ts| > 0
    requires forall i | 0 <= i < |ts| - 1 :: ts[i] > ts[|ts| - 1] - period
    requires w.requests == ts[..Min(|ts| - 1, Cap(rate))]
    ensures Step(w, ts[|ts| - 1], rate, period).0.requests == ts[..Min(|ts|, Cap(rate))]
    ensures Step(w, ts[|ts| - 1], rate, period).1 <==> |ts| - 1 < rate
  {
    var n := |ts| - 1;
    KeptAllAfter(w.requests, ts[n] - period);
    assert ts[..n] + [ts[n]] == ts[..n + 1];
  }

  /** In a burst, exactly the first `rate` calls pass. */
  lemma {:induction false} BurstDecisions(v: Visitor, ts: seq<int>, rate: int, period: int)
    requires v.requests == [] && |ts| > 0 && Sorted(ts) && ts[|ts| - 1] - ts[0] < period
    ensures forall k | 0 <= k < |ts| :: Replay(v, ts, rate, period).1[k] <==> k < rate
  {
    forall k | 0 <= k < |ts|
      ensures Replay(v, ts, rate, period).1[k] <==> k < rate
    {
      BurstDecision(v, ts, rate, period, k);
    }
  }

  lemma {:induction false} BurstDecision(v: Visitor, ts: seq<int>, rate: int, period: int, k: nat)
    requires v.requests == [] && k < |ts| && Sorted(ts) && ts[|ts| - 1] - ts[0] < period
    ensures Replay(v, ts, rate, period).1[k] <==> k < rate
  {
    ReplayPrefix(v, ts, rate, period, k + 1);
    var p := ts[..k + 1];
    assert p[k] == ts[k] <= ts[|ts| - 1] && p[0] == ts[0];
    BurstLast(v, p, rate, period);
  }

  /** The last call of a burst passes exactly when fewer than `rate` came before it. */
  lemma {:induction false} BurstLast(v: Visitor, ts: seq<int>, rate: int, period: int)
    requires v.requests == [] && |ts| > 0 && Sorted(ts) && ts[|ts| - 1] - ts[0] < period
    ensures Replay(v, ts, rate, period).1[|ts| - 1] <==> |ts| - 1 < rate
  {
    var n := |ts| - 1;
    var front := ts[..n];
    var prev := Replay(v, front, rate, period);
    if n > 0 {
      assert front[n - 1] == ts[n - 1] <= ts[n] && front[0] == ts[0];
      BurstStored(v, front, rate, period);
    }
    assert forall i | 0 <= i < n :: ts[0] <= ts[i];
    BurstStep(prev.0, ts, rate, period);
  }

  /** Nothing is dropped when every stored time is after the cutoff. */
  lemma {:induction false} KeptAllAfter(rs: seq<int>, c: int)
    requires forall i | 0 <= i < |rs| :: rs[i] > c
    ensures Kept(rs, c) == rs
  {
    if |rs| > 0 {
      KeptAllAfter(rs[..|rs| - 1], c);
    }
  }

  /** Under the strict preset, the sixth call within a minute is the first refused. */
  lemma {:induction false} StrictSixthRefused(v: Visitor, ts: seq<int>)
    requires v.requests == [] && |ts| == 6 && Sorted(ts) && ts[5] - ts[0] < Minute
    ensures forall k | 0 <= k < 5 :: Replay(v, ts, StrictRate, Minute).1[k]
    ensures !Replay(v, ts, StrictRate, Minute).1[5]
  {
    BurstDecisions(v, ts, StrictRate, Minute);
  }
}
