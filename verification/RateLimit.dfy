/**
 The two rate limiters of middleware/ratelimit.go, on one key.  Times are nonnegative integer nanoseconds, counted
 from Go's zero time where windows are aligned to it.
 */
module RateLimits {
  import opened Arithmetic
  import opened Durations

  datatype Config = Config(limit: int, window: int)

  /**
   The lifetime that a key gets from EXPIRE with `window`: the client library sends whole seconds, truncated, but one
   second for a positive window below that.
   */
  function KeyTtl(window: int): int {
    if 0 < window < SECOND then SECOND else WholeSeconds(window) * SECOND
  }

  /** Windows whose key lives at least as long as they last. */
  predicate Covered(window: int) {
    window <= SECOND || window % SECOND == 0
  }

  lemma CoveredByTtl(window: int)
    ensures Covered(window) <==> KeyTtl(window) >= window
  {
  }

  function Max(a: int, b: int): int {
    if a < b then b else a
  }

  // ---------------------------------------------------------------------------------------------
  // The sorted set and the counters, as Redis holds them
  // ---------------------------------------------------------------------------------------------

  /** A sorted set of request times that the server drops at `until`. */
  datatype Log = Log(scores: set<int>, until: int)

  /** ZREMRANGEBYSCORE from 0 to the window's start, on what has not expired. */
  function Pruned(cfg: Config, l: Log, now: int): set<int> {
    if now >= l.until then {} else set t | t in l.scores && !(0 <= t <= now - cfg.window)
  }

  datatype Op = Request(now: int) | Status(now: int)

  function Apply(cfg: Config, l: Log, op: Op): Log {
    match op
    case Request(now) => Log(Pruned(cfg, l, now) + {now}, now + KeyTtl(cfg.window))
    case Status(now) => Log(Pruned(cfg, l, now), l.until)
  }

  function Run(cfg: Config, ops: seq<Op>): Log {
    if ops == [] then Log({}, 0) else Apply(cfg, Run(cfg, ops[..|ops| - 1]), ops[|ops| - 1])
  }

  datatype Counter = Counter(count: nat, until: int)

  /** Go's Truncate. */
  function WindowStart(cfg: Config, now: int): int
    requires cfg.window > 0
  {
    now - now % cfg.window
  }

  /** Windows are aligned: each starts at a multiple of its length. */
  lemma WindowsAreAligned(cfg: Config, now: int)
    requires cfg.window > 0
    ensures var start := WindowStart(cfg, now); start % cfg.window == 0 && start <= now < start + cfg.window
  {
    var q := now / cfg.window;
    assert WindowStart(cfg, now) == q * cfg.window;
    MultipleModulo(q, cfg.window);
  }

  lemma MultipleModulo(q: int, n: int)
    requires n > 0
    ensures (q * n) % n == 0
  {
    var p, r := (q * n) / n, (q * n) % n;
    assert (q - p) * n == r;
    if q > p {
      ProductAtLeast(q - p, n);
    } else if q < p {
      ProductAtLeast(p - q, n);
    }
  }

  /** The window key ends in the window's start in whole seconds. */
  function KeyOf(cfg: Config, now: int): int
    requires cfg.window > 0
  {
    WindowStart(cfg, now) / SECOND
  }

  function LiveCount(c: map<int, Counter>, key: int, now: int): nat {
    if key in c && now < c[key].until then c[key].count else 0
  }

  /** INCR, and EXPIRE on the first. */
  function Hit(cfg: Config, c: map<int, Counter>, now: int): map<int, Counter>
    requires cfg.window > 0
  {
    var key := KeyOf(cfg, now);
    var count := LiveCount(c, key, now) + 1;
    c[key := Counter(count, if count == 1 then now + KeyTtl(cfg.window) else c[key].until)]
  }

  function HitAll(cfg: Config, times: seq<int>): map<int, Counter>
    requires cfg.window > 0
  {
    if times == [] then map[] else Hit(cfg, HitAll(cfg, times[..|times| - 1]), times[|times| - 1])
  }

  // ---------------------------------------------------------------------------------------------
  // The Go type
  // ---------------------------------------------------------------------------------------------

  class RateLimitMiddleware {
    const cfg: Config
    var log: Log
    var counters: map<int, Counter>

    constructor (cfg: Config)
      ensures this.cfg == cfg && log == Run(cfg, []) && counters == map[]
    {
      this.cfg := cfg;
      log, counters := Log({}, 0), map[];
    }

    method CheckRateLimit(now: int) returns (allowed: bool, remaining: int, resetTime: int)
      modifies this`log
      ensures log == Apply(cfg, old(log), Request(now))
      ensures var count := |Pruned(cfg, old(log), now)|;
              && (allowed <==> count < cfg.limit)
              && remaining == Max(cfg.limit - count, 0)
              && resetTime == now + cfg.window
    {
      log := Log(Pruned(cfg, log, now), log.until);
      var currentCount := |log.scores|;
      log := Log(log.scores + {now}, now + KeyTtl(cfg.window));
      allowed := currentCount < cfg.limit;
      remaining := cfg.limit - currentCount;
      if remaining < 0 {
        remaining := 0;
      }
      resetTime := now + cfg.window;
    }

    method GetRateLimitStatus(now: int) returns (currentCount: int, resetTime: int)
      modifies this`log
      ensures log == Apply(cfg, old(log), Status(now))
      ensures currentCount == |Pruned(cfg, old(log), now)| && resetTime == now + cfg.window
    {
      log := Log(Pruned(cfg, log, now), log.until);
      currentCount := |log.scores|;
      resetTime := now + cfg.window;
    }

    method FixedWindowRateLimit(now: int) returns (allowed: bool, remaining: int, resetTime: int)
      requires cfg.window > 0
      modifies this`counters
      ensures counters == Hit(cfg, old(counters), now)
      ensures var earlier := LiveCount(old(counters), KeyOf(cfg, now), now);
              && (allowed <==> earlier < cfg.limit)
              && remaining == Max(cfg.limit - earlier - 1, 0)
              && resetTime == WindowStart(cfg, now) + cfg.window
    {
      var windowStart := WindowStart(cfg, now);
      var key := windowStart / SECOND;
      var count := LiveCount(counters, key, now) + 1;
      var until := if count == 1 then now + KeyTtl(cfg.window) else counters[key].until;
      counters := counters[key := Counter(count, until)];
      allowed := count <= cfg.limit;
      remaining := cfg.limit - count;
      if remaining < 0 {
        remaining := 0;
      }
      resetTime := windowStart + cfg.window;
    }
  }

  // ---------------------------------------------------------------------------------------------
  // The sliding window against the full history
  // ---------------------------------------------------------------------------------------------

  /** Every request of a run, allowed or not. */
  function Requests(ops: seq<Op>): set<int> {
    if ops == [] then {}
    else Requests(ops[..|ops| - 1]) + if ops[|ops| - 1].Request? then {ops[|ops| - 1].now} else {}
  }

  /** The requests of the last `window` before `now`. */
  function Recent(cfg: Config, requests: set<int>, now: int): set<int> {
    set t | t in requests && now - cfg.window < t < now
  }

  /** Time does not go back, and no request carries the time of an earlier one. */
  ghost predicate Ordered(ops: seq<Op>) {
    && (forall i :: 0 <= i < |ops| ==> 0 <= ops[i].now)
    && (forall i, j :: 0 <= i < j < |ops| ==> ops[i].now <= ops[j].now)
    && (forall i, j :: 0 <= i < j < |ops| && ops[i].Request? && ops[j].Request? ==> ops[i].now < ops[j].now)
  }

  /** `now` may be the time of the next request. */
  ghost predicate Follows(ops: seq<Op>, now: int) {
    Ordered(ops + [Request(now)])
  }

  lemma {:induction false} RequestsOf(ops: seq<Op>, t: int)
    ensures t in Requests(ops) <==> exists i :: 0 <= i < |ops| && ops[i] == Request(t)
  {
    if ops != [] {
      var n := |ops| - 1;
      RequestsOf(ops[..n], t);
      if i :| 0 <= i < n && ops[i] == Request(t) {
        assert ops[..n][i] == Request(t);
      }
    }
  }

  /** Pruning at any later time gives the recent part of the whole history. */
  lemma {:induction false} PrunedIsRecent(cfg: Config, ops: seq<Op>, now: int)
    requires Covered(cfg.window) && Ordered(ops)
    requires forall i :: 0 <= i < |ops| ==> ops[i].now <= now
    ensures Pruned(cfg, Run(cfg, ops), now) == set t | t in Requests(ops) && now - cfg.window < t
  {
    CoveredByTtl(cfg.window);
    if ops != [] {
      var n := |ops| - 1;
      var before, op := ops[..n], ops[n];
      PrunedIsRecent(cfg, before, op.now);
      if op.Request? {
        forall t | t in Requests(before) ensures t <= op.now {
          RequestsOf(before, t);
        }
      } else {
        PrunedIsRecent(cfg, before, now);
      }
      forall t | t in Requests(ops) ensures 0 <= t <= op.now {
        RequestsOf(ops, t);
      }
    }
  }

  /**
   The pruned log counts what the full history would, so it allows exactly when fewer than `limit` recent requests
   exist.
   */
  lemma CountIsHistory(cfg: Config, ops: seq<Op>, now: int)
    requires Covered(cfg.window) && Follows(ops, now)
    ensures Pruned(cfg, Run(cfg, ops), now) == Recent(cfg, Requests(ops), now)
  {
    var all := ops + [Request(now)];
    assert forall i :: 0 <= i < |ops| ==> all[i] == ops[i];
    assert all[|ops|] == Request(now);
    PrunedIsRecent(cfg, ops, now);
    forall t | t in Requests(ops) ensures t < now {
      RequestsOf(ops, t);
      var i :| 0 <= i < |ops| && ops[i] == Request(t);
      assert all[i].now < all[|ops|].now;
    }
  }

  /**
   A key that the server drops before the window is over makes the log forget: one request, and the next at the
   expiry.
   */
  lemma ShortTtlForgets(cfg: Config) returns (ops: seq<Op>, now: int)
    requires !Covered(cfg.window)
    ensures Follows(ops, now) && |Pruned(cfg, Run(cfg, ops), now)| != |Recent(cfg, Requests(ops), now)|
  {
    ops, now := [Request(0)], KeyTtl(cfg.window);
    CoveredByTtl(cfg.window);
    assert ops[..0] == [];
    assert Run(cfg, ops).until == now && Pruned(cfg, Run(cfg, ops), now) == {};
    assert Recent(cfg, Requests(ops), now) == {0};
  }

  /**
   The log agrees with the full history on every run exactly for windows of at most a second and windows of whole
   seconds.
   */
  lemma SlidingLogIsExact(cfg: Config)
    ensures cfg.window <= SECOND || cfg.window % SECOND == 0 <==>
            forall ops, now {:trigger Follows(ops, now)} :: Follows(ops, now) ==>
              |Pruned(cfg, Run(cfg, ops), now)| == |Recent(cfg, Requests(ops), now)|
  {
    if Covered(cfg.window) {
      forall ops, now | Follows(ops, now)
        ensures |Pruned(cfg, Run(cfg, ops), now)| == |Recent(cfg, Requests(ops), now)|
      {
        CountIsHistory(cfg, ops, now);
      }
    } else {
      var ops, now := ShortTtlForgets(cfg);
    }
  }

  /** The requests a run answered with "allowed". */
  function AllowedBy(cfg: Config, ops: seq<Op>): set<int> {
    if ops == [] then {}
    else
      var before, op := ops[..|ops| - 1], ops[|ops| - 1];
      AllowedBy(cfg, before)
      + if op.Request? && |Pruned(cfg, Run(cfg, before), op.now)| < cfg.limit then {op.now} else {}
  }

  lemma {:induction false} AllowedIsHistory(cfg: Config, ops: seq<Op>, t: int)
    requires Covered(cfg.window) && Ordered(ops)
    ensures t in AllowedBy(cfg, ops) <==> t in Requests(ops) && |Recent(cfg, Requests(ops), t)| < cfg.limit
  {
    if ops != [] {
      var before, op := ops[..|ops| - 1], ops[|ops| - 1];
      assert ops == before + [op];
      AllowedIsHistory(cfg, before, t);
      if op.Request? {
        CountIsHistory(cfg, before, op.now);
        forall x | x in Requests(before) ensures x < op.now {
          RequestsOf(before, x);
          var i :| 0 <= i < |before| && before[i] == Request(x);
          assert ops[i].now < ops[|before|].now;
        }
        assert Recent(cfg, Requests(ops), op.now) == Recent(cfg, Requests(before), op.now);
        if t < op.now {
          assert Recent(cfg, Requests(ops), t) == Recent(cfg, Requests(before), t);
        }
      } else {
        assert Requests(ops) == Requests(before);
      }
    }
  }

  lemma Pick<T>(s: set<T>) returns (x: T)
    requires s != {}
    ensures x in s
  {
    x :| x in s;
  }

  lemma {:induction false} Largest(s: set<int>, some: int) returns (m: int)
    requires some in s
    ensures m in s && forall x :: x in s ==> x <= m
    decreases |s|
  {
    m := some;
    if s != {some} {
      assert s - {some} != {};
      var x := Pick(s - {some});
      var m' := Largest(s - {some}, x);
      forall y | y in s ensures y <= some || y <= m' {
        assert y == some || y in s - {some};
      }
      if m < m' {
        m := m';
      }
    }
  }

  lemma {:induction false} SubsetCount<T>(a: set<T>, b: set<T>)
    requires a <= b
    ensures |a| <= |b|
  {
    if a != {} {
      var x := Pick(a);
      SubsetCount(a - {x}, b - {x});
    }
  }

  /**
   No interval of the window's length contains more than `limit` allowed requests, statuses asked in between or not.
   */
  lemma SlidingWindowSafety(cfg: Config, ops: seq<Op>, t: int)
    requires Covered(cfg.window) && Ordered(ops)
    ensures |set x | x in AllowedBy(cfg, ops) && t - cfg.window < x <= t| <= Max(cfg.limit, 0)
  {
    var inside := set x | x in AllowedBy(cfg, ops) && t - cfg.window < x <= t;
    if inside != {} {
      var some := Pick(inside);
      var m := Largest(inside, some);
      AllowedIsHistory(cfg, ops, m);
      forall x | x in inside - {m} ensures x in Recent(cfg, Requests(ops), m) {
        AllowedIsHistory(cfg, ops, x);
      }
      SubsetCount(inside - {m}, Recent(cfg, Requests(ops), m));
    }
  }

  // ---------------------------------------------------------------------------------------------
  // The fixed window
  // ---------------------------------------------------------------------------------------------

  ghost predicate Sorted(times: seq<int>) {
    && (forall i :: 0 <= i < |times| ==> 0 <= times[i])
    && (forall i, j :: 0 <= i < j < |times| ==> times[i] <= times[j])
  }

  /** How many of the times lie in the aligned window that starts at `start`. */
  function CountIn(cfg: Config, times: seq<int>, start: int): nat
    requires cfg.window > 0
  {
    if times == [] then 0
    else CountIn(cfg, times[..|times| - 1], start) + if WindowStart(cfg, times[|times| - 1]) == start then 1 else 0
  }

  predicate WholeWindow(cfg: Config) {
    cfg.window > 0 && cfg.window % SECOND == 0
  }

  /** Distinct windows have distinct keys when windows are whole seconds. */
  lemma KeysAreDistinct(cfg: Config, a: int, b: int)
    requires WholeWindow(cfg)
    ensures KeyOf(cfg, a) == KeyOf(cfg, b) <==> WindowStart(cfg, a) == WindowStart(cfg, b)
  {
    StartIsWhole(cfg, a);
    StartIsWhole(cfg, b);
  }

  lemma StartIsWhole(cfg: Config, a: int)
    requires WholeWindow(cfg)
    ensures WindowStart(cfg, a) % SECOND == 0
  {
    var n := cfg.window / SECOND;
    var q := a / cfg.window;
    assert cfg.window == n * SECOND;
    assert WindowStart(cfg, a) == q * cfg.window;
    Multiple(q, n);
  }

  lemma Multiple(q: int, n: int)
    ensures (q * (n * SECOND)) % SECOND == 0
  {
    assert q * (n * SECOND) == (q * n) * SECOND;
  }

  lemma SortedParts(times: seq<int>, last: int, now: int)
    requires Sorted(times + [last] + [now])
    ensures Sorted(times + [last]) && Sorted(times + [now]) && last <= now
  {
    var all, n := times + [last] + [now], |times|;
    assert all[n] == last && all[n + 1] == now;
    assert forall i :: 0 <= i < n + 1 ==> all[i] == (times + [last])[i];
    assert forall i :: 0 <= i < n ==> all[i] == (times + [now])[i];
  }

  /** The key of the window of `now` holds the number of its earlier requests, and outlives it. */
  ghost predicate Exact(cfg: Config, times: seq<int>, now: int)
    requires cfg.window > 0
  {
    var c, key, start := HitAll(cfg, times), KeyOf(cfg, now), WindowStart(cfg, now);
    && LiveCount(c, key, now) == CountIn(cfg, times, start)
    && (key in c ==> start + cfg.window <= c[key].until && c[key].count == CountIn(cfg, times, start) > 0)
    && (key !in c ==> CountIn(cfg, times, start) == 0)
  }

  lemma HitIsExact(cfg: Config, before: seq<int>, last: int, now: int)
    requires WholeWindow(cfg) && last <= now
    requires Exact(cfg, before, last) && Exact(cfg, before, now)
    ensures Exact(cfg, before + [last], now)
  {
    var times := before + [last];
    assert times[..|times| - 1] == before;
    KeysAreDistinct(cfg, last, now);
  }

  /** Whatever window `now` is in, its key holds exactly the requests of that window so far, and outlives it. */
  lemma {:induction false} CounterIsExact(cfg: Config, times: seq<int>, now: int)
    requires WholeWindow(cfg) && Sorted(times + [now])
    ensures Exact(cfg, times, now)
  {
    if times != [] {
      var before, last := times[..|times| - 1], times[|times| - 1];
      assert times == before + [last];
      SortedParts(before, last, now);
      CounterIsExact(cfg, before, last);
      CounterIsExact(cfg, before, now);
      HitIsExact(cfg, before, last, now);
    }
  }

  /** What a request at `now` is answered after those at `before`. */
  predicate Admits(cfg: Config, before: seq<int>, now: int)
    requires cfg.window > 0
  {
    LiveCount(HitAll(cfg, before), KeyOf(cfg, now), now) < cfg.limit
  }

  /** The requests answered with "allowed" in the aligned window that starts at `start`. */
  function AllowedIn(cfg: Config, times: seq<int>, start: int): nat
    requires cfg.window > 0
  {
    if times == [] then 0
    else
      var before, last := times[..|times| - 1], times[|times| - 1];
      AllowedIn(cfg, before, start)
      + if WindowStart(cfg, last) == start && Admits(cfg, before, last) then 1 else 0
  }

  lemma SortedFront(times: seq<int>)
    requires Sorted(times) && times != []
    ensures Sorted(times[..|times| - 1]) && Sorted(times[..|times| - 1] + [times[|times| - 1]])
  {
    assert times[..|times| - 1] + [times[|times| - 1]] == times;
  }

  function FirstOf(cfg: Config, n: nat): nat {
    if n < Max(cfg.limit, 0) then n else Max(cfg.limit, 0)
  }

  /** Each aligned window admits its first `limit` requests and no others. */
  lemma {:induction false} WindowBound(cfg: Config, times: seq<int>, start: int)
    requires WholeWindow(cfg) && Sorted(times)
    ensures AllowedIn(cfg, times, start) == FirstOf(cfg, CountIn(cfg, times, start))
  {
    if times != [] {
      SortedFront(times);
      WindowBound(cfg, times[..|times| - 1], start);
      CounterIsExact(cfg, times[..|times| - 1], times[|times| - 1]);
    }
  }

  /** `n` requests at time 0. */
  function Burst(n: nat): seq<int> {
    seq(n, _ => 0)
  }

  lemma {:induction false} BurstCounts(cfg: Config, n: nat, start: int)
    requires cfg.window > 0 && KeyTtl(cfg.window) > 0
    ensures HitAll(cfg, Burst(n)) == if n == 0 then map[] else map[0 := Counter(n, KeyTtl(cfg.window))]
    ensures CountIn(cfg, Burst(n), start) == if start == 0 then n else 0
    ensures AllowedIn(cfg, Burst(n), start) == if start == 0 then FirstOf(cfg, n) else 0
  {
    if n > 0 {
      BurstCounts(cfg, n - 1, start);
      assert Burst(n)[..n - 1] == Burst(n - 1);
    }
  }

  /**
   A window that is not of whole seconds miscounts once `limit` requests came at time 0: if it is shorter than a
   second, the next window shares the key and refuses its first request; if longer, the key is gone before the
   window is over and one request too many is admitted.
   */
  lemma FractionMiscounts(cfg: Config) returns (times: seq<int>, start: int)
    requires cfg.window > 0 && cfg.window % SECOND != 0 && cfg.limit >= 1
    ensures Sorted(times) && AllowedIn(cfg, times, start) != FirstOf(cfg, CountIn(cfg, times, start))
  {
    var last := if cfg.window < SECOND then cfg.window else KeyTtl(cfg.window);
    start := if cfg.window < SECOND then cfg.window else 0;
    times := Burst(cfg.limit) + [last];
    assert times[..|times| - 1] == Burst(cfg.limit);
    BurstCounts(cfg, cfg.limit, start);
    LastWindow(cfg, last, start);
  }

  lemma LastWindow(cfg: Config, last: int, start: int)
    requires cfg.window > 0
    requires start == cfg.window == last < SECOND || (start == 0 <= last < cfg.window)
    ensures WindowStart(cfg, last) == start && KeyOf(cfg, last) == 0
  {
  }

  /** Aligned windows admit their first `limit` requests on every run exactly when windows are of whole seconds. */
  lemma FixedWindowIsExact(cfg: Config)
    requires cfg.window > 0
    ensures cfg.limit <= 0 || cfg.window % SECOND == 0 <==>
            forall times, start :: Sorted(times) ==>
              AllowedIn(cfg, times, start) == FirstOf(cfg, CountIn(cfg, times, start))
  {
    if cfg.limit <= 0 {
      forall times, start ensures AllowedIn(cfg, times, start) == 0 {
        NothingAllowed(cfg, times, start);
      }
    } else if cfg.window % SECOND == 0 {
      forall times, start | Sorted(times)
        ensures AllowedIn(cfg, times, start) == FirstOf(cfg, CountIn(cfg, times, start))
      {
        WindowBound(cfg, times, start);
      }
    } else {
      var times, start := FractionMiscounts(cfg);
    }
  }

  lemma {:induction false} NothingAllowed(cfg: Config, times: seq<int>, start: int)
    requires cfg.window > 0 && cfg.limit <= 0
    ensures AllowedIn(cfg, times, start) == 0
  {
    if times != [] {
      NothingAllowed(cfg, times[..|times| - 1], start);
    }
  }

  /** The requests answered with "allowed" in the half-open span of one window's length from `a` on. */
  function AllowedFrom(cfg: Config, times: seq<int>, a: int): nat
    requires cfg.window > 0
  {
    if times == [] then 0
    else
      var before, last := times[..|times| - 1], times[|times| - 1];
      AllowedFrom(cfg, before, a)
      + if a <= last < a + cfg.window && Admits(cfg, before, last) then 1 else 0
  }

  /** A span that is itself an aligned window counts what that window counts. */
  lemma {:induction false} AlignedSpan(cfg: Config, times: seq<int>, start: int)
    requires cfg.window > 0 && WindowStart(cfg, start) == start
    ensures AllowedFrom(cfg, times, start) == AllowedIn(cfg, times, start)
  {
    if times != [] {
      var last := times[|times| - 1];
      AlignedSpan(cfg, times[..|times| - 1], start);
      WindowsAreAligned(cfg, last);
      if start <= last < start + cfg.window {
        TwoWindows(cfg, start, last);
      }
    }
  }

  /** A span of one window's length meets at most two aligned windows. */
  lemma TwoWindows(cfg: Config, a: int, t: int)
    requires cfg.window > 0 && a <= t < a + cfg.window
    ensures WindowStart(cfg, t) == WindowStart(cfg, a) || WindowStart(cfg, t) == WindowStart(cfg, a) + cfg.window
  {
    var w := cfg.window;
    var p, q := a / w, t / w;
    assert WindowStart(cfg, a) == p * w && WindowStart(cfg, t) == q * w;
    Apart(p, q, w);
    Apart(q, p, w);
    assert (p + 1) * w == p * w + w;
  }

  lemma Apart(p: int, q: int, w: int)
    requires w > 0
    ensures q >= p + 2 ==> q * w >= p * w + 2 * w
    ensures q >= p + 1 ==> q * w >= p * w + w
  {
    assert q * w - p * w == (q - p) * w;
    if q - p >= 1 {
      assert (q - p) * w == w + (q - p - 1) * w;
      if q - p >= 2 {
        assert (q - p - 1) * w == w + (q - p - 2) * w;
      }
    }
  }

  lemma {:induction false} SpanSplits(cfg: Config, times: seq<int>, a: int)
    requires cfg.window > 0
    ensures AllowedFrom(cfg, times, a)
         <= AllowedIn(cfg, times, WindowStart(cfg, a)) + AllowedIn(cfg, times, WindowStart(cfg, a) + cfg.window)
  {
    if times != [] {
      var last := times[|times| - 1];
      SpanSplits(cfg, times[..|times| - 1], a);
      if a <= last < a + cfg.window {
        TwoWindows(cfg, a, last);
      }
    }
  }

  /** At most `limit` requests pass in an aligned window, and at most twice that in any span as long as the window. */
  lemma FixedWindowBound(cfg: Config, times: seq<int>, start: int, a: int)
    requires WholeWindow(cfg) && Sorted(times)
    ensures AllowedIn(cfg, times, start) <= Max(cfg.limit, 0)
    ensures AllowedFrom(cfg, times, a) <= 2 * Max(cfg.limit, 0)
  {
    WindowBound(cfg, times, start);
    WindowBound(cfg, times, WindowStart(cfg, a));
    WindowBound(cfg, times, WindowStart(cfg, a) + cfg.window);
    SpanSplits(cfg, times, a);
  }
}
