/**
 The fixed-window rate limiter: each request sends INCR and PEXPIRE NX for its key in
 one pipeline, and is served when the counter it got back is at most Max.  Redis runs
 a pipeline's commands in order but may run other clients' commands in between.
 Times are milliseconds of the Redis clock.
 */
module RateLimit {
  import opened Wrappers

  datatype Config = Config(max: int, window: int)

  /** The middleware refuses to start with any other settings. */
  predicate Normalized(cfg: Config) {
    cfg.max >= 1 && cfg.window >= 1
  }

  datatype Counter = Counter(count: nat, expireAt: Option<int>)

  /** A counter is gone once the clock has passed its expiry. */
  function Visible(c: Option<Counter>, now: int): Option<Counter> {
    if c.Some? && c.value.expireAt.Some? && c.value.expireAt.value < now then None else c
  }

  function Incr(c: Option<Counter>, now: int): Counter {
    match Visible(c, now)
    case None => Counter(1, None)
    case Some(k) => k.(count := k.count + 1)
  }

  function PExpireNx(c: Option<Counter>, now: int, window: int): Option<Counter> {
    match Visible(c, now)
    case None => None
    case Some(k) => Some(if k.expireAt.None? then k.(expireAt := Some(now + window)) else k)
  }

  class Limiter {
    const cfg: Config
    var counters: map<string, Counter>

    constructor (cfg: Config)
      requires Normalized(cfg)
      ensures this.cfg == cfg && counters == map[]
    {
      this.cfg := cfg;
      counters := map[];
    }

    function Stored(key: string): Option<Counter>
      reads this
    {
      if key in counters then Some(counters[key]) else None
    }

    method DoIncr(key: string, now: int) returns (count: int)
      modifies this
      ensures counters == old(counters)[key := Incr(old(Stored(key)), now)]
      ensures count == Incr(old(Stored(key)), now).count
    {
      var stored := Visible(Stored(key), now);
      var counter := if stored.Some? then stored.value else Counter(0, None);
      counters := counters[key := counter.(count := counter.count + 1)];
      count := counter.count + 1;
    }

    method DoPExpireNx(key: string, now: int)
      modifies this
      ensures Stored(key) == PExpireNx(old(Stored(key)), now, cfg.window)
      ensures counters - {key} == old(counters) - {key}
    {
      var stored := Visible(Stored(key), now);
      if stored.None? {
        counters := counters - {key};
      } else if stored.value.expireAt.None? {
        counters := counters[key := stored.value.(expireAt := Some(now + cfg.window))];
      }
    }

    /** One request whose two commands Redis happens to run back to back. */
    method Admit(key: string, now: int) returns (served: bool)
      modifies this
      ensures served == (Incr(old(Stored(key)), now).count <= cfg.max)
      ensures Stored(key) == Pipeline(old(Stored(key)), now, cfg.window)
      ensures counters - {key} == old(counters) - {key}
    {
      var count := DoIncr(key, now);
      DoPExpireNx(key, now);
      served := count <= cfg.max;
    }
  }

  function Pipeline(c: Option<Counter>, now: int, window: int): Option<Counter> {
    PExpireNx(Some(Incr(c, now)), now, window)
  }

  // ---- interleaved commands on one key ----

  datatype Command = IncrCmd(request: nat, at: int) | ExpireCmd(request: nat, at: int)

  predicate Ordered(from: int, cs: seq<Command>)
    decreases cs
  {
    cs == [] || (from <= cs[0].at && Ordered(cs[0].at, cs[1..]))
  }

  function Apply(c: Option<Counter>, cmd: Command, window: int): Option<Counter> {
    match cmd
    case IncrCmd(_, at) => Some(Incr(c, at))
    case ExpireCmd(_, at) => PExpireNx(c, at, window)
  }

  predicate Serves(c: Option<Counter>, cmd: Command, cfg: Config) {
    cmd.IncrCmd? && Incr(c, cmd.at).count <= cfg.max
  }

  /** How many requests are served at or after `from` and before `from + window`. */
  function ServedWithin(c: Option<Counter>, cs: seq<Command>, cfg: Config, from: int): nat
    decreases cs
  {
    if cs == [] then 0
    else
      (if Serves(c, cs[0], cfg) && from <= cs[0].at < from + cfg.window then 1 else 0)
      + ServedWithin(Apply(c, cs[0], cfg.window), cs[1..], cfg, from)
  }

  lemma {:induction false} NoneServedAfter(c: Option<Counter>, cs: seq<Command>, cfg: Config, from: int, clock: int)
    requires Ordered(clock, cs) && from + cfg.window <= clock
    ensures ServedWithin(c, cs, cfg, from) == 0
    decreases cs
  {
    if cs != [] {
      NoneServedAfter(Apply(c, cs[0], cfg.window), cs[1..], cfg, from, cs[0].at);
    }
  }

  /**
   Where a run stands: the current counter was created at `born`, its lifetime has
   served `current` requests inside the interval and earlier lifetimes `previous`.
   */
  datatype Tally = Tally(born: int, previous: nat, current: nat)

  ghost predicate Fits(c: Option<Counter>, t: Tally, cfg: Config, from: int, clock: int) {
    && t.current <= cfg.max && t.previous <= cfg.max - 1
    && (t.previous + t.current > 0 ==> from <= clock)
    && (c.None? ==> t.previous == 0 && t.current <= cfg.max - 1)
    && (c.Some? ==>
          && t.born <= clock
          && (c.value.expireAt.Some? ==> t.born + cfg.window <= c.value.expireAt.value)
          && (t.previous > 0 ==> from <= t.born)
          && (if t.born < from then t.current + 1 <= c.value.count && t.current + 1 <= cfg.max
              else t.current <= c.value.count))
  }

  lemma {:induction false} ServedFits(c: Option<Counter>, t: Tally, cs: seq<Command>, cfg: Config, from: int, clock: int)
    requires Normalized(cfg) && Ordered(clock, cs) && Fits(c, t, cfg, from, clock)
    ensures t.previous + t.current + ServedWithin(c, cs, cfg, from) <= 2 * cfg.max - 1
    decreases cs
  {
    if cs != [] {
      var cmd := cs[0];
      if from + cfg.window <= cmd.at {
        NoneServedAfter(c, cs, cfg, from, cmd.at);
      } else {
        var hit := if Serves(c, cmd, cfg) && from <= cmd.at then 1 else 0;
        // a counter that expired before the interval's end was created before the interval
        var next :=
          if cmd.ExpireCmd? || Visible(c, cmd.at).Some? then t.(current := t.current + hit)
          else Tally(cmd.at, t.current, hit);
        ServedFits(Apply(c, cmd, cfg.window), next, cs[1..], cfg, from, cmd.at);
      }
    }
  }

  /** A window of one millisecond leaves no time for a second counter. */
  function MostInAWindow(cfg: Config): int {
    if cfg.window == 1 then cfg.max else 2 * cfg.max - 1
  }

  /** However the commands of all requests interleave, no interval of one window serves more. */
  lemma WindowBound(cs: seq<Command>, cfg: Config, from: int, clock: int)
    requires Normalized(cfg) && Ordered(clock, cs)
    ensures ServedWithin(None, cs, cfg, from) <= MostInAWindow(cfg)
  {
    if cfg.window == 1 {
      OneMillisecond(None, 0, cs, cfg, from, clock);
    } else {
      ServedFits(None, Tally(0, 0, 0), cs, cfg, from, clock);
    }
  }

  /** How many requests are served until the counter first expires. */
  function ServedInLifetime(c: Option<Counter>, cs: seq<Command>, cfg: Config): nat
    decreases cs
  {
    if cs == [] || (c.Some? && Visible(c, cs[0].at).None?) then 0
    else (if Serves(c, cs[0], cfg) then 1 else 0) + ServedInLifetime(Apply(c, cs[0], cfg.window), cs[1..], cfg)
  }

  lemma {:induction false} LifetimeBound(c: Option<Counter>, cs: seq<Command>, cfg: Config)
    requires Normalized(cfg)
    ensures ServedInLifetime(c, cs, cfg)
            <= if c.None? then cfg.max else if c.value.count <= cfg.max then cfg.max - c.value.count else 0
    decreases cs
  {
    if cs != [] {
      LifetimeBound(Apply(c, cs[0], cfg.window), cs[1..], cfg);
    }
  }

  // ---- every counter gets an expiry ----

  /** The requests that have sent their INCR and not yet their PEXPIRE. */
  function Unfinished(pending: set<nat>, cs: seq<Command>): set<nat>
    decreases cs
  {
    if cs == [] then pending
    else Unfinished(if cs[0].IncrCmd? then pending + {cs[0].request} else pending - {cs[0].request}, cs[1..])
  }

  function Final(c: Option<Counter>, cs: seq<Command>, window: int): Option<Counter>
    decreases cs
  {
    if cs == [] then c else Final(Apply(c, cs[0], window), cs[1..], window)
  }

  lemma {:induction false} CreatorIsPending(c: Option<Counter>, pending: set<nat>, cs: seq<Command>, window: int)
    requires c.Some? && c.value.expireAt.None? ==> pending != {}
    ensures Final(c, cs, window).Some? && Final(c, cs, window).value.expireAt.None? ==> Unfinished(pending, cs) != {}
    decreases cs
  {
    if cs != [] {
      var next := if cs[0].IncrCmd? then pending + {cs[0].request} else pending - {cs[0].request};
      assert cs[0].IncrCmd? ==> cs[0].request in next;
      CreatorIsPending(Apply(c, cs[0], window), next, cs[1..], window);
    }
  }

  /** Once every pipeline has run both its commands, no counter is left that would never expire. */
  lemma EveryCounterExpires(cs: seq<Command>, window: int)
    requires Unfinished({}, cs) == {}
    ensures var c := Final(None, cs, window); c.Some? ==> c.value.expireAt.Some?
  {
    CreatorIsPending(None, {}, cs, window);
  }

  // ---- the bound is reached ----

  function Requests(n: nat, at: int): seq<Command> {
    if n == 0 then [] else [IncrCmd(n, at), ExpireCmd(n, at)] + Requests(n - 1, at)
  }

  lemma {:induction false} RequestsServed(c: Option<Counter>, n: nat, at: int, rest: seq<Command>, cfg: Config, from: int)
    requires Normalized(cfg) && from <= at < from + cfg.window
    requires n > 0 && c == Visible(c, at) && (c.Some? ==> c.value.expireAt.Some?)
    requires (if c.Some? then c.value.count else 0) + n <= cfg.max
    ensures var after := Some(Counter((if c.Some? then c.value.count else 0) + n,
                                      if c.Some? then c.value.expireAt else Some(at + cfg.window)));
            ServedWithin(c, Requests(n, at) + rest, cfg, from) == n + ServedWithin(after, rest, cfg, from)
    decreases n
  {
    var cs := Requests(n, at) + rest;
    var left := Requests(n - 1, at) + rest;
    assert cs[0] == IncrCmd(n, at) && cs[1..][0] == ExpireCmd(n, at) && cs[1..][1..] == left;
    var next := Pipeline(c, at, cfg.window);
    if n == 1 {
      assert left == rest;
    } else {
      RequestsServed(next, n - 1, at, rest, cfg, from);
    }
  }

  function Busy(cfg: Config): seq<Command>
    requires Normalized(cfg)
  {
    Requests(1, 0) + (Requests(cfg.max - 1, 2) + Requests(cfg.max, cfg.window + 1))
  }

  lemma {:induction false} RequestsOrdered(clock: int, n: nat, at: int, rest: seq<Command>)
    requires clock <= at && Ordered(at, rest)
    ensures Ordered(clock, Requests(n, at) + rest)
    decreases n
  {
    var cs := Requests(n, at) + rest;
    if n == 0 {
      assert cs == rest;
      OrderedEarlier(clock, at, rest);
    } else {
      assert cs[1..][1..] == Requests(n - 1, at) + rest;
      RequestsOrdered(at, n - 1, at, rest);
    }
  }

  lemma OrderedEarlier(clock: int, later: int, cs: seq<Command>)
    requires clock <= later && Ordered(later, cs)
    ensures Ordered(clock, cs)
  {
  }

  lemma BusyServesTheMost(cfg: Config)
    requires Normalized(cfg) && cfg.window >= 2
    ensures Ordered(0, Busy(cfg)) && ServedWithin(None, Busy(cfg), cfg, 2) == 2 * cfg.max - 1
  {
    var late := Requests(cfg.max, cfg.window + 1);
    var mid := Requests(cfg.max - 1, 2) + late;
    assert late + [] == late;
    RequestsOrdered(2, cfg.max, cfg.window + 1, []);
    RequestsOrdered(0, cfg.max - 1, 2, late);
    RequestsOrdered(0, 1, 0, mid);
    var first := Some(Counter(1, Some(cfg.window)));
    assert Requests(1, 0) == [IncrCmd(1, 0), ExpireCmd(1, 0)];
    assert Busy(cfg)[1..][1..] == mid;
    assert Pipeline(None, 0, cfg.window) == first;
    assert ServedWithin(None, Busy(cfg), cfg, 2) == ServedWithin(first, mid, cfg, 2);
    var full := Some(Counter(cfg.max, Some(cfg.window)));
    if cfg.max > 1 {
      RequestsServed(first, cfg.max - 1, 2, late, cfg, 2);
    } else {
      assert mid == late;
    }
    ExpiredIsGone(full, late, cfg, 2);
    RequestsServed(None, cfg.max, cfg.window + 1, [], cfg, 2);
  }

  /** Within a single millisecond no counter expires, so one counter serves it alone. */
  lemma {:induction false} OneMillisecond(c: Option<Counter>, hits: nat, cs: seq<Command>, cfg: Config, from: int, clock: int)
    requires Normalized(cfg) && cfg.window == 1 && Ordered(clock, cs) && hits <= cfg.max
    requires hits > 0 ==> from <= clock && c.Some? && hits <= c.value.count
                          && (c.value.expireAt.Some? ==> from <= c.value.expireAt.value)
    ensures hits + ServedWithin(c, cs, cfg, from) <= cfg.max
    decreases cs
  {
    if cs != [] {
      var cmd := cs[0];
      if from + cfg.window <= cmd.at {
        NoneServedAfter(c, cs, cfg, from, cmd.at);
      } else {
        var hit := if Serves(c, cmd, cfg) && from <= cmd.at then 1 else 0;
        OneMillisecond(Apply(c, cmd, cfg.window), hits + hit, cs[1..], cfg, from, cmd.at);
      }
    }
  }

  ghost predicate ServesInAWindow(cs: seq<Command>, cfg: Config, from: int, clock: int, n: int) {
    Ordered(clock, cs) && ServedWithin(None, cs, cfg, from) == n
  }

  /** For every setting some stream serves that many within one window, so the bound cannot be lowered. */
  lemma BoundIsSharp(cfg: Config)
    requires Normalized(cfg)
    ensures exists cs, from, clock :: ServesInAWindow(cs, cfg, from, clock, MostInAWindow(cfg))
  {
    if cfg.window == 1 {
      var cs := Requests(cfg.max, 0);
      assert cs + [] == cs;
      RequestsOrdered(0, cfg.max, 0, []);
      RequestsServed(None, cfg.max, 0, [], cfg, 0);
      assert ServesInAWindow(cs, cfg, 0, 0, MostInAWindow(cfg));
    } else {
      BusyServesTheMost(cfg);
      assert ServesInAWindow(Busy(cfg), cfg, 2, 0, MostInAWindow(cfg));
    }
  }

  /** Some stream gets more than Max served in one window exactly when Max and the window are both at least two. */
  lemma MoreThanMaxIff(cfg: Config)
    requires Normalized(cfg)
    ensures (exists cs, from, clock, n :: ServesInAWindow(cs, cfg, from, clock, n) && n > cfg.max)
            <==> cfg.max >= 2 && cfg.window >= 2
  {
    forall cs, from, clock, n | ServesInAWindow(cs, cfg, from, clock, n)
      ensures n <= MostInAWindow(cfg)
    {
      WindowBound(cs, cfg, from, clock);
    }
    BoundIsSharp(cfg);
  }

  lemma ExpiredIsGone(c: Option<Counter>, cs: seq<Command>, cfg: Config, from: int)
    requires cs != [] && Visible(c, cs[0].at).None?
    ensures ServedWithin(c, cs, cfg, from) == ServedWithin(None, cs, cfg, from)
  {
  }

  // ---- whole pipelines, one after the other ----

  predicate NonDecreasing(times: seq<int>) {
    forall i, j :: 0 <= i <= j < |times| ==> times[i] <= times[j]
  }

  /** The counter after the first `n` requests. */
  function After(times: seq<int>, n: nat, window: int): Option<Counter>
    requires n <= |times|
  {
    if n == 0 then None else Pipeline(After(times, n - 1, window), times[n - 1], window)
  }

  predicate Served(times: seq<int>, n: nat, cfg: Config)
    requires n < |times|
  {
    Incr(After(times, n, cfg.window), times[n]).count <= cfg.max
  }

  /** The request whose INCR created the counter that request `n` increments. */
  function Opener(times: seq<int>, n: nat, window: int): (s: nat)
    requires n < |times|
    ensures s <= n
  {
    if n == 0 || Visible(After(times, n, window), times[n]).None? then n else Opener(times, n - 1, window)
  }

  /** A counter counts the requests since its opener, rejected ones too, and expires one window after it. */
  lemma {:induction false} OpenerCounts(times: seq<int>, n: nat, window: int)
    requires NonDecreasing(times) && n < |times| && window >= 1
    ensures var s := Opener(times, n, window);
            && s <= n && times[s] <= times[n] <= times[s] + window
            && Incr(After(times, n, window), times[n]).count == n - s + 1
            && After(times, n + 1, window) == Some(Counter(n - s + 1, Some(times[s] + window)))
    ensures forall k :: Opener(times, n, window) <= k <= n ==> Opener(times, k, window) == Opener(times, n, window)
  {
    if n > 0 {
      OpenerCounts(times, n - 1, window);
    }
  }

  lemma ServedByRank(times: seq<int>, n: nat, k: nat, cfg: Config)
    requires Normalized(cfg) && NonDecreasing(times) && n < |times| && Opener(times, n, cfg.window) <= k <= n
    ensures Served(times, k, cfg) <==> k < Opener(times, n, cfg.window) + cfg.max
  {
    OpenerCounts(times, n, cfg.window);
    OpenerCounts(times, k, cfg.window);
  }

  function CountServed(times: seq<int>, lo: nat, hi: nat, cfg: Config): nat
    requires lo <= hi <= |times|
    decreases hi - lo
  {
    if lo == hi then 0 else (if Served(times, lo, cfg) then 1 else 0) + CountServed(times, lo + 1, hi, cfg)
  }

  lemma {:induction false} CountSplits(times: seq<int>, lo: nat, mid: nat, hi: nat, cfg: Config)
    requires lo <= mid <= hi <= |times|
    ensures CountServed(times, lo, hi, cfg) == CountServed(times, lo, mid, cfg) + CountServed(times, mid, hi, cfg)
    decreases mid - lo
  {
    if lo < mid {
      CountSplits(times, lo + 1, mid, hi, cfg);
    }
  }

  lemma {:induction false} CountOfRun(times: seq<int>, lo: nat, hi: nat, served: bool, cfg: Config)
    requires lo <= hi <= |times| && forall k :: lo <= k < hi ==> Served(times, k, cfg) == served
    ensures CountServed(times, lo, hi, cfg) == if served then hi - lo else 0
    decreases hi - lo
  {
    if lo < hi {
      CountOfRun(times, lo + 1, hi, served, cfg);
    }
  }

  /**
   A request is rejected only after exactly Max requests were served since its window
   opened, at most one window ago; the opener and the Max - 1 requests after it.
   */
  lemma RejectionJustified(times: seq<int>, n: nat, cfg: Config)
    requires Normalized(cfg) && NonDecreasing(times) && n < |times| && !Served(times, n, cfg)
    ensures var s := Opener(times, n, cfg.window);
            && times[n] - cfg.window <= times[s] <= times[n]
            && s + cfg.max <= n
            && (forall k :: s <= k <= n ==> (Served(times, k, cfg) <==> k < s + cfg.max))
            && CountServed(times, s, n, cfg) == cfg.max
  {
    var s := Opener(times, n, cfg.window);
    OpenerCounts(times, n, cfg.window);
    forall k | s <= k <= n
      ensures Served(times, k, cfg) <==> k < s + cfg.max
    {
      ServedByRank(times, n, k, cfg);
    }
    CountSplits(times, s, s + cfg.max, n, cfg);
    CountOfRun(times, s, s + cfg.max, true, cfg);
    CountOfRun(times, s + cfg.max, n, false, cfg);
  }

  lemma {:induction false} NoneServed(times: seq<int>, lo: nat, hi: nat, cfg: Config)
    requires lo <= hi <= |times|
    ensures CountServed(times, lo, hi, cfg) == 0 <==> forall k :: lo <= k < hi ==> !Served(times, k, cfg)
    decreases hi - lo
  {
    if lo < hi {
      NoneServed(times, lo + 1, hi, cfg);
    }
  }

  /** The last request that was served before request `s` opened a new counter. */
  function LastServedBefore(times: seq<int>, s: nat, cfg: Config): int
    requires 0 < s < |times|
  {
    var p := Opener(times, s - 1, cfg.window);
    if p + cfg.max < s then p + cfg.max - 1 else s - 1
  }

  lemma LastServed(times: seq<int>, s: nat, cfg: Config)
    requires Normalized(cfg) && NonDecreasing(times) && 0 < s < |times|
    ensures var last := LastServedBefore(times, s, cfg);
            && 0 <= last < s && Served(times, last, cfg)
            && forall k :: last < k < s ==> !Served(times, k, cfg)
  {
    var last := LastServedBefore(times, s, cfg);
    forall k | last <= k < s
      ensures Served(times, k, cfg) <==> k == last
    {
      ServedByRank(times, s - 1, k, cfg);
    }
  }

  /**
   Counted over the whole window before the rejection, from request `lo` on, Max is only
   a lower bound: it is exact if and only if there was no earlier counter, or the last
   request that one served came before that window.
   */
  lemma PrecedingWindow(times: seq<int>, n: nat, lo: nat, cfg: Config)
    requires Normalized(cfg) && NonDecreasing(times) && n < |times| && !Served(times, n, cfg)
    requires lo <= n && forall k :: 0 <= k <= n ==> (lo <= k <==> times[n] - cfg.window <= times[k])
    ensures var s := Opener(times, n, cfg.window);
            && lo <= s && CountServed(times, lo, n, cfg) >= cfg.max
            && (CountServed(times, lo, n, cfg) == cfg.max <==>
                s == 0 || times[LastServedBefore(times, s, cfg)] < times[n] - cfg.window)
  {
    RejectionJustified(times, n, cfg);
    var s := Opener(times, n, cfg.window);
    CountSplits(times, lo, s, n, cfg);
    NoneServed(times, lo, s, cfg);
    if s > 0 {
      LastServed(times, s, cfg);
    }
  }

  /** Max 2, window 2: the rejection at 3 is preceded by three served requests since 1. */
  lemma {:induction false} MoreThanMaxBeforeARejection()
    ensures var times, cfg := [0, 2, 3, 3, 3], Config(2, 2);
            && !Served(times, 4, cfg) && times[4] - cfg.window <= times[1] && CountServed(times, 1, 4, cfg) == 3
  {
    var times := [0, 2, 3, 3, 3];
    assert After(times, 1, 2) == Some(Counter(1, Some(2)));
    assert After(times, 2, 2) == Some(Counter(2, Some(2)));
    assert After(times, 3, 2) == Some(Counter(1, Some(5)));
    assert After(times, 4, 2) == Some(Counter(2, Some(5)));
    assert CountServed(times, 4, 4, Config(2, 2)) == 0;
    assert CountServed(times, 3, 4, Config(2, 2)) == 1;
  }

  /** Requests turned away do not prolong the window: the first one after it is served. */
  lemma ServedOnceTheWindowEnds(times: seq<int>, n: nat, m: nat, cfg: Config)
    requires Normalized(cfg) && NonDecreasing(times) && n < m < |times| && !Served(times, n, cfg)
    requires times[m - 1] <= times[Opener(times, n, cfg.window)] + cfg.window < times[m]
    ensures Served(times, m, cfg)
  {
    OpenerPersists(times, n, m - 1, cfg.window);
    OpenerCounts(times, m - 1, cfg.window);
  }

  lemma {:induction false} OpenerPersists(times: seq<int>, n: nat, m: nat, window: int)
    requires NonDecreasing(times) && n <= m < |times| && window >= 1
    requires times[m] <= times[Opener(times, n, window)] + window
    ensures Opener(times, m, window) == Opener(times, n, window)
  {
    if n < m {
      OpenerPersists(times, n, m - 1, window);
      OpenerCounts(times, m - 1, window);
    }
  }
}
