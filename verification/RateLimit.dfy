// The token-bucket rate limiter, over the reals: a bound on every window, a
// Retry-After that is exact, and pruning that nobody can notice.
module RateLimit {
  /** Times are in seconds. */
  datatype Bucket = Bucket(tokens: real, lastRefill: real)

  type Buckets = map<string, Bucket>

  datatype Options = Options(capacity: real, rate: real)

  datatype Result = Result(allowed: bool, remaining: real, retryAfter: real)

  const PRUNE_INTERVAL: real := 300.0

  function Min(a: real, b: real): real { if b < a then b else a }

  /** Tokens refilled in `dt` seconds. */
  function Gain(dt: real, o: Options): real { dt * o.rate }

  /** A bucket's tokens at time `now`. */
  function Refilled(b: Bucket, now: real, o: Options): real {
    Min(o.capacity, b.tokens + Gain(now - b.lastRefill, o))
  }

  /** What `key` has to spend at `now`: an unknown key has a full bucket. */
  function Level(bs: Buckets, key: string, now: real, o: Options): real {
    if key in bs then Refilled(bs[key], now, o) else o.capacity
  }

  function Spend(level: real, o: Options): Result {
    if level >= 1.0 then Result(true, level - 1.0, 0.0)
    else Result(false, 0.0, if o.rate > 0.0 then (1.0 - level) / o.rate else 3600.0)
  }

  function AfterSpending(level: real): real {
    if level >= 1.0 then level - 1.0 else level
  }

  predicate Stale(b: Bucket, now: real, o: Options) {
    b.tokens + Gain(now - b.lastRefill, o) >= o.capacity
  }

  /** Every full bucket but `key`'s goes. */
  function Pruned(bs: Buckets, key: string, now: real, o: Options): Buckets {
    map k | k in bs && (k == key || !Stale(bs[k], now, o)) :: bs[k]
  }

  /** Taking one token, without pruning. */
  function Taken(bs: Buckets, key: string, now: real, o: Options): Buckets {
    bs[key := Bucket(AfterSpending(Level(bs, key, now, o)), now)]
  }

  class Store {
    var buckets: Buckets
    var lastPrune: real

    constructor (now: real)
      ensures buckets == map[] && lastPrune == now
    {
      buckets, lastPrune := map[], now;
    }

    method Take(key: string, now: real, o: Options) returns (r: Result)
      modifies this
      ensures r == Spend(Level(old(buckets), key, now, o), o)
      ensures var taken := Taken(old(buckets), key, now, o);
              if now - old(lastPrune) > PRUNE_INTERVAL
              then buckets == Pruned(taken, key, now, o) && lastPrune == now
              else buckets == taken && lastPrune == old(lastPrune)
    {
      var inserted := key !in buckets;
      if inserted {
        buckets := buckets[key := Bucket(o.capacity, now)];
      }
      var b := buckets[key];
      if !inserted {
        var elapsed := now - b.lastRefill;
        b := Bucket(Min(o.capacity, b.tokens + elapsed * o.rate), now);
      }
      if b.tokens >= 1.0 {
        b := b.(tokens := b.tokens - 1.0);
        r := Result(true, b.tokens, 0.0);
      } else {
        r := Result(false, 0.0, if o.rate > 0.0 then (1.0 - b.tokens) / o.rate else 3600.0);
      }
      buckets := buckets[key := b];
      assert buckets == Taken(old(buckets), key, now, o);
      if now - lastPrune > PRUNE_INTERVAL {
        Prune(key, now, o);
        lastPrune := now;
      }
    }

    /** Erases while walking the table. */
    method Prune(key: string, now: real, o: Options)
      modifies this`buckets
      ensures buckets == Pruned(old(buckets), key, now, o)
    {
      hide Stale;
      var todo := buckets.Keys;
      while todo != {}
        invariant todo <= buckets.Keys <= old(buckets).Keys
        invariant forall k | k in buckets :: buckets[k] == old(buckets)[k]
        invariant forall k | k in old(buckets) && k !in todo ::
                    k in buckets <==> (k == key || !Stale(old(buckets)[k], now, o))
        decreases todo
      {
        var k :| k in todo;
        if Stale(buckets[k], now, o) && k != key {
          buckets := buckets - {k};
        }
        todo := todo - {k};
      }
    }
  }

  // ---------------------------------------------------------------------
  // Runs
  // ---------------------------------------------------------------------

  datatype Call = Call(key: string, time: real)

  datatype Limiter = Limiter(buckets: Buckets, lastPrune: real)

  /** One call, with pruning as the store does it or without any. */
  function Next(s: Limiter, c: Call, o: Options, pruning: bool): Limiter {
    var taken := Taken(s.buckets, c.key, c.time, o);
    if pruning && c.time - s.lastPrune > PRUNE_INTERVAL
    then Limiter(Pruned(taken, c.key, c.time, o), c.time)
    else s.(buckets := taken)
  }

  function ResultOf(s: Limiter, c: Call, o: Options): Result {
    Spend(Level(s.buckets, c.key, c.time, o), o)
  }

  function Results(s: Limiter, cs: seq<Call>, o: Options, pruning: bool): (rs: seq<Result>)
    ensures |rs| == |cs|
    decreases cs
  {
    if cs == [] then []
    else [ResultOf(s, cs[0], o)] + Results(Next(s, cs[0], o, pruning), cs[1..], o, pruning)
  }

  /** Time does not run backwards. */
  predicate InOrder(cs: seq<Call>, from: real) {
    (forall i | 0 <= i < |cs| :: from <= cs[i].time)
    && forall i, j | 0 <= i < j < |cs| :: cs[i].time <= cs[j].time
  }

  predicate Sensible(o: Options) { o.capacity >= 0.0 && o.rate >= 0.0 }

  /** Buckets hold between nothing and the capacity, and were filled in the past. */
  predicate Sound(bs: Buckets, now: real, o: Options) {
    forall k | k in bs :: 0.0 <= bs[k].tokens <= o.capacity && bs[k].lastRefill <= now
  }

  lemma GainSplits(a: real, b: real, o: Options)
    requires o.rate >= 0.0
    ensures Gain(a + b, o) == Gain(a, o) + Gain(b, o)
    ensures a >= 0.0 ==> Gain(a, o) >= 0.0
    ensures b >= 0.0 ==> Gain(b, o) >= 0.0
    ensures Gain(0.0, o) == 0.0
  {
  }

  /** From `a` to `c` by way of `b`. */
  lemma GainBetween(a: real, b: real, c: real, o: Options)
    requires o.rate >= 0.0
    ensures Gain(c - a, o) == Gain(b - a, o) + Gain(c - b, o)
    ensures a <= b ==> Gain(b - a, o) >= 0.0
    ensures b <= c ==> Gain(c - b, o) >= 0.0
    ensures Gain(0.0, o) == 0.0
  {
    hide Gain;
    GainSplits(b - a, c - b, o);
    assert (b - a) + (c - b) == c - a;
  }

  /** Between calls a key gains at most the rate times the time. */
  lemma LevelGrows(bs: Buckets, key: string, t: real, now: real, o: Options)
    requires Sensible(o) && Sound(bs, t, o) && t <= now
    ensures Level(bs, key, t, o) <= Level(bs, key, now, o) <= Level(bs, key, t, o) + Gain(now - t, o)
    ensures 0.0 <= Level(bs, key, now, o) <= o.capacity
  {
    hide Gain;
    GainBetween(t, now, now, o);
    if key in bs {
      GainBetween(bs[key].lastRefill, t, now, o);
    }
  }

  lemma NextSound(s: Limiter, c: Call, o: Options, pruning: bool, t: real)
    requires Sensible(o) && Sound(s.buckets, t, o) && t <= c.time
    ensures Sound(Next(s, c, o, pruning).buckets, c.time, o)
  {
    LevelGrows(s.buckets, c.key, t, c.time, o);
  }

  /** Pruning changes no key's level. */
  lemma PruningKeepsLevels(bs: Buckets, key: string, k: string, now: real, o: Options)
    ensures Level(Pruned(bs, key, now, o), k, now, o) == Level(bs, k, now, o)
  {
  }

  lemma LevelAfter(s: Limiter, c: Call, k: string, o: Options, pruning: bool, t: real)
    requires Sensible(o) && Sound(s.buckets, t, o) && t <= c.time
    ensures Level(Next(s, c, o, pruning).buckets, k, c.time, o) ==
            if k == c.key then AfterSpending(Level(s.buckets, k, c.time, o)) else Level(s.buckets, k, c.time, o)
  {
    hide Gain;
    LevelGrows(s.buckets, c.key, t, c.time, o);
    LevelGrows(s.buckets, k, t, c.time, o);
    GainBetween(c.time, c.time, c.time, o);
    assert c.time - c.time == 0.0;
    var taken := Taken(s.buckets, c.key, c.time, o);
    PruningKeepsLevels(taken, c.key, k, c.time, o);
  }

  // ---------------------------------------------------------------------
  // The window bound
  // ---------------------------------------------------------------------

  /** How many calls for `key` in [t1, t2] were admitted. */
  function Admitted(cs: seq<Call>, rs: seq<Result>, key: string, t1: real, t2: real): nat
    requires |cs| == |rs|
  {
    if cs == [] then 0
    else
      (if cs[0].key == key && t1 <= cs[0].time <= t2 && rs[0].allowed then 1 else 0)
      + Admitted(cs[1..], rs[1..], key, t1, t2)
  }

  /** What a key can still be granted up to `t2`, seen from time `t`. */
  function Budget(bs: Buckets, key: string, t: real, t1: real, t2: real, o: Options): real {
    if t > t2 then 0.0
    else if t1 <= t then Level(bs, key, t, o) + Gain(t2 - t, o)
    else o.capacity + Gain(t2 - t1, o)
  }

  lemma BudgetShrinks(bs: Buckets, key: string, t: real, now: real, t1: real, t2: real, o: Options)
    requires Sensible(o) && Sound(bs, t, o) && t <= now && t1 <= t2
    ensures Budget(bs, key, now, t1, t2, o) <= Budget(bs, key, t, t1, t2, o)
  {
    hide Gain, Level;
    LevelGrows(bs, key, t, now, o);
    LevelGrows(bs, key, t, t, o);
    GainBetween(t, now, t2, o);
    GainBetween(t1, now, t2, o);
    GainBetween(t1, t1, t2, o);
    GainBetween(t, t, t2, o);
  }

  lemma {:induction false} WithinBudget(s: Limiter, cs: seq<Call>, key: string, o: Options, pruning: bool, t: real, t1: real, t2: real)
    requires Sensible(o) && Sound(s.buckets, t, o) && InOrder(cs, t) && t1 <= t2
    ensures Admitted(cs, Results(s, cs, o, pruning), key, t1, t2) as real <= Budget(s.buckets, key, t, t1, t2, o)
    decreases cs
  {
    hide Gain, Level, Next, AfterSpending;
    LevelGrows(s.buckets, key, t, t, o);
    GainBetween(t, t1, t2, o);
    GainBetween(t, t, t2, o);
    if cs != [] {
      var c, now := cs[0], cs[0].time;
      BudgetShrinks(s.buckets, key, t, now, t1, t2, o);
      NextSound(s, c, o, pruning, t);
      LevelAfter(s, c, key, o, pruning, t);
      var s1 := Next(s, c, o, pruning);
      var rs := Results(s, cs, o, pruning);
      assert rs[1..] == Results(s1, cs[1..], o, pruning);
      WithinBudget(s1, cs[1..], key, o, pruning, now, t1, t2);
      OneCall(s.buckets, s1.buckets, c, key, o, t1, t2);
    }
  }

  /** An admitted call in the window is paid for out of the budget. */
  lemma OneCall(before: Buckets, after: Buckets, c: Call, key: string, o: Options, t1: real, t2: real)
    requires Level(after, key, c.time, o) ==
             if key == c.key then AfterSpending(Level(before, key, c.time, o)) else Level(before, key, c.time, o)
    ensures (if c.key == key && t1 <= c.time <= t2 && Spend(Level(before, c.key, c.time, o), o).allowed then 1.0 else 0.0)
            + Budget(after, key, c.time, t1, t2, o) <= Budget(before, key, c.time, t1, t2, o)
  {
    hide Level, Gain;
  }

  /**
   * In any window [t1, t2] of any run, the calls admitted for one key number at
   * most the capacity plus what is refilled in the window; pruned or not.
   */
  lemma WindowBound(start: real, cs: seq<Call>, key: string, o: Options, pruning: bool, t1: real, t2: real)
    requires Sensible(o) && InOrder(cs, start) && t1 <= t2
    ensures Admitted(cs, Results(Limiter(map[], start), cs, o, pruning), key, t1, t2) as real
            <= o.capacity + (t2 - t1) * o.rate
  {
    assert Gain(t2 - t1, o) == (t2 - t1) * o.rate;
    hide Results, Admitted, InOrder, Gain;
    WithinBudget(Limiter(map[], start), cs, key, o, pruning, start, t1, t2);
    GainBetween(t1, start, t2, o);
    GainBetween(t1, t1, t2, o);
  }

  // ---------------------------------------------------------------------
  // Pruning is invisible
  // ---------------------------------------------------------------------

  /** The pruned table `p` lacks only full buckets of `u`. */
  predicate Indistinguishable(p: Buckets, u: Buckets, t: real, o: Options) {
    && (forall k | k in p :: k in u && p[k] == u[k])
    && (forall k | k in u && k !in p :: Stale(u[k], t, o))
    && (forall k | k in u :: u[k].lastRefill <= t)
  }

  lemma StaleStaysStale(b: Bucket, t: real, now: real, o: Options)
    requires Stale(b, t, o) && t <= now && o.rate >= 0.0
    ensures Stale(b, now, o) && Refilled(b, now, o) == o.capacity
  {
    hide Gain;
    GainBetween(b.lastRefill, t, now, o);
  }

  lemma SameLevels(p: Buckets, u: Buckets, key: string, t: real, now: real, o: Options)
    requires Indistinguishable(p, u, t, o) && t <= now && o.rate >= 0.0
    ensures Level(p, key, now, o) == Level(u, key, now, o)
  {
    if key in u && key !in p {
      StaleStaysStale(u[key], t, now, o);
    }
  }

  lemma StillIndistinguishable(p: Limiter, u: Limiter, c: Call, o: Options, t: real)
    requires Indistinguishable(p.buckets, u.buckets, t, o) && t <= c.time && o.rate >= 0.0
    ensures Indistinguishable(Next(p, c, o, true).buckets, Next(u, c, o, false).buckets, c.time, o)
  {
    hide Level, Stale;
    SameLevels(p.buckets, u.buckets, c.key, t, c.time, o);
    var p1, u1 := Next(p, c, o, true).buckets, Next(u, c, o, false).buckets;
    forall k | k in u1 && k !in p1
      ensures Stale(u1[k], c.time, o)
    {
      if k !in p.buckets {
        StaleStaysStale(u.buckets[k], t, c.time, o);
      }
    }
  }

  lemma {:induction false} PruningInvisibleFrom(p: Limiter, u: Limiter, cs: seq<Call>, o: Options, t: real)
    requires Indistinguishable(p.buckets, u.buckets, t, o) && o.rate >= 0.0 && InOrder(cs, t)
    ensures Results(p, cs, o, true) == Results(u, cs, o, false)
    decreases cs
  {
    hide Level, Next, Indistinguishable;
    if cs != [] {
      SameLevels(p.buckets, u.buckets, cs[0].key, t, cs[0].time, o);
      StillIndistinguishable(p, u, cs[0], o, t);
      PruningInvisibleFrom(Next(p, cs[0], o, true), Next(u, cs[0], o, false), cs[1..], o, cs[0].time);
    }
  }

  /** Every caller gets the same answers whether full buckets are pruned or kept. */
  lemma PruningInvisible(start: real, cs: seq<Call>, o: Options)
    requires o.rate >= 0.0 && InOrder(cs, start)
    ensures Results(Limiter(map[], start), cs, o, true) == Results(Limiter(map[], start), cs, o, false)
  {
    PruningInvisibleFrom(Limiter(map[], start), Limiter(map[], start), cs, o, start);
  }

  // ---------------------------------------------------------------------
  // Retry-After
  // ---------------------------------------------------------------------

  function Ceiling(x: real): int { -((-x).Floor) }

  /** The header value: whole seconds, at least one. */
  function RetrySeconds(r: Result): int {
    var retry := Ceiling(r.retryAfter);
    if retry < 1 then 1 else retry
  }

  /** After a refusal, the next call for the key is admitted exactly when the announced time has passed. */
  lemma RetryIsExact(bs: Buckets, key: string, now: real, later: real, o: Options)
    requires o.rate > 0.0 && now <= later
    requires !Spend(Level(bs, key, now, o), o).allowed
    ensures var r := Spend(Level(bs, key, now, o), o);
            Spend(Level(Taken(bs, key, now, o), key, later, o), o).allowed <==>
            o.capacity >= 1.0 && later - now >= r.retryAfter
  {
    var level := Level(bs, key, now, o);
    var wait := (1.0 - level) / o.rate;
    assert wait * o.rate == 1.0 - level;
    WaitedEnough(later - now, wait, o.rate);
  }

  lemma WaitedEnough(a: real, b: real, r: real)
    requires r > 0.0
    ensures a >= b <==> a * r >= b * r
  {
    if a >= b {
      assert (a - b) * r >= 0.0;
    } else {
      assert (b - a) * r > 0.0;
    }
  }

  /** A client that waits the announced whole seconds is admitted. */
  lemma RetryHeaderSuffices(bs: Buckets, key: string, now: real, o: Options)
    requires o.rate > 0.0 && o.capacity >= 1.0
    requires !Spend(Level(bs, key, now, o), o).allowed
    ensures var seconds := RetrySeconds(Spend(Level(bs, key, now, o), o));
            seconds >= 1 && Spend(Level(Taken(bs, key, now, o), key, now + seconds as real, o), o).allowed
  {
    hide Level, Taken;
    var r := Spend(Level(bs, key, now, o), o);
    CeilingIsLeast(r.retryAfter);
    RetryIsExact(bs, key, now, now + RetrySeconds(r) as real, o);
  }

  /** Fewer whole seconds are not enough. */
  lemma RetryHeaderNecessary(bs: Buckets, key: string, now: real, n: nat, o: Options)
    requires o.rate > 0.0
    requires !Spend(Level(bs, key, now, o), o).allowed
    requires 1 <= n < RetrySeconds(Spend(Level(bs, key, now, o), o))
    ensures !Spend(Level(Taken(bs, key, now, o), key, now + n as real, o), o).allowed
  {
    hide Level, Taken;
    CeilingIsLeast(Spend(Level(bs, key, now, o), o).retryAfter);
    RetryIsExact(bs, key, now, now + n as real, o);
  }

  lemma CeilingIsLeast(x: real)
    ensures x <= Ceiling(x) as real < x + 1.0
  {
  }

  // ---------------------------------------------------------------------
  // Bursts
  // ---------------------------------------------------------------------

  /** The same call over and over. */
  function Burst(c: Call, n: nat): (cs: seq<Call>)
    ensures |cs| == n && forall i | 0 <= i < n :: cs[i] == c
  {
    seq(n, i requires 0 <= i < n => c)
  }

  /** The `i`-th answer of a burst (from zero), by the level it started at. */
  predicate BurstAnswer(r: Result, level: real, i: nat) {
    && (r.allowed <==> (i + 1) as real <= level)
    && r.remaining == if r.allowed then level - (i + 1) as real else 0.0
  }

  predicate BurstAnswers(rs: seq<Result>, level: real) {
    forall i | 0 <= i < |rs| :: BurstAnswer(rs[i], level, i)
  }

  lemma FirstOfBurst(level: real, o: Options)
    ensures BurstAnswer(Spend(level, o), level, 0)
  {
  }

  lemma NextOfBurst(r: Result, level: real, i: nat)
    requires BurstAnswer(r, AfterSpending(level), i)
    ensures BurstAnswer(r, level, i + 1)
  {
  }

  /**
   * Calls made at one moment are admitted as long as the level holds whole
   * tokens, and each answer says what is left: a client that is told so may
   * call that many times again, rounded down, and not once more.
   */
  lemma {:induction false} BurstExact(s: Limiter, c: Call, n: nat, o: Options, pruning: bool)
    requires Sensible(o) && Sound(s.buckets, c.time, o)
    ensures BurstAnswers(Results(s, Burst(c, n), o, pruning), Level(s.buckets, c.key, c.time, o))
    decreases n
  {
    hide Level, Next, Spend, AfterSpending, BurstAnswer, Sound;
    if n > 0 {
      var s1 := Next(s, c, o, pruning);
      var level := Level(s.buckets, c.key, c.time, o);
      NextSound(s, c, o, pruning, c.time);
      LevelAfter(s, c, c.key, o, pruning, c.time);
      BurstExact(s1, c, n - 1, o, pruning);
      assert Burst(c, n)[1..] == Burst(c, n - 1);
      var rs, rest := Results(s, Burst(c, n), o, pruning), Results(s1, Burst(c, n - 1), o, pruning);
      var level1 := Level(s1.buckets, c.key, c.time, o);
      assert rs == [ResultOf(s, c, o)] + rest;
      forall i | 0 <= i < n
        ensures BurstAnswer(rs[i], level, i)
      {
        if i == 0 {
          FirstOfBurst(level, o);
        } else {
          assert BurstAnswer(rest[i - 1], level1, i - 1);
          NextOfBurst(rest[i - 1], level, i - 1);
          assert rs[i] == rest[i - 1];
        }
      }
    }
  }

  /** A key nobody has used yet may burst as far as the capacity goes. */
  lemma FreshBurst(start: real, c: Call, n: nat, o: Options, pruning: bool)
    requires Sensible(o)
    ensures BurstAnswers(Results(Limiter(map[], start), Burst(c, n), o, pruning), o.capacity)
  {
    hide Results, BurstAnswers;
    BurstExact(Limiter(map[], start), c, n, o, pruning);
  }

  /** Without a refill a refusal is for good, and is announced as an hour. */
  lemma NeverRefilled(bs: Buckets, key: string, now: real, later: real, o: Options)
    requires o.rate == 0.0 && !Spend(Level(bs, key, now, o), o).allowed
    ensures Spend(Level(bs, key, now, o), o).retryAfter == 3600.0
    ensures !Spend(Level(Taken(bs, key, now, o), key, later, o), o).allowed
  {
  }
}
