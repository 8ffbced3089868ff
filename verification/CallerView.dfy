/** What a client of either limiter sees: how many calls of a burst are handled, and how many after a pause. */
module CallerView {
  import opened Options
  import opened TokenBucket
  import opened BucketExpiry
  import opened Redis
  import opened RateLimiter
  import Ledger = TokenLedger
  import Keys

  /** The store after n calls on one key, all at one instant and with one answer of TIME. */
  function AfterCalls(store: Store, key: string, p: Params, time: int, at: real, n: nat): Store {
    if n == 0 then store else Limit(AfterCalls(store, key, p, time, at, n - 1), key, p, Some(time), Replied, at).0
  }

  /** The next call there is handled. */
  predicate Handles(store: Store, key: string, p: Params, time: int, at: real) {
    Limit(store, key, p, Some(time), Replied, at).1
  }

  /** What is left of a level after n calls that each took a token while there was a whole one. */
  function Remaining(level: real, n: nat): real
    requires level >= 0.0
  {
    level - (if n <= level.Floor then n else level.Floor) as real
  }

  lemma RemainingStep(level: real, n: nat)
    requires level >= 0.0
    ensures Remaining(level, n) >= 1.0 <==> (n + 1) as real <= level
    ensures Remaining(level, n + 1)
         == if Remaining(level, n) >= 1.0 then Remaining(level, n) - 1.0 else Remaining(level, n)
    ensures 0.0 <= Remaining(level, n) <= level && Remaining(level, 0) == level
  {
  }

  /** The bucket found on the key, if it is live and no string. */
  predicate Finds(store: Store, key: string, at: real, found: Option<Bucket>) {
    Live(store, key, at) == if found.Some? then Some(BucketHash(found.value)) else None
  }

  lemma {:induction false} CallsAtOnce(store: Store, key: string, p: Params, time: int, at: real,
                                       found: Option<Bucket>, n: nat)
    requires p.Sane() && WellFormed(p, found) && Finds(store, key, at, found)
    ensures Level(p, found, time as real) >= 0.0
    ensures var level := Level(p, found, time as real);
            && (n > 0 ==>
                  AfterCalls(store, key, p, time, at, n)
                  == store[key := Entry(BucketHash(Bucket(time as real, Remaining(level, n))), at + KEEP_SECONDS)])
            && (Handles(AfterCalls(store, key, p, time, at, n), key, p, time, at) <==> (n + 1) as real <= level)
  {
    hide Level, Remaining;
    var level := Level(p, found, time as real);
    EvalWellFormed(p, found, time as real);
    RemainingStep(level, n);
    if n > 0 {
      CallsAtOnce(store, key, p, time, at, found, n - 1);
      RemainingStep(level, n - 1);
      LevelNow(p, time as real, Remaining(level, n));
      LevelNow(p, time as real, Remaining(level, n - 1));
    }
  }

  lemma LevelNow(p: Params, now: real, tokens: real)
    requires 0.0 <= tokens <= p.capacity
    ensures Level(p, Some(Bucket(now, tokens)), now) == tokens
  {
    NoTimeNoRefill(p.rate);
  }

  /** From a key with nothing live on it, exactly the first c of any number of calls at once are handled. */
  lemma BurstOnKey(store: Store, key: string, p: Params, c: nat, time: int, at: real, k: nat)
    requires p.rate >= 0.0 && p.capacity == c as real && Live(store, key, at).None?
    ensures Handles(AfterCalls(store, key, p, time, at, k), key, p, time, at) <==> k < c
  {
    hide Handles, AfterCalls, Level;
    CallsAtOnce(store, key, p, time, at, None, k);
    FreshIsFull(p, time as real);
  }

  /** After such a burst has emptied the bucket and `seconds` have passed, exactly as many as were earned since. */
  lemma PauseOnKey(store: Store, key: string, p: Params, c: nat, time: int, at: real, burst: nat,
                   seconds: nat, later: real, k: nat)
    requires p.rate >= 0.0 && p.capacity == c as real && Live(store, key, at).None?
    requires 0 < c <= burst && at <= later <= at + 60.0
    ensures var empty := AfterCalls(store, key, p, time, at, burst);
            Handles(AfterCalls(empty, key, p, time + seconds, later, k), key, p, time + seconds, later)
            <==> (k + 1) as real <= Ledger.Min(c as real, seconds as real * p.rate)
  {
    hide Handles, AfterCalls, Level;
    var empty := AfterCalls(store, key, p, time, at, burst);
    CallsAtOnce(store, key, p, time, at, None, burst);
    FreshIsFull(p, time as real);
    assert Remaining(c as real, burst) == 0.0;
    var found := Some(Bucket(time as real, 0.0));
    assert Live(empty, key, later) == Some(BucketHash(found.value));
    CallsAtOnce(empty, key, p, time + seconds, later, found, k);
    EmptyRefills(p, time, seconds);
  }

  lemma EmptyRefills(p: Params, time: int, seconds: nat)
    requires p.rate >= 0.0
    ensures Level(p, Some(Bucket(time as real, 0.0)), (time + seconds) as real)
         == Ledger.Min(p.capacity, seconds as real * p.rate)
  {
    assert (time + seconds) as real - time as real == seconds as real;
  }

  /******* gRPC *******/

  function AfterGrpcCalls(config: Config, store: Store, m: string, ip: string, time: int, at: real, n: nat): Store {
    if n == 0 then store
    else Intercept(config, AfterGrpcCalls(config, store, m, ip, time, at, n - 1), m, ip, Some(time), Replied, at).0
  }

  predicate GrpcHandles(config: Config, store: Store, m: string, ip: string, time: int, at: real) {
    Intercept(config, store, m, ip, Some(time), Replied, at).1
  }

  lemma {:induction false} GrpcCallsAreCalls(config: Config, store: Store, m: string, ip: string, time: int, at: real,
                                             n: nat)
    requires config.enabled
    ensures AfterGrpcCalls(config, store, m, ip, time, at, n)
         == AfterCalls(store, Keys.GrpcKey(m, ip), Params(config.requestsPerSecond, config.burstCapacity as real),
                       time, at, n)
  {
    hide Limit;
    if n > 0 {
      GrpcCallsAreCalls(config, store, m, ip, time, at, n - 1);
    }
  }

  /** Of the calls of one client to one method that arrive at once on a fresh key, exactly the first burstCapacity are
      handled. */
  lemma GrpcBurst(config: Config, store: Store, m: string, ip: string, time: int, at: real, k: nat)
    requires config.enabled && config.requestsPerSecond >= 0.0 && config.burstCapacity >= 0
    requires Live(store, Keys.GrpcKey(m, ip), at).None?
    ensures GrpcHandles(config, AfterGrpcCalls(config, store, m, ip, time, at, k), m, ip, time, at)
       <==> k < config.burstCapacity
  {
    hide Limit, Keys.GrpcKey, AfterCalls, AfterGrpcCalls, Live;
    var p := Params(config.requestsPerSecond, config.burstCapacity as real);
    GrpcCallsAreCalls(config, store, m, ip, time, at, k);
    BurstOnKey(store, Keys.GrpcKey(m, ip), p, config.burstCapacity, time, at, k);
  }

  /** Once a burst has used the bucket up, `seconds` later exactly requestsPerSecond * seconds are, or burstCapacity if
      that is less. */
  lemma GrpcPause(config: Config, store: Store, m: string, ip: string, time: int, at: real, burst: nat,
                  seconds: nat, later: real, k: nat)
    requires config.enabled && config.requestsPerSecond >= 0.0 && 0 < config.burstCapacity <= burst
    requires Live(store, Keys.GrpcKey(m, ip), at).None? && at <= later <= at + 60.0
    ensures var empty := AfterGrpcCalls(config, store, m, ip, time, at, burst);
            GrpcHandles(config, AfterGrpcCalls(config, empty, m, ip, time + seconds, later, k), m, ip,
                        time + seconds, later)
            <==> (k + 1) as real <= Ledger.Min(config.burstCapacity as real, seconds as real * config.requestsPerSecond)
  {
    hide Limit, Keys.GrpcKey, AfterCalls, AfterGrpcCalls, Live;
    var p := Params(config.requestsPerSecond, config.burstCapacity as real);
    var key := Keys.GrpcKey(m, ip);
    var empty := AfterGrpcCalls(config, store, m, ip, time, at, burst);
    GrpcCallsAreCalls(config, store, m, ip, time, at, burst);
    GrpcCallsAreCalls(config, empty, m, ip, time + seconds, later, k);
    PauseOnKey(store, key, p, config.burstCapacity, time, at, burst, seconds, later, k);
  }

  /******* Gin *******/

  function AfterGinCalls(store: Store, verb: string, path: string, ip: string, time: int, at: real, n: nat): Store {
    if n == 0 then store
    else GinCall(AfterGinCalls(store, verb, path, ip, time, at, n - 1), verb, path, ip, Some(time), Replied, at).0
  }

  predicate GinHandles(store: Store, verb: string, path: string, ip: string, time: int, at: real) {
    GinCall(store, verb, path, ip, Some(time), Replied, at).1
  }

  lemma {:induction false} GinCallsAreCalls(store: Store, verb: string, path: string, ip: string, time: int, at: real,
                                            n: nat)
    ensures AfterGinCalls(store, verb, path, ip, time, at, n)
         == AfterCalls(store, Keys.GinKey(verb, path, ip), GIN_PARAMS, time, at, n)
  {
    hide Limit;
    if n > 0 {
      GinCallsAreCalls(store, verb, path, ip, time, at, n - 1);
    }
  }

  /** Of the requests of one client for one path that arrive at once on a fresh key, exactly the first 20 are
      handled. */
  lemma GinBurst(store: Store, verb: string, path: string, ip: string, time: int, at: real, k: nat)
    requires Live(store, Keys.GinKey(verb, path, ip), at).None?
    ensures GinHandles(AfterGinCalls(store, verb, path, ip, time, at, k), verb, path, ip, time, at) <==> k < 20
  {
    hide Limit, Keys.GinKey, AfterCalls, AfterGinCalls, Live;
    GinCallsAreCalls(store, verb, path, ip, time, at, k);
    BurstOnKey(store, Keys.GinKey(verb, path, ip), GIN_PARAMS, 20, time, at, k);
  }

  /** Once a burst has used the bucket up, one second later exactly ten are, and from two seconds on 20. */
  lemma GinPause(store: Store, verb: string, path: string, ip: string, time: int, at: real, burst: nat,
                 seconds: nat, later: real, k: nat)
    requires Live(store, Keys.GinKey(verb, path, ip), at).None? && at <= later <= at + 60.0 && burst >= 20
    ensures var empty := AfterGinCalls(store, verb, path, ip, time, at, burst);
            GinHandles(AfterGinCalls(empty, verb, path, ip, time + seconds, later, k), verb, path, ip,
                       time + seconds, later)
            <==> k < if seconds <= 2 then 10 * seconds else 20
  {
    hide Limit, Keys.GinKey, AfterCalls, AfterGinCalls, Live;
    var key := Keys.GinKey(verb, path, ip);
    var empty := AfterGinCalls(store, verb, path, ip, time, at, burst);
    GinCallsAreCalls(store, verb, path, ip, time, at, burst);
    GinCallsAreCalls(empty, verb, path, ip, time + seconds, later, k);
    PauseOnKey(store, key, GIN_PARAMS, 20, time, at, burst, seconds, later, k);
  }
}
