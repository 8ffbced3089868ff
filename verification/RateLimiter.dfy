/** The gRPC interceptor and the Gin middleware: one call, from the key to the decision. Client addresses are
    taken as given; logging is left out. */
module RateLimiter {
  import opened Options
  import opened TokenBucket
  import opened BucketExpiry
  import opened Redis
  import Ledger = TokenLedger
  import Keys

  datatype Config = Config(requestsPerSecond: real, burstCapacity: int, enabled: bool)

  /** What became of EVAL: answered, executed without the answer reaching us, or not executed. */
  datatype Link = Replied | ReplyLost | Unreachable

  /** A failed TIME yields Go's zero time; its Unix seconds are used all the same. */
  const ZERO_TIME_UNIX: int := -62135596800

  function Stamp(time: Option<int>): real {
    (if time.Some? then time.value else ZERO_TIME_UNIX) as real
  }

  /** One limited call: the new store, and whether the handler is called. */
  function Limit(store: Store, key: string, p: Params, time: Option<int>, link: Link, at: real): (Store, bool) {
    if link.Unreachable? then (store, true)
    else
      var (store', reply) := RunScript(store, key, p, Request(at, Stamp(time)));
      (store', link.ReplyLost? || reply.None? || reply.value)
  }

  /** One gRPC call. */
  function Intercept(config: Config, store: Store, fullMethod: string, ip: string, time: Option<int>, link: Link,
                     at: real): (Store, bool)
  {
    if !config.enabled then (store, true)
    else Limit(store, Keys.GrpcKey(fullMethod, ip), Params(config.requestsPerSecond, config.burstCapacity as real),
               time, link, at)
  }

  class Interceptor {
    const client: Server
    const config: Config

    constructor (client: Server, config: Config)
      ensures this.client == client && this.config == config
    {
      this.client := client;
      this.config := config;
    }

    /** `time` is the answer of TIME, None if it failed; `at` is the server's clock at EVAL. */
    method UnaryInterceptor(fullMethod: string, ip: string, time: Option<int>, link: Link, at: real)
      returns (handled: bool)
      modifies client
      ensures !config.enabled ==> handled && client.data == old(client.data)
      ensures (client.data, handled) == Intercept(config, old(client.data), fullMethod, ip, time, link, at)
    {
      if !config.enabled {
        return true;
      }
      var key := Keys.GrpcKey(fullMethod, ip);
      if link.Unreachable? {
        return true;
      }
      var reply := client.EvalTokenBucket(key, config.requestsPerSecond, config.burstCapacity as real, Stamp(time), at);
      if link.ReplyLost? || reply.None? {
        return true;
      }
      handled := reply.value;
    }
  }

  /** The Gin middleware does not read the configuration. */
  const GIN_PARAMS: Params := Params(10.0, 20.0)

  /** One HTTP call. */
  function GinCall(store: Store, verb: string, path: string, ip: string, time: Option<int>, link: Link, at: real)
    : (Store, bool)
  {
    Limit(store, Keys.GinKey(verb, path, ip), GIN_PARAMS, time, link, at)
  }

  method GinMiddleware(hasLimiter: bool, client: Server?, verb: string, path: string, ip: string,
                       time: Option<int>, link: Link, at: real)
    returns (handled: bool)
    modifies client
    ensures !hasLimiter || client == null ==> handled && (client != null ==> client.data == old(client.data))
    ensures hasLimiter && client != null ==>
      (client.data, handled) == GinCall(old(client.data), verb, path, ip, time, link, at)
  {
    if !hasLimiter || client == null {
      return true;
    }
    var key := Keys.GinKey(verb, path, ip);
    if link.Unreachable? {
      return true;
    }
    var reply := client.EvalTokenBucket(key, GIN_PARAMS.rate, GIN_PARAMS.capacity, Stamp(time), at);
    if link.ReplyLost? || reply.None? {
      return true;
    }
    handled := reply.value;
  }

  /** A call whose TIME failed but whose EVAL went through hands the next call what almost two thousand years refill:
      the stored refill time lies that far back. */
  lemma FailedTimeRefills(p: Params, stored: Option<Bucket>, now: real)
    requires p.Sane() && WellFormed(p, stored) && now >= 0.0
    ensures Level(p, Some(Eval(p, stored, Stamp(None)).bucket), now)
         >= Ledger.Min(p.capacity, Refill(p.rate, -(ZERO_TIME_UNIX as real)))
  {
    var after := Eval(p, stored, Stamp(None)).bucket;
    EvalWellFormed(p, stored, Stamp(None));
    RefillMonotone(p.rate, -(ZERO_TIME_UNIX as real), now - Stamp(None));
    assert Gain(p, Some(after), now) == Refill(p.rate, now - Stamp(None));
  }

  /** That is a full bucket, whatever was left before, exactly for rates that refill the capacity in that time. */
  lemma FailedTimeFillsBucketIff(p: Params)
    requires p.Sane()
    ensures 62135596800.0 * p.rate >= p.capacity
       <==> forall stored: Option<Bucket>, now: real :: WellFormed(p, stored) && now >= 0.0 ==>
              FullAfterFailedTime(p, stored, now)
  {
    assert Refill(p.rate, -(ZERO_TIME_UNIX as real)) == 62135596800.0 * p.rate;
    hide Refill, FullAfterFailedTime;
    var full := Refill(p.rate, -(ZERO_TIME_UNIX as real)) >= p.capacity;
    forall stored: Option<Bucket>, now: real | full && WellFormed(p, stored) && now >= 0.0
      ensures FullAfterFailedTime(p, stored, now)
    {
      FailedTimeFills(p, stored, now);
    }
    var empty := Some(Bucket(0.0, 0.0));
    assert WellFormed(p, empty);
    if FullAfterFailedTime(p, empty, 0.0) {
      EmptyAfterFailedTime(p);
    }
  }

  ghost predicate FullAfterFailedTime(p: Params, stored: Option<Bucket>, now: real) {
    Level(p, Some(Eval(p, stored, Stamp(None)).bucket), now) == p.capacity
  }

  lemma FailedTimeFills(p: Params, stored: Option<Bucket>, now: real)
    requires p.Sane() && WellFormed(p, stored) && now >= 0.0
    requires Refill(p.rate, -(ZERO_TIME_UNIX as real)) >= p.capacity
    ensures FullAfterFailedTime(p, stored, now)
  {
    hide Refill, Eval;
    FailedTimeRefills(p, stored, now);
    EvalWellFormed(p, stored, Stamp(None));
    EvalWellFormed(p, Some(Eval(p, stored, Stamp(None)).bucket), now);
  }

  /** An empty bucket holds no more than the refill afterwards. */
  lemma EmptyAfterFailedTime(p: Params)
    requires p.Sane() && FullAfterFailedTime(p, Some(Bucket(0.0, 0.0)), 0.0)
    ensures Refill(p.rate, -(ZERO_TIME_UNIX as real)) >= p.capacity
  {
    hide Refill;
    var stored, stamp := Some(Bucket(0.0, 0.0)), Stamp(None);
    NoTimeNoRefill(p.rate);
    assert Gain(p, stored, stamp) == 0.0;
    assert Eval(p, stored, stamp) == Verdict(Bucket(stamp, 0.0), false);
    assert Gain(p, Some(Bucket(stamp, 0.0)), 0.0) == Refill(p.rate, -(ZERO_TIME_UNIX as real));
  }

  /** With the Gin parameters, which are also the defaults of the configuration, key expiry is invisible exactly as
      long as no EVAL runs more than 58 seconds after its TIME was answered. */
  lemma DefaultsHideExpiryIff(delay: real)
    requires delay >= 0.0
    ensures delay <= 58.0
       <==> forall reqs: seq<Request> :: Punctual(reqs, delay) ==> DecidesLikeUnexpiring(GIN_PARAMS, reqs)
  {
    hide Punctual, DecidesLikeUnexpiring;
    DefaultsRefillIff(delay);
    ExpiryInvisibleIff(GIN_PARAMS, 20, delay);
  }

  lemma DefaultsRefillIff(delay: real)
    ensures GapRefills(GIN_PARAMS, delay) <==> delay <= 58.0
  {
    var gap := (KEEP_SECONDS - delay).Floor;
    assert Refill(GIN_PARAMS.rate, StampGap(delay)) == gap as real * 10.0;
    assert gap >= 2 <==> KEEP_SECONDS - delay >= 2.0;
  }
}
