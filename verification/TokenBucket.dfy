/** The token-bucket script that the gRPC interceptor and the Gin middleware send to Redis, and its
    behaviour over whole runs of requests on one key that does not expire.

    Lua numbers are idealised as reals. The script always asks for one token. */
module TokenBucket {
  import opened Options
  import Ledger = TokenLedger

  datatype Params = Params(rate: real, capacity: real) {
    /** What the theorems need; RateLimitConfig.Validate demands more (both strictly positive). */
    predicate Sane() { rate >= 0.0 && capacity >= 0.0 }
  }

  datatype Bucket = Bucket(lastRefill: real, tokens: real)

  datatype Verdict = Verdict(bucket: Bucket, allowed: bool)

  function LastRefill(stored: Option<Bucket>, now: real): real {
    if stored.Some? then stored.value.lastRefill else now
  }

  function Tokens(p: Params, stored: Option<Bucket>): real {
    if stored.Some? then stored.value.tokens else p.capacity
  }

  /** The refill since the last request; a clock that went back refills nothing. */
  function Gain(p: Params, stored: Option<Bucket>, now: real): real {
    Refill(p.rate, Ledger.Max(0.0, now - LastRefill(stored, now)))
  }

  function Refill(rate: real, elapsed: real): real { elapsed * rate }

  /** The tokens a request sees at `now`: the stored ones plus the refill, capped. */
  function Level(p: Params, stored: Option<Bucket>, now: real): real {
    Ledger.Min(p.capacity, Tokens(p, stored) + Gain(p, stored, now))
  }

  /** One execution of the script: what it writes back and what it answers. */
  function Eval(p: Params, stored: Option<Bucket>, now: real): Verdict {
    var tokens := Level(p, stored, now);
    if tokens >= 1.0
    then Verdict(Bucket(now, tokens - 1.0), true)
    else Verdict(Bucket(now, tokens), false)
  }

  /** A stored bucket the script itself could have written. */
  ghost predicate WellFormed(p: Params, stored: Option<Bucket>) {
    stored.Some? ==> 0.0 <= stored.value.tokens <= p.capacity
  }

  lemma ProductNonNegative(x: real, rate: real)
    requires x >= 0.0 && rate >= 0.0
    ensures x * rate >= 0.0
  {
  }

  lemma ProductMonotone(x: real, r: real, s: real)
    requires x >= 0.0 && r <= s
    ensures x * r <= x * s
  {
    assert x * s - x * r == x * (s - r);
    ProductNonNegative(x, s - r);
  }

  /** What the script stores is again within 0..capacity. */
  lemma EvalWellFormed(p: Params, stored: Option<Bucket>, now: real)
    requires p.Sane() && WellFormed(p, stored)
    ensures WellFormed(p, Some(Eval(p, stored, now).bucket))
    ensures 0.0 <= Level(p, stored, now) <= p.capacity
  {
    ProductNonNegative(Ledger.Max(0.0, now - LastRefill(stored, now)), p.rate);
  }

  /******* Runs on one key *******/

  /** The bucket found by request n when the requests before it carried the stamps ts[..n]. */
  function Stored(p: Params, start: Option<Bucket>, ts: seq<real>, n: nat): Option<Bucket>
    requires n <= |ts|
    decreases n
  {
    if n == 0 then start else Some(Eval(p, Stored(p, start, ts, n - 1), ts[n - 1]).bucket)
  }

  function LevelAt(p: Params, start: Option<Bucket>, ts: seq<real>, n: nat): real
    requires n < |ts|
  {
    Level(p, Stored(p, start, ts, n), ts[n])
  }

  predicate Allowed(p: Params, start: Option<Bucket>, ts: seq<real>, n: nat)
    requires n < |ts|
  {
    Eval(p, Stored(p, start, ts, n), ts[n]).allowed
  }

  /** How many of the requests lo..hi-1 were allowed. */
  function Admitted(p: Params, start: Option<Bucket>, ts: seq<real>, lo: nat, hi: nat): (count: nat)
    requires lo <= hi <= |ts|
    ensures count <= hi - lo
  {
    if lo == hi then 0
    else Admitted(p, start, ts, lo, hi - 1) + if Allowed(p, start, ts, hi - 1) then 1 else 0
  }

  ghost predicate NonDecreasing(ts: seq<real>) {
    forall i, j :: 0 <= i <= j < |ts| ==> ts[i] <= ts[j]
  }

  /** What request i of a run earns before the cap. */
  function GainAt(p: Params, start: Option<Bucket>, ts: seq<real>, i: nat): real
    requires i < |ts|
  {
    if i == 0 then Gain(p, start, ts[0]) else Refill(p.rate, Ledger.Max(0.0, ts[i] - ts[i - 1]))
  }

  function Gains(p: Params, start: Option<Bucket>, ts: seq<real>): (gains: seq<real>)
    ensures |gains| == |ts|
    ensures forall i: nat :: i < |ts| ==> gains[i] == GainAt(p, start, ts, i)
  {
    seq(|ts|, i requires 0 <= i < |ts| => GainAt(p, start, ts, i))
  }

  /** A run of the script is a run of the ledger over its gains. */
  lemma {:induction false} RunIsLedger(p: Params, start: Option<Bucket>, ts: seq<real>, n: nat)
    requires n <= |ts|
    ensures Tokens(p, Stored(p, start, ts, n))
         == Ledger.Tokens(p.capacity, Tokens(p, start), Gains(p, start, ts), n)
    ensures n < |ts| ==>
      && LevelAt(p, start, ts, n) == Ledger.Level(p.capacity, Tokens(p, start), Gains(p, start, ts), n)
      && (Allowed(p, start, ts, n) <==> Ledger.Admits(p.capacity, Tokens(p, start), Gains(p, start, ts), n))
  {
    hide Refill, Gains;
    if n > 0 {
      RunIsLedger(p, start, ts, n - 1);
    }
  }

  lemma {:induction false} AdmittedIsLedger(p: Params, start: Option<Bucket>, ts: seq<real>, lo: nat, hi: nat)
    requires lo <= hi <= |ts|
    ensures Admitted(p, start, ts, lo, hi)
         == Ledger.Admitted(p.capacity, Tokens(p, start), Gains(p, start, ts), lo, hi)
  {
    hide Allowed, Ledger.Admits, Gains, GainAt;
    if lo < hi {
      AdmittedIsLedger(p, start, ts, lo, hi - 1);
      RunIsLedger(p, start, ts, hi - 1);
    }
  }

  lemma GainsNonNegative(p: Params, start: Option<Bucket>, ts: seq<real>)
    requires p.Sane()
    ensures Ledger.NonNegative(Gains(p, start, ts))
  {
    forall i | 0 <= i < |ts|
      ensures Gains(p, start, ts)[i] >= 0.0
    {
      var last := if i == 0 then LastRefill(start, ts[0]) else ts[i - 1];
      ProductNonNegative(Ledger.Max(0.0, ts[i] - last), p.rate);
    }
  }

  lemma {:induction false} StoredWellFormed(p: Params, start: Option<Bucket>, ts: seq<real>, n: nat)
    requires p.Sane() && WellFormed(p, start) && n <= |ts|
    ensures WellFormed(p, Stored(p, start, ts, n))
  {
    if n > 0 {
      StoredWellFormed(p, start, ts, n - 1);
      EvalWellFormed(p, Stored(p, start, ts, n - 1), ts[n - 1]);
    }
  }

  /******* Closed form and conformance *******/

  lemma {:induction false} GainsBetween(p: Params, start: Option<Bucket>, ts: seq<real>, k: nat, n: nat)
    requires NonDecreasing(ts) && k <= n < |ts|
    ensures Ledger.Sum(Gains(p, start, ts), k + 1, n + 1) == Refill(p.rate, ts[n] - ts[k])
  {
    hide Gains, Refill;
    if k == n {
      NoTimeNoRefill(p.rate);
    } else {
      GainsBetween(p, start, ts, k, n - 1);
      Telescope(ts[k], ts[n - 1], ts[n], p.rate);
    }
  }

  lemma NoTimeNoRefill(rate: real)
    ensures Refill(rate, 0.0) == 0.0
  {
  }

  lemma Telescope(a: real, b: real, c: real, rate: real)
    ensures Refill(rate, c - a) == Refill(rate, b - a) + Refill(rate, c - b)
  {
  }

  /** What the window of requests k..n leaves for request n on a fresh key: a full bucket at request k, the
      refill since then, less what the requests k..n-1 took. */
  function WindowSlack(p: Params, ts: seq<real>, k: nat, n: nat): real
    requires k <= n < |ts|
  {
    p.capacity + Refill(p.rate, ts[n] - ts[k]) - Admitted(p, None, ts, k, n) as real
  }

  /** On a fresh key the level before request n is the least slack of all windows ending at n: it is
      below every one of them and equals that of some request k. */
  lemma ClosedForm(p: Params, ts: seq<real>, n: nat) returns (k: nat)
    requires p.Sane() && NonDecreasing(ts) && n < |ts|
    ensures forall i: nat :: i <= n ==> LevelAt(p, None, ts, n) <= WindowSlack(p, ts, i, n)
    ensures k <= n && LevelAt(p, None, ts, n) == WindowSlack(p, ts, k, n)
  {
    hide Allowed, Ledger.Admits, Gains, GainAt, LevelAt, Ledger.Level, Refill;
    var gains := Gains(p, None, ts);
    GainsNonNegative(p, None, ts);
    RunIsLedger(p, None, ts, n);
    k := Ledger.LevelIsLeastSlack(p.capacity, gains, n);
    forall i: nat | i <= n
      ensures WindowSlack(p, ts, i, n) == Ledger.WindowSlack(p.capacity, p.capacity, gains, i, n)
    {
      GainsBetween(p, None, ts, i, n);
      AdmittedIsLedger(p, None, ts, i, n);
    }
  }

  /** The window of requests k..n, counting n, stays within capacity + rate * length. */
  ghost predicate WindowFits(p: Params, ts: seq<real>, k: nat, n: nat)
    requires k <= n < |ts|
  {
    Admitted(p, None, ts, k, n) as real + 1.0 <= p.capacity + Refill(p.rate, ts[n] - ts[k])
  }

  /** Request n is allowed exactly when every window ending at n, counting n itself, stays within the
      capacity plus the refill over the window's length. */
  lemma Conformance(p: Params, ts: seq<real>, n: nat)
    requires p.Sane() && NonDecreasing(ts) && n < |ts|
    ensures Allowed(p, None, ts, n) <==> forall k: nat :: k <= n ==> WindowFits(p, ts, k, n)
  {
    var least := ClosedForm(p, ts, n);
    assert WindowFits(p, ts, least, n) <==> WindowSlack(p, ts, least, n) >= 1.0;
    if Allowed(p, None, ts, n) {
      forall k: nat | k <= n
        ensures WindowFits(p, ts, k, n)
      {
        assert LevelAt(p, None, ts, n) <= WindowSlack(p, ts, k, n);
      }
    }
  }

  /** All windows of a schedule stay within capacity + rate * length, whatever the limiter does with it. */
  ghost predicate Conforms(p: Params, ts: seq<real>) {
    forall k: nat, n: nat :: k <= n < |ts| ==> Fits(p, n - k + 1, ts[k], ts[n])
  }

  ghost predicate Fits(p: Params, count: nat, first: real, last: real) {
    count as real <= p.capacity + Refill(p.rate, last - first)
  }

  lemma {:induction false} AllAdmitted(p: Params, start: Option<Bucket>, ts: seq<real>, lo: nat, hi: nat)
    requires lo <= hi <= |ts|
    requires forall n: nat :: lo <= n < hi ==> Allowed(p, start, ts, n)
    ensures Admitted(p, start, ts, lo, hi) == hi - lo
  {
    if lo < hi {
      AllAdmitted(p, start, ts, lo, hi - 1);
    }
  }

  /** A schedule is never denied exactly when all of its windows conform. */
  lemma NeverDeniedIffConforms(p: Params, ts: seq<real>)
    requires p.Sane() && NonDecreasing(ts)
    ensures (forall n: nat :: n < |ts| ==> Allowed(p, None, ts, n)) <==> Conforms(p, ts)
  {
    if forall n: nat :: n < |ts| ==> Allowed(p, None, ts, n) {
      forall k: nat, n: nat | k <= n < |ts|
        ensures Fits(p, n - k + 1, ts[k], ts[n])
      {
        Conformance(p, ts, n);
        AllAdmitted(p, None, ts, k, n);
        assert WindowFits(p, ts, k, n);
      }
    }
    if Conforms(p, ts) {
      forall n: nat | n < |ts|
        ensures Allowed(p, None, ts, n)
      {
        forall k: nat | k <= n
          ensures WindowFits(p, ts, k, n)
        {
          assert Fits(p, n - k + 1, ts[k], ts[n]);
        }
        Conformance(p, ts, n);
      }
    }
  }

  /******* Configuration *******/

  /** The second bucket starts with at least as many tokens: both keys are fresh, or both were refilled
      at the same instant. */
  ghost predicate LargerStart(b: Option<Bucket>, c: Option<Bucket>) {
    || (b.None? && c.None?)
    || (b.Some? && c.Some? && b.value.lastRefill == c.value.lastRefill && b.value.tokens <= c.value.tokens)
  }

  lemma GainMonotone(p: Params, q: Params, b: Option<Bucket>, c: Option<Bucket>, ts: seq<real>, i: nat)
    requires p.rate <= q.rate && LargerStart(b, c) && i < |ts|
    ensures GainAt(p, b, ts, i) <= GainAt(q, c, ts, i)
  {
    var last := if i == 0 then LastRefill(b, ts[0]) else ts[i - 1];
    ProductMonotone(Ledger.Max(0.0, ts[i] - last), p.rate, q.rate);
  }

  /** Raising the rate, the capacity or the starting level never lowers the number of requests admitted
      on any prefix of the same request times, in order or not. */
  lemma MonotoneInConfiguration(p: Params, q: Params, b: Option<Bucket>, c: Option<Bucket>, ts: seq<real>, n: nat)
    requires p.rate <= q.rate && p.capacity <= q.capacity && LargerStart(b, c) && n <= |ts|
    ensures Admitted(p, b, ts, 0, n) <= Admitted(q, c, ts, 0, n)
  {
    forall i | 0 <= i < |ts|
      ensures Gains(p, b, ts)[i] <= Gains(q, c, ts)[i]
    {
      GainMonotone(p, q, b, c, ts, i);
    }
    AdmittedIsLedger(p, b, ts, 0, n);
    AdmittedIsLedger(q, c, ts, 0, n);
    Ledger.LargerLedgerNeverBehind(p.capacity, Tokens(p, b), Gains(p, b, ts),
                                   q.capacity, Tokens(q, c), Gains(q, c, ts), n);
  }

  /** Single decisions may flip, though: at rate 2/3 the last of these requests is denied, at the lower
      rate 1/2 it is allowed. */
  lemma SingleDecisionsMayFlip() returns (p: Params, q: Params, ts: seq<real>, n: nat)
    ensures p.Sane() && p.rate < q.rate && p.capacity == q.capacity
    ensures NonDecreasing(ts) && n < |ts|
    ensures Allowed(p, None, ts, n) && !Allowed(q, None, ts, n)
  {
    hide Allowed, Stored, Eval;
    p, q, ts, n := Params(1.0 / 2.0, 2.0), Params(2.0 / 3.0, 2.0), FlipTimes(), 5;
    LowRateAllows(p, ts);
    HighRateDenies(q, ts);
  }

  function FlipTimes(): (ts: seq<real>)
    ensures |ts| == 6
  {
    [0.0, 0.0, 1.0, 2.0, 3.0, 4.0]
  }

  lemma LowRateAllows(p: Params, ts: seq<real>)
    requires p.rate == 1.0 / 2.0 && p.capacity == 2.0 && ts == FlipTimes()
    ensures Allowed(p, None, ts, 5)
  {
    hide Eval, Allowed;
    FirstSteps(p, ts);
    StepLater(p, 0.0, 1.0, 0.0);
    StepLater(p, 0.0, 0.0, 1.0);
    StepLater(p, 1.0, 1.0 / 2.0, 1.0);
    StepLater(p, 2.0, 0.0, 1.0);
    StepLater(p, 3.0, 1.0 / 2.0, 1.0);
  }

  lemma HighRateDenies(p: Params, ts: seq<real>)
    requires p.rate == 2.0 / 3.0 && p.capacity == 2.0 && ts == FlipTimes()
    ensures !Allowed(p, None, ts, 5)
  {
    hide Eval, Allowed;
    FirstSteps(p, ts);
    StepLater(p, 0.0, 1.0, 0.0);
    StepLater(p, 0.0, 0.0, 1.0);
    StepLater(p, 1.0, 2.0 / 3.0, 1.0);
    StepLater(p, 2.0, 1.0 / 3.0, 1.0);
    StepLater(p, 3.0, 0.0, 1.0);
  }

  /** The script on a fresh key, and on a bucket refilled no or one second ago. */
  lemma StepLater(p: Params, last: real, tokens: real, seconds: real)
    requires seconds == 0.0 || seconds == 1.0
    ensures Eval(p, None, last) ==
            if p.capacity >= 1.0 then Verdict(Bucket(last, p.capacity - 1.0), true)
            else Verdict(Bucket(last, p.capacity), false)
    ensures var level := Ledger.Min(p.capacity, tokens + if seconds == 0.0 then 0.0 else p.rate);
            Eval(p, Some(Bucket(last, tokens)), last + seconds) ==
            if level >= 1.0 then Verdict(Bucket(last + seconds, level - 1.0), true)
            else Verdict(Bucket(last + seconds, level), false)
  {
  }

  lemma FirstSteps(p: Params, ts: seq<real>)
    requires |ts| == 6
    ensures var b1 := Eval(p, None, ts[0]).bucket;
            var b2 := Eval(p, Some(b1), ts[1]).bucket;
            var b3 := Eval(p, Some(b2), ts[2]).bucket;
            var b4 := Eval(p, Some(b3), ts[3]).bucket;
            var b5 := Eval(p, Some(b4), ts[4]).bucket;
            Allowed(p, None, ts, 5) <==> Eval(p, Some(b5), ts[5]).allowed
  {
    hide Eval;
    assert Stored(p, None, ts, 1) == Some(Eval(p, None, ts[0]).bucket);
    assert Stored(p, None, ts, 3) == Some(Eval(p, Stored(p, None, ts, 2), ts[2]).bucket);
    assert Stored(p, None, ts, 5) == Some(Eval(p, Stored(p, None, ts, 4), ts[4]).bucket);
  }

  /******* Timestamps out of order *******/

  /** The sum of all forward, or all backward, movements of the stamps lo..hi-1. */
  function Forward(ts: seq<real>, lo: nat, hi: nat): (d: real)
    requires lo < hi <= |ts|
    ensures d >= 0.0
  {
    if hi == lo + 1 then 0.0 else Forward(ts, lo, hi - 1) + Ledger.Max(0.0, ts[hi - 1] - ts[hi - 2])
  }

  function Backward(ts: seq<real>, lo: nat, hi: nat): (d: real)
    requires lo < hi <= |ts|
    ensures d >= 0.0
  {
    if hi == lo + 1 then 0.0 else Backward(ts, lo, hi - 1) + Ledger.Max(0.0, ts[hi - 2] - ts[hi - 1])
  }

  lemma {:induction false} ForwardMinusBackward(ts: seq<real>, lo: nat, hi: nat)
    requires lo < hi <= |ts|
    ensures Forward(ts, lo, hi) - Backward(ts, lo, hi) == ts[hi - 1] - ts[lo]
  {
    if lo + 1 < hi {
      ForwardMinusBackward(ts, lo, hi - 1);
    }
  }

  lemma {:induction false} InOrderNeverMovesBack(ts: seq<real>, lo: nat, hi: nat)
    requires lo < hi <= |ts| && NonDecreasing(ts)
    ensures Backward(ts, lo, hi) == 0.0
  {
    if lo + 1 < hi {
      InOrderNeverMovesBack(ts, lo, hi - 1);
    }
  }

  lemma {:induction false} GainsAreForward(p: Params, start: Option<Bucket>, ts: seq<real>, lo: nat, hi: nat)
    requires lo < hi <= |ts|
    ensures Ledger.Sum(Gains(p, start, ts), lo + 1, hi) == Refill(p.rate, Forward(ts, lo, hi))
  {
    hide Gains, Refill;
    if lo + 1 == hi {
      NoTimeNoRefill(p.rate);
    } else {
      GainsAreForward(p, start, ts, lo, hi - 1);
      Distribute(Forward(ts, lo, hi - 1), Ledger.Max(0.0, ts[hi - 1] - ts[hi - 2]), p.rate);
    }
  }

  lemma Distribute(a: real, b: real, rate: real)
    ensures Refill(rate, a + b) == Refill(rate, a) + Refill(rate, b)
  {
  }

  /** Whatever order the stamps reach the script in, what a window admits is bounded by the capacity and
      the refill over its length plus the total backward movement of the stamps. */
  lemma OutOfOrderBound(p: Params, start: Option<Bucket>, ts: seq<real>, lo: nat, hi: nat)
    requires p.Sane() && WellFormed(p, start) && lo < hi <= |ts|
    ensures Admitted(p, start, ts, lo, hi) as real
         <= p.capacity + Refill(p.rate, ts[hi - 1] - ts[lo] + Backward(ts, lo, hi))
  {
    hide Admitted, Ledger.Admitted, Gains, GainAt, Refill;
    var gains := Gains(p, start, ts);
    GainsNonNegative(p, start, ts);
    AdmittedIsLedger(p, start, ts, lo, hi);
    Ledger.Conservation(p.capacity, Tokens(p, start), gains, lo, hi);
    Ledger.TokensInRange(p.capacity, Tokens(p, start), gains, hi);
    GainsAreForward(p, start, ts, lo, hi);
    ForwardMinusBackward(ts, lo, hi);
  }

  /** The backward movement cannot be left out: at one token per second and capacity one, a request that is
      overtaken on its way from TIME to EVAL lets two requests with one and the same stamp through, which is more
      than the plain window bound allows and just what the bound above does. */
  lemma OvertakingExceedsWindow() returns (p: Params, ts: seq<real>)
    ensures p.Sane() && |ts| == 3 && ts[0] == ts[2]
    ensures Admitted(p, None, ts, 0, 3) as real > p.capacity + Refill(p.rate, ts[2] - ts[0])
    ensures Admitted(p, None, ts, 0, 3) as real
         == p.capacity + Refill(p.rate, ts[2] - ts[0] + Backward(ts, 0, 3))
  {
    hide Eval, Allowed, Stored, Admitted, Refill;
    p, ts := Params(1.0, 1.0), [1.0, 0.0, 1.0];
    assert p.rate == 1.0 && p.capacity == 1.0;
    OvertakenRun(p, ts);
    UnitRefill(p.rate);
    assert Backward(ts, 0, 1) == 0.0 && Backward(ts, 0, 2) == 1.0 && Backward(ts, 0, 3) == 1.0;
  }

  lemma UnitRefill(rate: real)
    requires rate == 1.0
    ensures Refill(rate, 0.0) == 0.0 && Refill(rate, 1.0) == 1.0
  {
  }

  lemma OvertakenRun(p: Params, ts: seq<real>)
    requires p.rate == 1.0 && p.capacity == 1.0
    requires |ts| == 3 && ts[0] == 1.0 && ts[1] == 0.0 && ts[2] == 1.0
    ensures Admitted(p, None, ts, 0, 3) == 2
  {
    hide Eval, Stored, Allowed, Admitted;
    StepLater(p, 1.0, 0.0, 0.0);
    StepBack(p, 1.0, 0.0, 0.0);
    StepLater(p, 0.0, 0.0, 1.0);
    ThreeRequests(p, ts);
  }

  lemma ThreeRequests(p: Params, ts: seq<real>)
    requires |ts| == 3
    ensures var first := Eval(p, None, ts[0]);
            var second := Eval(p, Some(first.bucket), ts[1]);
            var third := Eval(p, Some(second.bucket), ts[2]);
            Admitted(p, None, ts, 0, 3)
            == (if first.allowed then 1 else 0) + (if second.allowed then 1 else 0) + if third.allowed then 1 else 0
  {
    hide Eval;
    assert Stored(p, None, ts, 1) == Some(Eval(p, None, ts[0]).bucket);
    assert Stored(p, None, ts, 2) == Some(Eval(p, Stored(p, None, ts, 1), ts[1]).bucket);
    hide Stored;
    assert Admitted(p, None, ts, 0, 1) == if Allowed(p, None, ts, 0) then 1 else 0;
    assert Admitted(p, None, ts, 0, 2) == Admitted(p, None, ts, 0, 1) + if Allowed(p, None, ts, 1) then 1 else 0;
  }

  /** A stamp before the last refill earns nothing. */
  lemma StepBack(p: Params, last: real, tokens: real, now: real)
    requires now <= last && 0.0 <= tokens < 1.0 && tokens <= p.capacity
    ensures Eval(p, Some(Bucket(last, tokens)), now) == Verdict(Bucket(now, tokens), false)
  {
    NoTimeNoRefill(p.rate);
  }

  /** In order, the bound is the plain window bound. */
  lemma InOrderBound(p: Params, start: Option<Bucket>, ts: seq<real>, lo: nat, hi: nat)
    requires p.Sane() && WellFormed(p, start) && lo < hi <= |ts| && NonDecreasing(ts)
    ensures Admitted(p, start, ts, lo, hi) as real <= p.capacity + Refill(p.rate, ts[hi - 1] - ts[lo])
  {
    OutOfOrderBound(p, start, ts, lo, hi);
    InOrderNeverMovesBack(ts, lo, hi);
  }

  /******* Denied requests *******/

  /** From `since` on, the two stored buckets cannot be told apart. */
  ghost predicate SameFrom(p: Params, b: Option<Bucket>, c: Option<Bucket>, since: real) {
    forall now: real :: now >= since ==> Level(p, b, now) == Level(p, c, now)
  }

  /** A capped refill up to `middle` and a second one up to `now` are one refill up to `now`. */
  lemma RefillsCompose(p: Params, stored: Option<Bucket>, middle: real, now: real)
    requires p.Sane() && LastRefill(stored, middle) <= middle <= now
    ensures Level(p, Some(Bucket(middle, Level(p, stored, middle))), now) == Level(p, stored, now)
  {
    var last := LastRefill(stored, middle);
    ProductNonNegative(now - middle, p.rate);
    Telescope(last, middle, now, p.rate);
  }

  /** On a key that stays a denial leaves its mark only on `last_refill`. From the moment the stored bucket was last
      refilled (or the denial, if later) nobody can tell that the denied request was made, exactly when its stamp
      was not before that refill. */
  lemma DenialInvisibleIff(p: Params, b: Bucket, now: real)
    requires p.rate > 0.0 && p.capacity >= 1.0 && WellFormed(p, Some(b))
    requires !Eval(p, Some(b), now).allowed
    ensures SameFrom(p, Some(Eval(p, Some(b), now).bucket), Some(b), Ledger.Max(now, b.lastRefill))
       <==> b.lastRefill <= now
  {
    var after := Eval(p, Some(b), now).bucket;
    if b.lastRefill <= now {
      forall later: real | later >= now
        ensures Level(p, Some(after), later) == Level(p, Some(b), later)
      {
        RefillsCompose(p, Some(b), now, later);
      }
    } else {
      assert (b.lastRefill - now) * p.rate > 0.0;
      assert Level(p, Some(after), b.lastRefill) > Level(p, Some(b), b.lastRefill);
    }
  }

  /** Those of the first n requests (or stamps) that are kept. */
  function Keep<T>(xs: seq<T>, kept: seq<bool>, n: nat): (r: seq<T>)
    requires n <= |xs| == |kept|
    ensures |r| <= n
  {
    if n == 0 then [] else Keep(xs, kept, n - 1) + if kept[n - 1] then [xs[n - 1]] else []
  }

  /** A kept request sits, among the kept ones, right after those kept before it. */
  lemma {:induction false} KeptPosition<T>(xs: seq<T>, kept: seq<bool>, n: nat, m: nat)
    requires n < m <= |xs| == |kept| && kept[n]
    ensures |Keep(xs, kept, n)| < |Keep(xs, kept, m)|
    ensures Keep(xs, kept, m)[|Keep(xs, kept, n)|] == xs[n]
  {
    if n + 1 < m {
      KeptPosition(xs, kept, n, m - 1);
    }
  }

  lemma {:induction false} KeepGrows<T>(xs: seq<T>, kept: seq<bool>, n: nat, m: nat)
    requires n <= m <= |xs| == |kept|
    ensures |Keep(xs, kept, n)| <= |Keep(xs, kept, m)|
  {
    if n < m {
      KeepGrows(xs, kept, n, m - 1);
    }
  }

  /** Only denied requests are left out. */
  ghost predicate OnlyDenialsErased(p: Params, start: Option<Bucket>, ts: seq<real>, kept: seq<bool>)
    requires |ts| == |kept|
  {
    forall n: nat :: n < |ts| && !kept[n] ==> !Allowed(p, start, ts, n)
  }

  lemma DenialKeepsSame(p: Params, b: Option<Bucket>, c: Option<Bucket>, now: real, later: real)
    requires p.Sane() && LastRefill(b, now) <= now <= later
    requires !Eval(p, b, now).allowed && SameFrom(p, b, c, now)
    ensures SameFrom(p, Some(Eval(p, b, now).bucket), c, later)
  {
    forall t: real | t >= later
      ensures Level(p, Some(Eval(p, b, now).bucket), t) == Level(p, c, t)
    {
      RefillsCompose(p, b, now, t);
    }
  }

  lemma {:induction false} ErasingKeepsState(p: Params, start: Option<Bucket>, ts: seq<real>, kept: seq<bool>, n: nat)
    requires p.Sane() && NonDecreasing(ts) && n < |ts| == |kept|
    requires LastRefill(start, ts[0]) <= ts[0]
    requires OnlyDenialsErased(p, start, ts, kept)
    ensures |Keep(ts, kept, n)| <= |Keep(ts, kept, |ts|)|
    ensures SameFrom(p, Stored(p, start, ts, n),
                     Stored(p, start, Keep(ts, kept, |ts|), |Keep(ts, kept, n)|), ts[n])
    ensures LastRefill(Stored(p, start, ts, n), ts[n]) <= ts[n]
  {
    hide Level;
    KeepGrows(ts, kept, n, |ts|);
    if n > 0 {
      ErasingKeepsState(p, start, ts, kept, n - 1);
      var us := Keep(ts, kept, |ts|);
      var r := |Keep(ts, kept, n - 1)|;
      var before, erased := Stored(p, start, ts, n - 1), Stored(p, start, us, r);
      assert Level(p, before, ts[n - 1]) == Level(p, erased, ts[n - 1]);
      if kept[n - 1] {
        KeptPosition(ts, kept, n - 1, |ts|);
        assert Stored(p, start, us, r + 1) == Stored(p, start, ts, n);
      } else {
        DenialKeepsSame(p, before, erased, ts[n - 1], ts[n]);
      }
    }
  }

  /** On a key that stays, erasing any set of denied requests from a run in order leaves the level and the decision
      of every other request as they were. */
  lemma DeniedRequestsInvisible(p: Params, start: Option<Bucket>, ts: seq<real>, kept: seq<bool>, n: nat)
    requires p.Sane() && NonDecreasing(ts) && n < |ts| == |kept| && kept[n]
    requires LastRefill(start, ts[0]) <= ts[0]
    requires OnlyDenialsErased(p, start, ts, kept)
    ensures var us, r := Keep(ts, kept, |ts|), |Keep(ts, kept, n)|;
            && r < |us|
            && us[r] == ts[n]
            && LevelAt(p, start, us, r) == LevelAt(p, start, ts, n)
            && (Allowed(p, start, us, r) <==> Allowed(p, start, ts, n))
  {
    ErasingKeepsState(p, start, ts, kept, n);
    KeptPosition(ts, kept, n, |ts|);
  }
}
