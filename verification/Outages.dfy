/** What a window of requests on one key can cost when TIME may fail, when EVAL may lag behind TIME, and when the key
    may expire. Nothing is assumed of the requests but the order in which the script ran. */
module Outages {
  import opened Options
  import opened TokenBucket
  import opened BucketExpiry
  import opened RateLimiter
  import Ledger = TokenLedger

  /** TIME failed, so the stamp is Go's zero time. */
  predicate Untimed(r: Request) { r.stamp == ZERO_TIME_UNIX as real }

  /** The answered TIMEs came no more than `delay` seconds before their EVAL. */
  ghost predicate Regular(reqs: seq<Request>, delay: real) {
    && InOrder(reqs)
    && forall i :: 0 <= i < |reqs| ==> Untimed(reqs[i]) || (reqs[i].stamp >= 0.0 && OnTime(reqs[i], delay))
  }

  /** How many of the requests lo..hi-1 had their TIME fail. */
  function FailedTimes(reqs: seq<Request>, lo: nat, hi: nat): nat
    requires lo <= hi <= |reqs|
  {
    if lo == hi then 0 else FailedTimes(reqs, lo, hi - 1) + if Untimed(reqs[hi - 1]) then 1 else 0
  }

  /** How many of the requests after lo and before hi found an expired key. */
  function Expiries(reqs: seq<Request>, lo: nat, hi: nat): nat
    requires lo < hi <= |reqs|
  {
    if hi == lo + 1 then 0 else Expiries(reqs, lo, hi - 1) + if FindsExpired(reqs, hi - 1) then 1 else 0
  }

  /** The full buckets a window may get for free: one for each failed TIME, and one for each expiry unless the bucket
      refills in the stamp gap anyway. */
  function FreeBuckets(p: Params, delay: real, reqs: seq<Request>, lo: nat, hi: nat): nat
    requires lo < hi <= |reqs|
  {
    FailedTimes(reqs, lo, hi) + if GapRefills(p, delay) then 0 else Expiries(reqs, lo, hi)
  }

  /** The last of the requests lo..hi-1 whose TIME was answered, or hi if none was. */
  function LastTimed(reqs: seq<Request>, lo: nat, hi: nat): (k: nat)
    requires lo <= hi <= |reqs|
    ensures k <= hi && (k < hi ==> lo <= k && !Untimed(reqs[k]))
  {
    if lo == hi then hi
    else if !Untimed(reqs[hi - 1]) then hi - 1
    else
      var k := LastTimed(reqs, lo, hi - 1);
      if k == hi - 1 then hi else k
  }

  /** The forward movement of the stamps lo..hi-1 from each answered TIME to the next. */
  function Travel(reqs: seq<Request>, lo: nat, hi: nat): (d: real)
    requires lo <= hi <= |reqs|
    ensures d >= 0.0
  {
    if lo == hi then 0.0 else Travel(reqs, lo, hi - 1) + Stride(reqs, lo, hi - 1)
  }

  /** What request n adds to it. */
  function Stride(reqs: seq<Request>, lo: nat, n: nat): (d: real)
    requires lo <= n < |reqs|
    ensures d >= 0.0
  {
    var k := LastTimed(reqs, lo, n);
    if Untimed(reqs[n]) || k == n then 0.0 else Ledger.Max(0.0, reqs[n].stamp - reqs[k].stamp)
  }

  function Bursts(k: nat, capacity: real): real { k as real * capacity }

  lemma OneBurstMore(k: nat, capacity: real)
    ensures Bursts(k + 1, capacity) == Bursts(k, capacity) + capacity
    ensures Bursts(0, capacity) == 0.0 && Bursts(1, capacity) == capacity
  {
  }

  /** The tokens left after request n - 1, live or not. */
  function TokensLeft(p: Params, reqs: seq<Request>, n: nat): real
    requires 0 < n <= |reqs|
  {
    SlotAt(p, reqs, n).value.bucket.tokens
  }

  /** Requests lo..hi-1 admitted, and tokens left after them. */
  function Issued(p: Params, reqs: seq<Request>, lo: nat, hi: nat): real
    requires lo < hi <= |reqs|
  {
    AdmittedWithExpiry(p, reqs, lo, hi) as real + TokensLeft(p, reqs, hi)
  }

  lemma {:induction false} SlotWellFormed(p: Params, reqs: seq<Request>, n: nat)
    requires p.Sane() && 0 < n <= |reqs|
    ensures 0.0 <= TokensLeft(p, reqs, n) <= p.capacity
    ensures SlotAt(p, reqs, n).value.bucket.lastRefill == reqs[n - 1].stamp
  {
    hide Level;
    if n > 1 {
      SlotWellFormed(p, reqs, n - 1);
    }
    EvalWellFormed(p, LiveBucket(SlotAt(p, reqs, n - 1), reqs[n - 1].at), reqs[n - 1].stamp);
  }

  /** What the script hands out and keeps is what it found and what it refilled. */
  lemma EvalConserves(p: Params, stored: Option<Bucket>, now: real)
    ensures var v := Eval(p, stored, now);
            v.bucket.tokens + (if v.allowed then 1.0 else 0.0) == Level(p, stored, now)
  {
    hide Level;
  }

  lemma FirstIssued(p: Params, reqs: seq<Request>, lo: nat)
    requires p.Sane() && lo < |reqs|
    ensures Issued(p, reqs, lo, lo + 1) <= p.capacity
  {
    hide Level;
    var found := LiveBucket(SlotAt(p, reqs, lo), reqs[lo].at);
    if lo > 0 {
      SlotWellFormed(p, reqs, lo);
    }
    EvalWellFormed(p, found, reqs[lo].stamp);
    EvalConserves(p, found, reqs[lo].stamp);
    assert AdmittedWithExpiry(p, reqs, lo, lo) == 0;
  }

  /** A request adds the refill since the one before it, or, if the key expired, a full bucket; never more than that. */
  lemma NextIssued(p: Params, reqs: seq<Request>, lo: nat, n: nat)
    requires p.Sane() && lo < n < |reqs|
    ensures Issued(p, reqs, lo, n + 1) <= Issued(p, reqs, lo, n) + p.capacity
    ensures !FindsExpired(reqs, n) ==>
      Issued(p, reqs, lo, n + 1)
      <= Issued(p, reqs, lo, n) + Refill(p.rate, Ledger.Max(0.0, reqs[n].stamp - reqs[n - 1].stamp))
  {
    hide Refill;
    var found := LiveBucket(SlotAt(p, reqs, n), reqs[n].at);
    SlotWellFormed(p, reqs, n);
    EvalConserves(p, found, reqs[n].stamp);
  }

  /******* The invariant *******/

  function Budget(p: Params, reqs: seq<Request>, lo: nat, hi: nat, buckets: nat): real
    requires lo < hi <= |reqs|
  {
    Bursts(buckets, p.capacity) + Refill(p.rate, Travel(reqs, lo, hi))
  }

  /** While TIME is failing, either the last failure has not cost its bucket yet, or the key has expired since TIME was
      last answered, so the next answer will bring the refill. */
  ghost predicate WithinBudget(p: Params, delay: real, reqs: seq<Request>, lo: nat, hi: nat)
    requires lo < hi <= |reqs|
  {
    var free := FreeBuckets(p, delay, reqs, lo, hi);
    && Issued(p, reqs, lo, hi) <= Budget(p, reqs, lo, hi, free + 1)
    && (Untimed(reqs[hi - 1]) ==>
          || Issued(p, reqs, lo, hi) <= Budget(p, reqs, lo, hi, free)
          || Overdue(p, delay, reqs, lo, hi))
  }

  ghost predicate Overdue(p: Params, delay: real, reqs: seq<Request>, lo: nat, hi: nat)
    requires lo < hi <= |reqs|
  {
    var k := LastTimed(reqs, lo, hi);
    GapRefills(p, delay) && k < hi && reqs[k].at + KEEP_SECONDS < reqs[hi - 1].at
  }

  lemma NextFree(p: Params, delay: real, reqs: seq<Request>, lo: nat, n: nat)
    requires lo < n < |reqs|
    ensures FreeBuckets(p, delay, reqs, lo, n + 1) == FreeBuckets(p, delay, reqs, lo, n)
              + (if Untimed(reqs[n]) then 1 else 0)
              + if !GapRefills(p, delay) && FindsExpired(reqs, n) then 1 else 0
  {
  }

  lemma NextBudget(p: Params, reqs: seq<Request>, lo: nat, n: nat, buckets: nat)
    requires p.Sane() && lo < n < |reqs|
    ensures Budget(p, reqs, lo, n + 1, buckets) == Budget(p, reqs, lo, n, buckets) + Refill(p.rate, Stride(reqs, lo, n))
    ensures Refill(p.rate, Stride(reqs, lo, n)) >= 0.0
    ensures Budget(p, reqs, lo, n + 1, buckets + 1) == Budget(p, reqs, lo, n + 1, buckets) + p.capacity
  {
    hide Bursts, Stride, Refill;
    Distribute(Travel(reqs, lo, n), Stride(reqs, lo, n), p.rate);
    OneBurstMore(buckets, p.capacity);
    NoTimeNoRefill(p.rate);
    RefillMonotone(p.rate, 0.0, Stride(reqs, lo, n));
  }

  /** A request whose TIME failed refills nothing, unless the key expired. */
  lemma FailureIssued(p: Params, delay: real, reqs: seq<Request>, lo: nat, n: nat)
    requires p.Sane() && Regular(reqs, delay) && lo < n < |reqs|
    requires Untimed(reqs[n]) && !FindsExpired(reqs, n)
    ensures Issued(p, reqs, lo, n + 1) <= Issued(p, reqs, lo, n)
  {
    hide Refill, Issued, OnTime;
    NextIssued(p, reqs, lo, n);
    NoTimeNoRefill(p.rate);
    assert Ledger.Max(0.0, reqs[n].stamp - reqs[n - 1].stamp) == 0.0;
  }

  /** An answered TIME after another one costs what the stamps moved, or the bucket of an expiry. */
  lemma AnswerIssued(p: Params, delay: real, reqs: seq<Request>, lo: nat, n: nat)
    requires p.Sane() && Regular(reqs, delay) && lo < n < |reqs|
    requires !Untimed(reqs[n]) && !Untimed(reqs[n - 1]) && (GapRefills(p, delay) || !FindsExpired(reqs, n))
    ensures Issued(p, reqs, lo, n + 1) <= Issued(p, reqs, lo, n) + Refill(p.rate, Stride(reqs, lo, n))
  {
    hide Refill, Issued, OnTime;
    NextIssued(p, reqs, lo, n);
    if FindsExpired(reqs, n) {
      OverdueRefills(p, delay, reqs, lo, n, n - 1);
    }
  }

  /** The first answered TIME after an expiry brings the refill of a whole bucket. */
  lemma OverdueRefills(p: Params, delay: real, reqs: seq<Request>, lo: nat, n: nat, k: nat)
    requires p.Sane() && Regular(reqs, delay) && lo < n < |reqs| && !Untimed(reqs[n])
    requires GapRefills(p, delay) && k == LastTimed(reqs, lo, n) && k < n
    requires reqs[k].at + KEEP_SECONDS < reqs[n].at
    ensures Refill(p.rate, Stride(reqs, lo, n)) >= p.capacity
  {
    hide Refill, OnTime;
    StampsApart(reqs[k], reqs[n], delay);
    RefillMonotone(p.rate, StampGap(delay), Stride(reqs, lo, n));
  }

  /** A failure that finds the key expired leaves the refill for the next answer. */
  lemma FailureOverdue(p: Params, delay: real, reqs: seq<Request>, lo: nat, n: nat)
    requires Regular(reqs, delay) && lo < n < |reqs| && Untimed(reqs[n]) && GapRefills(p, delay)
    requires Overdue(p, delay, reqs, lo, n) || (FindsExpired(reqs, n) && !Untimed(reqs[n - 1]))
    ensures Overdue(p, delay, reqs, lo, n + 1)
  {
    hide GapRefills, OnTime;
    assert reqs[n - 1].at <= reqs[n].at;
    assert !Untimed(reqs[n - 1]) ==> LastTimed(reqs, lo, n) == n - 1;
  }

  lemma FailureWithinBudget(p: Params, delay: real, reqs: seq<Request>, lo: nat, n: nat)
    requires p.Sane() && Regular(reqs, delay) && lo < n < |reqs| && Untimed(reqs[n])
    requires WithinBudget(p, delay, reqs, lo, n)
    ensures WithinBudget(p, delay, reqs, lo, n + 1)
  {
    hide Refill, Issued, Budget, FreeBuckets, GapRefills, OnTime, Overdue, LastTimed;
    var free := FreeBuckets(p, delay, reqs, lo, n);
    NextFree(p, delay, reqs, lo, n);
    NextBudget(p, reqs, lo, n, free);
    NextBudget(p, reqs, lo, n, free + 1);
    NextBudget(p, reqs, lo, n, free + 2);
    NoTimeNoRefill(p.rate);
    NextIssued(p, reqs, lo, n);
    if !FindsExpired(reqs, n) {
      FailureIssued(p, delay, reqs, lo, n);
    } else if GapRefills(p, delay) && (Overdue(p, delay, reqs, lo, n) || !Untimed(reqs[n - 1])) {
      FailureOverdue(p, delay, reqs, lo, n);
    }
  }

  lemma AnswerWithinBudget(p: Params, delay: real, reqs: seq<Request>, lo: nat, n: nat)
    requires p.Sane() && Regular(reqs, delay) && lo < n < |reqs| && !Untimed(reqs[n])
    requires WithinBudget(p, delay, reqs, lo, n)
    ensures WithinBudget(p, delay, reqs, lo, n + 1)
  {
    hide Refill, Issued, Budget, FreeBuckets, GapRefills, Stride, OnTime;
    var free := FreeBuckets(p, delay, reqs, lo, n);
    NextFree(p, delay, reqs, lo, n);
    NextBudget(p, reqs, lo, n, free);
    NextBudget(p, reqs, lo, n, free + 1);
    NextIssued(p, reqs, lo, n);
    if !Untimed(reqs[n - 1]) && (GapRefills(p, delay) || !FindsExpired(reqs, n)) {
      AnswerIssued(p, delay, reqs, lo, n);
    } else if Overdue(p, delay, reqs, lo, n) {
      OverdueRefills(p, delay, reqs, lo, n, LastTimed(reqs, lo, n));
    }
  }

  lemma {:induction false} RunWithinBudget(p: Params, delay: real, reqs: seq<Request>, lo: nat, hi: nat)
    requires p.Sane() && Regular(reqs, delay) && lo < hi <= |reqs|
    ensures WithinBudget(p, delay, reqs, lo, hi)
  {
    if hi == lo + 1 {
      hide Refill, Issued;
      FirstIssued(p, reqs, lo);
      OneBurstMore(0, p.capacity);
      OneBurstMore(1, p.capacity);
      NoTimeNoRefill(p.rate);
      assert Travel(reqs, lo, lo) == 0.0 && FailedTimes(reqs, lo, lo) == 0;
    } else {
      hide WithinBudget, Regular;
      RunWithinBudget(p, delay, reqs, lo, hi - 1);
      if Untimed(reqs[hi - 1]) {
        FailureWithinBudget(p, delay, reqs, lo, hi - 1);
      } else {
        AnswerWithinBudget(p, delay, reqs, lo, hi - 1);
      }
    }
  }

  /** In every run a window admits at most its own full bucket, one more for each failed TIME in it and for each expiry
      the refill does not make up for, and the refill over the forward movement from each answered TIME to the next. */
  lemma WindowBound(p: Params, delay: real, reqs: seq<Request>, lo: nat, hi: nat)
    requires p.Sane() && Regular(reqs, delay) && lo < hi <= |reqs|
    ensures AdmittedWithExpiry(p, reqs, lo, hi) as real
         <= Bursts(1 + FreeBuckets(p, delay, reqs, lo, hi), p.capacity) + Refill(p.rate, Travel(reqs, lo, hi))
  {
    hide Refill, AdmittedWithExpiry, FreeBuckets, Bursts;
    RunWithinBudget(p, delay, reqs, lo, hi);
    SlotWellFormed(p, reqs, hi);
  }

  /** When no TIME fails, the forward movement is the span of the stamps and their backward movement. */
  lemma {:induction false} TravelIsForward(reqs: seq<Request>, lo: nat, hi: nat)
    requires lo < hi <= |reqs| && FailedTimes(reqs, lo, hi) == 0
    ensures Travel(reqs, lo, hi) == Forward(Stamps(reqs), lo, hi)
    ensures Travel(reqs, lo, hi) == reqs[hi - 1].stamp - reqs[lo].stamp + Backward(Stamps(reqs), lo, hi)
  {
    if hi == lo + 1 {
      assert Travel(reqs, lo, lo) == 0.0;
    } else {
      TravelIsForward(reqs, lo, hi - 1);
    }
    ForwardMinusBackward(Stamps(reqs), lo, hi);
  }

  /******* A failed TIME does cost a bucket *******/

  /** Empty the bucket, have one TIME fail, and empty it again, all at one instant. */
  function DrainFailDrain(c: nat): (reqs: seq<Request>)
    ensures |reqs| == 2 * c + 1
  {
    seq(2 * c + 1, i => Request(0.0, if i == c then ZERO_TIME_UNIX as real else 0.0))
  }

  lemma {:induction false} DrainFailDrainSlots(p: Params, c: nat, n: nat)
    requires p.Sane() && p.capacity == c as real && 0 < n <= 2 * c + 1
    requires Refill(p.rate, -(ZERO_TIME_UNIX as real)) >= p.capacity
    ensures SlotAt(p, DrainFailDrain(c), n) == Some(Slot(
              if n <= c then Bucket(0.0, (c - n) as real)
              else if n == c + 1 then Bucket(ZERO_TIME_UNIX as real, 0.0)
              else Bucket(0.0, (2 * c + 1 - n) as real), KEEP_SECONDS))
    ensures AllowedWithExpiry(p, DrainFailDrain(c), n - 1) <==> n != c + 1
  {
    hide Refill;
    NoTimeNoRefill(p.rate);
    if n > 1 {
      DrainFailDrainSlots(p, c, n - 1);
      assert SlotAt(p, DrainFailDrain(c), n - 1).value.expiresAt == KEEP_SECONDS;
    }
  }

  lemma {:induction false} DrainFailDrainCounts(p: Params, c: nat, n: nat)
    requires p.Sane() && p.capacity == c as real && n <= 2 * c + 1
    requires Refill(p.rate, -(ZERO_TIME_UNIX as real)) >= p.capacity
    ensures var reqs := DrainFailDrain(c);
            && FailedTimes(reqs, 0, n) == (if n <= c then 0 else 1)
            && AdmittedWithExpiry(p, reqs, 0, n) == n - FailedTimes(reqs, 0, n)
            && Travel(reqs, 0, n) == 0.0
  {
    hide Refill, AllowedWithExpiry;
    if n > 0 {
      DrainFailDrainCounts(p, c, n - 1);
      DrainFailDrainSlots(p, c, n);
      var k := LastTimed(DrainFailDrain(c), 0, n - 1);
      assert k < n - 1 && !Untimed(DrainFailDrain(c)[k]) ==> DrainFailDrain(c)[k].stamp == 0.0;
    }
  }

  lemma DrainFailDrainRegular(c: nat)
    ensures Regular(DrainFailDrain(c), 0.0) && NeverExpires(DrainFailDrain(c))
  {
    assert OnTime(Request(0.0, 0.0), 0.0);
  }

  lemma {:induction false} NoExpiries(reqs: seq<Request>, lo: nat, hi: nat)
    requires lo < hi <= |reqs| && NeverExpires(reqs)
    ensures Expiries(reqs, lo, hi) == 0
  {
    if lo + 1 < hi {
      NoExpiries(reqs, lo, hi - 1);
    }
  }

  /** At one instant a single failed TIME lets twice the capacity through, which is what the bound allows. */
  lemma WindowBoundAttained(p: Params, c: nat)
    requires p.Sane() && p.capacity == c as real
    requires Refill(p.rate, -(ZERO_TIME_UNIX as real)) >= p.capacity
    ensures var reqs := DrainFailDrain(c);
            && Regular(reqs, 0.0)
            && AdmittedWithExpiry(p, reqs, 0, |reqs|) == 2 * c
            && Bursts(1 + FreeBuckets(p, 0.0, reqs, 0, |reqs|), p.capacity) + Refill(p.rate, Travel(reqs, 0, |reqs|))
               == (2 * c) as real
  {
    hide Refill, Bursts, FailedTimes, Expiries, Travel, AdmittedWithExpiry, Regular, GapRefills, NeverExpires;
    var reqs := DrainFailDrain(c);
    DrainFailDrainRegular(c);
    DrainFailDrainCounts(p, c, |reqs|);
    NoExpiries(reqs, 0, |reqs|);
    NoTimeNoRefill(p.rate);
    OneBurstMore(1, p.capacity);
  }
}
