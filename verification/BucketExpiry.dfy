/** The same bucket with Redis' key expiry: every execution of the script sets the key to expire 60 seconds
    later, and an expired key is found as a fresh one. */
module BucketExpiry {
  import opened Options
  import opened TokenBucket
  import Ledger = TokenLedger

  const KEEP_SECONDS: real := 60.0

  /** One execution of the script: the instant it runs at, and the timestamp it was given. */
  datatype Request = Request(at: real, stamp: real)

  /** A bucket in Redis with the instant after which the key is gone. */
  datatype Slot = Slot(bucket: Bucket, expiresAt: real)

  function LiveBucket(slot: Option<Slot>, at: real): Option<Bucket> {
    if slot.Some? && at <= slot.value.expiresAt then Some(slot.value.bucket) else None
  }

  function Execute(p: Params, slot: Option<Slot>, r: Request): Verdict {
    Eval(p, LiveBucket(slot, r.at), r.stamp)
  }

  /** What request n of a run on one key finds in Redis, live or not. */
  function SlotAt(p: Params, reqs: seq<Request>, n: nat): Option<Slot>
    requires n <= |reqs|
    decreases n
  {
    if n == 0 then None
    else
      var r := reqs[n - 1];
      Some(Slot(Execute(p, SlotAt(p, reqs, n - 1), r).bucket, r.at + KEEP_SECONDS))
  }

  predicate AllowedWithExpiry(p: Params, reqs: seq<Request>, n: nat)
    requires n < |reqs|
  {
    Execute(p, SlotAt(p, reqs, n), reqs[n]).allowed
  }

  /** How many of the requests lo..hi-1 the expiring bucket admits. */
  function AdmittedWithExpiry(p: Params, reqs: seq<Request>, lo: nat, hi: nat): nat
    requires lo <= hi <= |reqs|
  {
    if lo == hi then 0
    else AdmittedWithExpiry(p, reqs, lo, hi - 1) + if AllowedWithExpiry(p, reqs, hi - 1) then 1 else 0
  }

  function Stamps(reqs: seq<Request>): (ts: seq<real>)
    ensures |ts| == |reqs|
    ensures forall i :: 0 <= i < |reqs| ==> ts[i] == reqs[i].stamp
  {
    seq(|reqs|, i requires 0 <= i < |reqs| => reqs[i].stamp)
  }

  /** The instants never decrease: the script runs inside Redis, one execution after the other. */
  ghost predicate InOrder(reqs: seq<Request>) {
    forall i, j :: 0 <= i <= j < |reqs| ==> reqs[i].at <= reqs[j].at
  }

  /** TIME was answered no more than `delay` seconds before EVAL ran. TIME reports whole seconds, so the stamp is
      some instant of [at - delay, at] rounded down. */
  predicate OnTime(r: Request, delay: real) {
    r.stamp == r.stamp.Floor as real && r.stamp <= r.at && r.at - delay < r.stamp + 1.0
  }

  lemma RoundedDownOnTime(at: real, time: real, delay: real)
    requires at - delay <= time <= at
    ensures OnTime(Request(at, time.Floor as real), delay)
  {
  }

  lemma OnTimeIsRoundedDown(r: Request, delay: real) returns (time: real)
    requires delay >= 0.0 && OnTime(r, delay)
    ensures r.at - delay <= time <= r.at && r.stamp == time.Floor as real
  {
    time := Ledger.Max(r.stamp, r.at - delay);
    FloorIs(time, r.stamp.Floor);
  }

  lemma FloorIs(x: real, k: int)
    requires k as real <= x < k as real + 1.0
    ensures x.Floor == k
  {
  }

  ghost predicate Punctual(reqs: seq<Request>, delay: real) {
    InOrder(reqs) && forall i :: 0 <= i < |reqs| ==> OnTime(reqs[i], delay)
  }

  /** What the stamps around the expiry of a key are apart, at least. */
  function StampGap(delay: real): real { (KEEP_SECONDS - delay).Floor as real }

  /** That refills any bucket the script left behind. */
  predicate GapRefills(p: Params, delay: real) { Refill(p.rate, StampGap(delay)) >= p.capacity }

  predicate FindsExpired(reqs: seq<Request>, i: nat)
    requires 0 < i < |reqs|
  {
    reqs[i - 1].at + KEEP_SECONDS < reqs[i].at
  }

  /** No request finds its key expired. */
  ghost predicate NeverExpires(reqs: seq<Request>) {
    forall i: nat :: 1 <= i < |reqs| ==> !FindsExpired(reqs, i)
  }

  /** The expiring key and one that never expires decide alike, request by request. */
  ghost predicate DecidesLikeUnexpiring(p: Params, reqs: seq<Request>) {
    forall n: nat :: n < |reqs| ==> (AllowedWithExpiry(p, reqs, n) <==> Allowed(p, None, Stamps(reqs), n))
  }

  /** Whoever finds the key expired would have found the bucket full. */
  ghost predicate ExpiryRefills(p: Params, reqs: seq<Request>) {
    forall i: nat :: 1 <= i < |reqs| && FindsExpired(reqs, i) ==>
      Refill(p.rate, reqs[i].stamp - reqs[i - 1].stamp) >= p.capacity
  }

  lemma StampsApart(r: Request, q: Request, delay: real)
    requires OnTime(r, delay) && OnTime(q, delay) && r.at + KEEP_SECONDS < q.at
    ensures q.stamp - r.stamp >= StampGap(delay)
  {
    WholeApart(r.stamp.Floor, q.stamp.Floor, (KEEP_SECONDS - delay).Floor);
  }

  lemma WholeApart(i: int, j: int, gap: int)
    requires i as real + gap as real < j as real + 1.0
    ensures j >= i + gap
  {
    var k := i + gap;
    assert k as real < j as real + 1.0;
  }

  lemma LateRefills(p: Params, reqs: seq<Request>, delay: real)
    requires p.Sane() && (NeverExpires(reqs) || (Punctual(reqs, delay) && GapRefills(p, delay)))
    ensures ExpiryRefills(p, reqs)
  {
    hide Refill, OnTime;
    forall i: nat | 1 <= i < |reqs| && FindsExpired(reqs, i)
      ensures Refill(p.rate, reqs[i].stamp - reqs[i - 1].stamp) >= p.capacity
    {
      StampsApart(reqs[i - 1], reqs[i], delay);
      RefillMonotone(p.rate, StampGap(delay), reqs[i].stamp - reqs[i - 1].stamp);
    }
  }

  lemma FullAfterRefill(p: Params, b: Bucket, now: real)
    requires p.Sane() && b.tokens >= 0.0 && Refill(p.rate, now - b.lastRefill) >= p.capacity
    ensures Level(p, Some(b), now) == p.capacity
  {
    RefillMonotone(p.rate, now - b.lastRefill, Ledger.Max(0.0, now - b.lastRefill));
  }

  lemma RefillMonotone(rate: real, d: real, e: real)
    requires rate >= 0.0 && d <= e
    ensures Refill(rate, d) <= Refill(rate, e)
  {
    Telescope(0.0, d, e, rate);
    ProductNonNegative(e - d, rate);
  }

  lemma FreshIsFull(p: Params, now: real)
    ensures Level(p, None, now) == p.capacity
  {
  }

  lemma {:induction false} SameBuckets(p: Params, reqs: seq<Request>, n: nat)
    requires p.Sane() && n <= |reqs| && ExpiryRefills(p, reqs)
    ensures n > 0 ==>
      && SlotAt(p, reqs, n).Some?
      && Some(SlotAt(p, reqs, n).value.bucket) == Stored(p, None, Stamps(reqs), n)
    ensures n < |reqs| ==>
      Execute(p, SlotAt(p, reqs, n), reqs[n]) == Eval(p, Stored(p, None, Stamps(reqs), n), reqs[n].stamp)
  {
    hide Level, Refill;
    if n > 0 {
      SameBuckets(p, reqs, n - 1);
      if n < |reqs| && FindsExpired(reqs, n) {
        StoredWellFormed(p, None, Stamps(reqs), n);
        FullAfterRefill(p, SlotAt(p, reqs, n).value.bucket, reqs[n].stamp);
        FreshIsFull(p, reqs[n].stamp);
      }
    }
  }

  /** As long as no request meets an expired key, or the stamps around an expiry are so far apart that the bucket is
      full by then, nobody can tell that keys expire. */
  lemma ExpiryInvisible(p: Params, reqs: seq<Request>, delay: real)
    requires p.Sane()
    requires NeverExpires(reqs) || (Punctual(reqs, delay) && GapRefills(p, delay))
    ensures DecidesLikeUnexpiring(p, reqs)
  {
    LateRefills(p, reqs, delay);
    hide ExpiryRefills;
    forall n: nat | n < |reqs|
      ensures AllowedWithExpiry(p, reqs, n) <==> Allowed(p, None, Stamps(reqs), n)
    {
      SameBuckets(p, reqs, n);
    }
  }

  /******* When they are not *******/

  /** Empty the bucket at once, and again just after the key expired, with the oldest stamp the delay allows. */
  function DrainTwice(c: nat, delay: real): (reqs: seq<Request>)
    ensures |reqs| == 2 * c
  {
    seq(2 * c, i => if i < c then Request(0.0, 0.0) else Request(JustExpired(delay), Ledger.Max(0.0, StampGap(delay))))
  }

  function JustExpired(delay: real): real {
    KEEP_SECONDS + (StampGap(delay) + 1.0 - (KEEP_SECONDS - delay)) / 2.0
  }

  lemma DrainTwicePunctual(c: nat, delay: real)
    requires delay >= 0.0
    ensures KEEP_SECONDS < JustExpired(delay) <= KEEP_SECONDS + 0.5
    ensures OnTime(Request(JustExpired(delay), Ledger.Max(0.0, StampGap(delay))), delay)
    ensures Punctual(DrainTwice(c, delay), delay)
  {
    assert StampGap(delay) <= KEEP_SECONDS - delay < StampGap(delay) + 1.0;
    var at, stamp := JustExpired(delay), Ledger.Max(0.0, StampGap(delay));
    assert OnTime(Request(0.0, 0.0), delay) && OnTime(Request(at, stamp), delay);
  }

  lemma {:induction false} DrainTwiceAllowed(p: Params, c: nat, delay: real, n: nat)
    requires p.rate >= 0.0 && p.capacity == c as real && delay >= 0.0 && 0 < n <= 2 * c
    ensures var at, stamp := JustExpired(delay), Ledger.Max(0.0, StampGap(delay));
            SlotAt(p, DrainTwice(c, delay), n) ==
            Some(if n <= c then Slot(Bucket(0.0, (c - n) as real), KEEP_SECONDS)
                 else Slot(Bucket(stamp, (2 * c - n) as real), at + KEEP_SECONDS))
    ensures AllowedWithExpiry(p, DrainTwice(c, delay), n - 1)
  {
    hide Refill, JustExpired, StampGap;
    DrainTwicePunctual(c, delay);
    if n > 1 {
      DrainTwiceAllowed(p, c, delay, n - 1);
    }
    NoTimeNoRefill(p.rate);
  }

  lemma DrainTwiceTells(p: Params, c: nat, delay: real)
    requires p.rate >= 0.0 && p.capacity == c as real && c > 0 && delay >= 0.0
    requires DecidesLikeUnexpiring(p, DrainTwice(c, delay))
    ensures GapRefills(p, delay)
  {
    hide Refill, StampGap, JustExpired;
    var reqs := DrainTwice(c, delay);
    var ts, stamp := Stamps(reqs), Ledger.Max(0.0, StampGap(delay));
    assert forall i: nat :: i < |ts| ==> ts[i] == if i < c then 0.0 else stamp;
    forall n: nat | n < |reqs|
      ensures Allowed(p, None, ts, n)
    {
      DrainTwiceAllowed(p, c, delay, n + 1);
    }
    NeverDeniedIffConforms(p, ts);
    assert Fits(p, 2 * c, ts[0], ts[2 * c - 1]);
    NoTimeNoRefill(p.rate);
  }

  /** For the capacities a configuration can hold: when EVAL may lag TIME by `delay`, expiry is invisible on every
      run exactly when the bucket refills in the stamp gap, which is the whole minute without delay. */
  lemma ExpiryInvisibleIff(p: Params, c: nat, delay: real)
    requires p.rate >= 0.0 && p.capacity == c as real && c > 0 && delay >= 0.0
    ensures GapRefills(p, delay)
       <==> forall reqs: seq<Request> :: Punctual(reqs, delay) ==> DecidesLikeUnexpiring(p, reqs)
  {
    hide GapRefills, DecidesLikeUnexpiring;
    if GapRefills(p, delay) {
      forall reqs: seq<Request> | Punctual(reqs, delay)
        ensures DecidesLikeUnexpiring(p, reqs)
      {
        ExpiryInvisible(p, reqs, delay);
      }
    }
    DrainTwicePunctual(c, delay);
    if DecidesLikeUnexpiring(p, DrainTwice(c, delay)) {
      DrainTwiceTells(p, c, delay);
    }
  }

  /** Without delay the stamps around an expiry are a whole minute apart. */
  lemma NoDelayWholeMinute(p: Params)
    ensures GapRefills(p, 0.0) <==> 60.0 * p.rate >= p.capacity
  {
  }
}
