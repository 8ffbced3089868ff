/** When requests that overtake each other between TIME and EVAL break the plain window bound, on a key that stays. */
module Overtaking {
  import opened Options
  import opened TokenBucket
  import opened Integers
  import Ledger = TokenLedger

  /** Every window admits at most the capacity and the refill over its length. */
  ghost predicate PlainBound(p: Params, ts: seq<real>) {
    forall lo: nat, hi: nat :: lo < hi <= |ts| ==> WithinPlainBound(p, ts, lo, hi)
  }

  ghost predicate WithinPlainBound(p: Params, ts: seq<real>, lo: nat, hi: nat)
    requires lo < hi <= |ts|
  {
    Admitted(p, None, ts, lo, hi) as real <= p.capacity + Refill(p.rate, ts[hi - 1] - ts[lo])
  }

  ghost predicate WholeSeconds(ts: seq<real>) {
    forall i :: 0 <= i < |ts| ==> ts[i] == ts[i].Floor as real
  }

  /** The bucket is emptied at `back`; one request overtaken since 0 puts the refill time back to 0, and the last one
      gets the token earned since then, that is, mostly before the window began. */
  function Overtaken(c: nat, back: nat, last: nat): (ts: seq<real>)
    ensures |ts| == c + 2
  {
    seq(c + 2, i => if i < c then back as real else if i == c then 0.0 else last as real)
  }

  lemma {:induction false} BucketEmptied(p: Params, c: nat, back: nat, last: nat, n: nat)
    requires p.capacity == c as real && n <= c
    ensures n > 0 ==> Stored(p, None, Overtaken(c, back, last), n) == Some(Bucket(back as real, (c - n) as real))
    ensures Admitted(p, None, Overtaken(c, back, last), 0, n) == n
  {
    hide Refill;
    if n > 0 {
      BucketEmptied(p, c, back, last, n - 1);
      NoTimeNoRefill(p.rate);
    }
  }

  /** The overtaken request is denied, the last one is allowed. */
  lemma OneTooMany(p: Params, c: nat, back: nat, last: nat)
    requires p.capacity == c as real && c > 0 && Refill(p.rate, last as real) >= 1.0
    ensures Admitted(p, None, Overtaken(c, back, last), 0, c + 2) == c + 1
  {
    hide Refill;
    var ts := Overtaken(c, back, last);
    BucketEmptied(p, c, back, last, c);
    NoTimeNoRefill(p.rate);
    StepBack(p, back as real, 0.0, 0.0);
    assert Stored(p, None, ts, c + 1) == Some(Bucket(0.0, 0.0));
    assert Gain(p, Some(Bucket(0.0, 0.0)), last as real) == Refill(p.rate, last as real);
    assert Allowed(p, None, ts, c + 1) && !Allowed(p, None, ts, c);
    hide Allowed;
    assert Admitted(p, None, ts, 0, c + 1) == c;
  }

  /** The seconds it takes to earn one token, rounded up. */
  function SecondsPerToken(rate: real): nat
    requires rate > 0.0
  {
    Ceiling(1.0 / rate)
  }

  lemma EarnsOneToken(rate: real, seconds: nat)
    requires rate > 0.0
    ensures seconds >= SecondsPerToken(rate) ==> Refill(rate, seconds as real) >= 1.0
    ensures seconds < SecondsPerToken(rate) ==> Refill(rate, seconds as real) < 1.0
  {
    var token := 1.0 / rate;
    assert token * rate == 1.0;
    if seconds >= SecondsPerToken(rate) {
      assert (seconds as real - token) * rate >= 0.0;
    } else {
      assert (token - seconds as real) * rate > 0.0;
    }
  }

  lemma {:induction false} MovesBack(c: nat, back: nat, last: nat, n: nat)
    requires 0 < n <= c + 2 && c > 0
    ensures Backward(Overtaken(c, back, last), 0, n) == if n <= c then 0.0 else back as real
  {
    if n > 1 {
      MovesBack(c, back, last, n - 1);
    }
  }

  /** However high or low the rate, whatever the capacity and however short the backward movement: one overtaken request
      makes some window admit more than the plain bound. */
  lemma OvertakingBreaksPlainBound(p: Params, c: nat, back: nat) returns (ts: seq<real>)
    requires p.rate > 0.0 && p.capacity == c as real && c > 0 && back > 0
    ensures |ts| > 0 && WholeSeconds(ts) && Backward(ts, 0, |ts|) == back as real
    ensures !WithinPlainBound(p, ts, 0, |ts|)
  {
    hide Refill, Admitted;
    var soon := SecondsPerToken(p.rate);
    assert soon > 0 by {
      PositiveCeiling(p.rate);
    }
    hide SecondsPerToken;
    var last := if soon > back then soon else back;
    ts := Overtaken(c, back, last);
    MovesBack(c, back, last, c + 2);
    EarnsOneToken(p.rate, last);
    EarnsOneToken(p.rate, last - back);
    OneTooMany(p, c, back, last);
    assert ts[c + 1] - ts[0] == (last - back) as real;
  }

  lemma PositiveCeiling(rate: real)
    requires rate > 0.0
    ensures SecondsPerToken(rate) > 0
  {
    assert (1.0 / rate) * rate == 1.0;
  }

  lemma {:induction false} NoBackwardInOrder(ts: seq<real>, hi: nat)
    requires 0 < hi <= |ts| && Backward(ts, 0, hi) == 0.0
    ensures forall i, j :: 0 <= i <= j < hi ==> ts[i] <= ts[j]
  {
    if hi > 1 {
      NoBackwardInOrder(ts, hi - 1);
    }
  }

  /** On all runs whose stamps move back by at most `back` seconds the plain window bound holds exactly when they do not
      move back at all. */
  lemma PlainBoundIff(p: Params, c: nat, back: nat)
    requires p.rate > 0.0 && p.capacity == c as real && c > 0
    ensures back == 0
       <==> forall ts: seq<real> | |ts| > 0 ::
              WholeSeconds(ts) && Backward(ts, 0, |ts|) <= back as real ==> PlainBound(p, ts)
  {
    if back == 0 {
      forall ts: seq<real> | |ts| > 0 && Backward(ts, 0, |ts|) <= 0.0
        ensures PlainBound(p, ts)
      {
        NoBackwardInOrder(ts, |ts|);
        forall lo: nat, hi: nat | lo < hi <= |ts|
          ensures WithinPlainBound(p, ts, lo, hi)
        {
          InOrderBound(p, None, ts, lo, hi);
        }
      }
    } else {
      var ts := OvertakingBreaksPlainBound(p, c, back);
      hide WithinPlainBound;
      assert !PlainBound(p, ts);
    }
  }
}
