/** Denied requests and changes of the configuration on a key that expires. A denied request prolongs the life of the
    key like any other. */
module ExpiringRuns {
  import opened Options
  import opened TokenBucket
  import opened BucketExpiry
  import Ledger = TokenLedger

  /******* Denied requests *******/

  /** What request n of a run finds, writes and is told. */
  function VerdictAt(p: Params, reqs: seq<Request>, n: nat): Verdict
    requires n < |reqs|
  {
    Execute(p, SlotAt(p, reqs, n), reqs[n])
  }

  ghost predicate ErasesDenials(p: Params, reqs: seq<Request>, kept: seq<bool>)
    requires |reqs| == |kept|
  {
    forall n: nat :: n < |reqs| && !kept[n] ==> !AllowedWithExpiry(p, reqs, n)
  }

  /** Without the erased requests, request n is answered alike and leaves the same bucket. */
  ghost predicate AnsweredAlike(p: Params, reqs: seq<Request>, kept: seq<bool>, n: nat)
    requires n < |reqs| == |kept|
  {
    var us, r := Keep(reqs, kept, |reqs|), |Keep(reqs, kept, n)|;
    r < |us| && us[r] == reqs[n] && VerdictAt(p, us, r) == VerdictAt(p, reqs, n)
  }

  ghost predicate ErasureInvisible(p: Params, reqs: seq<Request>, kept: seq<bool>)
    requires |reqs| == |kept|
  {
    forall n: nat :: n < |reqs| && kept[n] ==> AnsweredAlike(p, reqs, kept, n)
  }

  lemma {:induction false} KeptStamps(reqs: seq<Request>, kept: seq<bool>, n: nat)
    requires n <= |reqs| == |kept|
    ensures Stamps(Keep(reqs, kept, n)) == Keep(Stamps(reqs), kept, n)
  {
    if n > 0 {
      KeptStamps(reqs, kept, n - 1);
    }
  }

  lemma {:induction false} KeptPunctual(reqs: seq<Request>, kept: seq<bool>, delay: real, n: nat)
    requires Punctual(reqs, delay) && n <= |reqs| == |kept|
    ensures var us := Keep(reqs, kept, n);
            Punctual(us, delay) && (us != [] ==> us[|us| - 1].at <= reqs[n - 1].at)
  {
    hide OnTime;
    if n > 0 {
      KeptPunctual(reqs, kept, delay, n - 1);
    }
  }

  /** A request's answer follows from the level it sees. */
  lemma SameLevelSameVerdict(p: Params, b: Option<Bucket>, c: Option<Bucket>, now: real)
    requires Level(p, b, now) == Level(p, c, now)
    ensures Eval(p, b, now) == Eval(p, c, now)
  {
  }

  /** As long as nobody finds an expired key that the refill would not have filled, and stamps are in order, erasing
      any set of denied requests leaves the answer and the bucket of every other request as they were. */
  lemma DenialsInvisible(p: Params, reqs: seq<Request>, kept: seq<bool>)
    requires p.Sane() && |reqs| == |kept| && NonDecreasing(Stamps(reqs)) && ErasesDenials(p, reqs, kept)
    requires ExpiryRefills(p, reqs) && ExpiryRefills(p, Keep(reqs, kept, |reqs|))
    ensures ErasureInvisible(p, reqs, kept)
  {
    hide ExpiryRefills, Execute;
    forall n: nat | n < |reqs|
      ensures VerdictAt(p, reqs, n) == Eval(p, Stored(p, None, Stamps(reqs), n), reqs[n].stamp)
    {
      SameBuckets(p, reqs, n);
    }
    assert OnlyDenialsErased(p, None, Stamps(reqs), kept);
    hide OnlyDenialsErased, AnsweredAlike, ErasesDenials, NonDecreasing;
    forall n: nat | n < |reqs| && kept[n]
      ensures AnsweredAlike(p, reqs, kept, n)
    {
      KeptAnsweredAlike(p, reqs, kept, n);
    }
  }

  lemma KeptAnsweredAlike(p: Params, reqs: seq<Request>, kept: seq<bool>, n: nat)
    requires p.Sane() && n < |reqs| == |kept| && kept[n] && NonDecreasing(Stamps(reqs))
    requires OnlyDenialsErased(p, None, Stamps(reqs), kept)
    requires ExpiryRefills(p, reqs) && ExpiryRefills(p, Keep(reqs, kept, |reqs|))
    ensures AnsweredAlike(p, reqs, kept, n)
  {
    hide Level, ExpiryRefills, OnlyDenialsErased, NonDecreasing, Execute, Eval;
    var ts, us, r := Stamps(reqs), Keep(reqs, kept, |reqs|), |Keep(reqs, kept, n)|;
    KeptStamps(reqs, kept, |reqs|);
    KeptStamps(reqs, kept, n);
    KeptPosition(reqs, kept, n, |reqs|);
    DeniedRequestsInvisible(p, None, ts, kept, n);
    SameBuckets(p, reqs, n);
    SameBuckets(p, us, r);
    SameLevelSameVerdict(p, Stored(p, None, Stamps(us), r), Stored(p, None, ts, n), ts[n]);
  }

  lemma PunctualDenialsInvisible(p: Params, reqs: seq<Request>, kept: seq<bool>, delay: real)
    requires p.Sane() && |reqs| == |kept| && NonDecreasing(Stamps(reqs)) && ErasesDenials(p, reqs, kept)
    requires Punctual(reqs, delay) && GapRefills(p, delay)
    ensures ErasureInvisible(p, reqs, kept)
  {
    hide Punctual, ErasesDenials, ErasureInvisible, GapRefills, NonDecreasing, ExpiryRefills;
    KeptPunctual(reqs, kept, delay, |reqs|);
    LateRefills(p, reqs, delay);
    LateRefills(p, Keep(reqs, kept, |reqs|), delay);
    DenialsInvisible(p, reqs, kept);
  }

  /******* A denial that shows *******/

  /** Empty the bucket, be denied just before the second is over, and try to empty it again when the key would have
      expired without that. */
  function DrainDenyDrain(c: nat, delay: real): (reqs: seq<Request>)
    ensures |reqs| == 2 * c + 1
  {
    seq(2 * c + 1, i => if i < c then Request(0.0, 0.0)
                        else if i == c then Request(0.9, 0.0)
                        else Request(JustExpired(delay), Ledger.Max(0.0, StampGap(delay))))
  }

  function AllBut(c: nat): (kept: seq<bool>)
    ensures |kept| == 2 * c + 1
  {
    seq(2 * c + 1, i => i != c)
  }

  lemma {:induction false} DenialErased(c: nat, delay: real, n: nat)
    requires n <= 2 * c + 1
    ensures Keep(DrainDenyDrain(c, delay), AllBut(c), n)
         == DrainTwice(c, delay)[..if n <= c then n else n - 1]
  {
    hide JustExpired, StampGap;
    if n > 0 {
      DenialErased(c, delay, n - 1);
    }
  }

  lemma DrainDenyDrainRegular(c: nat, delay: real)
    requires delay >= 0.0
    ensures Punctual(DrainDenyDrain(c, delay), delay) && NeverExpires(DrainDenyDrain(c, delay))
    ensures NonDecreasing(Stamps(DrainDenyDrain(c, delay)))
  {
    DrainTwicePunctual(c, delay);
    assert OnTime(Request(0.0, 0.0), delay) && OnTime(Request(0.9, 0.0), delay);
    hide JustExpired, StampGap, OnTime;
    var ts := Stamps(DrainDenyDrain(c, delay));
    assert forall i: nat :: i < |ts| ==> ts[i] == if i <= c then 0.0 else Ledger.Max(0.0, StampGap(delay));
  }

  lemma {:induction false} SlotsOfSameStart(p: Params, reqs: seq<Request>, us: seq<Request>, n: nat)
    requires n <= |reqs| && n <= |us| && reqs[..n] == us[..n]
    ensures SlotAt(p, reqs, n) == SlotAt(p, us, n)
  {
    if n > 0 {
      assert reqs[..n][..n - 1] == reqs[..n - 1] && us[..n][..n - 1] == us[..n - 1];
      assert reqs[n - 1] == reqs[..n][n - 1] == us[n - 1];
      SlotsOfSameStart(p, reqs, us, n - 1);
    }
  }

  lemma MiddleDenied(p: Params, c: nat, delay: real)
    requires p.rate >= 0.0 && p.capacity == c as real && c > 0 && delay >= 0.0
    ensures ErasesDenials(p, DrainDenyDrain(c, delay), AllBut(c))
  {
    hide JustExpired, StampGap, Refill;
    var reqs, us := DrainDenyDrain(c, delay), DrainTwice(c, delay);
    assert reqs[..c] == us[..c];
    SlotsOfSameStart(p, reqs, us, c);
    DrainTwiceAllowed(p, c, delay, c);
    NoTimeNoRefill(p.rate);
  }

  lemma {:induction false} AdmittedSplits(p: Params, start: Option<Bucket>, ts: seq<real>, lo: nat, mid: nat, hi: nat)
    requires lo <= mid <= hi <= |ts|
    ensures Admitted(p, start, ts, lo, hi) == Admitted(p, start, ts, lo, mid) + Admitted(p, start, ts, mid, hi)
  {
    if mid < hi {
      AdmittedSplits(p, start, ts, lo, mid, hi - 1);
    }
  }

  /** With the denied request, the second drain finds no more than the refill. */
  lemma DenialTells(p: Params, c: nat, delay: real)
    requires p.rate >= 0.0 && p.capacity == c as real && c > 0 && delay >= 0.0
    requires forall n: nat :: n < 2 * c + 1 && n != c ==> AllowedWithExpiry(p, DrainDenyDrain(c, delay), n)
    ensures GapRefills(p, delay)
  {
    hide JustExpired, StampGap, Refill, Punctual, NeverExpires, Allowed, Admitted, AllowedWithExpiry;
    var reqs := DrainDenyDrain(c, delay);
    var ts := Stamps(reqs);
    DrainDenyDrainRegular(c, delay);
    ExpiryInvisible(p, reqs, delay);
    AllAdmitted(p, None, ts, 0, c);
    AllAdmitted(p, None, ts, c + 1, |ts|);
    AdmittedSplits(p, None, ts, 0, c, |ts|);
    AdmittedSplits(p, None, ts, c, c + 1, |ts|);
    InOrderBound(p, None, ts, 0, |ts|);
    NoTimeNoRefill(p.rate);
    assert ts[|ts| - 1] - ts[0] == Ledger.Max(0.0, StampGap(delay));
  }

  lemma SecondDrainDenied(p: Params, c: nat, delay: real) returns (n: nat)
    requires p.rate >= 0.0 && p.capacity == c as real && c > 0 && delay >= 0.0 && !GapRefills(p, delay)
    ensures n < 2 * c + 1 && n != c && !AllowedWithExpiry(p, DrainDenyDrain(c, delay), n)
  {
    hide GapRefills, AllowedWithExpiry;
    if m: nat :| m < 2 * c + 1 && m != c && !AllowedWithExpiry(p, DrainDenyDrain(c, delay), m) {
      n := m;
    } else {
      DenialTells(p, c, delay);
      assert false;
    }
  }

  /** Whatever the delay: if the stamp gap does not refill the bucket, some run has denied requests that can be seen.
      A denial that keeps an empty bucket from expiring takes a full one from those who come later. */
  lemma DenialProlongs(p: Params, c: nat, delay: real) returns (reqs: seq<Request>, kept: seq<bool>, n: nat)
    requires p.rate >= 0.0 && p.capacity == c as real && c > 0 && delay >= 0.0 && !GapRefills(p, delay)
    ensures |reqs| == |kept| && Punctual(reqs, delay) && NonDecreasing(Stamps(reqs)) && ErasesDenials(p, reqs, kept)
    ensures n < |reqs| && kept[n] && !AllowedWithExpiry(p, reqs, n)
    ensures var us, r := Keep(reqs, kept, |reqs|), |Keep(reqs, kept, n)|;
            r < |us| && us[r] == reqs[n] && AllowedWithExpiry(p, us, r)
  {
    hide GapRefills, Punctual, Allowed, JustExpired, StampGap, Execute;
    reqs, kept := DrainDenyDrain(c, delay), AllBut(c);
    DrainDenyDrainRegular(c, delay);
    MiddleDenied(p, c, delay);
    n := SecondDrainDenied(p, c, delay);
    DenialErased(c, delay, n);
    DenialErased(c, delay, |reqs|);
    assert Keep(reqs, kept, |reqs|) == DrainTwice(c, delay);
    KeptPosition(reqs, kept, n, |reqs|);
    DrainTwiceAllowed(p, c, delay, |Keep(reqs, kept, n)| + 1);
  }

  /** For the capacities a configuration can hold: on all runs with stamps in order and EVAL at most `delay` after TIME,
      denied requests leave no trace exactly when the stamp gap refills the bucket. */
  lemma DenialsInvisibleIff(p: Params, c: nat, delay: real)
    requires p.rate >= 0.0 && p.capacity == c as real && c > 0 && delay >= 0.0
    ensures GapRefills(p, delay)
       <==> forall reqs: seq<Request>, kept: seq<bool> | |reqs| == |kept| ::
              Punctual(reqs, delay) && NonDecreasing(Stamps(reqs)) && ErasesDenials(p, reqs, kept)
              ==> ErasureInvisible(p, reqs, kept)
  {
    hide GapRefills, Punctual, NonDecreasing, ErasesDenials, ErasureInvisible;
    if GapRefills(p, delay) {
      forall reqs: seq<Request>, kept: seq<bool> |
        |reqs| == |kept| && Punctual(reqs, delay) && NonDecreasing(Stamps(reqs)) && ErasesDenials(p, reqs, kept)
        ensures ErasureInvisible(p, reqs, kept)
      {
        PunctualDenialsInvisible(p, reqs, kept, delay);
      }
    } else {
      var reqs, kept, n := DenialProlongs(p, c, delay);
      VisibleAt(p, reqs, kept, n);
    }
  }

  lemma VisibleAt(p: Params, reqs: seq<Request>, kept: seq<bool>, n: nat)
    requires |reqs| == |kept| && n < |reqs| && kept[n] && !AllowedWithExpiry(p, reqs, n)
    requires var us, r := Keep(reqs, kept, |reqs|), |Keep(reqs, kept, n)|;
             r < |us| && us[r] == reqs[n] && AllowedWithExpiry(p, us, r)
    ensures !ErasureInvisible(p, reqs, kept)
  {
    assert !AnsweredAlike(p, reqs, kept, n);
  }

  /** Without delay stamps are always in order. */
  lemma NoDelayInOrder(reqs: seq<Request>)
    requires Punctual(reqs, 0.0)
    ensures NonDecreasing(Stamps(reqs))
  {
    forall i, j | 0 <= i <= j < |reqs|
      ensures Stamps(reqs)[i] <= Stamps(reqs)[j]
    {
      assert reqs[i].at <= reqs[j].at;
      FloorIs(reqs[i].at, reqs[i].stamp.Floor);
      FloorIs(reqs[j].at, reqs[j].stamp.Floor);
    }
  }

  /******* Changes of the configuration *******/

  /** What request i earns before the cap: a full bucket if it finds the key expired. */
  function EarningAt(p: Params, reqs: seq<Request>, i: nat): real
    requires i < |reqs|
  {
    if i == 0 then 0.0
    else if FindsExpired(reqs, i) then p.capacity
    else Refill(p.rate, Ledger.Max(0.0, reqs[i].stamp - reqs[i - 1].stamp))
  }

  function Earnings(p: Params, reqs: seq<Request>): (gains: seq<real>)
    ensures |gains| == |reqs|
    ensures forall i: nat :: i < |reqs| ==> gains[i] == EarningAt(p, reqs, i)
  {
    seq(|reqs|, i requires 0 <= i < |reqs| => EarningAt(p, reqs, i))
  }

  function Leftover(p: Params, reqs: seq<Request>, n: nat): real
    requires n <= |reqs|
  {
    if n == 0 then p.capacity else SlotAt(p, reqs, n).value.bucket.tokens
  }

  lemma EarningsNonNegative(p: Params, reqs: seq<Request>)
    requires p.Sane()
    ensures Ledger.NonNegative(Earnings(p, reqs))
  {
    forall i | 0 <= i < |reqs|
      ensures Earnings(p, reqs)[i] >= 0.0
    {
      if i > 0 {
        ProductNonNegative(Ledger.Max(0.0, reqs[i].stamp - reqs[i - 1].stamp), p.rate);
      }
    }
  }

  /** The level a request finds, live or not. */
  lemma LevelFound(p: Params, reqs: seq<Request>, n: nat)
    requires p.Sane() && n < |reqs| && Leftover(p, reqs, n) >= 0.0
    requires n > 0 ==> SlotAt(p, reqs, n).value.bucket.lastRefill == reqs[n - 1].stamp
    ensures Level(p, LiveBucket(SlotAt(p, reqs, n), reqs[n].at), reqs[n].stamp)
         == Ledger.Min(p.capacity, Leftover(p, reqs, n) + EarningAt(p, reqs, n))
  {
    hide Refill, Execute;
    NoTimeNoRefill(p.rate);
  }

  /** A run on an expiring key is a run of the ledger over its earnings. */
  lemma {:induction false} ExpiringRunIsLedger(p: Params, reqs: seq<Request>, n: nat)
    requires p.Sane() && n <= |reqs|
    ensures Leftover(p, reqs, n) == Ledger.Tokens(p.capacity, p.capacity, Earnings(p, reqs), n)
    ensures n > 0 ==> SlotAt(p, reqs, n).value.bucket.lastRefill == reqs[n - 1].stamp
    ensures n < |reqs| ==>
      (AllowedWithExpiry(p, reqs, n) <==> Ledger.Admits(p.capacity, p.capacity, Earnings(p, reqs), n))
  {
    hide Level, EarningAt, Earnings;
    EarningsNonNegative(p, reqs);
    Ledger.TokensInRange(p.capacity, p.capacity, Earnings(p, reqs), n);
    if n > 0 {
      ExpiringRunIsLedger(p, reqs, n - 1);
      Ledger.TokensInRange(p.capacity, p.capacity, Earnings(p, reqs), n - 1);
      LevelFound(p, reqs, n - 1);
    }
    if n < |reqs| {
      LevelFound(p, reqs, n);
    }
  }

  lemma {:induction false} AdmittedIsLedger(p: Params, reqs: seq<Request>, n: nat)
    requires p.Sane() && n <= |reqs|
    ensures AdmittedWithExpiry(p, reqs, 0, n) == Ledger.Admitted(p.capacity, p.capacity, Earnings(p, reqs), 0, n)
  {
    hide AllowedWithExpiry, Ledger.Admits, Earnings;
    if n > 0 {
      AdmittedIsLedger(p, reqs, n - 1);
      ExpiringRunIsLedger(p, reqs, n - 1);
    }
  }

  /** Raising the rate or the capacity never lowers the number of requests admitted on any prefix of the same requests,
      whatever their instants and stamps and however often the key expires. */
  lemma MonotoneAcrossExpiry(p: Params, q: Params, reqs: seq<Request>, n: nat)
    requires p.Sane() && p.rate <= q.rate && p.capacity <= q.capacity && n <= |reqs|
    ensures AdmittedWithExpiry(p, reqs, 0, n) <= AdmittedWithExpiry(q, reqs, 0, n)
  {
    hide AdmittedWithExpiry, Ledger.Admitted, Refill;
    forall i: nat | i < |reqs|
      ensures Earnings(p, reqs)[i] <= Earnings(q, reqs)[i]
    {
      EarningMonotone(p, q, reqs, i);
    }
    AdmittedIsLedger(p, reqs, n);
    AdmittedIsLedger(q, reqs, n);
    Ledger.LargerLedgerNeverBehind(p.capacity, p.capacity, Earnings(p, reqs),
                                   q.capacity, q.capacity, Earnings(q, reqs), n);
  }

  lemma EarningMonotone(p: Params, q: Params, reqs: seq<Request>, i: nat)
    requires p.rate <= q.rate && p.capacity <= q.capacity && i < |reqs|
    ensures EarningAt(p, reqs, i) <= EarningAt(q, reqs, i)
  {
    if i > 0 {
      ProductMonotone(Ledger.Max(0.0, reqs[i].stamp - reqs[i - 1].stamp), p.rate, q.rate);
    }
  }
}
