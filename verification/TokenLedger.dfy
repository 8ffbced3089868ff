/** A token bucket seen through what each request earns before the cap: `gains[n]` is the refill credited
    to request n. Everything here is linear, so the theorems about whole runs are proved here and carried
    over to the script's timestamps in module TokenBucket. */
module TokenLedger {
  function Min(x: real, y: real): real { if x <= y then x else y }

  function Max(x: real, y: real): real { if x <= y then y else x }

  /** The tokens left in the bucket before request n earns its gain. */
  function Tokens(capacity: real, first: real, gains: seq<real>, n: nat): real
    requires n <= |gains|
    decreases n, 0
  {
    if n == 0 then first
    else
      var level := Level(capacity, first, gains, n - 1);
      if level >= 1.0 then level - 1.0 else level
  }

  /** The tokens request n sees. */
  function Level(capacity: real, first: real, gains: seq<real>, n: nat): real
    requires n < |gains|
    decreases n, 1
  {
    Min(capacity, Tokens(capacity, first, gains, n) + gains[n])
  }

  predicate Admits(capacity: real, first: real, gains: seq<real>, n: nat)
    requires n < |gains|
  {
    Level(capacity, first, gains, n) >= 1.0
  }

  /** How many of the requests lo..hi-1 are admitted. */
  function Admitted(capacity: real, first: real, gains: seq<real>, lo: nat, hi: nat): (count: nat)
    requires lo <= hi <= |gains|
    ensures count <= hi - lo
  {
    if lo == hi then 0
    else Admitted(capacity, first, gains, lo, hi - 1) + if Admits(capacity, first, gains, hi - 1) then 1 else 0
  }

  function Sum(gains: seq<real>, lo: nat, hi: nat): real
    requires lo <= hi <= |gains|
  {
    if lo == hi then 0.0 else Sum(gains, lo, hi - 1) + gains[hi - 1]
  }

  ghost predicate NonNegative(gains: seq<real>) {
    forall i :: 0 <= i < |gains| ==> gains[i] >= 0.0
  }

  lemma {:induction false} TokensInRange(capacity: real, first: real, gains: seq<real>, n: nat)
    requires 0.0 <= first <= capacity && NonNegative(gains) && n <= |gains|
    ensures 0.0 <= Tokens(capacity, first, gains, n) <= capacity
    ensures n < |gains| ==> 0.0 <= Level(capacity, first, gains, n) <= capacity
  {
    if n > 0 {
      TokensInRange(capacity, first, gains, n - 1);
    }
  }

  /** What the window of requests k..n leaves for request n: a full bucket at request k, the gains since
      then, less what the requests k..n-1 took. */
  function WindowSlack(capacity: real, first: real, gains: seq<real>, k: nat, n: nat): real
    requires k <= n < |gains|
  {
    capacity + Sum(gains, k + 1, n + 1) - Admitted(capacity, first, gains, k, n) as real
  }

  /** Starting full, the level before request n is the least slack of all windows ending at n: it is below
      every one of them and equals that of some request k. */
  lemma {:induction false} LevelIsLeastSlack(capacity: real, gains: seq<real>, n: nat) returns (k: nat)
    requires capacity >= 0.0 && NonNegative(gains) && n < |gains|
    ensures forall i: nat :: i <= n ==>
      Level(capacity, capacity, gains, n) <= WindowSlack(capacity, capacity, gains, i, n)
    ensures k <= n && Level(capacity, capacity, gains, n) == WindowSlack(capacity, capacity, gains, k, n)
  {
    if n == 0 {
      k := 0;
    } else {
      k := LevelIsLeastSlack(capacity, gains, n - 1);
      forall i: nat | i <= n
        ensures Level(capacity, capacity, gains, n) <= WindowSlack(capacity, capacity, gains, i, n)
      {
        if i < n {
          assert Level(capacity, capacity, gains, n - 1) <= WindowSlack(capacity, capacity, gains, i, n - 1);
        }
      }
      if Level(capacity, capacity, gains, n) == capacity {
        k := n;
      }
    }
  }

  /** A bucket with a larger capacity, a fuller start and larger gains is never behind: neither in requests
      admitted nor in tokens plus requests admitted. */
  lemma {:induction false} LargerLedgerNeverBehind(c: real, f: real, gs: seq<real>,
                                                   d: real, g: real, hs: seq<real>, n: nat)
    requires c <= d && f <= g && |gs| == |hs| && n <= |gs|
    requires forall i :: 0 <= i < |gs| ==> gs[i] <= hs[i]
    ensures Admitted(c, f, gs, 0, n) <= Admitted(d, g, hs, 0, n)
    ensures Tokens(c, f, gs, n) + Admitted(c, f, gs, 0, n) as real
         <= Tokens(d, g, hs, n) + Admitted(d, g, hs, 0, n) as real
  {
    if n > 0 {
      LargerLedgerNeverBehind(c, f, gs, d, g, hs, n - 1);
    }
  }

  /** Requests lo..hi-1 took no more than the capacity and the gains after lo; the rest is still there. */
  lemma {:induction false} Conservation(capacity: real, first: real, gains: seq<real>, lo: nat, hi: nat)
    requires lo < hi <= |gains|
    ensures Admitted(capacity, first, gains, lo, hi) as real + Tokens(capacity, first, gains, hi)
         <= capacity + Sum(gains, lo + 1, hi)
  {
    if lo + 1 < hi {
      Conservation(capacity, first, gains, lo, hi - 1);
    } else {
      assert Admitted(capacity, first, gains, lo, lo) == 0;
    }
  }
}
