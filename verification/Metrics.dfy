/** The benchmark reporter: recording latencies and computing percentiles. Latencies are whole nanoseconds; the
    floating-point index and weight are idealised as reals, the final conversion to nanoseconds truncates. */
module Metrics {
  import opened Integers

  ghost predicate Sorted(s: seq<int>) {
    forall i, j :: 0 <= i <= j < |s| ==> s[i] <= s[j]
  }

  /** percentile: the value at position p * (n - 1), interpolated between its two neighbours. */
  function Percentile(s: seq<int>, p: real): int {
    if |s| == 0 then 0
    else if p <= 0.0 then s[0]
    else if p >= 1.0 then s[|s| - 1]
    else
      IndexInRange(p, |s| - 1);
      Interpolate(s, Index(p, |s| - 1))
  }

  function Index(p: real, top: nat): real { p * top as real }

  lemma IndexInRange(p: real, top: nat)
    requires 0.0 < p < 1.0
    ensures 0.0 <= Index(p, top) <= top as real
  {
  }

  lemma IndexMonotone(p: real, q: real, top: nat)
    requires p <= q
    ensures Index(p, top) <= Index(q, top)
  {
    assert q * top as real - p * top as real == (q - p) * top as real;
  }

  function Interpolate(s: seq<int>, index: real): int
    requires |s| > 0 && 0.0 <= index <= (|s| - 1) as real
  {
    var lower, upper := index.Floor, Ceiling(index);
    if lower == upper then s[lower]
    else s[lower] + Scale(index - lower as real, s[upper] - s[lower])
  }

  /** time.Duration(weight * float64(width)), for non-negative operands. */
  function Scale(weight: real, width: int): int { (weight * width as real).Floor }

  lemma ScaleBounds(weight: real, width: int)
    requires 0.0 <= weight <= 1.0 && width >= 0
    ensures 0 <= Scale(weight, width) <= width
  {
    assert 0.0 <= weight * width as real <= width as real;
  }

  lemma ScaleMonotone(v: real, w: real, width: int)
    requires v <= w && width >= 0
    ensures Scale(v, width) <= Scale(w, width)
  {
    assert w * width as real - v * width as real == (w - v) * width as real;
    assert (w - v) * width as real >= 0.0;
  }

  /** An interpolated value lies between its neighbours. */
  lemma BetweenNeighbours(s: seq<int>, index: real)
    requires Sorted(s) && |s| > 0 && 0.0 <= index <= (|s| - 1) as real
    ensures s[index.Floor] <= Interpolate(s, index) <= s[Ceiling(index)]
  {
    hide Scale;
    var lower := index.Floor;
    if lower != Ceiling(index) {
      ScaleBounds(index - lower as real, s[lower + 1] - s[lower]);
    }
  }

  lemma InterpolateMonotone(s: seq<int>, i: real, j: real)
    requires Sorted(s) && |s| > 0 && 0.0 <= i <= j <= (|s| - 1) as real
    ensures Interpolate(s, i) <= Interpolate(s, j)
  {
    hide Scale;
    BetweenNeighbours(s, i);
    BetweenNeighbours(s, j);
    var a, b := i.Floor, j.Floor;
    if a == b && i != j {
      if i == a as real {
        assert Interpolate(s, i) == s[a];
      } else {
        ScaleMonotone(i - a as real, j - a as real, s[a + 1] - s[a]);
      }
    } else if a < b {
      assert Ceiling(i) <= b;
    }
  }

  /** For a sorted list the percentile never decreases with p and never leaves the list's range. */
  lemma PercentileMonotone(s: seq<int>, p: real, q: real)
    requires Sorted(s) && |s| > 0 && p <= q
    ensures s[0] <= Percentile(s, p) <= Percentile(s, q) <= s[|s| - 1]
  {
    hide Interpolate, Index;
    PercentileInRange(s, p);
    PercentileInRange(s, q);
    if 0.0 < p && q < 1.0 {
      IndexInRange(p, |s| - 1);
      IndexInRange(q, |s| - 1);
      IndexMonotone(p, q, |s| - 1);
      InterpolateMonotone(s, Index(p, |s| - 1), Index(q, |s| - 1));
    }
  }

  lemma PercentileInRange(s: seq<int>, p: real)
    requires Sorted(s) && |s| > 0
    ensures s[0] <= Percentile(s, p) <= s[|s| - 1]
  {
    hide Interpolate, Index;
    if 0.0 < p < 1.0 {
      IndexInRange(p, |s| - 1);
      BetweenNeighbours(s, Index(p, |s| - 1));
    }
  }

  /** The point at `p * (n - 1)` on the line through the sorted list's entries. */
  ghost function OnTheLine(s: seq<int>, x: real): real
    requires |s| > 0 && 0.0 <= x <= (|s| - 1) as real
  {
    var k := x.Floor;
    if k + 1 < |s| then s[k] as real + (x - k as real) * (s[k + 1] - s[k]) as real else s[k] as real
  }

  /** The percentile is that point, rounded down. */
  lemma PercentileOnTheLine(s: seq<int>, p: real)
    requires Sorted(s) && |s| > 0 && 0.0 < p < 1.0
    ensures var n: nat := |s| - 1;
            var x := p * n as real;
            && 0.0 <= x <= (|s| - 1) as real
            && Percentile(s, p) == OnTheLine(s, x).Floor
  {
    hide Interpolate, OnTheLine, Index, Sorted;
    IndexIs(p, |s| - 1);
    IndexInRange(p, |s| - 1);
    InterpolateOnTheLine(s, Index(p, |s| - 1));
  }

  lemma IndexIs(p: real, top: nat)
    ensures Index(p, top) == p * top as real
  {
  }

  lemma InterpolateOnTheLine(s: seq<int>, x: real)
    requires |s| > 0 && 0.0 <= x <= (|s| - 1) as real
    ensures Interpolate(s, x) == OnTheLine(s, x).Floor
  {
    var k := x.Floor;
    if k + 1 < |s| {
      var rise := (x - k as real) * (s[k + 1] - s[k]) as real;
      FloorOfSum(s[k], rise);
      if x == k as real {
        assert rise == 0.0;
      }
    }
  }

  lemma FloorOfSum(n: int, x: real)
    ensures (n as real + x).Floor == n + x.Floor
  {
  }

  /** Outside of (0, 1) it is the smallest and the largest latency. */
  lemma PercentileAtEnds(s: seq<int>, p: real)
    requires |s| > 0
    ensures p <= 0.0 ==> Percentile(s, p) == s[0]
    ensures p >= 1.0 ==> Percentile(s, p) == s[|s| - 1]
  {
  }

  /******* The collector *******/

  function Sum(s: seq<int>): int { if s == [] then 0 else Sum(s[..|s| - 1]) + s[|s| - 1] }

  /** The order of the summands does not matter. */
  lemma {:induction false} SumOfPermutation(s: seq<int>, t: seq<int>)
    requires multiset(s) == multiset(t)
    ensures Sum(s) == Sum(t)
  {
    assert |s| == |multiset(s)| == |multiset(t)| == |t|;
    if s != [] {
      var n := |s| - 1;
      var x := s[n];
      assert x in multiset(t);
      var i :| 0 <= i < |t| && t[i] == x;
      SumWithout(t, i);
      MultisetWithout(t, i);
      MultisetWithout(s, n);
      assert s[..n] + s[n + 1..] == s[..n];
      SumOfPermutation(s[..n], t[..i] + t[i + 1..]);
    }
  }

  lemma MultisetWithout(t: seq<int>, i: nat)
    requires i < |t|
    ensures multiset(t[..i] + t[i + 1..]) == multiset(t) - multiset{t[i]}
  {
    assert t == t[..i] + [t[i]] + t[i + 1..];
  }

  lemma {:induction false} SumWithout(t: seq<int>, i: nat)
    requires i < |t|
    ensures Sum(t) == Sum(t[..i] + t[i + 1..]) + t[i]
  {
    var n := |t| - 1;
    if i < n {
      SumWithout(t[..n], i);
      assert (t[..i] + t[i + 1..])[..n - 1] == t[..n][..i] + t[..n][i + 1..];
    } else {
      assert t[..i] + t[i + 1..] == t[..n];
    }
  }

  function Times(n: int, x: int): int { n * x }

  lemma OneMore(n: int, x: int)
    ensures Times(n + 1, x) == Times(n, x) + x
  {
  }

  lemma {:induction false} SumBounds(s: seq<int>, lo: int, hi: int)
    requires forall x :: x in s ==> lo <= x <= hi
    ensures Times(|s|, lo) <= Sum(s) <= Times(|s|, hi)
  {
    if s == [] {
      assert Times(0, lo) == 0 == Times(0, hi);
    } else {
      hide Times;
      var n := |s| - 1;
      assert s[n] in s && forall x :: x in s[..n] ==> x in s;
      SumBounds(s[..n], lo, hi);
      OneMore(n, lo);
      OneMore(n, hi);
    }
  }

  lemma MeanInRange(total: int, n: nat, lo: int, hi: int)
    requires n > 0 && Times(n, lo) <= total <= Times(n, hi)
    ensures lo <= Quotient(total, n) <= hi
  {
    if total >= 0 {
      DivisionRest(total, n);
      QuotientInRange(total / n, n, total % n, lo, hi);
    } else {
      DivisionRest(-total, n);
      assert n * -hi == -(n * hi) && n * -lo == -(n * lo);
      QuotientInRange((-total) / n, n, (-total) % n, -hi, -lo);
    }
  }

  lemma DivisionRest(x: int, n: int)
    requires x >= 0 && n > 0
    ensures x == n * (x / n) + x % n && 0 <= x % n < n
  {
  }

  lemma ProductMonotone(n: int, a: int, b: int)
    requires n >= 0 && a <= b
    ensures n * a <= n * b
  {
  }

  lemma QuotientInRange(q: int, n: int, rest: int, lo: int, hi: int)
    requires n > 0 && 0 <= rest < n && n * lo <= n * q + rest <= n * hi
    ensures lo <= q <= hi
  {
    assert n * (q + 1) == n * q + n;
    if q < lo {
      ProductMonotone(n, q + 1, lo);
    }
    assert n * (hi + 1) == n * hi + n;
    if q > hi {
      ProductMonotone(n, hi + 1, q);
    }
  }

  datatype LatencyMetrics = LatencyMetrics(min: int, max: int, mean: int, p50: int, p90: int, p95: int, p99: int,
                                           p999: int, count: int, total: int)

  const NO_METRICS: LatencyMetrics := LatencyMetrics(0, 0, 0, 0, 0, 0, 0, 0, 0, 0)

  function MetricsOf(s: seq<int>): LatencyMetrics
    requires |s| > 0
  {
    LatencyMetrics(s[0], s[|s| - 1], Quotient(Sum(s), |s|), Percentile(s, 0.5), Percentile(s, 0.9),
                   Percentile(s, 0.95), Percentile(s, 0.99), Percentile(s, 0.999), |s|, Sum(s))
  }

  /** Min, the percentiles and Max come in order, and the mean lies between Min and Max. */
  lemma MetricsInOrder(s: seq<int>)
    requires Sorted(s) && |s| > 0
    ensures var m := MetricsOf(s);
            && m.min <= m.p50 <= m.p90 <= m.p95 <= m.p99 <= m.p999 <= m.max
            && m.min <= m.mean <= m.max
  {
    hide Percentile, Quotient;
    PercentileMonotone(s, 0.5, 0.9);
    PercentileMonotone(s, 0.9, 0.95);
    PercentileMonotone(s, 0.95, 0.99);
    PercentileMonotone(s, 0.99, 0.999);
    SumBounds(s, s[0], s[|s| - 1]);
    MeanInRange(Sum(s), |s|, s[0], s[|s| - 1]);
  }

  lemma RangeOfSorted(s: seq<int>, t: seq<int>)
    requires Sorted(s) && |s| > 0 && multiset(s) == multiset(t)
    ensures s[0] in t && s[|s| - 1] in t && forall x :: x in t ==> s[0] <= x <= s[|s| - 1]
  {
    assert forall x :: x in s <==> x in multiset(s);
    assert forall x :: x in t <==> x in multiset(t);
  }

  lemma ShareOf(part: nat, all: nat)
    requires part <= all && all > 0
    ensures var rate := part as real / all as real * 100.0;
            && 0.0 <= rate <= 100.0
            && rate * all as real == part as real * 100.0
            && (rate == 100.0 <==> part == all)
  {
    var share := part as real / all as real;
    assert share * all as real == part as real;
    AtMostOne(share, all as real);
  }

  lemma AtMostOne(share: real, all: real)
    requires all > 0.0 && share * all <= all
    ensures share <= 1.0
    ensures share * all == all ==> share == 1.0
  {
    assert (1.0 - share) * all == all - share * all;
  }

  class MetricsCollector {
    var latencies: seq<int>
    var errors: nat
    var total: nat

    constructor ()
      ensures latencies == [] && errors == 0 && total == 0
    {
      latencies, errors, total := [], 0, 0;
    }

    /** Every recorded operation is either a latency or an error. */
    ghost predicate Balanced()
      reads this
    {
      total == |latencies| + errors
    }

    method RecordLatency(duration: int)
      requires Balanced()
      modifies this
      ensures Balanced() && latencies == old(latencies) + [duration] && errors == old(errors)
    {
      latencies := latencies + [duration];
      total := total + 1;
    }

    method RecordError()
      requires Balanced()
      modifies this
      ensures Balanced() && latencies == old(latencies) && errors == old(errors) + 1
    {
      errors := errors + 1;
      total := total + 1;
    }

    /** The success rate of GenerateReport, in percent: the share of latencies among all operations. */
    method SuccessRate() returns (rate: real)
      requires Balanced()
      ensures 0.0 <= rate <= 100.0
      ensures rate * total as real == |latencies| as real * 100.0
      ensures rate == 100.0 <==> latencies != [] && errors == 0
    {
      rate := 0.0;
      if total > 0 {
        rate := (total - errors) as real / total as real * 100.0;
        ShareOf(|latencies|, total);
      }
    }

    /** The metrics of the recorded latencies, whatever order they came in; the collector is not changed. */
    method CalculateMetrics() returns (m: LatencyMetrics, ghost sorted: seq<int>)
      ensures latencies == [] ==> m == NO_METRICS
      ensures latencies != [] ==>
        && Sorted(sorted) && multiset(sorted) == multiset(latencies) && |sorted| > 0 && m == MetricsOf(sorted)
        && m.count == |latencies| && m.total == Sum(latencies) && m.mean == Quotient(Sum(latencies), |latencies|)
        && m.min in latencies && m.max in latencies && (forall x :: x in latencies ==> m.min <= x <= m.max)
        && m.p50 == Percentile(sorted, 0.5) && m.p90 == Percentile(sorted, 0.9) && m.p95 == Percentile(sorted, 0.95)
        && m.p99 == Percentile(sorted, 0.99) && m.p999 == Percentile(sorted, 0.999)
    {
      if |latencies| == 0 {
        return NO_METRICS, [];
      }
      var s := Sort(latencies);
      hide Sorted, Percentile, Quotient;
      assert |s| == |multiset(s)| == |multiset(latencies)| == |latencies|;
      var sum := 0;
      for i := 0 to |s|
        invariant sum == Sum(s[..i])
      {
        assert s[..i + 1][..i] == s[..i];
        sum := sum + s[i];
      }
      assert s[..|s|] == s;
      m := LatencyMetrics(s[0], s[|s| - 1], Quotient(sum, |s|), Percentile(s, 0.5), Percentile(s, 0.9),
                          Percentile(s, 0.95), Percentile(s, 0.99), Percentile(s, 0.999), |s|, sum);
      sorted := s;
      SumOfPermutation(s, latencies);
      RangeOfSorted(s, latencies);
    }
  }

  /** sort.Slice stands for any sorting method; this one inserts. */
  method Sort(input: seq<int>) returns (s: seq<int>)
    ensures Sorted(s) && multiset(s) == multiset(input)
  {
    s := [];
    for i := 0 to |input|
      invariant Sorted(s) && multiset(s) == multiset(input[..i])
    {
      assert input[..i + 1] == input[..i] + [input[i]];
      s := Insert(s, input[i]);
    }
    assert input[..|input|] == input;
  }

  lemma InsertSorted(s: seq<int>, x: int, k: nat)
    requires Sorted(s) && k <= |s|
    requires (forall j :: 0 <= j < k ==> s[j] <= x) && (k < |s| ==> x <= s[k])
    ensures Sorted(s[..k] + [x] + s[k..])
  {
    var t := s[..k] + [x] + s[k..];
    forall i, j | 0 <= i <= j < |t|
      ensures t[i] <= t[j]
    {
      assert j > k ==> x <= s[k] <= s[j - 1];
    }
  }

  method Insert(s: seq<int>, x: int) returns (t: seq<int>)
    requires Sorted(s)
    ensures Sorted(t) && multiset(t) == multiset(s) + multiset{x}
  {
    var k := 0;
    while k < |s| && s[k] < x
      invariant k <= |s| && forall j :: 0 <= j < k ==> s[j] < x
    {
      k := k + 1;
    }
    assert s == s[..k] + s[k..];
    t := s[..k] + [x] + s[k..];
    InsertSorted(s, x, k);
  }
}
