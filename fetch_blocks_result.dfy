/** The successful/failed tally of one round of fetches (keepalive.service.reinserter.FetchBlocksResult). */
module FetchBlocksResultModel {

  /**
   * A persistence rate kept as the exact fraction successful / (successful + failed).
   * The fraction 0/0 stands for Java's NaN.
   */
  datatype Rate = Rate(successful: nat, failed: nat) {
    predicate IsNaN() {
      successful + failed == 0
    }

    /** `rate >= tolerance / 100.0`: a NaN rate compares false with everything. */
    predicate AtLeastPercent(tolerance: int) {
      !IsNaN() && 100 * successful >= tolerance * (successful + failed)
    }
  }

  /** The number of occurrences of `v` in `xs`. */
  function Count(xs: seq<bool>, v: bool): nat {
    if |xs| == 0 then 0 else Count(xs[..|xs| - 1], v) + (if xs[|xs| - 1] == v then 1 else 0)
  }

  /** Every call is counted exactly once, as a success or as a failure. */
  lemma {:induction false} CountPartition(xs: seq<bool>)
    ensures Count(xs, true) + Count(xs, false) == |xs|
  {
    if |xs| > 0 {
      CountPartition(xs[..|xs| - 1]);
    }
  }

  class FetchBlocksResult {
    var successful: nat
    var failed: nat
    /** The arguments of every `addResult` call so far. */
    ghost var results: seq<bool>

    ghost predicate Valid()
      reads this
    {
      successful == Count(results, true) && failed == Count(results, false)
    }

    constructor ()
      ensures Valid() && results == []
      ensures successful == 0 && failed == 0
    {
      successful := 0;
      failed := 0;
      results := [];
    }

    /** Records one fetch outcome: exactly one of the two counters goes up by one. */
    method AddResult(ok: bool)
      requires Valid()
      modifies this
      ensures Valid() && results == old(results) + [ok]
      ensures ok ==> successful == old(successful) + 1 && failed == old(failed)
      ensures !ok ==> failed == old(failed) + 1 && successful == old(successful)
    {
      assert (old(results) + [ok])[..|old(results)|] == old(results);
      if ok {
        successful := successful + 1;
      } else {
        failed := failed + 1;
      }
      results := results + [ok];
    }

    /** `calculatePersistenceRate()`: its denominator is the number of recorded results. */
    function PersistenceRate(): (r: Rate)
      requires Valid()
      reads this
      ensures r.successful == Count(results, true)
      ensures r.successful + r.failed == |results|
      ensures r.IsNaN() <==> results == []
    {
      CountPartition(results);
      Rate(successful, failed)
    }
  }

  /** A rate from at least one result lies in [0, 1]: it always meets 0% and never exceeds 100%. */
  lemma RateInUnitInterval(r: Rate, tolerance: int)
    requires !r.IsNaN()
    ensures r.AtLeastPercent(0)
    ensures tolerance > 100 ==> !r.AtLeastPercent(tolerance)
  {
    var t := r.successful + r.failed;
    if tolerance > 100 {
      assert tolerance * t >= 101 * t;
    }
  }

  /** A round without results (NaN) never meets the tolerance, so the segment is not accepted. */
  lemma NaNNeverAccepted(r: Rate, tolerance: int)
    requires r.IsNaN()
    ensures !r.AtLeastPercent(tolerance)
  {
  }

  /** `x / d < m` whenever `0 <= x < d * m`. */
  lemma DivBelow(x: int, d: int, m: int)
    requires 0 <= x && 0 < d && x < d * m
    ensures x / d < m
  {
    var q := x / d;
    assert d * q <= x;
    assert d * q < d * m;
  }

  lemma MulMonotone(a: nat, b: nat, c: nat)
    requires a <= b
    ensures a * c <= b * c
  {
  }

  /** Rounding a share of n at a rate of at most 1 gives at most n. */
  lemma ShareAtMost(s: nat, t: nat, n: nat)
    requires 0 < t && s <= t
    ensures (2 * s * n + t) / (2 * t) <= n
  {
    MulMonotone(2 * s, 2 * t, n);
    assert 2 * s * n + t < 2 * t * (n + 1);
    DivBelow(2 * s * n + t, 2 * t, n + 1);
  }

  /** Euclidean division is determined by the bracket `d * q <= x < d * (q + 1)`. */
  lemma DivUnique(x: int, d: int, q: int)
    requires 0 < d && d * q <= x < d * q + d
    ensures x / d == q
  {
    var p := x / d;
    assert x == d * p + x % d;
    assert d * (p - q) < d && d * (q - p) < d;
    MulBelowDivisor(d, p - q);
    MulBelowDivisor(d, q - p);
  }

  lemma MulBelowDivisor(d: int, e: int)
    requires 0 < d && d * e < d
    ensures e <= 0
  {
    if e > 0 {
      MulMonotone(1, e, d);
    }
  }

  /** `(int) Math.round(rate * n)`: round half up; `Math.round(NaN)` is 0. */
  function RoundedShare(r: Rate, n: nat): (share: nat)
    ensures share <= n
  {
    if r.IsNaN() then 0
    else
      var t := r.successful + r.failed;
      ShareAtMost(r.successful, t, n);
      (2 * r.successful * n + t) / (2 * t)
  }

  /** Rate 1 keeps the whole segment, rate 0 and NaN keep nothing. */
  lemma RoundedShareExtremes(r: Rate, n: nat)
    ensures r.failed == 0 && r.successful > 0 ==> RoundedShare(r, n) == n
    ensures r.successful == 0 ==> RoundedShare(r, n) == 0
  {
    var t := r.successful + r.failed;
    if r.failed == 0 && r.successful > 0 {
      assert 2 * r.successful * n + t == (2 * t) * n + t;
      DivUnique(2 * r.successful * n + t, 2 * t, n);
    }
    if r.successful == 0 && t > 0 {
      DivUnique(t, 2 * t, 0);
    }
  }

  /** The rounded share is the nearest integer to rate * n, halves going up. */
  lemma RoundedShareIsNearest(r: Rate, n: nat)
    requires !r.IsNaN()
    ensures var t := r.successful + r.failed;
      2 * t * RoundedShare(r, n) <= 2 * r.successful * n + t < 2 * t * (RoundedShare(r, n) + 1)
  {
    var t := r.successful + r.failed;
    var x := 2 * r.successful * n + t;
    var q := x / (2 * t);
    assert x == 2 * t * q + x % (2 * t);
  }
}
