/** Bandwidth estimates from byte counts: plain and recency-weighted means, and percentile rates. */
module Throughput {
  import opened Common
  import opened Jitter
  import opened MetricsStore
  import opened Retention
  import opened Sorting

  datatype Trend = Rising | Stable | Falling

  /** How many rates a trend needs, and by what share of the earlier mean the later one must differ. */
  datatype TrendRule = TrendRule(minSamples: int, thresholdRatio: real)

  const DefaultTrendRule: TrendRule := TrendRule(3, 0.15)

  datatype Estimate = Estimate(
    bytesPerSecond: real,
    bitsPerSecond: real,
    sampleCount: nat,
    peakBytesPerSecond: real,
    trend: Trend
  )

  function NoEstimate(): Estimate { Estimate(0.0, 0.0, 0, 0.0, Stable) }

  function RateOf(s: BandwidthSample): real {
    if s.value.intervalMs <= 0.0 then 0.0 else s.value.bytes * 1000.0 / s.value.intervalMs
  }

  /** A bidirectional sample counts for either direction; the bidirectional query sees only those. */
  predicate Counts(sample: Direction, wanted: Direction) { sample == Bidirectional || (wanted != Bidirectional && sample == wanted) }

  function KeptFor(samples: seq<BandwidthSample>, windowMs: real, direction: Direction, now: real): seq<BandwidthSample> {
    Filter(samples, (s: BandwidthSample) => s.timestamp >= now - windowMs && Counts(s.value.direction, direction))
  }

  function Rates(kept: seq<BandwidthSample>): (r: seq<real>)
    ensures |r| == |kept|
  {
    seq(|kept|, i requires 0 <= i < |kept| => RateOf(kept[i]))
  }

  function MeanOf(rates: seq<real>): real
    requires rates != []
  {
    Sum(rates) / |rates| as real
  }

  /** The mean of the later half against that of the earlier one, which counts as at least 1. */
  function TrendOf(rates: seq<real>, rule: TrendRule): Trend {
    var midpoint := |rates| / 2;
    if |rates| < rule.minSamples || midpoint == 0 then Stable
    else
      var first := MeanOf(rates[..midpoint]);
      var second := MeanOf(rates[midpoint..]);
      var delta := (second - first) / (if first > 1.0 then first else 1.0);
      if first == 0.0 && second == 0.0 then Stable
      else if delta > rule.thresholdRatio then Rising
      else if delta < -rule.thresholdRatio then Falling
      else Stable
  }

  function EstimateOf(rates: seq<real>, rule: TrendRule): Estimate {
    if rates == [] then NoEstimate()
    else Estimate(MeanOf(rates), MeanOf(rates) * 8.0, |rates|, Greatest(rates), TrendOf(rates, rule))
  }

  // ------------------------------------------------------------- recency weights

  /** The i-th of n samples weighs (i + 1) / n. */
  function WeightAt(i: nat, n: nat): real
    requires n > 0
  {
    (i as real + 1.0) / n as real
  }

  function WeightedSum(rates: seq<real>, k: nat): real
    requires k <= |rates|
  {
    if k == 0 then 0.0 else WeightedSum(rates, k - 1) + Times(rates[k - 1], WeightAt(k - 1, |rates|))
  }

  function WeightTotal(n: nat, k: nat): real
    requires k <= n
  {
    if k == 0 then 0.0 else WeightTotal(n, k - 1) + WeightAt(k - 1, n)
  }

  function WeightedOf(rates: seq<real>, rule: TrendRule): Estimate {
    var n := |rates|;
    if n == 0 then NoEstimate()
    else
      var total := WeightTotal(n, n);
      var mean := if total > 0.0 then WeightedSum(rates, n) / total else 0.0;
      Estimate(mean, mean * 8.0, n, Greatest(rates), TrendOf(rates, rule))
  }

  function PercentileOf(rates: seq<real>, percentile: real): real {
    var clamped := if percentile < 0.0 then 0.0 else if percentile > 100.0 then 100.0 else percentile;
    if rates == [] then 0.0 else Percentile(Sorted(rates), clamped)
  }

  class BandwidthEstimator {
    const windowMs: real
    const trendRule: TrendRule

    constructor (windowMs: real, trendRule: TrendRule)
      ensures this.windowMs == windowMs && this.trendRule == trendRule
    {
      this.windowMs := windowMs;
      this.trendRule := trendRule;
    }

    method EstimateRate(samples: seq<BandwidthSample>, direction: Direction, now: real) returns (estimate: Estimate)
      ensures estimate == EstimateOf(Rates(KeptFor(samples, windowMs, direction, now)), trendRule)
    {
      var filtered := KeptFor(samples, windowMs, direction, now);
      if |filtered| == 0 {
        return NoEstimate();
      }
      var rates := Rates(filtered);
      var bytesPerSecond := Sum(rates) / |rates| as real;
      return Estimate(bytesPerSecond, bytesPerSecond * 8.0, |filtered|, Greatest(rates), TrendOf(rates, trendRule));
    }

    method WeightedEstimate(samples: seq<BandwidthSample>, direction: Direction, now: real) returns (estimate: Estimate)
      ensures estimate == WeightedOf(Rates(KeptFor(samples, windowMs, direction, now)), trendRule)
    {
      hide Times, WeightAt, KeptFor, RateOf, Greatest, TrendOf;
      var filtered := KeptFor(samples, windowMs, direction, now);
      var n := |filtered|;
      if n == 0 {
        return NoEstimate();
      }
      var weightedSum, weightTotal, rates := 0.0, 0.0, [];
      ghost var all := Rates(filtered);
      for index := 0 to n
        invariant rates == all[..index]
        invariant weightedSum == WeightedSum(all, index) && weightTotal == WeightTotal(n, index)
      {
        var rate := RateOf(filtered[index]);
        var recencyWeight := WeightAt(index, n);
        weightedSum := weightedSum + Times(rate, recencyWeight);
        weightTotal := weightTotal + recencyWeight;
        rates := rates + [rate];
      }
      assert rates == all;
      var bytesPerSecond := if weightTotal > 0.0 then weightedSum / weightTotal else 0.0;
      return Estimate(bytesPerSecond, bytesPerSecond * 8.0, n, Greatest(rates), TrendOf(rates, trendRule));
    }

    method PercentileRate(samples: seq<BandwidthSample>, direction: Direction, percentile: real, now: real) returns (rate: real)
      ensures rate == PercentileOf(Rates(KeptFor(samples, windowMs, direction, now)), percentile)
    {
      var filtered := KeptFor(samples, windowMs, direction, now);
      if |filtered| == 0 {
        return 0.0;
      }
      var clampedPercentile := if percentile < 0.0 then 0.0 else if percentile > 100.0 then 100.0 else percentile;
      var rates := Sorted(Rates(filtered));
      var index := Ceiling(Rank(clampedPercentile, |rates|)) - 1;
      IndexInRange(clampedPercentile, |rates|);
      return rates[if index < 0 then 0 else index];
    }
  }

  /** A clamped percentage never indexes past the end. */
  lemma IndexInRange(percentile: real, n: nat)
    requires 0.0 <= percentile <= 100.0 && n > 0
    ensures Ceiling(Rank(percentile, n)) - 1 < n
  {
    RankOrder(percentile, 100.0, n);
  }

  /**
   * The percentile rate is the nearest rank of the percentage clamped to 100, and the least
   * rate at or below 0; it rises with the percentage and ignores the order of the samples.
   */
  lemma PercentileRateIsNearestRank(rates: seq<real>, shuffled: seq<real>, p: real, q: real)
    requires rates != [] && multiset(shuffled) == multiset(rates)
    ensures p > 0.0 ==> IsNearestRank(rates, if p > 100.0 then 100.0 else p, PercentileOf(rates, p))
    ensures p <= 0.0 ==> PercentileOf(rates, p) == Least(rates)
    ensures p <= q ==> PercentileOf(rates, p) <= PercentileOf(rates, q)
    ensures PercentileOf(shuffled, p) == PercentileOf(rates, p)
  {
    hide Percentile, IsNearestRank, Sorted;
    assert |multiset(shuffled)| == |multiset(rates)|;
    SortedIgnoresOrder(rates, shuffled);
    if p > 0.0 {
      PercentileIsNearestRank(rates, if p > 100.0 then 100.0 else p);
    } else {
      LowestPercentile(rates);
    }
    if p <= q {
      PercentileMonotone(rates, if p < 0.0 then 0.0 else if p > 100.0 then 100.0 else p,
        if q < 0.0 then 0.0 else if q > 100.0 then 100.0 else q);
    }
  }

  lemma LowestPercentile(rates: seq<real>)
    requires rates != []
    ensures Percentile(Sorted(rates), 0.0) == Least(rates)
  {
    hide SortBy;
    var s := Sorted(rates);
    SortedIs(rates);
    assert Rank(0.0, |s|) == 0.0;
    assert s[0] in s;
    forall v <- rates ensures s[0] <= v { assert v in s; }
    LeastIs(rates, s[0]);
  }

  // -------------------------------------------------------------- weighted means

  /** n weights up to k add up to k (k + 1) / (2 n). */
  lemma {:induction false} WeightsAddUp(n: nat, k: nat)
    requires 0 < n && k <= n
    ensures WeightTotal(n, k) == Times(k as real, (k as real + 1.0) / 2.0) / n as real
  {
    hide Times;
    Triangle(k as real);
    if k > 0 {
      WeightsAddUp(n, k - 1);
      AddQuotients(Times(k as real - 1.0, k as real / 2.0), k as real, n as real);
    }
  }

  lemma Triangle(x: real)
    ensures Times(x - 1.0, x / 2.0) + x == Times(x, (x + 1.0) / 2.0) && (x == 0.0 ==> Times(x, (x + 1.0) / 2.0) == 0.0)
  {
  }

  lemma AddQuotients(x: real, y: real, n: real)
    requires n > 0.0
    ensures x / n + y / n == (x + y) / n
  {
  }

  lemma {:induction false} WeightedSumBetween(rates: seq<real>, low: real, high: real, k: nat)
    requires k <= |rates| && forall r <- rates :: low <= r <= high
    ensures low * WeightTotal(|rates|, k) <= WeightedSum(rates, k) <= high * WeightTotal(|rates|, k)
  {
    if k > 0 {
      hide WeightAt, Times;
      WeightedSumBetween(rates, low, high, k - 1);
      assert rates[k - 1] in rates;
      WeightPositive(k - 1, |rates|);
      OneWeight(rates[k - 1], low, high, WeightAt(k - 1, |rates|));
      Distribute(low, WeightTotal(|rates|, k - 1), WeightAt(k - 1, |rates|));
      Distribute(high, WeightTotal(|rates|, k - 1), WeightAt(k - 1, |rates|));
    }
  }

  lemma WeightPositive(i: nat, n: nat)
    requires n > 0
    ensures WeightAt(i, n) > 0.0
  {
  }

  lemma OneWeight(rate: real, low: real, high: real, weight: real)
    requires low <= rate <= high && weight > 0.0
    ensures low * weight <= Times(rate, weight) <= high * weight
  {
    assert (rate - low) * weight >= 0.0 && (high - rate) * weight >= 0.0;
  }

  lemma Distribute(a: real, x: real, y: real)
    ensures a * (x + y) == a * x + a * y
  {
  }

  /** The weights total (n + 1) / 2, and the weighted rate lies between the least and the peak rate. */
  lemma WeightedRateBetween(rates: seq<real>, rule: TrendRule)
    requires rates != []
    ensures WeightTotal(|rates|, |rates|) == (|rates| as real + 1.0) / 2.0
    ensures Least(rates) <= WeightedOf(rates, rule).bytesPerSecond <= Greatest(rates) == WeightedOf(rates, rule).peakBytesPerSecond
  {
    hide WeightedSum, WeightTotal, Least, Greatest, Times;
    var n := |rates|;
    WeightsAddUp(n, n);
    CancelFactor(n as real, (n as real + 1.0) / 2.0);
    WeightedSumBetween(rates, Least(rates), Greatest(rates), n);
    QuotientBetween(WeightedSum(rates, n), Least(rates), Greatest(rates), WeightTotal(n, n));
  }

  lemma CancelFactor(m: real, x: real)
    requires m > 0.0
    ensures Times(m, x) / m == x
  {
  }

  lemma {:induction false} SumBetween(rates: seq<real>, low: real, high: real)
    requires forall r <- rates :: low <= r <= high
    ensures Times(low, |rates| as real) <= Sum(rates) <= Times(high, |rates| as real)
  {
    hide Times;
    if rates == [] {
      TimesSum(low, 0.0, 0.0);
      TimesSum(high, 0.0, 0.0);
    } else {
      var n := |rates| - 1;
      assert rates[n] in rates;
      forall r <- rates[..n] ensures low <= r <= high { assert r in rates; }
      SumBetween(rates[..n], low, high);
      TimesSuccessor(low, n as real);
      TimesSuccessor(high, n as real);
      assert |rates| as real == n as real + 1.0;
    }
  }

  lemma TimesSuccessor(x: real, m: real)
    ensures Times(x, m + 1.0) == Times(x, m) + x
  {
  }

  /** The plain rate, too, lies between the least and the peak rate. */
  lemma MeanRateBetween(rates: seq<real>, rule: TrendRule)
    requires rates != []
    ensures Least(rates) <= EstimateOf(rates, rule).bytesPerSecond <= Greatest(rates) == EstimateOf(rates, rule).peakBytesPerSecond
  {
    hide Sum, Least, Greatest, TrendOf, MeanOf;
    MeanBetween(rates, Least(rates), Greatest(rates));
  }

  lemma {:induction false} MeanBetween(rates: seq<real>, low: real, high: real)
    requires rates != [] && forall r <- rates :: low <= r <= high
    ensures low <= MeanOf(rates) <= high
  {
    hide Sum;
    SumBetween(rates, low, high);
    QuotientBetween(Sum(rates), low, high, |rates| as real);
  }

  /**
   * With a threshold that is not negative, a rising trend has a later rate above an earlier one
   * across the middle, and a falling trend a later rate below an earlier one.  Rates that never
   * fall are therefore never reported as falling, nor constant ones as anything but stable.
   */
  lemma {:induction false} TrendHasWitness(rates: seq<real>, rule: TrendRule)
    requires rule.thresholdRatio >= 0.0
    ensures TrendOf(rates, rule).Rising? ==> exists i, j | 0 <= i < |rates| / 2 <= j < |rates| :: rates[i] < rates[j]
    ensures TrendOf(rates, rule).Falling? ==> exists i, j | 0 <= i < |rates| / 2 <= j < |rates| :: rates[i] > rates[j]
  {
    hide MeanOf, Least, Greatest;
    var m := |rates| / 2;
    if TrendOf(rates, rule) != Stable {
      var first, second := MeanOf(rates[..m]), MeanOf(rates[m..]);
      DeltaSign(second - first, if first > 1.0 then first else 1.0);
      if forall i, j | 0 <= i < m <= j < |rates| :: rates[i] >= rates[j] {
        HalvesDescend(rates, m);
      }
      if forall i, j | 0 <= i < m <= j < |rates| :: rates[i] <= rates[j] {
        HalvesAscend(rates, m);
      }
    }
  }

  lemma DeltaSign(difference: real, baseline: real)
    requires baseline > 0.0
    ensures difference <= 0.0 ==> difference / baseline <= 0.0
    ensures difference >= 0.0 ==> difference / baseline >= 0.0
  {
  }

  lemma {:induction false} HalvesDescend(rates: seq<real>, m: nat)
    requires 0 < m < |rates| && forall i, j | 0 <= i < m <= j < |rates| :: rates[i] >= rates[j]
    ensures MeanOf(rates[..m]) >= MeanOf(rates[m..])
  {
    hide MeanOf;
    MeanBetween(rates[..m], Greatest(rates[m..]), Greatest(rates[..m]));
    MeanBetween(rates[m..], Least(rates[m..]), Greatest(rates[m..]));
  }

  lemma {:induction false} HalvesAscend(rates: seq<real>, m: nat)
    requires 0 < m < |rates| && forall i, j | 0 <= i < m <= j < |rates| :: rates[i] <= rates[j]
    ensures MeanOf(rates[..m]) <= MeanOf(rates[m..])
  {
    hide MeanOf;
    MeanBetween(rates[..m], Least(rates[..m]), Greatest(rates[..m]));
    MeanBetween(rates[m..], Greatest(rates[..m]), Greatest(rates[m..]));
  }

  lemma QuotientBetween(x: real, low: real, high: real, m: real)
    requires m > 0.0 && low * m <= x <= high * m
    ensures low <= x / m <= high
  {
    var q := x / m;
    assert q * m == x;
    assert q < low ==> (low - q) * m > 0.0;
    assert q > high ==> (q - high) * m > 0.0;
  }
}
