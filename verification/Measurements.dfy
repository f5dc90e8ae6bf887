/**
 * What one more sample does to each measurement. Together with what an empty history gives,
 * these laws say which samples count towards a measurement and with which weight.
 */
module Measurements {
  import opened Common
  import opened Jitter
  import opened MetricsStore
  import opened PacketLoss
  import opened Retention
  import opened Sorting
  import opened Throughput

  /** A sample of another kind than the one asked for; one without a kind is of every kind. */
  predicate OtherKind(sample: Option<TransportKind>, wanted: Option<TransportKind>) {
    wanted.Some? && sample.Some? && sample.value != wanted.value
  }

  lemma {:induction false} FilterOneMore<T>(samples: seq<T>, s: T, keep: T -> bool)
    ensures Filter(samples + [s], keep) == if keep(s) then Filter(samples, keep) + [s] else Filter(samples, keep)
  {
    FilterAppend(samples, [s], keep);
    assert [s][1..] == [];
    assert Filter([s][1..], keep) == [];
  }

  // ------------------------------------------------------------------ packet loss

  /** What the tracker computes. */
  function LossOf(samples: seq<LossSample>, windowMs: real, now: real, kind: Option<TransportKind>): LossStats {
    Stats(Kept(samples, windowMs, now, kind), windowMs, kind)
  }

  /** The sample adds its three counts and itself, and the rate is what is lost of what was sent. */
  predicate LossGrowsBy(a: LossStats, b: LossStats, s: LossSample) {
    && b.sampleCount == a.sampleCount + 1
    && b.totals.sent == a.totals.sent + s.value.sent
    && b.totals.received == a.totals.received + s.value.received
    && b.totals.lost == a.totals.lost + s.value.lost
    && (b.totals.sent <= 0 ==> b.lossRate == 0.0)
    && (b.totals.sent > 0 ==> Times(b.lossRate, b.totals.sent as real) == b.totals.lost as real)
  }

  lemma RateIsShare(t: Totals)
    ensures t.sent <= 0 ==> LossRate(t) == 0.0
    ensures t.sent > 0 ==> Times(LossRate(t), t.sent as real) == t.lost as real
  {
    if t.sent > 0 { DivideThenMultiply(t.lost as real, t.sent as real); }
  }

  /**
   * A sample from before the window, or of another kind than the one asked for, changes nothing;
   * any other is counted. Without samples there are no losses.
   */
  lemma {:induction false} LossCountsSample(samples: seq<LossSample>, s: LossSample, windowMs: real, now: real, kind: Option<TransportKind>)
    ensures LossOf([], windowMs, now, kind) == LossStats(0.0, Totals(0, 0, 0), windowMs, 0, None)
    ensures var a, b := LossOf(samples, windowMs, now, kind), LossOf(samples + [s], windowMs, now, kind);
            if s.timestamp < now - windowMs || OtherKind(s.value.kind, kind) then b == a
            else LossGrowsBy(a, b, s) && b.windowMs == windowMs && b.kind == kind
  {
    hide Kept, LossRate;
    var kept := Kept(samples, windowMs, now, kind);
    KeptOneMore(samples, s, windowMs, now, kind);
    NothingKept(windowMs, now, kind);
    assert (kept + [s])[..|kept|] == kept;
    TotalsOfNone();
    RateIsShare(TotalsOf(kept + [s]));
  }

  lemma {:induction false} KeptOneMore(samples: seq<LossSample>, s: LossSample, windowMs: real, now: real, kind: Option<TransportKind>)
    ensures Kept(samples + [s], windowMs, now, kind) ==
            if s.timestamp < now - windowMs || OtherKind(s.value.kind, kind) then Kept(samples, windowMs, now, kind)
            else Kept(samples, windowMs, now, kind) + [s]
  {
    FilterOneMore(samples, s, (s: LossSample) => s.timestamp >= now - windowMs && OfKind(s.value.kind, kind));
  }

  lemma NothingKept(windowMs: real, now: real, kind: Option<TransportKind>)
    ensures Kept([], windowMs, now, kind) == []
  {
  }

  /** The bucket b of n spans a share of the window, and a sample counts in it exactly when it falls into that span. */
  lemma {:induction false} BucketCountsSample(samples: seq<LossSample>, s: LossSample, windowMs: real, now: real, n: int, b: nat)
    requires 0 <= b < n && Kept(samples, windowMs, now, None) != []
    ensures var v, w := WindowsOf(samples, windowMs, now, n), WindowsOf(samples + [s], windowMs, now, n);
            && |v| == |w| == n
            && w[b].start == v[b].start == now - windowMs + b as real * (windowMs / n as real)
            && w[b].end == v[b].end == v[b].start + windowMs / n as real
            && w[b].totals ==
               (if s.timestamp >= now - windowMs && v[b].start <= s.timestamp < v[b].end
                then Totals(v[b].totals.sent + s.value.sent, v[b].totals.received + s.value.received, v[b].totals.lost + s.value.lost)
                else v[b].totals)
            && (w[b].totals.sent <= 0 ==> w[b].lossRate == 0.0)
            && (w[b].totals.sent > 0 ==> Times(w[b].lossRate, w[b].totals.sent as real) == w[b].totals.lost as real)
  {
    hide Kept, TotalsOf, Bucket, LossRate, Windows;
    var kept, more := Kept(samples, windowMs, now, None), Kept(samples + [s], windowMs, now, None);
    KeptOneMore(samples, s, windowMs, now, None);
    var size := BucketSize(windowMs, n);
    var start := BucketStart(windowMs, now, size, b);
    WindowAt(kept, windowMs, now, size, n, b);
    WindowAt(more, windowMs, now, size, n, b);
    BucketOneMore(kept, s, start, start + size);
    RateIsShare(TotalsOf(Bucket(more, start, start + size)));
  }

  lemma {:induction false} BucketOneMore(kept: seq<LossSample>, s: LossSample, start: real, end: real)
    ensures TotalsOf(Bucket(kept + [s], start, end)) ==
            if start <= s.timestamp < end then Add(TotalsOf(Bucket(kept, start, end)), s) else TotalsOf(Bucket(kept, start, end))
  {
    FilterOneMore(kept, s, (s: LossSample) => s.timestamp >= start && s.timestamp < end);
    var bucket := Bucket(kept, start, end);
    assert (bucket + [s])[..|bucket|] == bucket;
  }

  lemma {:induction false} WindowAt(kept: seq<LossSample>, windowMs: real, now: real, size: real, upTo: nat, b: nat)
    requires b < upTo
    ensures var start := BucketStart(windowMs, now, size, b);
            Windows(kept, windowMs, now, size, upTo)[b] == WindowOf(kept, start, start + size)
  {
    hide WindowOf, BucketStart;
    if b < upTo - 1 { WindowAt(kept, windowMs, now, size, upTo - 1, b); }
  }

  // -------------------------------------------------------------------- smoothing

  /** The share of the old value that is left after n steps. */
  function Left(alpha: real, n: nat): real { if n == 0 then 1.0 else Times(1.0 - alpha, Left(alpha, n - 1)) }

  function Repeated(x: real, n: nat): seq<real> { seq(n, _ => x) }

  /** Feeding one rate n times more leaves (1 - alpha)^n of the distance to it. */
  lemma {:induction false} SmoothingDecays(rates: seq<real>, rate: real, alpha: real, n: nat)
    requires rates != []
    ensures AfterRates(rates, alpha).Some? && AfterRates(rates + Repeated(rate, n), alpha).Some?
    ensures AfterRates(rates + Repeated(rate, n), alpha).value - rate ==
            Times(Left(alpha, n), AfterRates(rates, alpha).value - rate)
    ensures AfterRates([rate], alpha) == Some(rate)
  {
    assert [rate][..0] == [];
    if n == 0 {
      assert rates + Repeated(rate, 0) == rates;
      assert AfterRates(rates, alpha).Some?;
    } else {
      SmoothingDecays(rates, rate, alpha, n - 1);
      var before := rates + Repeated(rate, n - 1);
      var more := rates + Repeated(rate, n);
      assert more[..|more| - 1] == before && more[|more| - 1] == rate;
      BlendStep(alpha, rate, AfterRates(before, alpha).value);
      hide Times;
      Associate(1.0 - alpha, Left(alpha, n - 1), AfterRates(rates, alpha).value - rate);
    }
  }

  lemma BlendStep(alpha: real, rate: real, previous: real)
    ensures Blend(alpha, rate, previous) - rate == Times(1.0 - alpha, previous - rate)
  {
  }

  lemma Associate(x: real, y: real, z: real)
    ensures Times(x, Times(y, z)) == Times(Times(x, y), z)
  {
  }

  // ------------------------------------------------------------------- throughput

  function EstimateFor(samples: seq<BandwidthSample>, windowMs: real, direction: Direction, now: real, rule: TrendRule): Estimate {
    EstimateOf(Rates(KeptFor(samples, windowMs, direction, now)), rule)
  }

  /** The sample is of that direction, or of both. */
  predicate Serves(s: BandwidthSample, direction: Direction) {
    s.value.direction == direction || s.value.direction == Bidirectional
  }

  /** Bytes per second; an interval that is not positive gives no rate. */
  function PerSecond(s: BandwidthSample): real {
    if s.value.intervalMs > 0.0 then s.value.bytes * 1000.0 / s.value.intervalMs else 0.0
  }

  /** The sample adds its rate to the sum that the mean divides, and counts towards the peak. */
  predicate RateGrowsBy(a: Estimate, b: Estimate, rate: real) {
    && b.sampleCount == a.sampleCount + 1
    && Times(b.bytesPerSecond, b.sampleCount as real) == Times(a.bytesPerSecond, a.sampleCount as real) + rate
    && b.bitsPerSecond == 8.0 * b.bytesPerSecond
    && b.peakBytesPerSecond == if a.sampleCount > 0 && a.peakBytesPerSecond > rate then a.peakBytesPerSecond else rate
  }

  lemma {:induction false} RateOneMore(samples: seq<BandwidthSample>, s: BandwidthSample, windowMs: real, direction: Direction, now: real)
    ensures Rates(KeptFor([], windowMs, direction, now)) == []
    ensures Rates(KeptFor(samples + [s], windowMs, direction, now)) ==
            if s.timestamp < now - windowMs || !Serves(s, direction) then Rates(KeptFor(samples, windowMs, direction, now))
            else Rates(KeptFor(samples, windowMs, direction, now)) + [PerSecond(s)]
  {
    FilterOneMore(samples, s, (s: BandwidthSample) => s.timestamp >= now - windowMs && Throughput.Counts(s.value.direction, direction));
  }

  lemma {:induction false} GreatestOneMore(values: seq<real>, x: real)
    ensures Greatest(values + [x]) == if values != [] && Greatest(values) > x then Greatest(values) else x
  {
    var m := if values != [] && Greatest(values) > x then Greatest(values) else x;
    assert forall v :: v in values + [x] <==> v in values || v == x;
    assert m in values + [x];
    hide Greatest;
    GreatestIs(values + [x], m);
  }

  lemma {:induction false} GreatestIs(values: seq<real>, m: real)
    requires m in values && forall v <- values :: v <= m
    ensures Greatest(values) == m
  {
  }

  lemma {:induction false} LeastOneMore(values: seq<real>, x: real)
    ensures Least(values + [x]) == if values != [] && Least(values) < x then Least(values) else x
  {
    var m := if values != [] && Least(values) < x then Least(values) else x;
    assert forall v :: v in values + [x] <==> v in values || v == x;
    assert m in values + [x];
    hide Least;
    LeastIs(values + [x], m);
  }

  /** An estimate's mean times its count is the sum of its rates. */
  lemma {:induction false} EstimateSum(rates: seq<real>, rule: TrendRule)
    ensures var e := EstimateOf(rates, rule);
            Times(e.bytesPerSecond, e.sampleCount as real) == Sum(rates) && e.sampleCount == |rates| && e.bitsPerSecond == 8.0 * e.bytesPerSecond
  {
    hide TrendOf, Greatest;
    if rates == [] {
      assert Sum([]) == 0.0;
    } else {
      hide Sum;
      DivideThenMultiply(Sum(rates), |rates| as real);
    }
  }

  lemma SumOneMore(values: seq<real>, x: real)
    ensures Sum(values + [x]) == Sum(values) + x
  {
    assert (values + [x])[..|values|] == values;
  }

  /**
   * A sample from before the window, or that does not serve the direction, changes nothing; any
   * other adds its bytes per second. Without samples there is no throughput and a stable trend.
   */
  lemma {:induction false} EstimateCountsSample(samples: seq<BandwidthSample>, s: BandwidthSample, windowMs: real, direction: Direction,
                                                now: real, rule: TrendRule)
    ensures EstimateFor([], windowMs, direction, now, rule) == Estimate(0.0, 0.0, 0, 0.0, Stable)
    ensures var a := EstimateFor(samples, windowMs, direction, now, rule);
            var b := EstimateFor(samples + [s], windowMs, direction, now, rule);
            if s.timestamp < now - windowMs || !Serves(s, direction) then b == a else RateGrowsBy(a, b, PerSecond(s))
  {
    RateOneMore(samples, s, windowMs, direction, now);
    var rates := Rates(KeptFor(samples, windowMs, direction, now));
    EstimateSum(rates, rule);
    EstimateSum(rates + [PerSecond(s)], rule);
    SumOneMore(rates, PerSecond(s));
    GreatestOneMore(rates, PerSecond(s));
    hide TrendOf, KeptFor, Rates, Times, Sum, Greatest, Throughput.MeanOf, PerSecond, Serves;
  }

  /**
   * With enough rates, the trend rises exactly when the mean of the later half exceeds that of
   * the earlier one by more than the threshold's share of it, a mean below 1 counting as 1;
   * it falls exactly when it is lower by more than that. With too few it is stable.
   */
  lemma {:induction false} TrendExactlyWhen(rates: seq<real>, rule: TrendRule)
    requires rule.thresholdRatio >= 0.0
    ensures |rates| < rule.minSamples || |rates| < 2 ==> TrendOf(rates, rule) == Stable
    ensures |rates| >= rule.minSamples && |rates| >= 2 ==>
              var m := |rates| / 2;
              var first, second := Sum(rates[..m]) / m as real, Sum(rates[m..]) / (|rates| - m) as real;
              var margin := Times(rule.thresholdRatio, if first > 1.0 then first else 1.0);
              && (TrendOf(rates, rule) == Rising <==> second - first > margin)
              && (TrendOf(rates, rule) == Falling <==> first - second > margin)
  {
    if |rates| >= rule.minSamples && |rates| >= 2 {
      var m := |rates| / 2;
      var first, second := Throughput.MeanOf(rates[..m]), Throughput.MeanOf(rates[m..]);
      var baseline := if first > 1.0 then first else 1.0;
      assert |rates[..m]| == m && |rates[m..]| == |rates| - m;
      OverBaseline(second - first, baseline, rule.thresholdRatio);
      NonNegativeTimes(rule.thresholdRatio, baseline);
      hide Sum, Times;
    }
  }

  lemma OverBaseline(delta: real, baseline: real, ratio: real)
    requires baseline > 0.0
    ensures delta / baseline > ratio <==> delta > Times(ratio, baseline)
    ensures delta / baseline < -ratio <==> -delta > Times(ratio, baseline)
  {
    var q := delta / baseline;
    assert q * baseline == delta;
    if q > ratio { assert (q - ratio) * baseline > 0.0; } else { assert (ratio - q) * baseline >= 0.0; }
    if q < -ratio { assert (-ratio - q) * baseline > 0.0; } else { assert (q + ratio) * baseline >= 0.0; }
  }

  /** Raising the i-th of n rates by d raises the weighted rate by d times 2 (i + 1) / (n (n + 1)). */
  lemma {:induction false} WeightOfEachRate(rates: seq<real>, i: nat, d: real, rule: TrendRule)
    requires i < |rates|
    ensures var n := |rates| as real;
            Times(WeightedOf(rates[i := rates[i] + d], rule).bytesPerSecond - WeightedOf(rates, rule).bytesPerSecond, Times(n, n + 1.0)) ==
            Times(d, 2.0 * (i as real + 1.0))
    ensures WeightedOf(rates, rule).bitsPerSecond == 8.0 * WeightedOf(rates, rule).bytesPerSecond
    ensures WeightedOf(rates, rule).sampleCount == |rates| && WeightedOf(rates, rule).trend == EstimateOf(rates, rule).trend
  {
    hide TrendOf, Greatest, Least, Times, WeightedSum, WeightTotal, WeightAt;
    var raised := rates[i := rates[i] + d];
    var n := |rates|;
    WeightedMean(rates, rule);
    WeightedMean(raised, rule);
    WeightedSumRaised(rates, i, d, n);
    var rise := Times(d, WeightAt(i, n));
    ShareOf(WeightedSum(rates, n), WeightedSum(raised, n), rise, n as real);
    ShareOfOne(d, i, n);
    Combine(WeightedOf(raised, rule).bytesPerSecond - WeightedOf(rates, rule).bytesPerSecond, n as real, rise, d, i as real + 1.0);
  }

  lemma {:induction false} WeightedMean(rates: seq<real>, rule: TrendRule)
    requires rates != []
    ensures WeightedOf(rates, rule).bytesPerSecond == WeightedSum(rates, |rates|) / ((|rates| as real + 1.0) / 2.0)
    ensures WeightedOf(rates, rule).bitsPerSecond == 8.0 * WeightedOf(rates, rule).bytesPerSecond
    ensures WeightedOf(rates, rule).sampleCount == |rates| && WeightedOf(rates, rule).trend == EstimateOf(rates, rule).trend
  {
    hide TrendOf, Greatest, Least, WeightedSum, WeightTotal;
    WeightedRateBetween(rates, rule);
  }

  lemma Combine(x: real, n: real, rise: real, d: real, k: real)
    requires Times(x, n + 1.0) == 2.0 * rise && Times(rise, n) == Times(d, k)
    ensures Times(x, Times(n, n + 1.0)) == Times(d, 2.0 * k)
  {
    Associate(x, n + 1.0, n);
    Swap(n, n + 1.0);
    ShareTwice(rise, n);
    ShareTwice(d, k);
    hide Times;
  }

  lemma Swap(x: real, y: real)
    ensures Times(x, y) == Times(y, x)
  {
  }

  lemma ShareTwice(x: real, y: real)
    ensures Times(2.0 * x, y) == 2.0 * Times(x, y) && Times(x, 2.0 * y) == 2.0 * Times(x, y)
  {
  }

  lemma {:induction false} WeightedSumRaised(rates: seq<real>, i: nat, d: real, k: nat)
    requires i < |rates| && k <= |rates|
    ensures WeightedSum(rates[i := rates[i] + d], k) == WeightedSum(rates, k) + if i < k then Times(d, WeightAt(i, |rates|)) else 0.0
  {
    hide WeightAt, Times;
    if k > 0 {
      WeightedSumRaised(rates, i, d, k - 1);
      SplitTimes(rates[i], d, WeightAt(i, |rates|));
    }
  }

  lemma SplitTimes(x: real, y: real, w: real)
    ensures Times(x + y, w) == Times(x, w) + Times(y, w)
  {
  }

  /** A rise of a sum divided by (n + 1) / 2. */
  lemma ShareOf(before: real, after: real, rise: real, n: real)
    requires n > 0.0 && after == before + rise
    ensures Times(after / ((n + 1.0) / 2.0) - before / ((n + 1.0) / 2.0), n + 1.0) == 2.0 * rise
  {
    var total := (n + 1.0) / 2.0;
    DivideThenMultiply(before, total);
    DivideThenMultiply(after, total);
  }

  lemma ShareOfOne(d: real, i: nat, n: nat)
    requires n > 0
    ensures Times(Times(d, WeightAt(i, n)), n as real) == Times(d, i as real + 1.0)
  {
    Associate(d, WeightAt(i, n), n as real);
    DivideThenMultiply(i as real + 1.0, n as real);
    assert Times(WeightAt(i, n), n as real) == i as real + 1.0;
    hide Times;
  }

  // ---------------------------------------------------------------------- latency

  /** The latencies a calculator uses, oldest sample first. */
  function LatenciesFor(samples: seq<LatencySample>, windowMs: real, now: real, kind: Option<TransportKind>): seq<real> {
    Rtts(FilterSamples(samples, windowMs, now, kind))
  }

  /** The sample adds its round trip to the sum that the mean divides, and to the extremes. */
  predicate LatencyGrowsBy(a: JitterStats, b: JitterStats, rtt: real) {
    && b.sampleCount == a.sampleCount + 1
    && Times(b.meanLatencyMs, b.sampleCount as real) == Times(a.meanLatencyMs, a.sampleCount as real) + rtt
    && b.minLatencyMs == (if a.sampleCount > 0 && a.minLatencyMs < rtt then a.minLatencyMs else rtt)
    && b.maxLatencyMs == (if a.sampleCount > 0 && a.maxLatencyMs > rtt then a.maxLatencyMs else rtt)
  }

  lemma {:induction false} PassingOneMore(samples: seq<LatencySample>, s: LatencySample, windowMs: real, now: real, kind: Option<TransportKind>)
    ensures Passing([], windowMs, now, kind) == []
    ensures Passing(samples + [s], windowMs, now, kind) ==
            if s.timestamp < now - windowMs || OtherKind(s.value.kind, kind) then Passing(samples, windowMs, now, kind)
            else Passing(samples, windowMs, now, kind) + [s]
  {
    FilterOneMore(samples, s, (s: LatencySample) => s.timestamp >= now - windowMs);
    FilterOneMore(Filter(samples, (s: LatencySample) => s.timestamp >= now - windowMs), s, (s: LatencySample) => OfKind(s.value.kind, kind));
  }

  /** The samples used are exactly those that pass, oldest first, and equally old ones in order of arrival. */
  lemma {:induction false} OldestFirst(samples: seq<LatencySample>, windowMs: real, now: real, kind: Option<TransportKind>, k: real)
    ensures var used := FilterSamples(samples, windowMs, now, kind);
            && (forall i, j | 0 <= i < j < |used| :: used[i].timestamp <= used[j].timestamp)
            && multiset(used) ==
               multiset(Filter(samples, (s: LatencySample) => !(s.timestamp < now - windowMs || OtherKind(s.value.kind, kind))))
            && WithKey(used, (s: LatencySample) => s.timestamp, k) ==
               WithKey(Passing(samples, windowMs, now, kind), (s: LatencySample) => s.timestamp, k)
  {
    var byTime := (s: LatencySample) => s.timestamp;
    var passing := Passing(samples, windowMs, now, kind);
    SortAscends(passing, byTime);
    SortIsStable(passing, byTime, k);
    FilterTwice(samples, (s: LatencySample) => s.timestamp >= now - windowMs, (s: LatencySample) => OfKind(s.value.kind, kind),
      (s: LatencySample) => !(s.timestamp < now - windowMs || OtherKind(s.value.kind, kind)));
  }

  /** The latencies used are, as values, those of the samples that pass. */
  lemma {:induction false} UsedValues(samples: seq<LatencySample>, windowMs: real, now: real, kind: Option<TransportKind>)
    ensures forall v :: v in LatenciesFor(samples, windowMs, now, kind) <==> exists s <- Passing(samples, windowMs, now, kind) :: s.value.rttMs == v
  {
    var used, passing := FilterSamples(samples, windowMs, now, kind), Passing(samples, windowMs, now, kind);
    FilterSorts(samples, windowMs, now, kind);
    SortAscends(passing, (s: LatencySample) => s.timestamp);
    hide SortBy, Passing, FilterSamples;
    assert multiset(used) == multiset(passing);
    assert forall s :: s in used <==> s in multiset(used);
    assert forall s :: s in passing <==> s in multiset(passing);
    forall v ensures v in Rtts(used) <==> exists s <- passing :: s.value.rttMs == v {
      if v in Rtts(used) {
        var i :| 0 <= i < |used| && Rtts(used)[i] == v;
        assert used[i] in used && used[i] in passing;
      }
      if s :| s in passing && s.value.rttMs == v {
        assert s in used;
        var i :| 0 <= i < |used| && used[i] == s;
        assert Rtts(used)[i] == v;
      }
    }
  }

  lemma {:induction false} SameValuesSameExtremes(a: seq<real>, b: seq<real>)
    requires forall v :: v in a <==> v in b
    requires a != [] && b != []
    ensures Least(a) == Least(b) && Greatest(a) == Greatest(b)
  {
    hide Least, Greatest;
    LeastIs(a, Least(b));
    GreatestIs(a, Greatest(b));
  }

  /**
   * A sample from before the window, or of another kind than the one asked for, changes nothing;
   * any other is counted, whenever it arrives.
   */
  lemma {:induction false} LatencyCountsSample(samples: seq<LatencySample>, s: LatencySample, jitterMs: real, windowMs: real, now: real,
                                               kind: Option<TransportKind>)
    ensures StatsOf(LatenciesFor([], windowMs, now, kind), jitterMs, windowMs) == JitterStats(0.0, 0.0, 0.0, 0.0, 0, windowMs)
    ensures var a := StatsOf(LatenciesFor(samples, windowMs, now, kind), jitterMs, windowMs);
            var b := StatsOf(LatenciesFor(samples + [s], windowMs, now, kind), jitterMs, windowMs);
            if s.timestamp < now - windowMs || OtherKind(s.value.kind, kind) then b == a
            else LatencyGrowsBy(a, b, s.value.rttMs) && b.jitterMs == jitterMs && b.windowMs == windowMs
  {
    hide Least, Greatest, Sum, Times, Passing, SortBy, OtherKind, RttSum;
    PassingOneMore(samples, s, windowMs, now, kind);
    FilteredTotals([], windowMs, now, kind);
    FilteredTotals(samples, windowMs, now, kind);
    FilteredTotals(samples + [s], windowMs, now, kind);
    var before, after := LatenciesFor(samples, windowMs, now, kind), LatenciesFor(samples + [s], windowMs, now, kind);
    var passing := Passing(samples, windowMs, now, kind);
    if s.timestamp < now - windowMs || OtherKind(s.value.kind, kind) {
      FilterSorts(samples, windowMs, now, kind);
      FilterSorts(samples + [s], windowMs, now, kind);
    } else {
      LatencyStep(before, after, samples, s, jitterMs, windowMs, now, kind);
    }
  }

  lemma FilterSorts(samples: seq<LatencySample>, windowMs: real, now: real, kind: Option<TransportKind>)
    ensures FilterSamples(samples, windowMs, now, kind) == SortBy(Passing(samples, windowMs, now, kind), (s: LatencySample) => s.timestamp)
  {
  }

  lemma {:induction false} LatencyStep(before: seq<real>, after: seq<real>, samples: seq<LatencySample>, s: LatencySample, jitterMs: real,
                                       windowMs: real, now: real, kind: Option<TransportKind>)
    requires before == LatenciesFor(samples, windowMs, now, kind) && after == LatenciesFor(samples + [s], windowMs, now, kind)
    requires Passing(samples + [s], windowMs, now, kind) == Passing(samples, windowMs, now, kind) + [s]
    ensures LatencyGrowsBy(StatsOf(before, jitterMs, windowMs), StatsOf(after, jitterMs, windowMs), s.value.rttMs)
  {
    hide Least, Greatest, Sum, Times, Passing, FilterSamples, RttSum, LatenciesFor;
    FilteredTotals(samples, windowMs, now, kind);
    FilteredTotals(samples + [s], windowMs, now, kind);
    RttSumAppend(Passing(samples, windowMs, now, kind), [s]);
    RttSumOfOne(s);
    UsedValues(samples, windowMs, now, kind);
    UsedValues(samples + [s], windowMs, now, kind);
    SameTotals(before, after, samples, s, windowMs, now, kind);
    MeanTimesCount(before, jitterMs, windowMs);
    MeanTimesCount(after, jitterMs, windowMs);
    var grown := before + [s.value.rttMs];
    assert forall v :: v in grown <==> v in before || v == s.value.rttMs;
    forall v ensures v in after <==> v in grown {
      assert forall x :: x in Passing(samples + [s], windowMs, now, kind) <==> x in Passing(samples, windowMs, now, kind) || x == s;
    }
    SameValuesSameExtremes(after, grown);
    LeastOneMore(before, s.value.rttMs);
    GreatestOneMore(before, s.value.rttMs);
  }

  lemma SameTotals(before: seq<real>, after: seq<real>, samples: seq<LatencySample>, s: LatencySample, windowMs: real, now: real,
                   kind: Option<TransportKind>)
    requires before == LatenciesFor(samples, windowMs, now, kind) && after == LatenciesFor(samples + [s], windowMs, now, kind)
    requires Passing(samples + [s], windowMs, now, kind) == Passing(samples, windowMs, now, kind) + [s]
    ensures |after| == |before| + 1 && Sum(after) == Sum(before) + s.value.rttMs
  {
    hide Sum, Passing, FilterSamples, RttSum;
    FilteredTotals(samples, windowMs, now, kind);
    FilteredTotals(samples + [s], windowMs, now, kind);
    RttSumAppend(Passing(samples, windowMs, now, kind), [s]);
    RttSumOfOne(s);
  }

  lemma RttSumOfOne(s: LatencySample)
    ensures RttSum([s]) == s.value.rttMs
  {
    assert [s][1..] == [];
    assert RttSum([s][1..]) == 0.0;
  }

  /** The calculator remembers what the last call with at least two samples returned, and nothing before such a call. */
  lemma {:induction false} RemembersLastResult(calls: seq<seq<real>>, i: nat)
    requires i < |calls| && |calls[i]| >= 2 && forall j | i < j < |calls| :: |calls[j]| < 2
    ensures AfterCalls(calls) == Some(JitterResult(AfterCalls(calls[..i]), calls[i]))
    ensures (forall j | 0 <= j < i :: |calls[j]| < 2) ==> AfterCalls(calls[..i]) == None
  {
    hide Recurrence;
    if i == |calls| - 1 {
      if forall j | 0 <= j < i :: |calls[j]| < 2 { NothingRemembered(calls[..i]); }
    } else {
      RemembersLastResult(calls[..|calls| - 1], i);
      assert calls[..|calls| - 1][..i] == calls[..i];
    }
  }

  lemma {:induction false} NothingRemembered(calls: seq<seq<real>>)
    requires forall j | 0 <= j < |calls| :: |calls[j]| < 2
    ensures AfterCalls(calls) == None
  {
    if calls != [] { NothingRemembered(calls[..|calls| - 1]); }
  }

  // ----------------------------------------------------------------- a room's peers

  /** The peer's figures enter the room's weighted by its samples, and its extremes as they are. */
  predicate RoomGrowsBy(first: bool, a: JitterStats, b: JitterStats, s: JitterStats) {
    && b.sampleCount == a.sampleCount + s.sampleCount
    && Times(b.jitterMs, AtLeastOne(b.sampleCount)) ==
       Times(a.jitterMs, AtLeastOne(a.sampleCount)) + Times(s.jitterMs, s.sampleCount as real)
    && Times(b.meanLatencyMs, AtLeastOne(b.sampleCount)) ==
       Times(a.meanLatencyMs, AtLeastOne(a.sampleCount)) + Times(s.meanLatencyMs, s.sampleCount as real)
    && b.minLatencyMs == (if !first && a.minLatencyMs < s.minLatencyMs then a.minLatencyMs else s.minLatencyMs)
    && b.maxLatencyMs == (if !first && a.maxLatencyMs > s.maxLatencyMs then a.maxLatencyMs else s.maxLatencyMs)
  }

  /** The room's figures times its samples are the sums over its peers. */
  lemma {:induction false} RoomSums(stats: seq<JitterStats>, windowMs: real)
    ensures var a := AggregateRoomJitter(stats, windowMs);
            && a.sampleCount == Counted(stats)
            && Times(a.jitterMs, AtLeastOne(a.sampleCount)) == Weighted(stats, JitterOf)
            && Times(a.meanLatencyMs, AtLeastOne(a.sampleCount)) == Weighted(stats, Jitter.MeanOf)
  {
    hide Least, Greatest;
    if stats != [] {
      hide Counted, Weighted;
      DivideThenMultiply(Weighted(stats, JitterOf), AtLeastOne(Counted(stats)));
      DivideThenMultiply(Weighted(stats, Jitter.MeanOf), AtLeastOne(Counted(stats)));
    }
  }

  /** One more peer in a room; a room without peers has no figures. */
  lemma {:induction false} RoomCountsPeer(stats: seq<JitterStats>, s: JitterStats, windowMs: real)
    ensures AggregateRoomJitter([], windowMs) == JitterStats(0.0, 0.0, 0.0, 0.0, 0, windowMs)
    ensures var a, b := AggregateRoomJitter(stats, windowMs), AggregateRoomJitter(stats + [s], windowMs);
            RoomGrowsBy(stats == [], a, b, s) && b.windowMs == windowMs
  {
    hide Times, Least, Greatest, Figures, AtLeastOne;
    RoomSums(stats, windowMs);
    RoomSums(stats + [s], windowMs);
    FiguresOneMore(stats, s);
    LeastOneMore(Figures(stats, MinOf), s.minLatencyMs);
    GreatestOneMore(Figures(stats, MaxOf), s.maxLatencyMs);
    WeightedOneMore(stats, s);
    hide Counted, Weighted;
  }

  lemma WeightedOneMore(stats: seq<JitterStats>, s: JitterStats)
    ensures Counted(stats + [s]) == Counted(stats) + s.sampleCount
    ensures Weighted(stats + [s], JitterOf) == Weighted(stats, JitterOf) + Times(s.jitterMs, s.sampleCount as real)
    ensures Weighted(stats + [s], Jitter.MeanOf) == Weighted(stats, Jitter.MeanOf) + Times(s.meanLatencyMs, s.sampleCount as real)
  {
    hide Times;
    assert (stats + [s])[..|stats|] == stats;
  }

  lemma FiguresOneMore(stats: seq<JitterStats>, s: JitterStats)
    ensures Figures(stats + [s], MinOf) == Figures(stats, MinOf) + [s.minLatencyMs]
    ensures Figures(stats + [s], MaxOf) == Figures(stats, MaxOf) + [s.maxLatencyMs]
  {
  }
}
