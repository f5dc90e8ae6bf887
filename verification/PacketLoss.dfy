/** Packet loss: totals over a window, time buckets, smoothing, and pooling the peers of a room. */
module PacketLoss {
  import opened Common
  import opened Jitter
  import opened MetricsStore
  import opened Retention

  datatype Totals = Totals(sent: int, received: int, lost: int)

  function Plus(a: Totals, b: Totals): Totals { Totals(a.sent + b.sent, a.received + b.received, a.lost + b.lost) }

  function Add(a: Totals, s: LossSample): Totals { Plus(a, Totals(s.value.sent, s.value.received, s.value.lost)) }

  function TotalsOf(samples: seq<LossSample>): Totals {
    if samples == [] then Totals(0, 0, 0) else Add(TotalsOf(samples[..|samples| - 1]), samples[|samples| - 1])
  }

  function LossRate(t: Totals): real { if t.sent > 0 then t.lost as real / t.sent as real else 0.0 }

  datatype LossStats = LossStats(
    lossRate: real, totals: Totals, windowMs: real, sampleCount: nat, kind: Option<TransportKind>)

  datatype LossWindow = LossWindow(start: real, end: real, totals: Totals, lossRate: real)

  function EmptyLossStats(windowMs: real): LossStats { LossStats(0.0, Totals(0, 0, 0), windowMs, 0, None) }

  /** The samples not older than the window, of the wanted kind or of no kind. */
  function Kept(samples: seq<LossSample>, windowMs: real, now: real, kind: Option<TransportKind>): seq<LossSample> {
    Filter(samples, (s: LossSample) => s.timestamp >= now - windowMs && OfKind(s.value.kind, kind))
  }

  function Stats(kept: seq<LossSample>, windowMs: real, kind: Option<TransportKind>): LossStats {
    if kept == [] then EmptyLossStats(windowMs)
    else LossStats(LossRate(TotalsOf(kept)), TotalsOf(kept), windowMs, |kept|, kind)
  }

  /** The samples with start <= timestamp < end. */
  function Bucket(samples: seq<LossSample>, start: real, end: real): seq<LossSample> {
    Filter(samples, (s: LossSample) => s.timestamp >= start && s.timestamp < end)
  }

  function WindowOf(kept: seq<LossSample>, start: real, end: real): LossWindow {
    var totals := TotalsOf(Bucket(kept, start, end));
    LossWindow(start, end, totals, LossRate(totals))
  }

  function BucketSize(windowMs: real, bucketCount: int): real
    requires bucketCount > 0
  {
    windowMs / bucketCount as real
  }

  function BucketStart(windowMs: real, now: real, size: real, bucket: int): real { now - windowMs + bucket as real * size }

  /** The first buckets of the given size. */
  function Windows(kept: seq<LossSample>, windowMs: real, now: real, size: real, upTo: nat): (w: seq<LossWindow>)
    ensures |w| == upTo
  {
    if upTo == 0 then []
    else
      var start := BucketStart(windowMs, now, size, upTo - 1);
      Windows(kept, windowMs, now, size, upTo - 1) + [WindowOf(kept, start, start + size)]
  }

  /** What a request for a number of buckets returns. */
  function WindowsOf(samples: seq<LossSample>, windowMs: real, now: real, bucketCount: int): seq<LossWindow> {
    var kept := Kept(samples, windowMs, now, None);
    if bucketCount <= 0 || kept == [] then []
    else Windows(kept, windowMs, now, BucketSize(windowMs, bucketCount), bucketCount)
  }

  function Blend(alpha: real, x: real, y: real): real { alpha * x + (1.0 - alpha) * y }

  function Smoothed(previous: Option<real>, lossRate: real, alpha: real): real {
    if previous.None? then lossRate else Blend(alpha, lossRate, previous.value)
  }

  /** The ghost rates are the loss rates of the non-empty windows smoothed since the last reset. */
  class PacketLossTracker {
    const windowMs: real
    const smoothingAlpha: real
    var smoothedLossRate: Option<real>
    ghost var rates: seq<real>

    constructor (windowMs: real, smoothingAlpha: real)
      ensures this.windowMs == windowMs && this.smoothingAlpha == smoothingAlpha && smoothedLossRate == None
      ensures Valid()
    {
      this.windowMs, this.smoothingAlpha := windowMs, smoothingAlpha;
      smoothedLossRate, rates := None, [];
    }

    ghost predicate Valid()
      reads this
    {
      smoothedLossRate == AfterRates(rates, smoothingAlpha)
    }

    method ResetSmoothing()
      modifies this
      ensures Valid() && smoothedLossRate == None && rates == []
    {
      smoothedLossRate, rates := None, [];
    }

    method Compute(samples: seq<LossSample>, now: real, kind: Option<TransportKind>) returns (stats: LossStats)
      ensures stats == Stats(Kept(samples, windowMs, now, kind), windowMs, kind)
    {
      var filtered := Kept(samples, windowMs, now, kind);
      if |filtered| == 0 {
        return EmptyLossStats(windowMs);
      }
      var totals := Totals(0, 0, 0);
      for i := 0 to |filtered|
        invariant totals == TotalsOf(filtered[..i])
      {
        assert filtered[..i + 1][..i] == filtered[..i];
        totals := Add(totals, filtered[i]);
      }
      assert filtered[..|filtered|] == filtered;
      var lossRate := if totals.sent > 0 then totals.lost as real / totals.sent as real else 0.0;
      return LossStats(lossRate, totals, windowMs, |filtered|, kind);
    }

    method ComputeSmoothed(samples: seq<LossSample>, now: real, kind: Option<TransportKind>) returns (stats: LossStats)
      requires Valid()
      modifies this
      ensures Valid()
      ensures stats.sampleCount == 0 ==> rates == old(rates)
      ensures stats.sampleCount > 0 ==>
                && |rates| == |old(rates)| + 1 && rates[..|old(rates)|] == old(rates)
                && (0.0 <= smoothingAlpha <= 1.0 ==> Least(rates) <= stats.lossRate <= Greatest(rates))
      ensures var plain := Stats(Kept(samples, windowMs, now, kind), windowMs, kind);
              if plain.sampleCount == 0 then stats == plain && smoothedLossRate == old(smoothedLossRate)
              else
                && smoothedLossRate == Some(Smoothed(old(smoothedLossRate), plain.lossRate, smoothingAlpha))
                && stats == plain.(lossRate := smoothedLossRate.value)
    {
      hide Stats, Kept, Blend, Least, Greatest;
      stats := Compute(samples, now, kind);
      if stats.sampleCount == 0 {
        return stats;
      }
      ghost var before := rates;
      rates := rates + [stats.lossRate];
      assert rates[..|before|] == before;
      if 0.0 <= smoothingAlpha <= 1.0 { SmoothedWithin(rates, smoothingAlpha); }
      if smoothedLossRate.None? {
        smoothedLossRate := Some(stats.lossRate);
      } else {
        smoothedLossRate := Some(Blend(smoothingAlpha, stats.lossRate, smoothedLossRate.value));
      }
      return stats.(lossRate := smoothedLossRate.value);
    }

    method ComputeWindows(samples: seq<LossSample>, bucketCount: int, now: real) returns (windows: seq<LossWindow>)
      ensures windows == WindowsOf(samples, windowMs, now, bucketCount)
    {
      hide TotalsOf, Bucket, Kept, Windows, BucketStart, BucketSize;
      if bucketCount <= 0 {
        return [];
      }
      var filtered := Kept(samples, windowMs, now, None);
      if |filtered| == 0 {
        return [];
      }
      var bucketSizeMs := BucketSize(windowMs, bucketCount);
      windows := [];
      WindowsStep(filtered, windowMs, now, bucketSizeMs, 0);
      for bucket := 0 to bucketCount
        invariant windows == Windows(filtered, windowMs, now, bucketSizeMs, bucket)
      {
        var start := BucketStart(windowMs, now, bucketSizeMs, bucket);
        var end := start + bucketSizeMs;
        var totals := TotalsOf(Bucket(filtered, start, end));
        windows := windows + [LossWindow(start, end, totals, LossRate(totals))];
        WindowsStep(filtered, windowMs, now, bucketSizeMs, bucket);
      }
    }
  }

  lemma WindowsStep(kept: seq<LossSample>, windowMs: real, now: real, size: real, b: nat)
    ensures var start := BucketStart(windowMs, now, size, b);
            Windows(kept, windowMs, now, size, b + 1) ==
            Windows(kept, windowMs, now, size, b) + [WindowOf(kept, start, start + size)]
    ensures Windows(kept, windowMs, now, size, 0) == []
  {
  }

  // ---------------------------------------------------------------- conservation

  lemma {:induction false} TotalsAppend(a: seq<LossSample>, b: seq<LossSample>)
    ensures TotalsOf(a + b) == Plus(TotalsOf(a), TotalsOf(b))
  {
    if b == [] {
      assert a + b == a;
    } else {
      var n := |b| - 1;
      assert (a + b)[..|a + b| - 1] == a + b[..n];
      TotalsAppend(a, b[..n]);
    }
  }

  /** A bucket's totals are the sums of two adjacent buckets'. */
  lemma {:induction false} BucketsJoin(samples: seq<LossSample>, low: real, middle: real, high: real)
    requires low <= middle <= high
    ensures TotalsOf(Bucket(samples, low, high)) ==
            Plus(TotalsOf(Bucket(samples, low, middle)), TotalsOf(Bucket(samples, middle, high)))
  {
    hide TotalsOf, Bucket;
    TotalsOfNone();
    if samples == [] {
      NoSamples(low, high);
      NoSamples(low, middle);
      NoSamples(middle, high);
    } else {
      BucketsJoin(samples[1..], low, middle, high);
      OneMore(samples, low, high);
      OneMore(samples, low, middle);
      OneMore(samples, middle, high);
    }
  }

  lemma NoSamples(start: real, end: real)
    ensures Bucket([], start, end) == []
  {
  }

  lemma OneMore(samples: seq<LossSample>, start: real, end: real)
    requires samples != []
    ensures var first, rest := samples[0], TotalsOf(Bucket(samples[1..], start, end));
            TotalsOf(Bucket(samples, start, end)) ==
            if first.timestamp >= start && first.timestamp < end then Add(rest, first) else rest
  {
    var first := samples[0];
    TotalsAppend([first], Bucket(samples[1..], start, end));
    assert TotalsOf([first]) == Add(TotalsOf([first][..0]), first);
  }

  lemma EmptyBucket(samples: seq<LossSample>, start: real, end: real)
    requires end <= start
    ensures Bucket(samples, start, end) == []
  {
    FilterNone(samples, (s: LossSample) => s.timestamp >= start && s.timestamp < end);
  }

  function SumWindows(windows: seq<LossWindow>): Totals {
    if windows == [] then Totals(0, 0, 0) else Plus(SumWindows(windows[..|windows| - 1]), windows[|windows| - 1].totals)
  }

  lemma BucketEdges(windowMs: real, now: real, bucketCount: int, b: nat)
    requires bucketCount > 0
    ensures var size := BucketSize(windowMs, bucketCount);
            && BucketStart(windowMs, now, size, b + 1) == BucketStart(windowMs, now, size, b) + size
            && BucketStart(windowMs, now, size, 0) == now - windowMs
            && BucketStart(windowMs, now, size, bucketCount) == now
            && (windowMs >= 0.0 ==> size >= 0.0 && BucketStart(windowMs, now, size, b) >= now - windowMs)
            && (windowMs < 0.0 ==> size <= 0.0)
  {
    var size := BucketSize(windowMs, bucketCount);
    assert (b + 1) as real * size == b as real * size + size;
    DivideThenMultiply(windowMs, bucketCount as real);
    if windowMs >= 0.0 { NonNegativeTimes(b as real, size); }
  }

  /** The first buckets together hold what lies between the cutoff and the end of the last of them. */
  lemma {:induction false} WindowsSum(kept: seq<LossSample>, windowMs: real, now: real, bucketCount: int, upTo: nat)
    requires bucketCount > 0 && windowMs >= 0.0
    ensures var size := BucketSize(windowMs, bucketCount);
            SumWindows(Windows(kept, windowMs, now, size, upTo)) ==
            TotalsOf(Bucket(kept, now - windowMs, BucketStart(windowMs, now, size, upTo)))
  {
    hide TotalsOf, Bucket, BucketStart, BucketSize, Windows;
    var size := BucketSize(windowMs, bucketCount);
    if upTo == 0 {
      BucketEdges(windowMs, now, bucketCount, 0);
      EmptyBucket(kept, now - windowMs, now - windowMs);
      TotalsOfNone();
      WindowsStep(kept, windowMs, now, size, 0);
    } else {
      WindowsSum(kept, windowMs, now, bucketCount, upTo - 1);
      BucketEdges(windowMs, now, bucketCount, upTo - 1);
      OneMoreWindow(kept, windowMs, now, size, upTo - 1);
    }
  }

  lemma OneMoreWindow(kept: seq<LossSample>, windowMs: real, now: real, size: real, b: nat)
    requires size >= 0.0 && BucketStart(windowMs, now, size, b) >= now - windowMs
    requires SumWindows(Windows(kept, windowMs, now, size, b)) ==
             TotalsOf(Bucket(kept, now - windowMs, BucketStart(windowMs, now, size, b)))
    ensures SumWindows(Windows(kept, windowMs, now, size, b + 1)) ==
            TotalsOf(Bucket(kept, now - windowMs, BucketStart(windowMs, now, size, b) + size))
  {
    hide TotalsOf, Bucket, BucketStart, Windows, SumWindows;
    var start := BucketStart(windowMs, now, size, b);
    BucketsJoin(kept, now - windowMs, start, start + size);
    WindowsStep(kept, windowMs, now, size, b);
    SumOneMore(Windows(kept, windowMs, now, size, b), WindowOf(kept, start, start + size));
  }

  lemma SumOneMore(windows: seq<LossWindow>, w: LossWindow)
    ensures SumWindows(windows + [w]) == Plus(SumWindows(windows), w.totals)
  {
    assert (windows + [w])[..|windows|] == windows;
  }

  lemma TotalsOfNone()
    ensures TotalsOf([]) == Totals(0, 0, 0)
  {
  }

  /** With a negative window every bucket is empty. */
  lemma {:induction false} BackwardWindowsSum(kept: seq<LossSample>, windowMs: real, now: real, size: real, upTo: nat)
    requires size <= 0.0
    ensures SumWindows(Windows(kept, windowMs, now, size, upTo)) == Totals(0, 0, 0)
  {
    hide TotalsOf, Bucket, BucketStart, Windows;
    TotalsOfNone();
    if upTo == 0 {
      WindowsStep(kept, windowMs, now, size, 0);
    } else {
      var start := BucketStart(windowMs, now, size, upTo - 1);
      BackwardWindowsSum(kept, windowMs, now, size, upTo - 1);
      EmptyBucket(kept, start, start + size);
      WindowsStep(kept, windowMs, now, size, upTo - 1);
      SumOneMore(Windows(kept, windowMs, now, size, upTo - 1), WindowOf(kept, start, start + size));
    }
  }

  /** What the window filter keeps and a bucket inside the window selects is what the bucket selects. */
  lemma BucketOfKept(samples: seq<LossSample>, windowMs: real, now: real)
    ensures Bucket(Kept(samples, windowMs, now, None), now - windowMs, now) == Bucket(samples, now - windowMs, now)
  {
    var inBucket := (s: LossSample) => s.timestamp >= now - windowMs && s.timestamp < now;
    FilterTwice(samples, (s: LossSample) => s.timestamp >= now - windowMs && OfKind(s.value.kind, None), inBucket, inBucket);
  }

  /**
   * However many buckets there are, their totals add up to the totals of the samples from the
   * cutoff up to but not including `now`; with none they do so only if those totals are zero.
   */
  lemma BucketsConserve(samples: seq<LossSample>, windowMs: real, now: real, bucketCount: int)
    ensures SumWindows(WindowsOf(samples, windowMs, now, bucketCount)) == TotalsOf(Bucket(samples, now - windowMs, now)) <==>
            bucketCount > 0 || TotalsOf(Bucket(samples, now - windowMs, now)) == Totals(0, 0, 0)
  {
    hide TotalsOf, BucketStart, BucketSize, Windows, Bucket, Kept;
    var kept := Kept(samples, windowMs, now, None);
    TotalsOfNone();
    BucketOfKept(samples, windowMs, now);
    if bucketCount > 0 {
      BucketEdges(windowMs, now, bucketCount, 0);
      if kept == [] {
        NoSamples(now - windowMs, now);
      } else if windowMs >= 0.0 {
        WindowsSum(kept, windowMs, now, bucketCount, bucketCount);
      } else {
        BackwardWindowsSum(kept, windowMs, now, BucketSize(windowMs, bucketCount), bucketCount);
        EmptyBucket(samples, now - windowMs, now);
      }
    }
  }

  // --------------------------------------------------------------------- the rate

  lemma {:induction false} ValidTotals(samples: seq<LossSample>)
    requires forall s <- samples :: ValidLoss(s)
    ensures var t := TotalsOf(samples); t.sent >= 0 && t.lost >= 0 && t.received >= 0 && t.received + t.lost <= t.sent + |samples|
  {
    if samples != [] {
      var n := |samples| - 1;
      assert ValidLoss(samples[n]);
      ValidTotals(samples[..n]);
    }
  }

  /**
   * The loss rate of valid samples is the lost share of what was sent. It is at most 1 exactly
   * when no more was lost than sent, and validity tolerates one packet too many per sample.
   */
  lemma LossRateOfValid(samples: seq<LossSample>)
    requires forall s <- samples :: ValidLoss(s)
    ensures var t := TotalsOf(samples);
            && 0.0 <= LossRate(t)
            && (t.sent > 0 ==> Times(LossRate(t), t.sent as real) == t.lost as real)
            && t.lost <= t.sent + |samples|
            && (LossRate(t) <= 1.0 <==> t.sent == 0 || t.lost <= t.sent)
  {
    ValidTotals(samples);
    hide TotalsOf, ValidLoss;
    var t := TotalsOf(samples);
    if t.sent > 0 { Share(t.lost as real, t.sent as real); }
  }

  lemma {:induction false} NoMoreLostThanSent(samples: seq<LossSample>)
    requires forall s <- samples :: s.value.lost <= s.value.sent
    ensures TotalsOf(samples).lost <= TotalsOf(samples).sent
  {
    if samples != [] {
      var n := |samples| - 1;
      assert samples[n] in samples;
      NoMoreLostThanSent(samples[..n]);
    }
  }

  /**
   * Samples none of which lost more than it sent have a rate of at most 1 in every time bucket;
   * one that did lose more than it sent, and sent something, is beyond 1 in a bucket of its own.
   */
  lemma {:induction false} BucketRates(samples: seq<LossSample>)
    ensures (forall s <- samples :: s.value.lost <= s.value.sent) ==>
              forall start, end :: LossRate(TotalsOf(Bucket(samples, start, end))) <= 1.0
    ensures forall s <- samples :: s.value.lost > s.value.sent > 0 ==> LossRate(TotalsOf([s])) > 1.0
  {
    if forall s <- samples :: s.value.lost <= s.value.sent {
      forall start, end ensures LossRate(TotalsOf(Bucket(samples, start, end))) <= 1.0 {
        NoMoreLostThanSent(Bucket(samples, start, end));
        RateOfOrdered(TotalsOf(Bucket(samples, start, end)));
      }
    }
    forall s <- samples | s.value.lost > s.value.sent > 0 ensures LossRate(TotalsOf([s])) > 1.0 {
      TotalsOfOne(s);
      RateOfOrdered(TotalsOf([s]));
    }
    hide TotalsOf, LossRate, Bucket;
  }

  lemma {:induction false} RateOfOrdered(t: Totals)
    ensures t.lost <= t.sent ==> LossRate(t) <= 1.0
    ensures t.lost > t.sent > 0 ==> LossRate(t) > 1.0
  {
    if t.sent > 0 {
      if t.lost >= 0 {
        Share(t.lost as real, t.sent as real);
      } else {
        Share(-t.lost as real, t.sent as real);
        assert LossRate(t) == -(-t.lost as real / t.sent as real);
      }
    }
  }

  lemma Share(lost: real, sent: real)
    requires lost >= 0.0 && sent > 0.0
    ensures lost / sent >= 0.0 && Times(lost / sent, sent) == lost && (lost / sent <= 1.0 <==> lost <= sent)
  {
    var q := lost / sent;
    assert q * sent == lost;
    if q > 1.0 { NonNegativeTimes(q - 1.0, sent); } else { NonNegativeTimes(1.0 - q, sent); }
  }

  lemma TotalsOfOne(s: LossSample)
    ensures TotalsOf([s]) == Totals(s.value.sent, s.value.received, s.value.lost)
  {
    assert [s][..0] == [];
  }

  /** A sample of one packet sent and two lost passes validation and has a loss rate of 2. */
  lemma ValidSampleAboveOne(s: LossSample)
    requires s.value.sent == 1 && s.value.received == 0 && s.value.lost == 2
    ensures ValidLoss(s) && LossRate(TotalsOf([s])) == 2.0
  {
    hide TotalsOf;
    TotalsOfOne(s);
  }

  // ------------------------------------------------------------------- smoothing

  /** The smoothed rate after the loss rates of a run of non-empty windows. */
  function AfterRates(rates: seq<real>, alpha: real): Option<real> {
    if rates == [] then None
    else Some(Smoothed(AfterRates(rates[..|rates| - 1], alpha), rates[|rates| - 1], alpha))
  }

  /** With a weight between 0 and 1 the smoothed rate stays within the range of the rates fed. */
  lemma {:induction false} SmoothedWithin(rates: seq<real>, alpha: real)
    requires rates != [] && 0.0 <= alpha <= 1.0
    ensures Least(rates) <= AfterRates(rates, alpha).value <= Greatest(rates)
  {
    hide Smoothed, Least, Greatest;
    var n := |rates| - 1;
    var low, high, last := Least(rates), Greatest(rates), rates[n];
    assert last in rates;
    if n > 0 {
      var before := rates[..n];
      SmoothedWithin(before, alpha);
      assert Least(before) in before && Greatest(before) in before;
      assert Least(before) in rates && Greatest(before) in rates;
      SmoothedBetween(AfterRates(before, alpha), last, alpha, low, high);
    } else {
      assert AfterRates(rates[..0], alpha) == None;
      SmoothedBetween(None, last, alpha, low, high);
    }
  }

  lemma SmoothedBetween(previous: Option<real>, lossRate: real, alpha: real, low: real, high: real)
    requires 0.0 <= alpha <= 1.0 && low <= lossRate <= high && (previous.Some? ==> low <= previous.value <= high)
    ensures low <= Smoothed(previous, lossRate, alpha) <= high
  {
    if previous.Some? { Mix(alpha, lossRate, previous.value, low, high); }
  }

  lemma Mix(alpha: real, x: real, y: real, low: real, high: real)
    requires 0.0 <= alpha <= 1.0 && low <= x <= high && low <= y <= high
    ensures low <= Blend(alpha, x, y) <= high
  {
    var beta := 1.0 - alpha;
    NonNegativeTimes(alpha, x - low);
    NonNegativeTimes(beta, y - low);
    NonNegativeTimes(alpha, high - x);
    NonNegativeTimes(beta, high - y);
    assert alpha * (x - low) == alpha * x - alpha * low && beta * (y - low) == beta * y - beta * low;
    assert alpha * (high - x) == alpha * high - alpha * x && beta * (high - y) == beta * high - beta * y;
    assert alpha * low + beta * low == low && alpha * high + beta * high == high;
  }

  // ----------------------------------------------------------------------- rooms

  function TotalsSum(stats: seq<LossStats>): Totals {
    if stats == [] then Totals(0, 0, 0) else Plus(TotalsSum(stats[..|stats| - 1]), stats[|stats| - 1].totals)
  }

  function CountSum(stats: seq<LossStats>): nat {
    if stats == [] then 0 else CountSum(stats[..|stats| - 1]) + stats[|stats| - 1].sampleCount
  }

  function AggregateRoomLoss(stats: seq<LossStats>, windowMs: real): LossStats {
    if stats == [] then EmptyLossStats(windowMs)
    else LossStats(LossRate(TotalsSum(stats)), TotalsSum(stats), windowMs, CountSum(stats), None)
  }

  function PooledSamples(peers: seq<seq<LossSample>>): seq<LossSample> {
    if peers == [] then [] else PooledSamples(peers[..|peers| - 1]) + peers[|peers| - 1]
  }

  function EachPeerLoss(peers: seq<seq<LossSample>>, windowMs: real, kind: Option<TransportKind>): (stats: seq<LossStats>)
    ensures |stats| == |peers|
  {
    seq(|peers|, i requires 0 <= i < |peers| => Stats(peers[i], windowMs, kind))
  }

  lemma StatsTotals(kept: seq<LossSample>, windowMs: real, kind: Option<TransportKind>)
    ensures var s := Stats(kept, windowMs, kind); s.totals == TotalsOf(kept) && s.sampleCount == |kept|
  {
  }

  lemma {:induction false} PooledLoss(peers: seq<seq<LossSample>>, windowMs: real, kind: Option<TransportKind>)
    ensures var stats := EachPeerLoss(peers, windowMs, kind);
            TotalsSum(stats) == TotalsOf(PooledSamples(peers)) && CountSum(stats) == |PooledSamples(peers)|
  {
    hide TotalsOf, Stats, EachPeerLoss;
    TotalsOfNone();
    if peers != [] {
      var n := |peers| - 1;
      EachPeerStep(peers, windowMs, kind);
      PooledLoss(peers[..n], windowMs, kind);
      StatsTotals(peers[n], windowMs, kind);
      TotalsAppend(PooledSamples(peers[..n]), peers[n]);
    }
  }

  lemma EachPeerStep(peers: seq<seq<LossSample>>, windowMs: real, kind: Option<TransportKind>)
    requires peers != []
    ensures var n := |peers| - 1; var stats := EachPeerLoss(peers, windowMs, kind);
            stats[..n] == EachPeerLoss(peers[..n], windowMs, kind) && stats[n] == Stats(peers[n], windowMs, kind)
  {
  }

  lemma {:induction false} KeptLossIsPooled(peers: seq<seq<LossSample>>, windowMs: real, kind: Option<TransportKind>)
    ensures AggregateRoomLoss(EachPeerLoss(peers, windowMs, kind), windowMs) == Stats(PooledSamples(peers), windowMs, None)
  {
    hide TotalsOf, TotalsSum, CountSum, EachPeerLoss, PooledSamples;
    PooledLoss(peers, windowMs, kind);
    TotalsOfNone();
    if peers == [] {
      assert PooledSamples(peers) == [] by { NothingPooled(); }
    }
  }

  /** What `compute` returns for each peer's samples. */
  function ComputedLoss(peers: seq<seq<LossSample>>, windowMs: real, now: real, kind: Option<TransportKind>): (stats: seq<LossStats>)
    ensures |stats| == |peers|
  {
    seq(|peers|, i requires 0 <= i < |peers| => Stats(Kept(peers[i], windowMs, now, kind), windowMs, kind))
  }

  function KeptEach(peers: seq<seq<LossSample>>, windowMs: real, now: real, kind: Option<TransportKind>): (kept: seq<seq<LossSample>>)
    ensures |kept| == |peers|
  {
    seq(|peers|, i requires 0 <= i < |peers| => Kept(peers[i], windowMs, now, kind))
  }

  /** Filtering by window and kind commutes with pooling. */
  lemma {:induction false} KeptOfPooled(peers: seq<seq<LossSample>>, windowMs: real, now: real, kind: Option<TransportKind>)
    ensures Kept(PooledSamples(peers), windowMs, now, kind) == PooledSamples(KeptEach(peers, windowMs, now, kind))
  {
    if peers != [] {
      var n := |peers| - 1;
      KeptOfPooled(peers[..n], windowMs, now, kind);
      FilterAppend(PooledSamples(peers[..n]), peers[n],
        (s: LossSample) => s.timestamp >= now - windowMs && OfKind(s.value.kind, kind));
      assert KeptEach(peers, windowMs, now, kind)[..n] == KeptEach(peers[..n], windowMs, now, kind);
    }
  }

  /** Aggregating what `compute` returns for each peer equals computing over all the peers' samples at once. */
  lemma {:induction false} RoomLossIsPooled(peers: seq<seq<LossSample>>, windowMs: real, now: real, kind: Option<TransportKind>)
    ensures AggregateRoomLoss(ComputedLoss(peers, windowMs, now, kind), windowMs) ==
            Stats(Kept(PooledSamples(peers), windowMs, now, kind), windowMs, None)
  {
    hide AggregateRoomLoss, Stats, Kept, PooledSamples;
    KeptOfPooled(peers, windowMs, now, kind);
    KeptLossIsPooled(KeptEach(peers, windowMs, now, kind), windowMs, kind);
    assert ComputedLoss(peers, windowMs, now, kind) == EachPeerLoss(KeptEach(peers, windowMs, now, kind), windowMs, kind);
  }

  lemma NothingPooled()
    ensures PooledSamples([]) == []
  {
  }
}
