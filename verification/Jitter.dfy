/**
 * Latency statistics: the interarrival jitter recurrence of section 6.4.1 of RFC 3550 applied
 * to round-trip differences, latency percentiles, and pooling the peers of a room.
 */
module Jitter {
  import opened Common
  import opened MetricsStore
  import opened Retention
  import opened Sorting

  function Abs(x: real): real { if x < 0.0 then -x else x }

  function Times(x: real, y: real): real { x * y }

  function Sum(values: seq<real>): real {
    if values == [] then 0.0 else Sum(values[..|values| - 1]) + values[|values| - 1]
  }

  function Least(values: seq<real>): (m: real)
    requires values != []
    ensures m in values && forall v <- values :: m <= v
  {
    if |values| == 1 then values[0]
    else
      var rest := Least(values[1..]);
      assert values == [values[0]] + values[1..];
      if values[0] <= rest then values[0] else rest
  }

  function Greatest(values: seq<real>): (m: real)
    requires values != []
    ensures m in values && forall v <- values :: v <= m
  {
    if |values| == 1 then values[0]
    else
      var rest := Greatest(values[1..]);
      assert values == [values[0]] + values[1..];
      if values[0] >= rest then values[0] else rest
  }

  // ------------------------------------------------------------ the recurrence

  /** One step of the recurrence per pair of neighbours, from a starting value. */
  function Recurrence(latencies: seq<real>, start: real): real {
    var n := |latencies|;
    if n < 2 then start
    else
      var before := Recurrence(latencies[..n - 1], start);
      before + (Abs(latencies[n - 1] - latencies[n - 2]) - before) / 16.0
  }

  /** (15/16)^k */
  function Decay(k: nat): real { if k == 0 then 1.0 else 0.9375 * Decay(k - 1) }

  function Term(latencies: seq<real>, i: nat): real
    requires 1 <= i < |latencies|
  {
    Abs(latencies[i] - latencies[i - 1]) / 16.0 * Decay(|latencies| - 1 - i)
  }

  /** The first i terms of the closed form. */
  function Terms(latencies: seq<real>, i: nat): real
    requires i < |latencies|
  {
    if i == 0 then 0.0 else Terms(latencies, i - 1) + Term(latencies, i)
  }

  lemma TermDecays(latencies: seq<real>, i: nat)
    requires 1 <= i < |latencies| - 1
    ensures Term(latencies, i) == 0.9375 * Term(latencies[..|latencies| - 1], i)
  {
    var n := |latencies|;
    assert Decay(n - 1 - i) == 0.9375 * Decay(n - 2 - i);
    Regroup(Abs(latencies[i] - latencies[i - 1]) / 16.0, Decay(n - 2 - i));
  }

  lemma Regroup(a: real, b: real)
    ensures a * (0.9375 * b) == 0.9375 * (a * b)
  {
  }

  lemma {:induction false} TermsDecay(latencies: seq<real>, i: nat)
    requires i < |latencies| - 1
    ensures Terms(latencies, i) == 0.9375 * Terms(latencies[..|latencies| - 1], i)
  {
    if i > 0 {
      TermsDecay(latencies, i - 1);
      TermDecays(latencies, i);
    }
  }

  /** The recurrence is the decayed start plus the sum of |delta_i| / 16 * (15/16)^(n - i). */
  lemma {:induction false} ClosedForm(latencies: seq<real>, start: real)
    requires latencies != []
    ensures Recurrence(latencies, start) == start * Decay(|latencies| - 1) + Terms(latencies, |latencies| - 1)
  {
    var n := |latencies|;
    if n > 1 {
      ClosedForm(latencies[..n - 1], start);
      TermsDecay(latencies, n - 2);
      Regroup(start, Decay(n - 2));
      assert Decay(0) == 1.0;
    }
  }

  /** The recurrence never leaves a band that holds its start and every difference. */
  lemma {:induction false} RecurrenceBounded(latencies: seq<real>, start: real, low: real, high: real, bound: real)
    requires forall v <- latencies :: low <= v <= high
    requires 0.0 <= start <= bound && high - low <= bound
    ensures 0.0 <= Recurrence(latencies, start) <= bound
  {
    var n := |latencies|;
    if n >= 2 {
      var before := latencies[..n - 1];
      forall v <- before ensures low <= v <= high { assert v in latencies; }
      RecurrenceBounded(before, start, low, high, bound);
      assert latencies[n - 1] in latencies && latencies[n - 2] in latencies;
    }
  }

  function Spread(latencies: seq<real>): (s: real)
    ensures s >= 0.0
  {
    if latencies == [] then 0.0 else Greatest(latencies) - Least(latencies)
  }

  // -------------------------------------------------- the calculator's one field

  /** The remembered jitter after a call that saw the given latencies. */
  function NextJitter(last: Option<real>, latencies: seq<real>): Option<real> {
    if |latencies| < 2 then last else Some(Recurrence(latencies, if last.Some? then last.value else 0.0))
  }

  /** What such a call returns: fewer than two samples give 0 whatever is remembered. */
  function JitterResult(last: Option<real>, latencies: seq<real>): real {
    if |latencies| < 2 then 0.0 else Recurrence(latencies, if last.Some? then last.value else 0.0)
  }

  /** The remembered jitter after a run of calls on a fresh calculator. */
  function AfterCalls(calls: seq<seq<real>>): Option<real> {
    if calls == [] then None else NextJitter(AfterCalls(calls[..|calls| - 1]), calls[|calls| - 1])
  }

  function LargestSpread(calls: seq<seq<real>>): (s: real)
    ensures s >= 0.0
  {
    if calls == [] then 0.0
    else
      var before, last := LargestSpread(calls[..|calls| - 1]), Spread(calls[|calls| - 1]);
      if last >= before then last else before
  }

  /** Over any run of calls the jitter stays between 0 and the largest spread fed so far. */
  lemma {:induction false} JitterNeverExceedsSpread(calls: seq<seq<real>>)
    ensures AfterCalls(calls).Some? ==> 0.0 <= AfterCalls(calls).value <= LargestSpread(calls)
    ensures calls != [] ==>
              0.0 <= JitterResult(AfterCalls(calls[..|calls| - 1]), calls[|calls| - 1]) <= LargestSpread(calls)
  {
    if calls != [] {
      var before, latencies := calls[..|calls| - 1], calls[|calls| - 1];
      JitterNeverExceedsSpread(before);
      if |latencies| >= 2 {
        var last := AfterCalls(before);
        RecurrenceBounded(latencies, if last.Some? then last.value else 0.0,
          Least(latencies), Greatest(latencies), LargestSpread(calls));
      }
    }
  }

  /** From fresh state: the closed form without a start, between 0 and the spread. */
  lemma FreshJitter(latencies: seq<real>)
    requires |latencies| >= 2
    ensures JitterResult(None, latencies) == Terms(latencies, |latencies| - 1)
    ensures 0.0 <= JitterResult(None, latencies) <= Spread(latencies)
  {
    hide Recurrence, Terms, Least, Greatest, Decay;
    ClosedForm(latencies, 0.0);
    RecurrenceBounded(latencies, 0.0, Least(latencies), Greatest(latencies), Spread(latencies));
  }

  lemma {:induction false} DecayPositive(k: nat)
    ensures Decay(k) > 0.0
  {
    if k > 0 { DecayPositive(k - 1); }
  }

  /**
   * A call reports the jitter of its own samples exactly when it has too few of them or the
   * calculator remembers no jitter; what an earlier call left behind is otherwise mixed in.
   */
  lemma OwnJitterExactlyWhen(last: Option<real>, latencies: seq<real>)
    ensures JitterResult(last, latencies) == JitterResult(None, latencies) <==>
            |latencies| < 2 || last.None? || last.value == 0.0
  {
    if |latencies| >= 2 && last.Some? {
      hide Recurrence, Terms, Decay;
      ClosedForm(latencies, last.value);
      ClosedForm(latencies, 0.0);
      DecayPositive(|latencies| - 1);
      ZeroProduct(last.value, Decay(|latencies| - 1));
    }
  }

  lemma ZeroProduct(x: real, y: real)
    requires y > 0.0
    ensures x * y == 0.0 <==> x == 0.0
  {
  }

  // ------------------------------------------------------------------ statistics

  datatype JitterStats = JitterStats(
    jitterMs: real,
    meanLatencyMs: real,
    minLatencyMs: real,
    maxLatencyMs: real,
    sampleCount: nat,
    windowMs: real)

  datatype Percentiles = Percentiles(p50: real, p90: real, p95: real, p99: real)

  function EmptyStats(windowMs: real): JitterStats { JitterStats(0.0, 0.0, 0.0, 0.0, 0, windowMs) }

  predicate OfKind(sample: Option<TransportKind>, wanted: Option<TransportKind>) {
    wanted.None? || sample.None? || sample == wanted
  }

  /** The samples in the window and of the kind, oldest first. */
  function FilterSamples(samples: seq<LatencySample>, windowMs: real, now: real, kind: Option<TransportKind>): seq<LatencySample> {
    SortBy(Filter(Filter(samples, (s: LatencySample) => s.timestamp >= now - windowMs),
                  (s: LatencySample) => OfKind(s.value.kind, kind)),
           (s: LatencySample) => s.timestamp)
  }

  function Rtts(samples: seq<LatencySample>): (r: seq<real>)
    ensures |r| == |samples|
  {
    seq(|samples|, i requires 0 <= i < |samples| => samples[i].value.rttMs)
  }

  /** The statistics of the latencies that passed the filter. */
  function StatsOf(latencies: seq<real>, jitterMs: real, windowMs: real): JitterStats {
    if latencies == [] then EmptyStats(windowMs)
    else JitterStats(jitterMs, Sum(latencies) / |latencies| as real, Least(latencies), Greatest(latencies), |latencies|, windowMs)
  }

  function PercentilesOf(latencies: seq<real>): Percentiles {
    if latencies == [] then Percentiles(0.0, 0.0, 0.0, 0.0)
    else
      var sorted := Sorted(latencies);
      Percentiles(Percentile(sorted, 50.0), Percentile(sorted, 90.0), Percentile(sorted, 95.0), Percentile(sorted, 99.0))
  }

  lemma OneMoreCall(calls: seq<seq<real>>, latencies: seq<real>)
    ensures AfterCalls(calls + [latencies]) == NextJitter(AfterCalls(calls), latencies)
    ensures 0.0 <= JitterResult(AfterCalls(calls), latencies) <= LargestSpread(calls + [latencies])
  {
    var more := calls + [latencies];
    assert more[..|more| - 1] == calls;
    JitterNeverExceedsSpread(more);
  }

  /** The ghost calls are the latencies of every call since the last reset. */
  class JitterCalculator {
    const windowMs: real
    var lastRfcJitter: Option<real>
    ghost var calls: seq<seq<real>>

    constructor (windowMs: real)
      ensures this.windowMs == windowMs && lastRfcJitter == None && Valid()
    {
      this.windowMs := windowMs;
      lastRfcJitter, calls := None, [];
    }

    ghost predicate Valid()
      reads this
    {
      lastRfcJitter == AfterCalls(calls)
    }

    /** No reported jitter exceeds the largest spread of latencies seen since the last reset. */
    method Compute(samples: seq<LatencySample>, now: real, kind: Option<TransportKind>) returns (stats: JitterStats)
      requires Valid()
      modifies this
      ensures Valid() && calls == old(calls) + [Rtts(FilterSamples(samples, windowMs, now, kind))]
      ensures 0.0 <= stats.jitterMs <= LargestSpread(calls)
      ensures var latencies := Rtts(FilterSamples(samples, windowMs, now, kind));
              && stats == StatsOf(latencies, JitterResult(old(lastRfcJitter), latencies), windowMs)
              && lastRfcJitter == NextJitter(old(lastRfcJitter), latencies)
    {
      var filtered := FilterSamples(samples, windowMs, now, kind);
      var latencies := Rtts(filtered);
      hide AfterCalls, LargestSpread, Recurrence, Sum, Least, Greatest;
      OneMoreCall(calls, latencies);
      calls := calls + [latencies];
      if |latencies| == 0 {
        return EmptyStats(windowMs);
      }
      var meanLatencyMs := Sum(latencies) / |latencies| as real;
      var jitterMs := ComputeRfc3550Jitter(filtered);
      return JitterStats(jitterMs, meanLatencyMs, Least(latencies), Greatest(latencies), |filtered|, windowMs);
    }

    method ComputeRfc3550Jitter(samples: seq<LatencySample>) returns (jitter: real)
      modifies this`lastRfcJitter
      ensures jitter == JitterResult(old(lastRfcJitter), Rtts(samples))
      ensures lastRfcJitter == NextJitter(old(lastRfcJitter), Rtts(samples))
    {
      if |samples| < 2 {
        return 0.0;
      }
      jitter := if lastRfcJitter.Some? then lastRfcJitter.value else 0.0;
      ghost var start, latencies := jitter, Rtts(samples);
      for index := 1 to |samples|
        invariant jitter == Recurrence(latencies[..index], start)
        invariant lastRfcJitter == old(lastRfcJitter)
      {
        assert latencies[..index + 1][..index] == latencies[..index];
        var current, previous := samples[index].value.rttMs, samples[index - 1].value.rttMs;
        var delta := Abs(current - previous);
        jitter := jitter + (delta - jitter) / 16.0;
      }
      assert latencies[..|samples|] == latencies;
      lastRfcJitter := Some(jitter);
    }

    method ComputePercentiles(samples: seq<LatencySample>, now: real) returns (percentiles: Percentiles)
      ensures percentiles == PercentilesOf(Rtts(FilterSamples(samples, windowMs, now, None)))
    {
      var filtered := FilterSamples(samples, windowMs, now, None);
      if |filtered| == 0 {
        return Percentiles(0.0, 0.0, 0.0, 0.0);
      }
      var sorted := Sorted(Rtts(filtered));
      return Percentiles(Percentile(sorted, 50.0), Percentile(sorted, 90.0), Percentile(sorted, 95.0), Percentile(sorted, 99.0));
    }

    method ResetRfcState()
      modifies this
      ensures Valid() && lastRfcJitter == None && calls == []
    {
      lastRfcJitter, calls := None, [];
    }
  }

  /** Each latency percentile is the nearest rank, they rise, and the order of the latencies is irrelevant. */
  lemma PercentilesAreNearestRanks(latencies: seq<real>, shuffled: seq<real>)
    requires latencies != [] && multiset(shuffled) == multiset(latencies)
    ensures var p := PercentilesOf(latencies);
            && IsNearestRank(latencies, 50.0, p.p50) && IsNearestRank(latencies, 90.0, p.p90)
            && IsNearestRank(latencies, 95.0, p.p95) && IsNearestRank(latencies, 99.0, p.p99)
            && p.p50 <= p.p90 <= p.p95 <= p.p99
            && PercentilesOf(shuffled) == p
  {
    hide Percentile, IsNearestRank, Sorted;
    PercentileIsNearestRank(latencies, 50.0);
    PercentileIsNearestRank(latencies, 90.0);
    PercentileIsNearestRank(latencies, 95.0);
    PercentileIsNearestRank(latencies, 99.0);
    PercentileMonotone(latencies, 50.0, 90.0);
    PercentileMonotone(latencies, 90.0, 95.0);
    PercentileMonotone(latencies, 95.0, 99.0);
    SortedIgnoresOrder(latencies, shuffled);
    assert |multiset(shuffled)| == |multiset(latencies)|;
  }

  // --------------------------------------------------------------------- rooms

  function JitterOf(s: JitterStats): real { s.jitterMs }
  function MeanOf(s: JitterStats): real { s.meanLatencyMs }
  function MinOf(s: JitterStats): real { s.minLatencyMs }
  function MaxOf(s: JitterStats): real { s.maxLatencyMs }

  function Counted(stats: seq<JitterStats>): nat {
    if stats == [] then 0 else Counted(stats[..|stats| - 1]) + stats[|stats| - 1].sampleCount
  }

  /** A per-peer figure weighted by the peers' sample counts. */
  function Weighted(stats: seq<JitterStats>, figure: JitterStats -> real): real {
    if stats == [] then 0.0
    else
      var last := stats[|stats| - 1];
      Weighted(stats[..|stats| - 1], figure) + Times(figure(last), last.sampleCount as real)
  }

  function AtLeastOne(n: nat): real { if n > 1 then n as real else 1.0 }

  function Figures(stats: seq<JitterStats>, figure: JitterStats -> real): (r: seq<real>)
    ensures |r| == |stats|
    ensures forall i | 0 <= i < |stats| :: r[i] == figure(stats[i])
  {
    seq(|stats|, i requires 0 <= i < |stats| => figure(stats[i]))
  }

  function AggregateRoomJitter(stats: seq<JitterStats>, windowMs: real): JitterStats {
    if stats == [] then EmptyStats(windowMs)
    else
      var total := Counted(stats);
      JitterStats(
        Weighted(stats, JitterOf) / AtLeastOne(total),
        Weighted(stats, MeanOf) / AtLeastOne(total),
        Least(Figures(stats, MinOf)),
        Greatest(Figures(stats, MaxOf)),
        total,
        windowMs)
  }

  /** The latencies of all peers together. */
  function Pooled(peers: seq<seq<real>>): seq<real> {
    if peers == [] then [] else Pooled(peers[..|peers| - 1]) + peers[|peers| - 1]
  }

  /** The statistics of each peer, with some jitter for each. */
  function EachPeer(peers: seq<seq<real>>, jitters: seq<real>, windowMs: real): (stats: seq<JitterStats>)
    requires |jitters| == |peers|
    ensures |stats| == |peers|
  {
    seq(|peers|, i requires 0 <= i < |peers| => StatsOf(peers[i], jitters[i], windowMs))
  }

  lemma {:induction false} SumAppend(a: seq<real>, b: seq<real>)
    ensures Sum(a + b) == Sum(a) + Sum(b)
  {
    if b == [] {
      assert a + b == a;
    } else {
      assert (a + b)[..|a + b| - 1] == a + b[..|b| - 1];
      SumAppend(a, b[..|b| - 1]);
    }
  }

  /** A peer's mean times its sample count is the sum of its latencies. */
  lemma {:induction false} MeanTimesCount(latencies: seq<real>, jitterMs: real, windowMs: real)
    ensures var s := StatsOf(latencies, jitterMs, windowMs);
            Times(MeanOf(s), s.sampleCount as real) == Sum(latencies) && s.sampleCount == |latencies|
  {
    hide Least, Greatest;
    if latencies == [] {
      assert Sum([]) == 0.0;
    } else {
      hide Sum;
      DivideThenMultiply(Sum(latencies), |latencies| as real);
    }
  }

  lemma DivideThenMultiply(x: real, n: real)
    requires n > 0.0
    ensures x / n * n == x
  {
  }

  lemma EachPeerSnoc(peers: seq<seq<real>>, jitters: seq<real>, windowMs: real)
    requires |jitters| == |peers| && peers != []
    ensures var n := |peers| - 1; var stats := EachPeer(peers, jitters, windowMs);
            stats[..n] == EachPeer(peers[..n], jitters[..n], windowMs) && stats[n] == StatsOf(peers[n], jitters[n], windowMs)
  {
  }

  lemma {:induction false} PooledTotals(peers: seq<seq<real>>, jitters: seq<real>, windowMs: real)
    requires |jitters| == |peers|
    ensures var stats := EachPeer(peers, jitters, windowMs);
            && Counted(stats) == |Pooled(peers)|
            && Weighted(stats, MeanOf) == Sum(Pooled(peers))
  {
    hide StatsOf, EachPeer, Times;
    if peers == [] {
      assert Sum([]) == 0.0;
    } else {
      hide Sum;
      var n := |peers| - 1;
      EachPeerSnoc(peers, jitters, windowMs);
      PooledTotals(peers[..n], jitters[..n], windowMs);
      MeanTimesCount(peers[n], jitters[n], windowMs);
      SumAppend(Pooled(peers[..n]), peers[n]);
    }
  }

  /** Aggregating statistics of lists of latencies counts and averages as if the lists were one. */
  lemma {:induction false} LatencyListsArePooled(peers: seq<seq<real>>, jitters: seq<real>, windowMs: real, jitterMs: real)
    requires |jitters| == |peers|
    ensures var room := AggregateRoomJitter(EachPeer(peers, jitters, windowMs), windowMs);
            var pooled := StatsOf(Pooled(peers), jitterMs, windowMs);
            room.sampleCount == pooled.sampleCount && room.meanLatencyMs == pooled.meanLatencyMs
  {
    PooledTotals(peers, jitters, windowMs);
    assert Sum([]) == 0.0;
    hide Least, Greatest, Pooled, Counted, Weighted;
  }

  // ------------------------------------------------------- rooms of raw samples

  function RttSum(samples: seq<LatencySample>): real {
    if samples == [] then 0.0 else samples[0].value.rttMs + RttSum(samples[1..])
  }

  lemma {:induction false} RttSumIs(samples: seq<LatencySample>)
    ensures Sum(Rtts(samples)) == RttSum(samples)
  {
    if samples == [] {
      assert Rtts(samples) == [];
    } else {
      RttSumIs(samples[1..]);
      assert Rtts(samples) == [samples[0].value.rttMs] + Rtts(samples[1..]);
      SumAppend([samples[0].value.rttMs], Rtts(samples[1..]));
      SumOfOne(samples[0].value.rttMs);
      hide Sum;
    }
  }

  lemma {:induction false} SumOfOne(x: real)
    ensures Sum([x]) == x
  {
    assert [x][..0] == [];
  }

  lemma {:induction false} InsertKeepsSum(x: LatencySample, s: seq<LatencySample>, key: LatencySample -> real)
    ensures RttSum(Insert(x, s, key)) == x.value.rttMs + RttSum(s)
  {
    if s == [] || key(x) <= key(s[0]) {
      assert ([x] + s)[1..] == s;
    } else {
      InsertKeepsSum(x, s[1..], key);
      var rest := Insert(x, s[1..], key);
      assert ([s[0]] + rest)[1..] == rest;
    }
  }

  /** Sorting changes no sum. */
  lemma {:induction false} SortKeepsSum(s: seq<LatencySample>, key: LatencySample -> real)
    ensures RttSum(SortBy(s, key)) == RttSum(s)
  {
    if s != [] {
      SortKeepsSum(s[1..], key);
      InsertKeepsSum(s[0], SortBy(s[1..], key), key);
    }
  }

  lemma {:induction false} RttSumAppend(a: seq<LatencySample>, b: seq<LatencySample>)
    ensures RttSum(a + b) == RttSum(a) + RttSum(b)
  {
    if a == [] {
      assert a + b == b;
    } else {
      assert (a + b)[1..] == a[1..] + b;
      RttSumAppend(a[1..], b);
    }
  }

  /** The samples that pass the filter, before they are sorted. */
  function Passing(samples: seq<LatencySample>, windowMs: real, now: real, kind: Option<TransportKind>): seq<LatencySample> {
    Filter(Filter(samples, (s: LatencySample) => s.timestamp >= now - windowMs), (s: LatencySample) => OfKind(s.value.kind, kind))
  }

  lemma {:induction false} FilteredTotals(samples: seq<LatencySample>, windowMs: real, now: real, kind: Option<TransportKind>)
    ensures var latencies := Rtts(FilterSamples(samples, windowMs, now, kind));
            Sum(latencies) == RttSum(Passing(samples, windowMs, now, kind)) && |latencies| == |Passing(samples, windowMs, now, kind)|
  {
    hide Sum, RttSum, SortBy, Filter;
    RttSumIs(FilterSamples(samples, windowMs, now, kind));
    SortKeepsSum(Passing(samples, windowMs, now, kind), (s: LatencySample) => s.timestamp);
  }

  lemma {:induction false} PassingAppend(a: seq<LatencySample>, b: seq<LatencySample>, windowMs: real, now: real, kind: Option<TransportKind>)
    ensures Passing(a + b, windowMs, now, kind) == Passing(a, windowMs, now, kind) + Passing(b, windowMs, now, kind)
  {
    hide Filter;
    var recent := (s: LatencySample) => s.timestamp >= now - windowMs;
    FilterAppend(a, b, recent);
    FilterAppend(Filter(a, recent), Filter(b, recent), (s: LatencySample) => OfKind(s.value.kind, kind));
  }

  function PooledLatency(peers: seq<seq<LatencySample>>): seq<LatencySample> {
    if peers == [] then [] else PooledLatency(peers[..|peers| - 1]) + peers[|peers| - 1]
  }

  /** The latencies that `compute` uses of each peer's samples. */
  function LatenciesEach(peers: seq<seq<LatencySample>>, windowMs: real, now: real, kind: Option<TransportKind>): (l: seq<seq<real>>)
    ensures |l| == |peers|
  {
    seq(|peers|, i requires 0 <= i < |peers| => Rtts(FilterSamples(peers[i], windowMs, now, kind)))
  }

  /** What `compute` returns for each peer's samples, with some jitter for each. */
  function ComputedLatency(peers: seq<seq<LatencySample>>, jitters: seq<real>, windowMs: real, now: real, kind: Option<TransportKind>): (stats: seq<JitterStats>)
    requires |jitters| == |peers|
    ensures |stats| == |peers|
  {
    seq(|peers|, i requires 0 <= i < |peers| => StatsOf(Rtts(FilterSamples(peers[i], windowMs, now, kind)), jitters[i], windowMs))
  }

  lemma {:induction false} NothingPasses(windowMs: real, now: real, kind: Option<TransportKind>)
    ensures Passing([], windowMs, now, kind) == [] && RttSum([]) == 0.0 && Sum([]) == 0.0
  {
  }

  lemma {:induction false} PooledLatencies(peers: seq<seq<LatencySample>>, windowMs: real, now: real, kind: Option<TransportKind>)
    ensures var lists := Pooled(LatenciesEach(peers, windowMs, now, kind)); var passing := Passing(PooledLatency(peers), windowMs, now, kind);
            Sum(lists) == RttSum(passing) && |lists| == |passing|
  {
    hide Sum, RttSum, Passing, FilterSamples;
    NothingPasses(windowMs, now, kind);
    if peers != [] {
      var n := |peers| - 1;
      PooledLatencies(peers[..n], windowMs, now, kind);
      assert LatenciesEach(peers, windowMs, now, kind)[..n] == LatenciesEach(peers[..n], windowMs, now, kind);
      PassingAppend(PooledLatency(peers[..n]), peers[n], windowMs, now, kind);
      FilteredTotals(peers[n], windowMs, now, kind);
      SumAppend(Pooled(LatenciesEach(peers[..n], windowMs, now, kind)), Rtts(FilterSamples(peers[n], windowMs, now, kind)));
      RttSumAppend(Passing(PooledLatency(peers[..n]), windowMs, now, kind), Passing(peers[n], windowMs, now, kind));
    }
  }

  /**
   * Aggregating what `compute` returns for each peer counts and averages as computing over all
   * the peers' samples at once does, whatever jitters the shared calculator reported.
   */
  lemma {:induction false} RoomLatencyIsPooled(peers: seq<seq<LatencySample>>, jitters: seq<real>, jitterMs: real,
                                               windowMs: real, now: real, kind: Option<TransportKind>)
    requires |jitters| == |peers|
    ensures var room := AggregateRoomJitter(ComputedLatency(peers, jitters, windowMs, now, kind), windowMs);
            var pooled := StatsOf(Rtts(FilterSamples(PooledLatency(peers), windowMs, now, kind)), jitterMs, windowMs);
            room.sampleCount == pooled.sampleCount && room.meanLatencyMs == pooled.meanLatencyMs
  {
    hide Sum, RttSum, Passing, FilterSamples, AggregateRoomJitter, Pooled, StatsOf, Rtts, PooledLatency;
    var lists := LatenciesEach(peers, windowMs, now, kind);
    assert ComputedLatency(peers, jitters, windowMs, now, kind) == EachPeer(lists, jitters, windowMs);
    LatencyListsArePooled(lists, jitters, windowMs, jitterMs);
    PooledLatencies(peers, windowMs, now, kind);
    FilteredTotals(PooledLatency(peers), windowMs, now, kind);
    SameTotalsSameMean(Pooled(lists), Rtts(FilterSamples(PooledLatency(peers), windowMs, now, kind)), jitterMs, windowMs);
  }

  lemma {:induction false} SameTotalsSameMean(a: seq<real>, b: seq<real>, jitterMs: real, windowMs: real)
    requires Sum(a) == Sum(b) && |a| == |b|
    ensures var s, t := StatsOf(a, jitterMs, windowMs), StatsOf(b, jitterMs, windowMs);
            s.sampleCount == t.sampleCount && s.meanLatencyMs == t.meanLatencyMs
  {
    hide Sum, Least, Greatest;
  }

  lemma Scaled(x: real, y: real, m: real)
    requires 0.0 <= x <= y && m >= 0.0
    ensures 0.0 <= Times(x, m) <= Times(y, m)
  {
    NonNegativeTimes(x, m);
    NonNegativeTimes(y - x, m);
    assert (y - x) * m == y * m - x * m;
  }

  lemma NonNegativeTimes(x: real, y: real)
    requires x >= 0.0 && y >= 0.0
    ensures x * y >= 0.0
  {
  }

  lemma TimesSum(a: real, x: real, y: real)
    ensures Times(a, x + y) == Times(a, x) + Times(a, y) && Times(a, 0.0) == 0.0
  {
  }

  lemma {:induction false} WeightedJitterBounded(stats: seq<JitterStats>, bound: real)
    requires forall s <- stats :: 0.0 <= s.jitterMs <= bound
    ensures 0.0 <= Weighted(stats, JitterOf) <= Times(bound, Counted(stats) as real)
  {
    hide Times;
    if stats == [] {
      TimesSum(bound, 0.0, 0.0);
    } else {
      var n := |stats| - 1;
      var last := stats[n];
      assert last in stats;
      WeightedJitterBounded(stats[..n], bound);
      Scaled(last.jitterMs, bound, last.sampleCount as real);
      TimesSum(bound, Counted(stats[..n]) as real, last.sampleCount as real);
    }
  }

  /** The room's jitter stays below any bound on its peers' jitters. */
  lemma RoomJitterBounded(stats: seq<JitterStats>, windowMs: real, bound: real)
    requires bound >= 0.0 && forall s <- stats :: 0.0 <= s.jitterMs <= bound
    ensures 0.0 <= AggregateRoomJitter(stats, windowMs).jitterMs <= bound
  {
    hide Weighted, Counted, Least, Greatest, Figures;
    if stats != [] {
      WeightedJitterBounded(stats, bound);
      var total, count := Weighted(stats, JitterOf), Counted(stats) as real;
      Scaled(bound, bound, count);
      NonNegativeTimes(AtLeastOne(Counted(stats)) - count, bound);
      assert (AtLeastOne(Counted(stats)) - count) * bound == bound * AtLeastOne(Counted(stats)) - Times(bound, count);
      Quotient(total, bound, AtLeastOne(Counted(stats)));
    }
  }

  lemma Quotient(x: real, bound: real, m: real)
    requires m > 0.0 && 0.0 <= x <= bound * m
    ensures 0.0 <= x / m <= bound
  {
    var q := x / m;
    assert q * m == x;
  }

  lemma LeastIs(values: seq<real>, m: real)
    requires m in values && forall v <- values :: m <= v
    ensures Least(values) == m
  {
  }

  lemma MinOfPeer(latencies: seq<real>, jitterMs: real, windowMs: real)
    ensures MinOf(StatsOf(latencies, jitterMs, windowMs)) == if latencies == [] then 0.0 else Least(latencies)
  {
  }

  /** A peer without samples contributes its zero to the room's least latency. */
  lemma {:induction false} RoomMinimumCountsSilentPeers(peers: seq<seq<real>>, jitters: seq<real>, windowMs: real)
    requires |jitters| == |peers| && Pooled(peers) != []
    ensures var least := Least(Pooled(peers));
            AggregateRoomJitter(EachPeer(peers, jitters, windowMs), windowMs).minLatencyMs ==
            if [] in peers && 0.0 < least then 0.0 else least
  {
    hide Least, StatsOf, Pooled, MinOf;
    var mins := Figures(EachPeer(peers, jitters, windowMs), MinOf);
    var least := Least(Pooled(peers));
    var m := if [] in peers && 0.0 < least then 0.0 else least;
    PooledHolds(peers);
    forall i | 0 <= i < |peers| ensures mins[i] == (if peers[i] == [] then 0.0 else Least(peers[i])) && m <= mins[i] {
      MinOfPeer(peers[i], jitters[i], windowMs);
      if peers[i] == [] { assert peers[i] in peers; } else { assert Least(peers[i]) in Pooled(peers); }
    }
    var k :| 0 <= k < |peers| && least in peers[k];
    assert Least(peers[k]) in Pooled(peers);
    assert mins[k] == least;
    if m != least {
      var i :| 0 <= i < |peers| && peers[i] == [];
      assert mins[i] == m;
    }
    LeastIs(mins, m);
    assert EachPeer(peers, jitters, windowMs) != [];
  }

  lemma {:induction false} PooledHolds(peers: seq<seq<real>>)
    ensures forall v :: v in Pooled(peers) <==> exists i :: 0 <= i < |peers| && v in peers[i]
  {
    if peers != [] {
      var n := |peers| - 1;
      PooledHolds(peers[..n]);
      forall v ensures v in Pooled(peers) <==> exists i :: 0 <= i < |peers| && v in peers[i] {
        if i :| 0 <= i < |peers| && v in peers[i] {
          assert i < n ==> peers[..n][i] == peers[i];
        }
      }
    }
  }
}
