/** Connection quality: component scores, their weighted sum, grades, and averages over peers. */
module Quality {
  import opened Common
  import opened Jitter
  import opened PacketLoss
  import opened Sorting
  import opened Throughput

  datatype Grade = Critical | Poor | Fair | Good | Excellent

  function Level(g: Grade): int {
    match g
    case Critical => 0
    case Poor => 1
    case Fair => 2
    case Good => 3
    case Excellent => 4
  }

  function GradeFromScore(score: int): Grade {
    if score >= 90 then Excellent
    else if score >= 75 then Good
    else if score >= 55 then Fair
    else if score >= 30 then Poor
    else Critical
  }

  /** Rounding half up. */
  function Round(x: real): int { (x + 0.5).Floor }

  // ---------------------------------------------------------------------- weights

  datatype Weights = Weights(latency: real, jitter: real, packetLoss: real, bandwidth: real)

  datatype PartialWeights = PartialWeights(
    latency: Option<real>, jitter: Option<real>, packetLoss: Option<real>, bandwidth: Option<real>)

  const DEFAULT_QUALITY_WEIGHTS := Weights(0.3, 0.25, 0.3, 0.15)

  function Given(x: Option<real>, default: real): real { if x.Some? then x.value else default }

  function Merged(w: PartialWeights): Weights {
    Weights(Given(w.latency, DEFAULT_QUALITY_WEIGHTS.latency), Given(w.jitter, DEFAULT_QUALITY_WEIGHTS.jitter),
            Given(w.packetLoss, DEFAULT_QUALITY_WEIGHTS.packetLoss), Given(w.bandwidth, DEFAULT_QUALITY_WEIGHTS.bandwidth))
  }

  function Total(w: Weights): real { w.latency + w.jitter + w.packetLoss + w.bandwidth }

  predicate NonNegative(w: Weights) { w.latency >= 0.0 && w.jitter >= 0.0 && w.packetLoss >= 0.0 && w.bandwidth >= 0.0 }

  function NormalizeQualityWeights(w: PartialWeights): Weights {
    var merged := Merged(w);
    var total := Total(merged);
    if total <= 0.0 then DEFAULT_QUALITY_WEIGHTS
    else Weights(merged.latency / total, merged.jitter / total, merged.packetLoss / total, merged.bandwidth / total)
  }

  /** Normalised weights always add up to 1, and are non-negative when the given ones are. */
  lemma NormalizedWeightsSumToOne(w: PartialWeights)
    ensures Total(NormalizeQualityWeights(w)) == 1.0
    ensures NonNegative(Merged(w)) ==> NonNegative(NormalizeQualityWeights(w))
  {
    var m := Merged(w);
    var total := Total(m);
    if total > 0.0 {
      AddQuotients(m.latency, m.jitter, total);
      AddQuotients(m.latency + m.jitter, m.packetLoss, total);
      AddQuotients(m.latency + m.jitter + m.packetLoss, m.bandwidth, total);
      WholeQuotient(total);
    }
  }

  lemma WholeQuotient(x: real)
    requires x > 0.0
    ensures x / x == 1.0
  {
  }

  // --------------------------------------------------------------- component scores

  datatype Thresholds = Thresholds(
    latencyMs: seq<real>,
    jitterMs: seq<real>,
    lossRate: seq<real>,
    minimumUploadBps: real,
    minimumDownloadBps: real,
    targetUploadBps: real,
    targetDownloadBps: real)
  {
    /** Four bounds each, from excellent to poor. */
    predicate Complete() { |latencyMs| == 4 && |jitterMs| == 4 && |lossRate| == 4 }
  }

  datatype ScoreInput = ScoreInput(latency: JitterStats, packetLoss: LossStats, upload: Estimate, download: Estimate)

  datatype Components = Components(latencyScore: int, jitterScore: int, packetLossScore: int, bandwidthScore: int)

  datatype ConnectionQuality = ConnectionQuality(score: int, grade: Grade, components: Components)

  function ScoreFromThresholds(value: real, thresholds: seq<real>, scores: seq<int>): int
    requires |thresholds| == 4 && |scores| == 5
  {
    if value <= thresholds[0] then scores[0]
    else if value <= thresholds[1] then scores[1]
    else if value <= thresholds[2] then scores[2]
    else if value <= thresholds[3] then scores[3]
    else scores[4]
  }

  function InterpolateScore(value: real, low: real, high: real, lowScore: int, highScore: int): int {
    if value <= low then lowScore
    else if value >= high then highScore
    else Round(lowScore as real + Times((value - low) / (high - low), (highScore - lowScore) as real))
  }

  function ScoreLatency(stats: JitterStats, t: Thresholds): int
    requires t.Complete()
  {
    if stats.sampleCount == 0 then 0 else ScoreFromThresholds(stats.meanLatencyMs, t.latencyMs, [100, 85, 65, 40, 15])
  }

  function ScoreJitter(stats: JitterStats, t: Thresholds): int
    requires t.Complete()
  {
    if stats.sampleCount == 0 then 0 else ScoreFromThresholds(stats.jitterMs, t.jitterMs, [100, 80, 60, 35, 10])
  }

  function ScorePacketLoss(stats: LossStats, t: Thresholds): int
    requires t.Complete()
  {
    if stats.sampleCount == 0 then 50 else ScoreFromThresholds(stats.lossRate, t.lossRate, [100, 85, 60, 30, 5])
  }

  function ScoreDirectionBandwidth(bitsPerSecond: real, minimumBps: real, targetBps: real): int {
    if bitsPerSecond <= 0.0 then 0
    else if bitsPerSecond >= targetBps then 100
    else if bitsPerSecond <= minimumBps then InterpolateScore(bitsPerSecond, 0.0, minimumBps, 0, 30)
    else InterpolateScore(bitsPerSecond, minimumBps, targetBps, 30, 100)
  }

  function MixDirections(uploadScore: int, downloadScore: int): int {
    Round(uploadScore as real * 0.4 + downloadScore as real * 0.6)
  }

  function ScoreBandwidth(upload: Estimate, download: Estimate, t: Thresholds): int {
    var uploadScore := ScoreDirectionBandwidth(upload.bitsPerSecond, t.minimumUploadBps, t.targetUploadBps);
    var downloadScore := ScoreDirectionBandwidth(download.bitsPerSecond, t.minimumDownloadBps, t.targetDownloadBps);
    if upload.sampleCount == 0 && download.sampleCount == 0 then 0
    else if upload.sampleCount == 0 then downloadScore
    else if download.sampleCount == 0 then uploadScore
    else MixDirections(uploadScore, downloadScore)
  }

  function ScoreComponents(input: ScoreInput, t: Thresholds): Components
    requires t.Complete()
  {
    Components(ScoreLatency(input.latency, t), ScoreJitter(input.latency, t),
               ScorePacketLoss(input.packetLoss, t), ScoreBandwidth(input.upload, input.download, t))
  }

  function WeightedScore(c: Components, w: Weights): real {
    Times(c.latencyScore as real, w.latency) + Times(c.jitterScore as real, w.jitter) +
    Times(c.packetLossScore as real, w.packetLoss) + Times(c.bandwidthScore as real, w.bandwidth)
  }

  function Clamp(x: real): real { if x < 0.0 then 0.0 else if x > 100.0 then 100.0 else x }

  function Score(input: ScoreInput, w: Weights, t: Thresholds): ConnectionQuality
    requires t.Complete()
  {
    var components := ScoreComponents(input, t);
    var score := Round(Clamp(WeightedScore(components, w)));
    ConnectionQuality(score, GradeFromScore(score), components)
  }

  // ------------------------------------------------------------------------- range

  predicate Percent(x: int) { 0 <= x <= 100 }

  predicate PercentScores(c: Components) {
    Percent(c.latencyScore) && Percent(c.jitterScore) && Percent(c.packetLossScore) && Percent(c.bandwidthScore)
  }

  /** Interpolation stays between the two scores and rises with the value. */
  lemma InterpolationRises(v: real, u: real, low: real, high: real, lowScore: int, highScore: int)
    requires v <= u && lowScore <= highScore
    ensures lowScore <= InterpolateScore(v, low, high, lowScore, highScore) <=
            InterpolateScore(u, low, high, lowScore, highScore) <= highScore
  {
    var span := (highScore - lowScore) as real;
    if low < v < high {
      InUnitInterval(v - low, high - low);
      TimesRises(0.0, (v - low) / (high - low), span);
      TimesRises((v - low) / (high - low), 1.0, span);
    }
    if low < u < high {
      InUnitInterval(u - low, high - low);
      TimesRises(0.0, (u - low) / (high - low), span);
      TimesRises((u - low) / (high - low), 1.0, span);
    }
    if low < v && u < high {
      QuotientRises(v - low, u - low, high - low);
      TimesRises((v - low) / (high - low), (u - low) / (high - low), span);
    }
    assert Times(0.0, span) == 0.0 && Times(1.0, span) == span;
    hide Times;
  }

  lemma InUnitInterval(x: real, y: real)
    requires 0.0 < x < y
    ensures 0.0 <= x / y <= 1.0
  {
  }

  lemma QuotientRises(x: real, y: real, m: real)
    requires x <= y && m > 0.0
    ensures x / m <= y / m
  {
    AddQuotients(x, y - x, m);
  }

  lemma TimesRises(x: real, y: real, m: real)
    requires x <= y && m >= 0.0
    ensures Times(x, m) <= Times(y, m)
  {
    assert (y - x) * m >= 0.0;
  }

  /** Whatever the thresholds are, more bandwidth never lowers the direction score. */
  lemma {:induction false} DirectionRises(b: real, c: real, minimum: real, target: real)
    requires b <= c
    ensures Percent(ScoreDirectionBandwidth(b, minimum, target))
    ensures ScoreDirectionBandwidth(b, minimum, target) <= ScoreDirectionBandwidth(c, minimum, target)
  {
    hide InterpolateScore;
    InterpolationRises(b, c, 0.0, minimum, 0, 30);
    InterpolationRises(b, c, minimum, target, 30, 100);
  }

  lemma MixRises(a: int, b: int, c: int, d: int)
    requires a <= c && b <= d
    ensures MixDirections(a, b) <= MixDirections(c, d)
    ensures Percent(a) && Percent(b) ==> Percent(MixDirections(a, b))
  {
  }

  lemma ComponentsInRange(input: ScoreInput, t: Thresholds)
    requires t.Complete()
    ensures PercentScores(ScoreComponents(input, t))
  {
    hide ScoreDirectionBandwidth, MixDirections;
    var upload, download := input.upload.bitsPerSecond, input.download.bitsPerSecond;
    DirectionRises(upload, upload, t.minimumUploadBps, t.targetUploadBps);
    DirectionRises(download, download, t.minimumDownloadBps, t.targetDownloadBps);
    var u := ScoreDirectionBandwidth(upload, t.minimumUploadBps, t.targetUploadBps);
    var d := ScoreDirectionBandwidth(download, t.minimumDownloadBps, t.targetDownloadBps);
    MixRises(u, d, u, d);
  }

  lemma WeightedRises(c: Components, d: Components, w: Weights)
    requires NonNegative(w)
    requires c.latencyScore <= d.latencyScore && c.jitterScore <= d.jitterScore
    requires c.packetLossScore <= d.packetLossScore && c.bandwidthScore <= d.bandwidthScore
    ensures WeightedScore(c, w) <= WeightedScore(d, w)
  {
    hide Times;
    TimesRises(c.latencyScore as real, d.latencyScore as real, w.latency);
    TimesRises(c.jitterScore as real, d.jitterScore as real, w.jitter);
    TimesRises(c.packetLossScore as real, d.packetLossScore as real, w.packetLoss);
    TimesRises(c.bandwidthScore as real, d.bandwidthScore as real, w.bandwidth);
  }

  lemma EvenComponents(x: int, w: Weights)
    requires Total(w) == 1.0
    ensures WeightedScore(Components(x, x, x, x), w) == x as real
  {
    var v := x as real;
    Distribute(v, w.latency, w.jitter);
    Distribute(v, w.latency + w.jitter, w.packetLoss);
    Distribute(v, w.latency + w.jitter + w.packetLoss, w.bandwidth);
  }

  /** With non-negative weights the clamp changes nothing and the score is a percentage. */
  lemma {:induction false} ClampNeverMatters(input: ScoreInput, partial: PartialWeights, t: Thresholds)
    requires t.Complete() && NonNegative(Merged(partial))
    ensures var w := NormalizeQualityWeights(partial); var weighted := WeightedScore(ScoreComponents(input, t), w);
            && 0.0 <= weighted <= 100.0
            && Score(input, w, t).score == Round(weighted)
            && Percent(Score(input, w, t).score)
  {
    hide WeightedScore, ScoreComponents;
    var w := NormalizeQualityWeights(partial);
    var c := ScoreComponents(input, t);
    NormalizedWeightsSumToOne(partial);
    ComponentsInRange(input, t);
    WeightedRises(Components(0, 0, 0, 0), c, w);
    WeightedRises(c, Components(100, 100, 100, 100), w);
    EvenComponents(0, w);
    EvenComponents(100, w);
  }

  // -------------------------------------------------------------------- monotonicity

  /** The same statistics are present in both inputs. */
  predicate SamePresence(a: ScoreInput, b: ScoreInput) {
    && (a.latency.sampleCount == 0 <==> b.latency.sampleCount == 0)
    && (a.packetLoss.sampleCount == 0 <==> b.packetLoss.sampleCount == 0)
    && (a.upload.sampleCount == 0 <==> b.upload.sampleCount == 0)
    && (a.download.sampleCount == 0 <==> b.download.sampleCount == 0)
  }

  /** b has no less latency, jitter and loss, and no more bandwidth. */
  predicate NoBetter(b: ScoreInput, a: ScoreInput) {
    && a.latency.meanLatencyMs <= b.latency.meanLatencyMs
    && a.latency.jitterMs <= b.latency.jitterMs
    && a.packetLoss.lossRate <= b.packetLoss.lossRate
    && a.upload.bitsPerSecond >= b.upload.bitsPerSecond
    && a.download.bitsPerSecond >= b.download.bitsPerSecond
  }

  lemma ThresholdScoreFalls(v: real, u: real, thresholds: seq<real>, scores: seq<int>)
    requires v <= u && |thresholds| == 4 && |scores| == 5
    requires scores[0] >= scores[1] >= scores[2] >= scores[3] >= scores[4]
    ensures ScoreFromThresholds(v, thresholds, scores) >= ScoreFromThresholds(u, thresholds, scores)
  {
  }

  lemma ComponentsFall(a: ScoreInput, b: ScoreInput, t: Thresholds)
    requires t.Complete() && SamePresence(a, b) && NoBetter(b, a)
    ensures var x, y := ScoreComponents(a, t), ScoreComponents(b, t);
            && y.latencyScore <= x.latencyScore && y.jitterScore <= x.jitterScore
            && y.packetLossScore <= x.packetLossScore && y.bandwidthScore <= x.bandwidthScore
  {
    hide ScoreDirectionBandwidth, MixDirections, ScoreFromThresholds;
    ThresholdScoreFalls(a.latency.meanLatencyMs, b.latency.meanLatencyMs, t.latencyMs, [100, 85, 65, 40, 15]);
    ThresholdScoreFalls(a.latency.jitterMs, b.latency.jitterMs, t.jitterMs, [100, 80, 60, 35, 10]);
    ThresholdScoreFalls(a.packetLoss.lossRate, b.packetLoss.lossRate, t.lossRate, [100, 85, 60, 30, 5]);
    DirectionRises(b.upload.bitsPerSecond, a.upload.bitsPerSecond, t.minimumUploadBps, t.targetUploadBps);
    DirectionRises(b.download.bitsPerSecond, a.download.bitsPerSecond, t.minimumDownloadBps, t.targetDownloadBps);
    MixRises(ScoreDirectionBandwidth(b.upload.bitsPerSecond, t.minimumUploadBps, t.targetUploadBps),
      ScoreDirectionBandwidth(b.download.bitsPerSecond, t.minimumDownloadBps, t.targetDownloadBps),
      ScoreDirectionBandwidth(a.upload.bitsPerSecond, t.minimumUploadBps, t.targetUploadBps),
      ScoreDirectionBandwidth(a.download.bitsPerSecond, t.minimumDownloadBps, t.targetDownloadBps));
  }

  /**
   * Raising latency, jitter or loss, or lowering either bitrate, never raises the score or the
   * grade, through every threshold, interpolation and rounding, and whatever the thresholds are.
   */
  lemma {:induction false} ScoreIsMonotone(a: ScoreInput, b: ScoreInput, partial: PartialWeights, t: Thresholds)
    requires t.Complete() && NonNegative(Merged(partial)) && SamePresence(a, b) && NoBetter(b, a)
    ensures var w := NormalizeQualityWeights(partial); var x, y := Score(a, w, t), Score(b, w, t);
            y.score <= x.score && Level(y.grade) <= Level(x.grade)
  {
    hide WeightedScore, ScoreComponents;
    NormalizedWeightsSumToOne(partial);
    ComponentsFall(a, b, t);
    WeightedRises(ScoreComponents(b, t), ScoreComponents(a, t), NormalizeQualityWeights(partial));
  }

  // ------------------------------------------------------- losing a measurement

  function WithoutLatency(a: ScoreInput): ScoreInput { a.(latency := EmptyStats(a.latency.windowMs)) }
  function WithoutLoss(a: ScoreInput): ScoreInput { a.(packetLoss := EmptyLossStats(a.packetLoss.windowMs)) }
  function WithoutUpload(a: ScoreInput): ScoreInput { a.(upload := NoEstimate()) }
  function WithoutDownload(a: ScoreInput): ScoreInput { a.(download := NoEstimate()) }

  function UploadScore(a: ScoreInput, t: Thresholds): int {
    ScoreDirectionBandwidth(a.upload.bitsPerSecond, t.minimumUploadBps, t.targetUploadBps)
  }

  function DownloadScore(a: ScoreInput, t: Thresholds): int {
    ScoreDirectionBandwidth(a.download.bitsPerSecond, t.minimumDownloadBps, t.targetDownloadBps)
  }

  /** Both directions are measured. */
  predicate BothDirections(a: ScoreInput) { a.upload.sampleCount > 0 && a.download.sampleCount > 0 }

  /** The loss is measured and beyond the excellent, good and fair bounds. */
  predicate LossIsPoor(a: ScoreInput, t: Thresholds)
    requires t.Complete()
  {
    && a.packetLoss.sampleCount > 0
    && a.packetLoss.lossRate > t.lossRate[0] && a.packetLoss.lossRate > t.lossRate[1] && a.packetLoss.lossRate > t.lossRate[2]
  }

  function Weighted(a: ScoreInput, w: Weights, t: Thresholds): real
    requires t.Complete()
  {
    WeightedScore(ScoreComponents(a, t), w)
  }

  /** The points above the last rounding boundary. */
  function AboveBoundary(x: real): (r: real)
    ensures 0.0 <= r < 1.0
  {
    x + 0.5 - Round(x) as real
  }

  lemma RoundsUpExactlyWhen(x: real, y: real)
    ensures Round(y) > Round(x) <==> AboveBoundary(x) + (y - x) >= 1.0
  {
  }

  /** With normalised weights, a score rises exactly when the gain carries it over a rounding boundary. */
  lemma ScoreRisesExactlyWhen(a: ScoreInput, b: ScoreInput, partial: PartialWeights, t: Thresholds, gain: real)
    requires t.Complete() && NonNegative(Merged(partial))
    requires var w := NormalizeQualityWeights(partial); gain == Weighted(b, w, t) - Weighted(a, w, t)
    ensures var w := NormalizeQualityWeights(partial);
            Score(b, w, t).score > Score(a, w, t).score <==> AboveBoundary(Weighted(a, w, t)) + gain >= 1.0
  {
    hide Score, WeightedScore, ScoreComponents, NormalizeQualityWeights, Round;
    var w := NormalizeQualityWeights(partial);
    ClampNeverMatters(a, partial, t);
    ClampNeverMatters(b, partial, t);
    RoundsUpExactlyWhen(Weighted(a, w, t), Weighted(b, w, t));
  }

  /** Changing one component changes the weighted score by its points times its weight. */
  lemma OneComponent(c: Components, w: Weights, loss: int, bandwidth: int)
    ensures WeightedScore(c.(packetLossScore := loss), w) - WeightedScore(c, w) == Times((loss - c.packetLossScore) as real, w.packetLoss)
    ensures WeightedScore(c.(bandwidthScore := bandwidth), w) - WeightedScore(c, w) ==
            Times((bandwidth - c.bandwidthScore) as real, w.bandwidth)
  {
    TimesDifference(loss, c.packetLossScore, w.packetLoss);
    TimesDifference(bandwidth, c.bandwidthScore, w.bandwidth);
    hide Times;
  }

  lemma TimesDifference(x: int, y: int, weight: real)
    ensures Times((x - y) as real, weight) == Times(x as real, weight) - Times(y as real, weight)
  {
    assert (x - y) as real == x as real - y as real;
  }

  lemma GainIsPositive(points: int, weight: real)
    requires weight >= 0.0
    ensures Times(points as real, weight) > 0.0 <==> points > 0 && weight > 0.0
  {
    if points > 0 && weight > 0.0 {
      TimesRises(1.0, points as real, weight);
    } else if points <= 0 {
      TimesRises(points as real, 0.0, weight);
    }
  }

  /** Losing the latency measurements, and with them the jitter, never raises the score. */
  lemma LosingLatencyNeverRaises(a: ScoreInput, partial: PartialWeights, t: Thresholds)
    requires t.Complete() && NonNegative(Merged(partial))
    ensures var w := NormalizeQualityWeights(partial);
            && Weighted(WithoutLatency(a), w, t) <= Weighted(a, w, t)
            && Score(WithoutLatency(a), w, t).score <= Score(a, w, t).score
  {
    hide WeightedScore, ScoreFromThresholds, ScoreBandwidth, ScorePacketLoss;
    NormalizedWeightsSumToOne(partial);
    hide NormalizeQualityWeights;
    FirstFourAreHigher(a.latency.meanLatencyMs, t.latencyMs, [100, 85, 65, 40, 15]);
    FirstFourAreHigher(a.latency.jitterMs, t.jitterMs, [100, 80, 60, 35, 10]);
    WeightedRises(ScoreComponents(WithoutLatency(a), t), ScoreComponents(a, t), NormalizeQualityWeights(partial));
  }

  lemma FirstFourAreHigher(value: real, thresholds: seq<real>, scores: seq<int>)
    requires |thresholds| == 4 && |scores| == 5 && scores[0] >= scores[1] >= scores[2] >= scores[3] >= scores[4]
    ensures scores[4] <= ScoreFromThresholds(value, thresholds, scores) <= scores[0]
  {
  }

  /** The points that losing the loss measurements adds to the loss score. */
  function LossPoints(a: ScoreInput, t: Thresholds): int
    requires t.Complete()
  {
    50 - ScorePacketLoss(a.packetLoss, t)
  }

  /**
   * Losing the loss measurements raises the weighted score exactly when the loss counts and is
   * beyond fair, and the rounded score exactly when those points reach the next boundary.
   */
  lemma LosingLossRaisesExactlyWhen(a: ScoreInput, partial: PartialWeights, t: Thresholds)
    requires t.Complete() && NonNegative(Merged(partial))
    ensures var w := NormalizeQualityWeights(partial); var b := WithoutLoss(a);
            && (Weighted(b, w, t) > Weighted(a, w, t) <==> w.packetLoss > 0.0 && LossIsPoor(a, t))
            && (Score(b, w, t).score > Score(a, w, t).score <==>
                AboveBoundary(Weighted(a, w, t)) + Times(LossPoints(a, t) as real, w.packetLoss) >= 1.0)
  {
    NormalizedWeightsSumToOne(partial);
    PoorLossScoresLow(a, t);
    hide NormalizeQualityWeights, WeightedScore, Times, Score, ScoreLatency, ScoreJitter, ScorePacketLoss, ScoreBandwidth, LossIsPoor, AboveBoundary;
    var w, c := NormalizeQualityWeights(partial), ScoreComponents(a, t);
    assert ScoreComponents(WithoutLoss(a), t) == c.(packetLossScore := 50) by { SilentLossScores(a, t); }
    OneComponent(c, w, 50, 0);
    GainIsPositive(LossPoints(a, t), w.packetLoss);
    ScoreRisesExactlyWhen(a, WithoutLoss(a), partial, t, Times(LossPoints(a, t) as real, w.packetLoss));
  }

  lemma PoorLossScoresLow(a: ScoreInput, t: Thresholds)
    requires t.Complete()
    ensures LossPoints(a, t) > 0 <==> LossIsPoor(a, t)
  {
  }

  lemma SilentLossScores(a: ScoreInput, t: Thresholds)
    requires t.Complete()
    ensures ScorePacketLoss(WithoutLoss(a).packetLoss, t) == 50
  {
  }

  /** A direction's score exceeds the rounded mix from two points of lead for download, from one for upload. */
  lemma LeadOverMix(u: int, d: int)
    ensures d > MixDirections(u, d) <==> d >= u + 2
    ensures u > MixDirections(u, d) <==> u >= d + 1
  {
  }

  /** The points that losing the upload, or the download, measurement adds to the bandwidth score. */
  function UploadPoints(a: ScoreInput, t: Thresholds): int {
    ScoreBandwidth(NoEstimate(), a.download, t) - ScoreBandwidth(a.upload, a.download, t)
  }

  function DownloadPoints(a: ScoreInput, t: Thresholds): int {
    ScoreBandwidth(a.upload, NoEstimate(), t) - ScoreBandwidth(a.upload, a.download, t)
  }

  lemma DirectionPoints(a: ScoreInput, t: Thresholds)
    ensures UploadPoints(a, t) > 0 <==> BothDirections(a) && DownloadScore(a, t) >= UploadScore(a, t) + 2
    ensures DownloadPoints(a, t) > 0 <==> BothDirections(a) && UploadScore(a, t) >= DownloadScore(a, t) + 1
  {
    hide ScoreDirectionBandwidth, MixDirections;
    var upload, download := a.upload.bitsPerSecond, a.download.bitsPerSecond;
    DirectionRises(upload, upload, t.minimumUploadBps, t.targetUploadBps);
    DirectionRises(download, download, t.minimumDownloadBps, t.targetDownloadBps);
    LeadOverMix(UploadScore(a, t), DownloadScore(a, t));
  }

  lemma BandwidthOnly(a: ScoreInput, b: ScoreInput, w: Weights, t: Thresholds)
    requires t.Complete() && w.bandwidth >= 0.0 && b.latency == a.latency && b.packetLoss == a.packetLoss
    ensures var points := ScoreBandwidth(b.upload, b.download, t) - ScoreBandwidth(a.upload, a.download, t);
            && Weighted(b, w, t) - Weighted(a, w, t) == Times(points as real, w.bandwidth)
            && (Weighted(b, w, t) > Weighted(a, w, t) <==> w.bandwidth > 0.0 && points > 0)
  {
    hide WeightedScore, Times, ScoreLatency, ScoreJitter, ScorePacketLoss, ScoreBandwidth;
    var c, bandwidth := ScoreComponents(a, t), ScoreBandwidth(b.upload, b.download, t);
    assert ScoreComponents(b, t) == c.(bandwidthScore := bandwidth);
    OneComponent(c, w, 0, bandwidth);
    GainIsPositive(bandwidth - c.bandwidthScore, w.bandwidth);
  }

  /**
   * Losing the upload measurement raises the weighted score exactly when bandwidth counts and
   * the measured download scores at least two points more than the upload.
   */
  lemma LosingUploadRaisesExactlyWhen(a: ScoreInput, partial: PartialWeights, t: Thresholds)
    requires t.Complete() && NonNegative(Merged(partial))
    ensures var w := NormalizeQualityWeights(partial); var b := WithoutUpload(a);
            && (Weighted(b, w, t) > Weighted(a, w, t) <==>
                w.bandwidth > 0.0 && BothDirections(a) && DownloadScore(a, t) >= UploadScore(a, t) + 2)
            && (Score(b, w, t).score > Score(a, w, t).score <==>
                AboveBoundary(Weighted(a, w, t)) + Times(UploadPoints(a, t) as real, w.bandwidth) >= 1.0)
  {
    NormalizedWeightsSumToOne(partial);
    hide NormalizeQualityWeights, Weighted, Times, Score, ScoreBandwidth, AboveBoundary, UploadScore, DownloadScore;
    var w := NormalizeQualityWeights(partial);
    DirectionPoints(a, t);
    BandwidthOnly(a, WithoutUpload(a), w, t);
    ScoreRisesExactlyWhen(a, WithoutUpload(a), partial, t, Times(UploadPoints(a, t) as real, w.bandwidth));
  }

  /** Likewise for the download, with a lead of at least one point for the upload. */
  lemma LosingDownloadRaisesExactlyWhen(a: ScoreInput, partial: PartialWeights, t: Thresholds)
    requires t.Complete() && NonNegative(Merged(partial))
    ensures var w := NormalizeQualityWeights(partial); var b := WithoutDownload(a);
            && (Weighted(b, w, t) > Weighted(a, w, t) <==>
                w.bandwidth > 0.0 && BothDirections(a) && UploadScore(a, t) >= DownloadScore(a, t) + 1)
            && (Score(b, w, t).score > Score(a, w, t).score <==>
                AboveBoundary(Weighted(a, w, t)) + Times(DownloadPoints(a, t) as real, w.bandwidth) >= 1.0)
  {
    NormalizedWeightsSumToOne(partial);
    hide NormalizeQualityWeights, Weighted, Times, Score, ScoreBandwidth, AboveBoundary, UploadScore, DownloadScore;
    var w := NormalizeQualityWeights(partial);
    DirectionPoints(a, t);
    BandwidthOnly(a, WithoutDownload(a), w, t);
    ScoreRisesExactlyWhen(a, WithoutDownload(a), partial, t, Times(DownloadPoints(a, t) as real, w.bandwidth));
  }

  // -------------------------------------------------------------------- many peers

  /** The order of the grades from worst to best. */
  const GRADE_ORDER := [Critical, Poor, Fair, Good, Excellent]

  method WorstGrade(grades: seq<Grade>) returns (worst: Grade)
    ensures forall g <- grades :: Level(worst) <= Level(g)
    ensures worst in grades || worst == Excellent
  {
    var worstIndex := 4;
    for i := 0 to |grades|
      invariant 0 <= worstIndex <= 4
      invariant forall j | 0 <= j < i :: worstIndex <= Level(grades[j])
      invariant worstIndex == 4 || exists j | 0 <= j < i :: Level(grades[j]) == worstIndex
    {
      var index := Level(grades[i]);
      if index < worstIndex {
        worstIndex := index;
      }
    }
    worst := GRADE_ORDER[worstIndex];
    assert Level(worst) == worstIndex;
    if worstIndex < 4 {
      var j :| 0 <= j < |grades| && Level(grades[j]) == worstIndex;
      assert grades[j] == worst;
    }
  }

  function SumScores(scores: seq<int>): int {
    if scores == [] then 0 else SumScores(scores[..|scores| - 1]) + scores[|scores| - 1]
  }

  function AverageScore(scores: seq<int>): int {
    if scores == [] then 0 else Round(SumScores(scores) as real / |scores| as real)
  }

  function Value(score: int): real { score as real }

  function MedianScore(scores: seq<int>): int {
    if scores == [] then 0
    else
      var sorted := SortBy(scores, Value);
      var mid := |scores| / 2;
      if |scores| % 2 == 0 then Round((sorted[mid - 1] + sorted[mid]) as real / 2.0) else sorted[mid]
  }

  function WorstScore(scores: seq<int>): (worst: int)
    ensures scores != [] ==> worst in scores
    ensures forall s <- scores :: worst <= s
  {
    if scores == [] then 0
    else if |scores| == 1 then scores[0]
    else
      var rest := WorstScore(scores[1..]);
      assert scores == [scores[0]] + scores[1..];
      if scores[0] <= rest then scores[0] else rest
  }

  lemma {:induction false} SumBetween(scores: seq<int>, low: int, high: int)
    requires forall s <- scores :: low <= s <= high
    ensures low * |scores| <= SumScores(scores) <= high * |scores|
  {
    if scores != [] {
      var n := |scores| - 1;
      assert scores[n] in scores;
      forall s <- scores[..n] ensures low <= s <= high { assert s in scores; }
      SumBetween(scores[..n], low, high);
    }
  }

  /** The mean of integers between two integers rounds to one between them. */
  lemma AverageBetween(scores: seq<int>, low: int, high: int)
    requires scores != [] && forall s <- scores :: low <= s <= high
    ensures low <= AverageScore(scores) <= high
  {
    hide SumScores;
    SumBetween(scores, low, high);
    RealProduct(low, |scores|);
    RealProduct(high, |scores|);
    QuotientBetween(SumScores(scores) as real, low as real, high as real, |scores| as real);
  }

  lemma RealProduct(x: int, n: int)
    ensures (x * n) as real == x as real * n as real
  {
  }

  lemma MedianBetween(scores: seq<int>, low: int, high: int)
    requires scores != [] && forall s <- scores :: low <= s <= high
    ensures low <= MedianScore(scores) <= high
  {
    hide SortBy, Ascending;
    var sorted := SortBy(scores, Value);
    SortAscends(scores, Value);
    forall i | 0 <= i < |sorted| ensures low <= sorted[i] <= high {
      assert sorted[i] in multiset(sorted);
      assert sorted[i] in multiset(scores) && sorted[i] in scores;
    }
  }

  /** The worst score bounds the median and the average from below; any upper bound bounds both. */
  lemma WorstIsLowest(scores: seq<int>, high: int)
    requires forall s <- scores :: s <= high
    ensures WorstScore(scores) <= MedianScore(scores) && WorstScore(scores) <= AverageScore(scores)
    ensures scores != [] ==> MedianScore(scores) <= high && AverageScore(scores) <= high
  {
    hide WorstScore, MedianScore, AverageScore;
    if scores == [] {
      NoScores();
    } else {
      AverageBetween(scores, WorstScore(scores), high);
      MedianBetween(scores, WorstScore(scores), high);
    }
  }

  lemma NoScores()
    ensures WorstScore([]) == MedianScore([]) == AverageScore([]) == 0
  {
  }
}
