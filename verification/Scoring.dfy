/** The exact values of quality scores: bands, lines between thresholds, weights, grades, means and medians. */
module Scoring {
  import opened Common
  import opened Jitter
  import opened Quality
  import opened Sorting
  import Throughput

  predicate Ordered(bounds: seq<real>) { |bounds| == 4 && bounds[0] < bounds[1] < bounds[2] < bounds[3] }

  /** Each of five scores is given on exactly its band between the four bounds. */
  predicate OnBands(value: real, bounds: seq<real>, score: int, first: int, second: int, third: int, fourth: int, fifth: int)
    requires |bounds| == 4
  {
    && (score == first <==> value <= bounds[0])
    && (score == second <==> bounds[0] < value <= bounds[1])
    && (score == third <==> bounds[1] < value <= bounds[2])
    && (score == fourth <==> bounds[2] < value <= bounds[3])
    && (score == fifth <==> bounds[3] < value)
  }

  /** The score is the whole number nearest to n / d, halves rounding up. */
  predicate IsNearest(score: int, n: real, d: real) {
    Times(2.0 * score as real - 1.0, d) <= 2.0 * n < Times(2.0 * score as real + 1.0, d)
  }

  /** The score of a direction: 0, 100, or on the line from 0 to 30 at the minimum, or from there to 100 at the target. */
  predicate OnLine(bps: real, minimum: real, target: real, score: int) {
    if bps <= 0.0 then score == 0
    else if bps >= target then score == 100
    else if bps <= minimum then IsNearest(score, 30.0 * bps, minimum)
    else IsNearest(score - 30, 70.0 * (bps - minimum), target - minimum)
  }

  lemma RoundIsNearest(score: int, n: real, d: real)
    requires d > 0.0 && score == Round(n / d)
    ensures IsNearest(score, n, d)
  {
    var x := n / d;
    DivideThenMultiply(n, d);
    Halfway(score, x);
    TimesRises(2.0 * score as real - 1.0, 2.0 * x, d);
    TimesRisesStrictly(2.0 * x, 2.0 * score as real + 1.0, d);
    Doubled(x, d);
    hide Times, Round;
  }

  lemma Halfway(score: int, x: real)
    requires score == Round(x)
    ensures 2.0 * score as real - 1.0 <= 2.0 * x < 2.0 * score as real + 1.0
  {
  }

  lemma TimesRisesStrictly(x: real, y: real, m: real)
    requires x < y && m > 0.0
    ensures Times(x, m) < Times(y, m)
  {
    assert (y - x) * m > 0.0;
  }

  lemma Doubled(x: real, d: real)
    ensures Times(2.0 * x, d) == 2.0 * (x * d)
  {
  }

  lemma ScaleQuotient(x: real, y: real, m: real)
    requires m > 0.0
    ensures Times(x / m, y) == (y * x) / m
  {
    var q := x / m;
    assert q * m == x;
    assert (Times(q, y)) * m == y * x;
  }

  lemma DirectionIsOnLine(bps: real, minimum: real, target: real)
    ensures OnLine(bps, minimum, target, ScoreDirectionBandwidth(bps, minimum, target))
  {
    hide Times, Round;
    if 0.0 < bps < target {
      var score := ScoreDirectionBandwidth(bps, minimum, target);
      if bps < minimum {
        ScaleQuotient(bps, 30.0, minimum);
        assert score == Round(30.0 * bps / minimum);
        RoundIsNearest(score, 30.0 * bps, minimum);
      } else if bps == minimum {
        WholeIsNearest(30, minimum);
      } else {
        ScaleQuotient(bps - minimum, 70.0, target - minimum);
        RoundShifts(30, 70.0 * (bps - minimum) / (target - minimum));
        RoundIsNearest(score - 30, 70.0 * (bps - minimum), target - minimum);
      }
    }
  }

  lemma WholeIsNearest(x: int, d: real)
    requires d > 0.0
    ensures IsNearest(x, x as real * d, d)
  {
  }

  lemma RoundShifts(n: int, x: real)
    ensures Round(n as real + x) == n + Round(x)
  {
  }

  // ------------------------------------------------------------------ components

  /**
   * Every component of a score has its exact value: on ordered bounds latency, jitter and loss
   * score by their bands, bandwidth by the measured directions, two being mixed 4 to 6; a
   * missing latency or bandwidth scores 0 and a missing loss 50.
   */
  lemma {:induction false} ComponentsAreExact(a: ScoreInput, w: Weights, t: Thresholds)
    requires Ordered(t.latencyMs) && Ordered(t.jitterMs) && Ordered(t.lossRate)
    ensures var c := Score(a, w, t).components;
            && (a.latency.sampleCount == 0 ==> c.latencyScore == 0 && c.jitterScore == 0)
            && (a.latency.sampleCount > 0 ==>
                  OnBands(a.latency.meanLatencyMs, t.latencyMs, c.latencyScore, 100, 85, 65, 40, 15) &&
                  OnBands(a.latency.jitterMs, t.jitterMs, c.jitterScore, 100, 80, 60, 35, 10))
            && (if a.packetLoss.sampleCount == 0 then c.packetLossScore == 50
                else OnBands(a.packetLoss.lossRate, t.lossRate, c.packetLossScore, 100, 85, 60, 30, 5))
  {
    hide ScoreBandwidth, WeightedScore, GradeFromScore, Round;
  }

  /** The bandwidth component: none, one or both directions measured. */
  lemma {:induction false} BandwidthIsExact(a: ScoreInput, w: Weights, t: Thresholds, upload: int, download: int)
    requires t.Complete()
    requires OnLine(a.upload.bitsPerSecond, t.minimumUploadBps, t.targetUploadBps, upload)
    requires OnLine(a.download.bitsPerSecond, t.minimumDownloadBps, t.targetDownloadBps, download)
    ensures var score := Score(a, w, t).components.bandwidthScore;
            if a.upload.sampleCount == 0 && a.download.sampleCount == 0 then score == 0
            else if a.upload.sampleCount == 0 then score == download
            else if a.download.sampleCount == 0 then score == upload
            else 10 * score - 5 <= 4 * upload + 6 * download < 10 * score + 5
  {
    DirectionIsOnLine(a.upload.bitsPerSecond, t.minimumUploadBps, t.targetUploadBps);
    DirectionIsOnLine(a.download.bitsPerSecond, t.minimumDownloadBps, t.targetDownloadBps);
    OnLineIsUnique(a.upload.bitsPerSecond, t.minimumUploadBps, t.targetUploadBps, upload,
      ScoreDirectionBandwidth(a.upload.bitsPerSecond, t.minimumUploadBps, t.targetUploadBps));
    OnLineIsUnique(a.download.bitsPerSecond, t.minimumDownloadBps, t.targetDownloadBps, download,
      ScoreDirectionBandwidth(a.download.bitsPerSecond, t.minimumDownloadBps, t.targetDownloadBps));
    MixIsNearest(upload, download);
    hide OnLine, ScoreDirectionBandwidth, MixDirections, ScoreLatency, ScoreJitter, ScorePacketLoss, WeightedScore, GradeFromScore, Round;
  }

  lemma MixIsNearest(upload: int, download: int)
    ensures var score := MixDirections(upload, download); 10 * score - 5 <= 4 * upload + 6 * download < 10 * score + 5
  {
  }

  lemma OnLineIsUnique(bps: real, minimum: real, target: real, x: int, y: int)
    requires OnLine(bps, minimum, target, x) && OnLine(bps, minimum, target, y)
    ensures x == y
  {
    hide IsNearest;
    if 0.0 < bps < target {
      if bps <= minimum { NearestIsUnique(x, y, 30.0 * bps, minimum); }
      else { NearestIsUnique(x - 30, y - 30, 70.0 * (bps - minimum), target - minimum); }
    }
  }

  lemma NearestIsUnique(x: int, y: int, n: real, d: real)
    requires d > 0.0 && IsNearest(x, n, d) && IsNearest(y, n, d)
    ensures x == y
  {
    if x < y { NearestIsBelow(x, y, d); }
    if y < x { NearestIsBelow(y, x, d); }
  }

  lemma NearestIsBelow(x: int, y: int, d: real)
    requires d > 0.0 && x < y
    ensures Times(2.0 * x as real + 1.0, d) <= Times(2.0 * y as real - 1.0, d)
  {
    TimesRises(2.0 * x as real + 1.0, 2.0 * y as real - 1.0, d);
  }

  // -------------------------------------------------------------- score and grade

  /** Each grade is given from its own bound up to the next. */
  predicate IsGrade(score: int, grade: Grade) {
    && (grade == Excellent <==> 90 <= score)
    && (grade == Good <==> 75 <= score < 90)
    && (grade == Fair <==> 55 <= score < 75)
    && (grade == Poor <==> 30 <= score < 55)
    && (grade == Critical <==> score < 30)
  }

  /** The score is the weighted sum of its components, cut to a percentage and rounded, and the grade is that of the score. */
  lemma {:induction false} ScoreIsExact(a: ScoreInput, w: Weights, t: Thresholds)
    requires t.Complete()
    ensures var q := Score(a, w, t); var c := q.components;
            var sum := Times(c.latencyScore as real, w.latency) + Times(c.jitterScore as real, w.jitter) +
                       Times(c.packetLossScore as real, w.packetLoss) + Times(c.bandwidthScore as real, w.bandwidth);
            && (sum <= 0.0 ==> q.score == 0)
            && (sum >= 100.0 ==> q.score == 100)
            && (0.0 <= sum <= 100.0 ==> 2.0 * q.score as real - 1.0 <= 2.0 * sum < 2.0 * q.score as real + 1.0)
            && IsGrade(q.score, q.grade)
  {
    hide ScoreComponents, Round, Clamp, Times;
    RoundedPercentage(WeightedScore(ScoreComponents(a, t), w));
  }

  lemma RoundedPercentage(x: real)
    ensures var score := Round(Clamp(x));
            && (x <= 0.0 ==> score == 0)
            && (x >= 100.0 ==> score == 100)
            && (0.0 <= x <= 100.0 ==> 2.0 * score as real - 1.0 <= 2.0 * x < 2.0 * score as real + 1.0)
  {
  }

  /** Weights left out are the defaults, and every weight is its share of their total; a total not above 0 gives the defaults. */
  lemma {:induction false} WeightsAreShares(p: PartialWeights)
    ensures var latency, jitter := if p.latency.Some? then p.latency.value else 0.3, if p.jitter.Some? then p.jitter.value else 0.25;
            var loss, bandwidth := if p.packetLoss.Some? then p.packetLoss.value else 0.3, if p.bandwidth.Some? then p.bandwidth.value else 0.15;
            var total := latency + jitter + loss + bandwidth; var w := NormalizeQualityWeights(p);
            if total <= 0.0 then w == Weights(0.3, 0.25, 0.3, 0.15)
            else Times(w.latency, total) == latency && Times(w.jitter, total) == jitter &&
                 Times(w.packetLoss, total) == loss && Times(w.bandwidth, total) == bandwidth
  {
    hide Times;
    var m := Merged(p);
    if Total(m) > 0.0 {
      ShareTimesTotal(m.latency, Total(m));
      ShareTimesTotal(m.jitter, Total(m));
      ShareTimesTotal(m.packetLoss, Total(m));
      ShareTimesTotal(m.bandwidth, Total(m));
    }
  }

  lemma ShareTimesTotal(x: real, total: real)
    requires total > 0.0
    ensures Times(x / total, total) == x
  {
    DivideThenMultiply(x, total);
  }

  // ----------------------------------------------------------------- many peers

  /** The average is the whole number nearest to the sum of the scores over their number. */
  lemma {:induction false} AverageIsExact(scores: seq<int>, x: int)
    ensures SumScores([]) == 0 && SumScores(scores + [x]) == SumScores(scores) + x
    ensures scores == [] ==> AverageScore(scores) == 0
    ensures scores != [] ==> IsNearest(AverageScore(scores), SumScores(scores) as real, |scores| as real)
  {
    assert (scores + [x])[..|scores|] == scores;
    if scores != [] { RoundIsNearest(AverageScore(scores), SumScores(scores) as real, |scores| as real); }
  }

  predicate Climbs(s: seq<int>) { forall i, j | 0 <= i < j < |s| :: s[i] <= s[j] }

  lemma {:induction false} ClimbingIsUnique(a: seq<int>, b: seq<int>)
    requires Climbs(a) && Climbs(b) && multiset(a) == multiset(b)
    ensures a == b
  {
    if a == [] {
      assert |multiset(b)| == 0;
    } else {
      SameFirst(a, b);
      ClimbingIsUnique(a[1..], b[1..]);
      assert a == [a[0]] + a[1..] && b == [b[0]] + b[1..];
    }
  }

  lemma SameFirst(a: seq<int>, b: seq<int>)
    requires Climbs(a) && Climbs(b) && multiset(a) == multiset(b) && a != []
    ensures b != [] && a[0] == b[0] && multiset(a[1..]) == multiset(b[1..]) && Climbs(a[1..]) && Climbs(b[1..])
  {
    assert a[0] in multiset(a);
    ClimbingHead(b, a[0]);
    assert b[0] in multiset(b);
    ClimbingHead(a, b[0]);
    ClimbingTail(a);
    ClimbingTail(b);
  }

  lemma ClimbingHead(s: seq<int>, v: int)
    requires Climbs(s) && v in multiset(s)
    ensures s != [] && s[0] <= v
  {
    assert v in s;
  }

  lemma ClimbingTail(s: seq<int>)
    requires s != [] && Climbs(s)
    ensures Climbs(s[1..]) && multiset(s[1..]) == multiset(s) - multiset{s[0]}
  {
    assert s == [s[0]] + s[1..];
  }

  /** In ascending order the median is the middle score, or the two middle ones' mean rounded half up. */
  lemma {:induction false} MedianIsMiddle(scores: seq<int>, ordered: seq<int>)
    requires multiset(ordered) == multiset(scores) && Climbs(ordered)
    ensures scores == [] ==> MedianScore(scores) == 0
    ensures scores != [] ==>
              && |ordered| == |scores|
              && (|scores| % 2 == 1 ==> MedianScore(scores) == ordered[|scores| / 2])
              && (|scores| % 2 == 0 ==>
                    2 * MedianScore(scores) - 1 <= ordered[|scores| / 2 - 1] + ordered[|scores| / 2] <= 2 * MedianScore(scores))
  {
    assert |multiset(ordered)| == |ordered| && |multiset(scores)| == |scores|;
    var sorted := SortBy(scores, Value);
    SortAscends(scores, Value);
    assert forall i, j | 0 <= i < j < |sorted| :: Value(sorted[i]) <= Value(sorted[j]);
    ClimbingIsUnique(ordered, sorted);
  }
}
