/** Peer and room metrics derived from the store. */
module Rooms {
  import opened Common
  import opened Jitter
  import opened MetricsStore
  import opened PacketLoss
  import opened Quality
  import opened Throughput

  datatype PeerMetrics = PeerMetrics(
    peerId: string,
    roomId: string,
    displayName: Option<string>,
    connectedAt: real,
    lastUpdatedAt: real,
    latency: JitterStats,
    upload: Estimate,
    download: Estimate,
    packetLoss: LossStats,
    quality: ConnectionQuality,
    isStale: bool)

  datatype RoomMetrics = RoomMetrics(
    roomId: string,
    peerCount: int,
    activePeerCount: int,
    averageQualityScore: int,
    medianQualityScore: int,
    worstQualityScore: int,
    aggregateUploadBps: real,
    aggregateDownloadBps: real,
    averageLatencyMs: real,
    averageJitterMs: real,
    averagePacketLossRate: real,
    qualityDistribution: Distribution,
    assessedAt: real)

  datatype Distribution = Distribution(excellent: int, good: int, fair: int, poor: int, critical: int)

  datatype Settings = Settings(windowMs: real, stalePeerThresholdMs: real, weights: Weights, thresholds: Thresholds)

  // ------------------------------------------------------------------ one peer

  function LatenciesOf(c: Settings, record: PeerRecord, now: real): seq<real> {
    Rtts(FilterSamples(record.latency, c.windowMs, now, None))
  }

  /** A peer's metrics, given the jitter that the shared calculator remembers. */
  function BuildPeer(c: Settings, record: PeerRecord, last: Option<real>, now: real): (p: PeerMetrics)
    requires c.thresholds.Complete()
    ensures p.roomId == record.roomId && p.peerId == record.peerId
  {
    var latencies := LatenciesOf(c, record, now);
    var latency := StatsOf(latencies, JitterResult(last, latencies), c.windowMs);
    var upload := EstimateOf(Rates(KeptFor(record.bandwidth, c.windowMs, Upload, now)), DefaultTrendRule);
    var download := EstimateOf(Rates(KeptFor(record.bandwidth, c.windowMs, Download, now)), DefaultTrendRule);
    var packetLoss := Stats(Kept(record.loss, c.windowMs, now, None), c.windowMs, None);
    PeerMetrics(record.peerId, record.roomId, record.displayName, record.connectedAt, record.lastUpdatedAt,
                latency, upload, download, packetLoss,
                Score(ScoreInput(latency, packetLoss, upload, download), c.weights, c.thresholds),
                now - record.lastUpdatedAt > c.stalePeerThresholdMs)
  }

  /** What the shared calculator remembers after the records. */
  function JitterAfter(c: Settings, records: seq<PeerRecord>, last: Option<real>, now: real): Option<real> {
    if records == [] then last
    else NextJitter(JitterAfter(c, records[..|records| - 1], last, now), LatenciesOf(c, records[|records| - 1], now))
  }

  function BuildPeers(c: Settings, records: seq<PeerRecord>, last: Option<real>, now: real): (peers: seq<PeerMetrics>)
    requires c.thresholds.Complete()
    ensures |peers| == |records|
  {
    if records == [] then []
    else
      var before := records[..|records| - 1];
      BuildPeers(c, before, last, now) + [BuildPeer(c, records[|records| - 1], JitterAfter(c, before, last, now), now)]
  }

  /** A record's metrics name its room and its peer. */
  lemma {:induction false} BuiltInOrder(c: Settings, records: seq<PeerRecord>, last: Option<real>, now: real)
    requires c.thresholds.Complete()
    ensures Describes(BuildPeers(c, records, last, now), records)
  {
    hide BuildPeer, JitterAfter, Describes;
    DescribesNone();
    if records != [] {
      var n := |records| - 1;
      BuiltInOrder(c, records[..n], last, now);
      var peer := BuildPeer(c, records[n], JitterAfter(c, records[..n], last, now), now);
      DescribesOneMore(BuildPeers(c, records[..n], last, now), peer, records);
    }
  }

  predicate Describes(peers: seq<PeerMetrics>, records: seq<PeerRecord>) {
    && |peers| == |records|
    && forall i | 0 <= i < |records| :: peers[i].roomId == records[i].roomId && peers[i].peerId == records[i].peerId
  }

  lemma DescribesNone()
    ensures Describes([], [])
  {
  }

  lemma DescribesOneMore(peers: seq<PeerMetrics>, peer: PeerMetrics, records: seq<PeerRecord>)
    requires records != []
    requires Describes(peers, records[..|records| - 1])
    requires peer.roomId == records[|records| - 1].roomId && peer.peerId == records[|records| - 1].peerId
    ensures Describes(peers + [peer], records)
  {
  }

  // ------------------------------------------------------------------ one room

  function Scores(peers: seq<PeerMetrics>): (s: seq<int>)
    ensures |s| == |peers|
    ensures forall i | 0 <= i < |peers| :: s[i] == peers[i].quality.score
  {
    seq(|peers|, i requires 0 <= i < |peers| => peers[i].quality.score)
  }

  function LatencyStats(peers: seq<PeerMetrics>): seq<JitterStats> {
    seq(|peers|, i requires 0 <= i < |peers| => peers[i].latency)
  }

  function PeerLosses(peers: seq<PeerMetrics>): seq<LossStats> {
    seq(|peers|, i requires 0 <= i < |peers| => peers[i].packetLoss)
  }

  function UploadBits(peers: seq<PeerMetrics>): seq<real> {
    seq(|peers|, i requires 0 <= i < |peers| => peers[i].upload.bitsPerSecond)
  }

  function DownloadBits(peers: seq<PeerMetrics>): seq<real> {
    seq(|peers|, i requires 0 <= i < |peers| => peers[i].download.bitsPerSecond)
  }

  function Active(peers: seq<PeerMetrics>): seq<PeerMetrics> { Filter(peers, (p: PeerMetrics) => !p.isStale) }

  function Graded(peers: seq<PeerMetrics>, grade: Grade): nat {
    if peers == [] then 0
    else Graded(peers[..|peers| - 1], grade) + if peers[|peers| - 1].quality.grade == grade then 1 else 0
  }

  /** How many peers have each grade. */
  function Distributed(peers: seq<PeerMetrics>): Distribution {
    Distribution(Graded(peers, Excellent), Graded(peers, Good), Graded(peers, Fair), Graded(peers, Poor), Graded(peers, Critical))
  }

  function DistributionTotal(d: Distribution): int { d.excellent + d.good + d.fair + d.poor + d.critical }

  function RoomOf(c: Settings, roomId: string, peers: seq<PeerMetrics>, now: real): RoomMetrics {
    var latency := AggregateRoomJitter(LatencyStats(peers), c.windowMs);
    RoomMetrics(roomId, |peers|, |Active(peers)|,
                AverageScore(Scores(peers)), MedianScore(Scores(peers)), WorstScore(Scores(peers)),
                Sum(UploadBits(peers)), Sum(DownloadBits(peers)),
                latency.meanLatencyMs, latency.jitterMs, AggregateRoomLoss(PeerLosses(peers), c.windowMs).lossRate,
                Distributed(peers), now)
  }

  lemma {:induction false} GradesAddUp(peers: seq<PeerMetrics>)
    ensures DistributionTotal(Distributed(peers)) == |peers|
  {
    if peers != [] {
      GradesAddUp(peers[..|peers| - 1]);
    }
  }

  /** The grades add up to the peer count, and the worst score is at most the median and the average. */
  lemma {:induction false} RoomIsConsistent(c: Settings, roomId: string, peers: seq<PeerMetrics>, now: real)
    ensures var room := RoomOf(c, roomId, peers, now);
            && DistributionTotal(room.qualityDistribution) == room.peerCount == |peers|
            && room.activePeerCount <= room.peerCount
            && room.worstQualityScore <= room.medianQualityScore && room.worstQualityScore <= room.averageQualityScore
            && forall p <- peers :: room.worstQualityScore <= p.quality.score
  {
    hide Graded, AverageScore, MedianScore, WorstScore, Sum, AggregateRoomJitter, AggregateRoomLoss, Distributed;
    GradesAddUp(peers);
    var scores := Scores(peers);
    var high := UpperBound(scores);
    WorstIsLowest(scores, high);
    forall p <- peers ensures WorstScore(scores) <= p.quality.score {
      var i :| 0 <= i < |peers| && peers[i] == p;
      assert scores[i] in scores;
    }
  }

  lemma {:induction false} UpperBound(scores: seq<int>) returns (high: int)
    ensures forall s <- scores :: s <= high
  {
    high := 0;
    if scores != [] {
      var rest := UpperBound(scores[1..]);
      assert scores == [scores[0]] + scores[1..];
      high := if scores[0] > rest then scores[0] else rest;
    }
  }

  // ----------------------------------------------------------------- all rooms

  datatype Aggregation = Aggregation(rooms: seq<RoomMetrics>, allPeers: seq<PeerMetrics>, jitter: Option<real>)

  /** The room ids of the records, each once, in order of first appearance. */
  function RoomIds(records: seq<PeerRecord>): (ids: seq<string>)
    ensures forall id :: id in ids <==> exists i :: 0 <= i < |records| && records[i].roomId == id
  {
    if records == [] then []
    else
      var before, id := RoomIds(records[..|records| - 1]), records[|records| - 1].roomId;
      if id in before then before else before + [id]
  }

  /** A room query that includes stale peers; the empty room id selects everything. */
  function RecordsOf(records: seq<PeerRecord>, roomId: string): seq<PeerRecord> {
    Filter(records, (r: PeerRecord) => roomId == "" || r.roomId == roomId)
  }

  function Aggregated(c: Settings, records: seq<PeerRecord>, ids: seq<string>, last: Option<real>, now: real): Aggregation
    requires c.thresholds.Complete()
  {
    if ids == [] then Aggregation([], [], last)
    else
      var before, id := Aggregated(c, records, ids[..|ids| - 1], last, now), ids[|ids| - 1];
      var members := RecordsOf(records, id);
      var peers := BuildPeers(c, members, before.jitter, now);
      Aggregation(before.rooms + [RoomOf(c, id, peers, now)], before.allPeers + peers, JitterAfter(c, members, before.jitter, now))
  }

  class RoomMetricsAggregator {
    const settings: Settings
    const store: PeerMetricsStore
    const jitterCalculator: JitterCalculator
    const packetLossTracker: PacketLossTracker
    const bandwidthEstimator: BandwidthEstimator

    constructor (settings: Settings, store: PeerMetricsStore)
      ensures this.settings == settings && this.store == store && fresh(jitterCalculator) && Ready()
      ensures jitterCalculator.lastRfcJitter == None && jitterCalculator.Valid()
    {
      this.settings, this.store := settings, store;
      jitterCalculator := new JitterCalculator(settings.windowMs);
      packetLossTracker := new PacketLossTracker(settings.windowMs, 0.3);
      bandwidthEstimator := new BandwidthEstimator(settings.windowMs, DefaultTrendRule);
    }

    predicate Ready() {
      && jitterCalculator.windowMs == packetLossTracker.windowMs == bandwidthEstimator.windowMs == settings.windowMs
      && bandwidthEstimator.trendRule == DefaultTrendRule
    }

    /** The store's records in insertion order. */
    ghost function Records(): seq<PeerRecord>
      reads store
    {
      Listing(store.order, store.peers, (r: PeerRecord) => true)
    }

    method BuildPeerMetrics(record: PeerRecord, now: real) returns (peer: PeerMetrics)
      requires Ready() && settings.thresholds.Complete() && jitterCalculator.Valid()
      modifies jitterCalculator
      ensures jitterCalculator.Valid() && 0.0 <= peer.latency.jitterMs <= LargestSpread(jitterCalculator.calls)
      ensures peer == BuildPeer(settings, record, old(jitterCalculator.lastRfcJitter), now)
      ensures jitterCalculator.lastRfcJitter ==
              NextJitter(old(jitterCalculator.lastRfcJitter), LatenciesOf(settings, record, now))
    {
      hide EstimateOf, Rates, KeptFor, Stats, Kept, Score, LargestSpread;
      var latency := jitterCalculator.Compute(record.latency, now, None);
      var upload := bandwidthEstimator.EstimateRate(record.bandwidth, Upload, now);
      var download := bandwidthEstimator.EstimateRate(record.bandwidth, Download, now);
      var packetLoss := packetLossTracker.Compute(record.loss, now, None);
      var quality := Score(ScoreInput(latency, packetLoss, upload, download), settings.weights, settings.thresholds);
      var isStale := now - record.lastUpdatedAt > settings.stalePeerThresholdMs;
      return PeerMetrics(record.peerId, record.roomId, record.displayName, record.connectedAt, record.lastUpdatedAt,
                         latency, upload, download, packetLoss, quality, isStale);
    }

    method AggregateRoom(roomId: string, now: real) returns (room: RoomMetrics, peers: seq<PeerMetrics>)
      requires Ready() && settings.thresholds.Complete() && store.Valid() && jitterCalculator.Valid()
      modifies jitterCalculator
      ensures jitterCalculator.Valid()
      ensures var members := RecordsOf(Records(), roomId);
              && peers == BuildPeers(settings, members, old(jitterCalculator.lastRfcJitter), now)
              && room == RoomOf(settings, roomId, peers, now)
              && jitterCalculator.lastRfcJitter == JitterAfter(settings, members, old(jitterCalculator.lastRfcJitter), now)
    {
      hide BuildPeer, RoomOf, NextJitter, LatenciesOf, RecordsOf;
      var records := store.List(Query(Some(roomId), true, None), now);
      ListIsRecordsOf(store.order, store.peers, roomId, store.config.retentionMs, now);
      peers := [];
      ghost var last := jitterCalculator.lastRfcJitter;
      for i := 0 to |records|
        invariant jitterCalculator.Valid()
        invariant peers == BuildPeers(settings, records[..i], last, now)
        invariant jitterCalculator.lastRfcJitter == JitterAfter(settings, records[..i], last, now)
      {
        assert records[..i + 1][..i] == records[..i];
        var peer := BuildPeerMetrics(records[i], now);
        peers := peers + [peer];
      }
      assert records[..|records|] == records;
      room := ComputeRoomMetrics(roomId, peers, now);
    }

    method ComputeRoomMetrics(roomId: string, peers: seq<PeerMetrics>, now: real) returns (room: RoomMetrics)
      ensures room == RoomOf(settings, roomId, peers, now)
    {
      hide AverageScore, MedianScore, WorstScore, Sum, AggregateRoomJitter, AggregateRoomLoss, Active;
      var d := Distribution(0, 0, 0, 0, 0);
      for i := 0 to |peers|
        invariant d == Distributed(peers[..i])
      {
        assert peers[..i + 1][..i] == peers[..i];
        match peers[i].quality.grade {
          case Excellent => d := d.(excellent := d.excellent + 1);
          case Good => d := d.(good := d.good + 1);
          case Fair => d := d.(fair := d.fair + 1);
          case Poor => d := d.(poor := d.poor + 1);
          case Critical => d := d.(critical := d.critical + 1);
        }
      }
      assert peers[..|peers|] == peers;
      var latency := AggregateRoomJitter(LatencyStats(peers), settings.windowMs);
      var loss := AggregateRoomLoss(PeerLosses(peers), settings.windowMs);
      return RoomMetrics(roomId, |peers|, |Active(peers)|,
                         AverageScore(Scores(peers)), MedianScore(Scores(peers)), WorstScore(Scores(peers)),
                         Sum(UploadBits(peers)), Sum(DownloadBits(peers)),
                         latency.meanLatencyMs, latency.jitterMs, loss.lossRate, d, now);
    }

    method AggregateAllRooms(now: real) returns (rooms: seq<RoomMetrics>, allPeers: seq<PeerMetrics>)
      requires Ready() && settings.thresholds.Complete() && store.Valid() && jitterCalculator.Valid()
      modifies jitterCalculator
      ensures jitterCalculator.Valid()
      ensures Aggregation(rooms, allPeers, jitterCalculator.lastRfcJitter) ==
              Aggregated(settings, Records(), RoomIds(Records()), old(jitterCalculator.lastRfcJitter), now)
    {
      hide BuildPeers, RoomOf, JitterAfter, RecordsOf, RoomIds, ListResult;
      var records := store.List(Query(None, true, None), now);
      ListIsEverything(store.order, store.peers, store.config.retentionMs, now);
      var roomIds := RoomIds(records);
      ghost var last := jitterCalculator.lastRfcJitter;
      rooms, allPeers := [], [];
      for i := 0 to |roomIds|
        invariant jitterCalculator.Valid()
        invariant Aggregation(rooms, allPeers, jitterCalculator.lastRfcJitter) ==
                  Aggregated(settings, records, roomIds[..i], last, now)
      {
        assert roomIds[..i + 1][..i] == roomIds[..i];
        var room, peers := AggregateRoom(roomIds[i], now);
        rooms := rooms + [room];
        allPeers := allPeers + peers;
      }
      assert roomIds[..|roomIds|] == roomIds;
    }
  }

  lemma ListIsEverything(order: seq<string>, peers: Peers, retentionMs: real, now: real)
    ensures ListResult(order, peers, Query(None, true, None), retentionMs, now) == Listing(order, peers, (r: PeerRecord) => true)
  {
    ListingSame(order, peers, record => Matches(Query(None, true, None), retentionMs, now, record), (r: PeerRecord) => true);
  }

  lemma ListIsRecordsOf(order: seq<string>, peers: Peers, roomId: string, retentionMs: real, now: real)
    ensures ListResult(order, peers, Query(Some(roomId), true, None), retentionMs, now) ==
            RecordsOf(Listing(order, peers, (r: PeerRecord) => true), roomId)
  {
    FilterListing(order, peers, (r: PeerRecord) => true, (r: PeerRecord) => roomId == "" || r.roomId == roomId,
      record => Matches(Query(Some(roomId), true, None), retentionMs, now, record));
  }
}
