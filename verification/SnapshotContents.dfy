/** Which records a snapshot reports, in which order, and how its rooms count them. */
module SnapshotContents {
  import opened Common
  import opened Jitter
  import opened MetricsStore
  import opened PacketLoss
  import opened Quality
  import opened Rooms
  import opened Scoring
  import opened Snapshots
  import opened Sorting
  import Measurements
  import Throughput

  /** The record was updated within the threshold. */
  predicate IsFresh(c: Settings, r: PeerRecord, now: real) { now - r.lastUpdatedAt <= c.stalePeerThresholdMs }

  predicate Permits(roomFilter: Option<set<string>>, roomId: string) { roomFilter == None || roomId in roomFilter.value }

  /** The metrics are headed as the record is, and flag it as stale when it is not fresh. */
  predicate Reports(c: Settings, p: PeerMetrics, r: PeerRecord, now: real) {
    && p.peerId == r.peerId && p.roomId == r.roomId && p.displayName == r.displayName
    && p.connectedAt == r.connectedAt && p.lastUpdatedAt == r.lastUpdatedAt
    && (p.isStale <==> !IsFresh(c, r, now))
  }

  predicate ReportsAll(c: Settings, peers: seq<PeerMetrics>, records: seq<PeerRecord>, now: real) {
    |peers| == |records| && forall i | 0 <= i < |records| :: Reports(c, peers[i], records[i], now)
  }

  /** Room after room, the records its query selects; the empty id selects all. */
  function Gathered(records: seq<PeerRecord>, ids: seq<string>): seq<PeerRecord> {
    if ids == [] then []
    else
      var id := ids[|ids| - 1];
      Gathered(records, ids[..|ids| - 1]) + if id == "" then records else Named(records, id)
  }

  /** The records that the snapshot is to report, in its order. */
  function Reported(c: Settings, records: seq<PeerRecord>, includeStalePeers: bool, roomFilter: Option<set<string>>, now: real): seq<PeerRecord> {
    Filter(Gathered(records, RoomIds(records)),
      (r: PeerRecord) => Permits(roomFilter, r.roomId) && (includeStalePeers || IsFresh(c, r, now)))
  }

  /** The number of fresh records in a room. */
  function FreshIn(c: Settings, records: seq<PeerRecord>, roomId: string, now: real): nat {
    |Filter(records, (r: PeerRecord) => r.roomId == roomId && IsFresh(c, r, now))|
  }

  // -------------------------------------------------------------- what is built

  lemma {:induction false} BuiltReports(c: Settings, r: PeerRecord, last: Option<real>, now: real)
    requires c.thresholds.Complete()
    ensures Reports(c, BuildPeer(c, r, last, now), r, now)
  {
    hide Score, StatsOf, JitterResult;
  }

  lemma {:induction false} PeersReport(c: Settings, records: seq<PeerRecord>, last: Option<real>, now: real)
    requires c.thresholds.Complete()
    ensures ReportsAll(c, BuildPeers(c, records, last, now), records, now)
  {
    hide BuildPeer, JitterAfter, Reports;
    if records != [] {
      var n := |records| - 1;
      PeersReport(c, records[..n], last, now);
      BuiltReports(c, records[n], JitterAfter(c, records[..n], last, now), now);
    }
  }

  lemma ReportsBoth(c: Settings, a: seq<PeerMetrics>, x: seq<PeerRecord>, b: seq<PeerMetrics>, y: seq<PeerRecord>, now: real)
    requires ReportsAll(c, a, x, now) && ReportsAll(c, b, y, now)
    ensures ReportsAll(c, a + b, x + y, now)
  {
    hide Reports;
  }

  lemma {:induction false} AggregationReports(c: Settings, records: seq<PeerRecord>, ids: seq<string>, last: Option<real>, now: real)
    requires c.thresholds.Complete()
    ensures ReportsAll(c, Aggregated(c, records, ids, last, now).allPeers, Gathered(records, ids), now)
  {
    hide BuildPeers, JitterAfter, Reports, RecordsOf, Named, RoomOf;
    if ids != [] {
      hide ReportsAll;
      var before, id := Aggregated(c, records, ids[..|ids| - 1], last, now), ids[|ids| - 1];
      AggregationReports(c, records, ids[..|ids| - 1], last, now);
      NamedAmongSelected(records, id, id);
      PeersReport(c, RecordsOf(records, id), before.jitter, now);
      ReportsBoth(c, before.allPeers, Gathered(records, ids[..|ids| - 1]),
        BuildPeers(c, RecordsOf(records, id), before.jitter, now), RecordsOf(records, id), now);
    }
  }

  /** Filtering metrics and records alike keeps them in step. */
  lemma {:induction false} FilterReports(c: Settings, peers: seq<PeerMetrics>, records: seq<PeerRecord>, now: real,
                                         p: PeerMetrics -> bool, q: PeerRecord -> bool)
    requires ReportsAll(c, peers, records, now)
    requires forall i | 0 <= i < |records| :: p(peers[i]) <==> q(records[i])
    ensures ReportsAll(c, Filter(peers, p), Filter(records, q), now)
  {
    hide Reports;
    if records != [] {
      FilterReports(c, peers[1..], records[1..], now, p, q);
    }
  }

  // ------------------------------------------------------------- the snapshot

  /**
   * The snapshot reports, one by one and in order, the permitted records of the queried
   * rooms, and without stale peers only those updated within the threshold.
   */
  lemma {:induction false} SnapshotReports(c: Settings, records: seq<PeerRecord>, last: Option<real>, includeStalePeers: bool,
                                           roomFilter: Option<set<string>>, now: real, id: string)
    requires c.thresholds.Complete()
    ensures var a := Aggregated(c, records, RoomIds(records), last, now);
            var s := Built(a.rooms, a.allPeers, includeStalePeers, roomFilter, now, id);
            ReportsAll(c, s.peers, Reported(c, records, includeStalePeers, roomFilter, now), now)
  {
    hide Aggregated, RoomIds, Gathered, ComputeTotals, AllowedRooms, Recounted;
    var a := Aggregated(c, records, RoomIds(records), last, now);
    var gathered := Gathered(records, RoomIds(records));
    AggregationReports(c, records, RoomIds(records), last, now);
    var permitted := Filter(gathered, (r: PeerRecord) => Permits(roomFilter, r.roomId));
    FilterReports(c, a.allPeers, gathered, now,
      (p: PeerMetrics) => Allowed(roomFilter, p.roomId), (r: PeerRecord) => Permits(roomFilter, r.roomId));
    if includeStalePeers {
      FilterSame(gathered, (r: PeerRecord) => Permits(roomFilter, r.roomId),
        (r: PeerRecord) => Permits(roomFilter, r.roomId) && (includeStalePeers || IsFresh(c, r, now)));
    } else {
      FilterReports(c, AllowedPeers(a.allPeers, roomFilter), permitted, now,
        (p: PeerMetrics) => !p.isStale, (r: PeerRecord) => IsFresh(c, r, now));
      FilterTwice(gathered, (r: PeerRecord) => Permits(roomFilter, r.roomId), (r: PeerRecord) => IsFresh(c, r, now),
        (r: PeerRecord) => Permits(roomFilter, r.roomId) && (includeStalePeers || IsFresh(c, r, now)));
    }
  }

  // ------------------------------------------------------------ what rooms count

  /** The ids of a list of rooms. */
  function IdsOf(rooms: seq<RoomMetrics>): (ids: seq<string>)
    ensures |ids| == |rooms|
  {
    seq(|rooms|, i requires 0 <= i < |rooms| => rooms[i].roomId)
  }

  /** A room counts its records, and as active the fresh ones. */
  predicate Counts(c: Settings, room: RoomMetrics, records: seq<PeerRecord>, now: real) {
    room.peerCount == |Named(records, room.roomId)| && room.activePeerCount == FreshIn(c, records, room.roomId, now)
  }

  lemma {:induction false} RoomCounts(c: Settings, records: seq<PeerRecord>, id: string, last: Option<real>, now: real)
    requires c.thresholds.Complete() && id != ""
    ensures var room := RoomOf(c, id, BuildPeers(c, RecordsOf(records, id), last, now), now);
            room.roomId == id && Counts(c, room, records, now)
  {
    hide BuildPeers, RecordsOf, Named, AverageScore, MedianScore, WorstScore, Distributed, AggregateRoomJitter, AggregateRoomLoss, Sum;
    var members := RecordsOf(records, id);
    var peers := BuildPeers(c, members, last, now);
    PeersReport(c, members, last, now);
    NamedAmongSelected(records, id, id);
    FilterReports(c, peers, members, now, (p: PeerMetrics) => !p.isStale, (r: PeerRecord) => IsFresh(c, r, now));
    FreshOfRoom(c, records, id, now);
  }

  lemma {:induction false} FreshOfRoom(c: Settings, records: seq<PeerRecord>, id: string, now: real)
    ensures |Filter(Named(records, id), (r: PeerRecord) => IsFresh(c, r, now))| == FreshIn(c, records, id, now)
  {
    FilterTwice(records, (r: PeerRecord) => r.roomId == id, (r: PeerRecord) => IsFresh(c, r, now),
      (r: PeerRecord) => r.roomId == id && IsFresh(c, r, now));
  }

  lemma {:induction false} AggregationCounts(c: Settings, records: seq<PeerRecord>, ids: seq<string>, last: Option<real>, now: real)
    requires c.thresholds.Complete() && "" !in ids
    ensures var rooms := Aggregated(c, records, ids, last, now).rooms;
            IdsOf(rooms) == ids && forall room <- rooms :: Counts(c, room, records, now)
  {
    hide BuildPeers, JitterAfter, RecordsOf, RoomOf, Counts;
    if ids != [] {
      var n := |ids| - 1;
      AggregationCounts(c, records, ids[..n], last, now);
      RoomCounts(c, records, ids[n], Aggregated(c, records, ids[..n], last, now).jitter, now);
    }
  }

  lemma {:induction false} FirstId(room: RoomMetrics, rest: seq<RoomMetrics>)
    ensures IdsOf([room] + rest) == [room.roomId] + IdsOf(rest)
  {
  }

  lemma {:induction false} FilterIds(rooms: seq<RoomMetrics>, p: RoomMetrics -> bool, q: string -> bool)
    requires forall room <- rooms :: p(room) <==> q(room.roomId)
    ensures IdsOf(Filter(rooms, p)) == Filter(IdsOf(rooms), q)
  {
    if rooms != [] {
      FilterIds(rooms[1..], p, q);
      assert rooms == [rooms[0]] + rooms[1..] && rooms[0] in rooms;
      FirstId(rooms[0], rooms[1..]);
      FirstId(rooms[0], Filter(rooms[1..], p));
      hide IdsOf;
    }
  }

  /** Of the gathered records, those of one room, when no id is empty. */
  lemma {:induction false} NamedAmongGathered(records: seq<PeerRecord>, ids: seq<string>, id: string)
    requires DistinctIds(ids) && "" !in ids
    ensures Named(Gathered(records, ids), id) == if id in ids then Named(records, id) else []
  {
    if ids != [] {
      hide Named;
      var n := |ids| - 1;
      NamedAmongGathered(records, ids[..n], id);
      NamedAppend(Gathered(records, ids[..n]), Named(records, ids[n]), id);
      NamedTwice(records, ids[n], id);
      assert id in ids <==> id in ids[..n] || id == ids[n];
    }
  }

  lemma {:induction false} NamedAppend(a: seq<PeerRecord>, b: seq<PeerRecord>, id: string)
    ensures Named(a + b, id) == Named(a, id) + Named(b, id)
  {
    FilterAppend(a, b, (r: PeerRecord) => r.roomId == id);
  }

  lemma {:induction false} NamedTwice(records: seq<PeerRecord>, other: string, id: string)
    ensures Named(Named(records, other), id) == if id == other then Named(records, id) else []
  {
    if id == other {
      FilterAll(Named(records, other), (r: PeerRecord) => r.roomId == id);
    } else {
      FilterNone(Named(records, other), (r: PeerRecord) => r.roomId == id);
    }
  }

  /** The reported records of a permitted room, when stale ones are left out. */
  lemma {:induction false} ReportedInRoom(c: Settings, records: seq<PeerRecord>, roomFilter: Option<set<string>>, now: real, id: string)
    requires "" !in RoomIds(records) && Permits(roomFilter, id) && id in RoomIds(records)
    ensures |Named(Reported(c, records, false, roomFilter, now), id)| == FreshIn(c, records, id, now)
  {
    var ids := RoomIds(records);
    RoomIdsDistinct(records);
    NamedAmongGathered(records, ids, id);
    FreshOfRoom(c, records, id, now);
    var both := (r: PeerRecord) => r.roomId == id && IsFresh(c, r, now);
    FilterTwice(Gathered(records, ids), (r: PeerRecord) => Permits(roomFilter, r.roomId) && (false || IsFresh(c, r, now)),
      (r: PeerRecord) => r.roomId == id, both);
    FilterTwice(Gathered(records, ids), (r: PeerRecord) => r.roomId == id, (r: PeerRecord) => IsFresh(c, r, now), both);
  }

  lemma {:induction false} CountedInRoom(c: Settings, peers: seq<PeerMetrics>, records: seq<PeerRecord>, now: real, id: string)
    requires ReportsAll(c, peers, records, now)
    ensures |InRoom(peers, id)| == |Named(records, id)|
  {
    FilterReports(c, peers, records, now, (p: PeerMetrics) => p.roomId == id, (r: PeerRecord) => r.roomId == id);
  }

  /**
   * The snapshot lists the permitted room ids in order of first appearance. Each room counts as
   * active its fresh records, and altogether all its records or, without stale peers, those.
   */
  lemma {:induction false} SnapshotCounts(c: Settings, records: seq<PeerRecord>, last: Option<real>, includeStalePeers: bool,
                                          roomFilter: Option<set<string>>, now: real, id: string)
    requires c.thresholds.Complete() && forall r <- records :: r.roomId != ""
    ensures var a := Aggregated(c, records, RoomIds(records), last, now);
            var s := Built(a.rooms, a.allPeers, includeStalePeers, roomFilter, now, id);
            && IdsOf(s.rooms) == Filter(RoomIds(records), (roomId: string) => Permits(roomFilter, roomId))
            && forall room <- s.rooms ::
                 room.activePeerCount == FreshIn(c, records, room.roomId, now) &&
                 room.peerCount == if includeStalePeers then |Named(records, room.roomId)| else FreshIn(c, records, room.roomId, now)
  {
    hide Aggregated, ComputeTotals, Named, Reported, InRoom, AllowedPeers, FreshIn;
    var ids := RoomIds(records);
    var a := Aggregated(c, records, ids, last, now);
    var s := Built(a.rooms, a.allPeers, includeStalePeers, roomFilter, now, id);
    AggregationCounts(c, records, ids, last, now);
    FilterIds(a.rooms, (r: RoomMetrics) => Allowed(roomFilter, r.roomId), (roomId: string) => Permits(roomFilter, roomId));
    if !includeStalePeers {
      SnapshotReports(c, records, last, false, roomFilter, now, id);
      forall i | 0 <= i < |s.rooms|
        ensures s.rooms[i].peerCount == s.rooms[i].activePeerCount == FreshIn(c, records, s.rooms[i].roomId, now) {
        var room := AllowedRooms(a.rooms, roomFilter)[i];
        assert room in a.rooms && IdsOf(s.rooms)[i] == room.roomId && room.roomId in ids by { InIds(a.rooms, room); }
        CountedInRoom(c, s.peers, Reported(c, records, false, roomFilter, now), now, room.roomId);
        ReportedInRoom(c, records, roomFilter, now, room.roomId);
      }
      assert IdsOf(s.rooms) == IdsOf(AllowedRooms(a.rooms, roomFilter));
    }
  }

  /** Recounting touches nothing else of a room, and the snapshot is stamped with its time and id. */
  lemma {:induction false} SnapshotKeepsRooms(rooms: seq<RoomMetrics>, peers: seq<PeerMetrics>, includeStalePeers: bool,
                                              roomFilter: Option<set<string>>, now: real, id: string)
    ensures var s := Built(rooms, peers, includeStalePeers, roomFilter, now, id);
            && s.generatedAt == now && s.snapshotId == id
            && |s.rooms| == |AllowedRooms(rooms, roomFilter)|
            && forall i | 0 <= i < |s.rooms| ::
                 s.rooms[i] == AllowedRooms(rooms, roomFilter)[i].(peerCount := s.rooms[i].peerCount,
                                                                   activePeerCount := s.rooms[i].activePeerCount)
  {
    hide ComputeTotals, Active, InRoom, AllowedPeers, AllowedRooms;
  }

  lemma InIds(rooms: seq<RoomMetrics>, room: RoomMetrics)
    requires room in rooms
    ensures room.roomId in IdsOf(rooms)
  {
    var i :| 0 <= i < |rooms| && rooms[i] == room;
    assert IdsOf(rooms)[i] == room.roomId;
  }

  /** The room ids of a prefix come first, so they stand in order of first appearance. */
  lemma {:induction false} RoomIdsInOrder(records: seq<PeerRecord>, n: nat)
    requires n <= |records|
    ensures RoomIds(records[..n]) <= RoomIds(records) && DistinctIds(RoomIds(records))
  {
    RoomIdsDistinct(records);
    var last := |records| - 1;
    if n <= last {
      RoomIdsInOrder(records[..last], n);
      assert records[..last][..n] == records[..n];
    } else {
      assert records[..n] == records;
    }
  }

  // -------------------------------------------------- what a room says of its peers

  function Bumped(d: Distribution, grade: Grade): Distribution {
    match grade
    case Excellent => d.(excellent := d.excellent + 1)
    case Good => d.(good := d.good + 1)
    case Fair => d.(fair := d.fair + 1)
    case Poor => d.(poor := d.poor + 1)
    case Critical => d.(critical := d.critical + 1)
  }

  lemma GradeOneMore(peers: seq<PeerMetrics>, p: PeerMetrics)
    ensures Distributed([]) == Distribution(0, 0, 0, 0, 0)
    ensures Distributed(peers + [p]) == Bumped(Distributed(peers), p.quality.grade)
  {
    assert (peers + [p])[..|peers|] == peers;
  }

  /**
   * One more peer adds itself, its bitrates and its grade to the room, and to the active ones
   * unless it is stale; its latency and jitter enter the room's weighted by its samples.
   */
  lemma {:induction false} RoomCountsMember(c: Settings, roomId: string, peers: seq<PeerMetrics>, p: PeerMetrics, now: real)
    ensures var a, b := RoomOf(c, roomId, peers, now), RoomOf(c, roomId, peers + [p], now);
            var n := Counted(LatencyStats(peers));
            && b.roomId == roomId && b.assessedAt == now
            && b.peerCount == a.peerCount + 1
            && b.activePeerCount == a.activePeerCount + (if p.isStale then 0 else 1)
            && b.aggregateUploadBps == a.aggregateUploadBps + p.upload.bitsPerSecond
            && b.aggregateDownloadBps == a.aggregateDownloadBps + p.download.bitsPerSecond
            && b.qualityDistribution == Bumped(a.qualityDistribution, p.quality.grade)
            && Counted(LatencyStats(peers + [p])) == n + p.latency.sampleCount
            && Times(b.averageLatencyMs, AtLeastOne(n + p.latency.sampleCount)) ==
               Times(a.averageLatencyMs, AtLeastOne(n)) + Times(p.latency.meanLatencyMs, p.latency.sampleCount as real)
            && Times(b.averageJitterMs, AtLeastOne(n + p.latency.sampleCount)) ==
               Times(a.averageJitterMs, AtLeastOne(n)) + Times(p.latency.jitterMs, p.latency.sampleCount as real)
  {
    hide Distributed, AverageScore, MedianScore, WorstScore, AggregateRoomJitter, AggregateRoomLoss, Sum, Times, AtLeastOne, Scores,
      PeerLosses, LatencyStats, UploadBits, DownloadBits, Active;
    GradeOneMore(peers, p);
    ListsOneMore(peers, p);
    Measurements.SumOneMore(UploadBits(peers), p.upload.bitsPerSecond);
    Measurements.SumOneMore(DownloadBits(peers), p.download.bitsPerSecond);
    Measurements.RoomCountsPeer(LatencyStats(peers), p.latency, c.windowMs);
    Measurements.RoomSums(LatencyStats(peers), c.windowMs);
    Measurements.RoomSums(LatencyStats(peers) + [p.latency], c.windowMs);
  }

  lemma ListsOneMore(peers: seq<PeerMetrics>, p: PeerMetrics)
    ensures UploadBits(peers + [p]) == UploadBits(peers) + [p.upload.bitsPerSecond]
    ensures DownloadBits(peers + [p]) == DownloadBits(peers) + [p.download.bitsPerSecond]
    ensures LatencyStats(peers + [p]) == LatencyStats(peers) + [p.latency]
    ensures |Active(peers + [p])| == |Active(peers)| + if p.isStale then 0 else 1
  {
    Measurements.FilterOneMore(peers, p, (p: PeerMetrics) => !p.isStale);
  }

  /** Packets sent by all peers together, and those lost of them. */
  function SentBy(peers: seq<PeerMetrics>): int { if peers == [] then 0 else SentBy(peers[1..]) + peers[0].packetLoss.totals.sent }
  function LostBy(peers: seq<PeerMetrics>): int { if peers == [] then 0 else LostBy(peers[1..]) + peers[0].packetLoss.totals.lost }

  lemma {:induction false} LossOfPeers(peers: seq<PeerMetrics>)
    ensures var t := TotalsSum(PeerLosses(peers)); t.sent == SentBy(peers) && t.lost == LostBy(peers)
  {
    if peers != [] {
      LossOfPeers(peers[1..]);
      assert PeerLosses(peers) == [peers[0].packetLoss] + PeerLosses(peers[1..]);
      TotalsSumFirst(peers[0].packetLoss, PeerLosses(peers[1..]));
    }
  }

  lemma {:induction false} TotalsSumFirst(first: LossStats, rest: seq<LossStats>)
    ensures TotalsSum([first] + rest) == Plus(first.totals, TotalsSum(rest))
  {
    var all := [first] + rest;
    if rest == [] {
      assert all[..0] == [];
      assert TotalsSum(all[..0]) == PacketLoss.Totals(0, 0, 0);
    } else {
      TotalsSumFirst(first, rest[..|rest| - 1]);
      assert all[..|all| - 1] == [first] + rest[..|rest| - 1];
    }
  }

  /**
   * The room's scores are the nearest whole number to the peers' mean, their middle one in
   * ascending order, and their least; its loss is what all of them lost of what all of them sent.
   */
  lemma {:induction false} RoomScoresAreExact(c: Settings, roomId: string, peers: seq<PeerMetrics>, ordered: seq<int>, now: real)
    requires peers != [] && multiset(ordered) == multiset(Scores(peers)) && Climbs(ordered)
    ensures var room := RoomOf(c, roomId, peers, now); var n := |peers|;
            && |ordered| == n
            && IsNearest(room.averageQualityScore, SumScores(Scores(peers)) as real, n as real)
            && (if n % 2 == 1 then room.medianQualityScore == ordered[n / 2]
                else 2 * room.medianQualityScore - 1 <= ordered[n / 2 - 1] + ordered[n / 2] <= 2 * room.medianQualityScore)
            && room.worstQualityScore == ordered[0]
            && (SentBy(peers) <= 0 ==> room.averagePacketLossRate == 0.0)
            && (SentBy(peers) > 0 ==> Times(room.averagePacketLossRate, SentBy(peers) as real) == LostBy(peers) as real)
  {
    hide Distributed, AggregateRoomJitter, Sum, Times, MedianScore, AverageScore, WorstScore, TotalsSum, IsNearest;
    var scores := Scores(peers);
    AverageIsExact(scores, 0);
    MedianIsMiddle(scores, ordered);
    LossOfPeers(peers);
    Measurements.RateIsShare(TotalsSum(PeerLosses(peers)));
    WorstIsFirst(scores, ordered);
    hide Climbs, SumScores, Scores, SentBy, LostBy;
  }

  lemma WorstIsFirst(scores: seq<int>, ordered: seq<int>)
    requires scores != [] && multiset(ordered) == multiset(scores) && Climbs(ordered)
    ensures ordered != [] && WorstScore(scores) == ordered[0]
  {
    hide WorstScore;
    assert |multiset(ordered)| == |ordered| && |multiset(scores)| == |scores|;
    assert WorstScore(scores) in multiset(scores);
    ClimbingHead(ordered, WorstScore(scores));
    assert ordered[0] in multiset(ordered);
    assert ordered[0] in scores;
  }

  /** A snapshot's totals count its rooms and peers, add up the peers' bitrates, and average their scores. */
  lemma {:induction false} TotalsCountMember(rooms: seq<RoomMetrics>, peers: seq<PeerMetrics>, p: PeerMetrics)
    ensures ComputeTotals(rooms, []) == Snapshots.Totals(0, |rooms|, 0, 0.0, 0.0)
    ensures var a, b := ComputeTotals(rooms, peers), ComputeTotals(rooms, peers + [p]);
            && b.totalPeers == a.totalPeers + 1 && b.totalRooms == |rooms|
            && b.totalUploadBps == a.totalUploadBps + p.upload.bitsPerSecond
            && b.totalDownloadBps == a.totalDownloadBps + p.download.bitsPerSecond
            && IsNearest(b.averageQualityScore, SumScores(Scores(peers)) as real + p.quality.score as real, |peers| as real + 1.0)
  {
    hide Sum, AverageScore, SumScores, IsNearest, UploadBits, DownloadBits, Scores;
    ListsOneMore(peers, p);
    Measurements.SumOneMore(UploadBits(peers), p.upload.bitsPerSecond);
    Measurements.SumOneMore(DownloadBits(peers), p.download.bitsPerSecond);
    ScoresOneMore(peers, p);
    AverageIsExact(Scores(peers), p.quality.score);
    AverageIsExact(Scores(peers + [p]), 0);
    NoTotals(rooms);
  }

  lemma ScoresOneMore(peers: seq<PeerMetrics>, p: PeerMetrics)
    ensures Scores(peers + [p]) == Scores(peers) + [p.quality.score] && |Scores(peers + [p])| == |peers| + 1
  {
  }

  lemma NoTotals(rooms: seq<RoomMetrics>)
    ensures ComputeTotals(rooms, []) == Snapshots.Totals(0, |rooms|, 0, 0.0, 0.0)
  {
  }

  // ------------------------------------------------ what a peer says of its samples

  /** One more bandwidth sample counts for the directions it serves, and changes nothing else but the score. */
  lemma {:induction false} PeerCountsBandwidth(c: Settings, r: PeerRecord, s: BandwidthSample, last: Option<real>, now: real)
    requires c.thresholds.Complete()
    ensures var a, b := BuildPeer(c, r, last, now), BuildPeer(c, r.(bandwidth := r.bandwidth + [s]), last, now);
            var recent := s.timestamp >= now - c.windowMs;
            && (if recent && Measurements.Serves(s, Upload)
                then Measurements.RateGrowsBy(a.upload, b.upload, Measurements.PerSecond(s)) else b.upload == a.upload)
            && (if recent && Measurements.Serves(s, Download)
                then Measurements.RateGrowsBy(a.download, b.download, Measurements.PerSecond(s)) else b.download == a.download)
            && b.(upload := a.upload, download := a.download, quality := a.quality) == a
            && b.quality == Score(ScoreInput(b.latency, b.packetLoss, b.upload, b.download), c.weights, c.thresholds)
  {
    Measurements.EstimateCountsSample(r.bandwidth, s, c.windowMs, Upload, now, Throughput.DefaultTrendRule);
    Measurements.EstimateCountsSample(r.bandwidth, s, c.windowMs, Download, now, Throughput.DefaultTrendRule);
    hide Score, StatsOf, JitterResult, FilterSamples, Rtts, Stats, Kept, Measurements.RateGrowsBy, Measurements.Serves, Throughput.EstimateOf;
  }

  /** One more loss sample is counted if it is recent, and changes nothing else but the score. */
  lemma {:induction false} PeerCountsLoss(c: Settings, r: PeerRecord, s: LossSample, last: Option<real>, now: real)
    requires c.thresholds.Complete()
    ensures var a, b := BuildPeer(c, r, last, now), BuildPeer(c, r.(loss := r.loss + [s]), last, now);
            && (if s.timestamp >= now - c.windowMs
                then Measurements.LossGrowsBy(a.packetLoss, b.packetLoss, s) else b.packetLoss == a.packetLoss)
            && b.(packetLoss := a.packetLoss, quality := a.quality) == a
  {
    Measurements.LossCountsSample(r.loss, s, c.windowMs, now, None);
    hide Score, StatsOf, JitterResult, FilterSamples, Rtts, Stats, Kept, Measurements.LossGrowsBy, Throughput.EstimateOf;
  }

  /**
   * One more latency sample is counted if it is recent, and changes nothing else but the jitter
   * and the score. The jitter is that of the recent samples, oldest first, after what the shared
   * calculator remembers.
   */
  lemma {:induction false} PeerCountsLatency(c: Settings, r: PeerRecord, s: LatencySample, last: Option<real>, now: real)
    requires c.thresholds.Complete()
    ensures var a, b := BuildPeer(c, r, last, now), BuildPeer(c, r.(latency := r.latency + [s]), last, now);
            && (if s.timestamp >= now - c.windowMs
                then Measurements.LatencyGrowsBy(a.latency, b.latency, s.value.rttMs) else b.latency == a.latency)
            && (a.latency.sampleCount > 0 ==>
                  a.latency.jitterMs == JitterResult(last, Measurements.LatenciesFor(r.latency, c.windowMs, now, None)))
            && b.(latency := a.latency, quality := a.quality) == a
  {
    var before := Measurements.LatenciesFor(r.latency, c.windowMs, now, None);
    var after := Measurements.LatenciesFor(r.latency + [s], c.windowMs, now, None);
    Measurements.LatencyCountsSample(r.latency, s, JitterResult(last, before), c.windowMs, now, None);
    Measurements.LatencyCountsSample(r.latency, s, JitterResult(last, after), c.windowMs, now, None);
    JitterAside(before, JitterResult(last, before), JitterResult(last, after), c.windowMs);
    if s.timestamp < now - c.windowMs { IgnoredLatency(r.latency, s, c.windowMs, now); }
    hide Score, JitterResult, Stats, Kept, Throughput.EstimateOf, FilterSamples, Rtts, StatsOf;
  }

  lemma {:induction false} IgnoredLatency(samples: seq<LatencySample>, s: LatencySample, windowMs: real, now: real)
    requires s.timestamp < now - windowMs
    ensures Measurements.LatenciesFor(samples + [s], windowMs, now, None) == Measurements.LatenciesFor(samples, windowMs, now, None)
  {
    Measurements.PassingOneMore(samples, s, windowMs, now, None);
    Measurements.FilterSorts(samples, windowMs, now, None);
    Measurements.FilterSorts(samples + [s], windowMs, now, None);
    hide Passing, SortBy;
  }

  lemma JitterAside(latencies: seq<real>, x: real, y: real, windowMs: real)
    ensures var a, b := StatsOf(latencies, x, windowMs), StatsOf(latencies, y, windowMs);
            a.(jitterMs := 0.0) == b.(jitterMs := 0.0) && (latencies != [] ==> a.jitterMs == x && a.sampleCount > 0)
    ensures latencies == [] ==> StatsOf(latencies, x, windowMs).sampleCount == 0
  {
    hide Sum, Least, Greatest;
  }

  // ------------------------------------------------------------ quality filtering

  /** The peers of a room that satisfy the minimum, and how many of them are not stale. */
  function GoodIn(peers: seq<PeerMetrics>, minimumScore: int, roomId: string): seq<PeerMetrics> {
    Filter(peers, (p: PeerMetrics) => p.roomId == roomId && p.quality.score >= minimumScore)
  }

  /**
   * Filtering by quality keeps the peers of at least the given score and the rooms that have
   * one, and counts and averages each room by them.
   */
  lemma {:induction false} FilteredRoomsAreExact(s: Snapshot, minimumScore: int, now: real, id: string)
    ensures var f := Filtered(s, minimumScore, now, id);
            && (forall p :: p in f.peers <==> p in s.peers && p.quality.score >= minimumScore)
            && IdsOf(f.rooms) == Filter(IdsOf(s.rooms), (roomId: string) => GoodIn(s.peers, minimumScore, roomId) != [])
            && forall room <- f.rooms ::
                 var good := GoodIn(s.peers, minimumScore, room.roomId);
                 && room.peerCount == |good| && good != []
                 && room.activePeerCount == |Filter(good, (p: PeerMetrics) => !p.isStale)|
                 && IsNearest(room.averageQualityScore, SumScores(Scores(good)) as real, |good| as real)
  {
    hide ComputeTotals, SumScores, IsNearest, AverageScore, Scores, GoodIn, InRoom;
    var peers := Filter(s.peers, (p: PeerMetrics) => p.quality.score >= minimumScore);
    var kept := Filter(s.rooms, (r: RoomMetrics) => InRoom(peers, r.roomId) != []);
    forall roomId ensures InRoom(peers, roomId) == GoodIn(s.peers, minimumScore, roomId) { GoodInRoom(s.peers, minimumScore, roomId); }
    FilterIds(s.rooms, (r: RoomMetrics) => InRoom(peers, r.roomId) != [], (roomId: string) => GoodIn(s.peers, minimumScore, roomId) != []);
    var f := Filtered(s, minimumScore, now, id);
    assert IdsOf(f.rooms) == IdsOf(kept);
    forall i | 0 <= i < |f.rooms|
      ensures RescoredAsGood(f.rooms[i], s.peers, minimumScore) {
      assert f.rooms[i] == RescoredRoom(kept[i], peers) && kept[i] in kept;
      RescoredIs(kept[i], peers, s.peers, minimumScore);
    }
  }

  predicate RescoredAsGood(room: RoomMetrics, peers: seq<PeerMetrics>, minimumScore: int) {
    var good := GoodIn(peers, minimumScore, room.roomId);
    && room.peerCount == |good| && good != []
    && room.activePeerCount == |Filter(good, (p: PeerMetrics) => !p.isStale)|
    && IsNearest(room.averageQualityScore, SumScores(Scores(good)) as real, |good| as real)
  }

  lemma {:induction false} RescoredIs(room: RoomMetrics, peers: seq<PeerMetrics>, all: seq<PeerMetrics>, minimumScore: int)
    requires InRoom(peers, room.roomId) == GoodIn(all, minimumScore, room.roomId) && InRoom(peers, room.roomId) != []
    ensures RescoredAsGood(RescoredRoom(room, peers), all, minimumScore)
  {
    hide IsNearest, AverageScore, SumScores, InRoom, GoodIn;
    AverageIsExact(Scores(InRoom(peers, room.roomId)), 0);
  }

  lemma {:induction false} GoodInRoom(peers: seq<PeerMetrics>, minimumScore: int, roomId: string)
    ensures InRoom(Filter(peers, (p: PeerMetrics) => p.quality.score >= minimumScore), roomId) == GoodIn(peers, minimumScore, roomId)
  {
    FilterTwice(peers, (p: PeerMetrics) => p.quality.score >= minimumScore, (p: PeerMetrics) => p.roomId == roomId,
      (p: PeerMetrics) => p.roomId == roomId && p.quality.score >= minimumScore);
  }
}
