/** Telemetry snapshots: what is listed, what is counted, and that the two agree. */
module Snapshots {
  import opened Common
  import opened Jitter
  import opened MetricsStore
  import opened Quality
  import opened Rooms

  datatype Totals = Totals(
    totalPeers: int, totalRooms: int, averageQualityScore: int, totalUploadBps: real, totalDownloadBps: real)

  datatype Snapshot = Snapshot(
    generatedAt: real, snapshotId: string, rooms: seq<RoomMetrics>, peers: seq<PeerMetrics>, totals: Totals)

  function ComputeTotals(rooms: seq<RoomMetrics>, peers: seq<PeerMetrics>): Totals {
    Totals(|peers|, |rooms|, AverageScore(Scores(peers)), Sum(UploadBits(peers)), Sum(DownloadBits(peers)))
  }

  /** The listed peers of a room. */
  function InRoom(peers: seq<PeerMetrics>, roomId: string): seq<PeerMetrics> {
    Filter(peers, (p: PeerMetrics) => p.roomId == roomId)
  }

  predicate Lists(rooms: seq<RoomMetrics>, roomId: string) { exists room <- rooms :: room.roomId == roomId }

  predicate DistinctRooms(rooms: seq<RoomMetrics>) {
    forall i, j | 0 <= i < j < |rooms| :: rooms[i].roomId != rooms[j].roomId
  }

  /** Rooms are listed once, every listed peer's room is listed, and each room counts its listed peers. */
  predicate Conserved(rooms: seq<RoomMetrics>, peers: seq<PeerMetrics>) {
    && DistinctRooms(rooms)
    && (forall p <- peers :: Lists(rooms, p.roomId))
    && (forall room <- rooms :: room.peerCount == |InRoom(peers, room.roomId)|)
  }

  function PeerCounts(rooms: seq<RoomMetrics>): int {
    if rooms == [] then 0 else PeerCounts(rooms[..|rooms| - 1]) + rooms[|rooms| - 1].peerCount
  }

  /** Conservation in full: the rooms' counts add up to the total, which is the number of listed peers. */
  predicate Balanced(s: Snapshot) {
    && Conserved(s.rooms, s.peers)
    && PeerCounts(s.rooms) == s.totals.totalPeers == |s.peers|
    && s.totals.totalRooms == |s.rooms|
  }

  lemma {:induction false} SplitByRoom(peers: seq<PeerMetrics>, roomId: string)
    ensures |peers| == |InRoom(peers, roomId)| + |Filter(peers, (p: PeerMetrics) => p.roomId != roomId)|
  {
    if peers != [] {
      SplitByRoom(peers[1..], roomId);
    }
  }

  lemma SomebodyUnlisted(peers: seq<PeerMetrics>)
    requires peers != []
    ensures exists p <- peers :: !Lists([], p.roomId)
  {
    assert peers[0] in peers;
  }

  /** If each peer's room is listed once and counted, the counts add up to the number of peers. */
  lemma {:induction false} CountsSumUp(rooms: seq<RoomMetrics>, peers: seq<PeerMetrics>)
    requires Conserved(rooms, peers)
    ensures PeerCounts(rooms) == |peers|
    decreases |rooms|
  {
    if rooms == [] {
      if peers != [] {
        SomebodyUnlisted(peers);
        assert false;
      }
    } else {
      var n := |rooms| - 1;
      var before, id := rooms[..n], rooms[n].roomId;
      var others := Filter(peers, (p: PeerMetrics) => p.roomId != id);
      SplitByRoom(peers, id);
      assert rooms[n] in rooms;
      forall p <- others ensures Lists(before, p.roomId) {
        var room :| room in rooms && room.roomId == p.roomId;
        assert room in before;
      }
      forall room <- before ensures room.peerCount == |InRoom(others, room.roomId)| {
        assert room in rooms && room.roomId != id;
        FilterTwice(peers, (p: PeerMetrics) => p.roomId != id, (p: PeerMetrics) => p.roomId == room.roomId,
          (p: PeerMetrics) => p.roomId == room.roomId);
      }
      CountsSumUp(before, others);
    }
  }

  // --------------------------------------------------------------------- building

  /** The rooms recounted by the peers that are listed. */
  function Recounted(rooms: seq<RoomMetrics>, peers: seq<PeerMetrics>): (r: seq<RoomMetrics>)
    ensures |r| == |rooms|
  {
    seq(|rooms|, i requires 0 <= i < |rooms| =>
      rooms[i].(activePeerCount := |InRoom(peers, rooms[i].roomId)|, peerCount := |InRoom(peers, rooms[i].roomId)|))
  }

  function Allowed(roomFilter: Option<set<string>>, roomId: string): bool { roomFilter.None? || roomId in roomFilter.value }

  function AllowedRooms(rooms: seq<RoomMetrics>, roomFilter: Option<set<string>>): seq<RoomMetrics> {
    Filter(rooms, (r: RoomMetrics) => Allowed(roomFilter, r.roomId))
  }

  function AllowedPeers(peers: seq<PeerMetrics>, roomFilter: Option<set<string>>): seq<PeerMetrics> {
    Filter(peers, (p: PeerMetrics) => Allowed(roomFilter, p.roomId))
  }

  /** The snapshot of an aggregation. */
  function Built(rooms: seq<RoomMetrics>, peers: seq<PeerMetrics>, includeStalePeers: bool, roomFilter: Option<set<string>>,
                 now: real, id: string): Snapshot
  {
    var allowedRooms, allowedPeers := AllowedRooms(rooms, roomFilter), AllowedPeers(peers, roomFilter);
    var listedPeers := if includeStalePeers then allowedPeers else Active(allowedPeers);
    var listedRooms := if includeStalePeers then allowedRooms else Recounted(allowedRooms, listedPeers);
    Snapshot(now, id, listedRooms, listedPeers, ComputeTotals(listedRooms, listedPeers))
  }

  /** The snapshot restricted to peers of at least the given score. */
  function Filtered(s: Snapshot, minimumScore: int, now: real, id: string): Snapshot {
    var peers := Filter(s.peers, (p: PeerMetrics) => p.quality.score >= minimumScore);
    var kept := Filter(s.rooms, (r: RoomMetrics) => InRoom(peers, r.roomId) != []);
    var rooms := Rescored(kept, peers);
    Snapshot(now, id, rooms, peers, ComputeTotals(rooms, peers))
  }

  function RescoredRoom(room: RoomMetrics, peers: seq<PeerMetrics>): RoomMetrics {
    var roomPeers := InRoom(peers, room.roomId);
    room.(peerCount := |roomPeers|, activePeerCount := |Active(roomPeers)|, averageQualityScore := AverageScore(Scores(roomPeers)))
  }

  function Rescored(rooms: seq<RoomMetrics>, peers: seq<PeerMetrics>): (r: seq<RoomMetrics>)
    ensures |r| == |rooms|
  {
    seq(|rooms|, i requires 0 <= i < |rooms| => RescoredRoom(rooms[i], peers))
  }

  lemma {:induction false} FilterKeepsDistinct(rooms: seq<RoomMetrics>, keep: RoomMetrics -> bool)
    requires DistinctRooms(rooms)
    ensures DistinctRooms(Filter(rooms, keep))
  {
    if rooms != [] {
      FilterKeepsDistinct(rooms[1..], keep);
      var rest := Filter(rooms[1..], keep);
      forall room <- rest ensures room.roomId != rooms[0].roomId {
        var j :| 0 <= j < |rooms[1..]| && rooms[1..][j] == room;
        assert rooms[j + 1] == room;
      }
    }
  }

  /** The filter keeps rooms distinct and lists the rooms of the peers it keeps. */
  lemma {:induction false} AllowedIsListed(rooms: seq<RoomMetrics>, peers: seq<PeerMetrics>, roomFilter: Option<set<string>>)
    requires DistinctRooms(rooms) && forall p <- peers :: Lists(rooms, p.roomId)
    ensures DistinctRooms(AllowedRooms(rooms, roomFilter))
    ensures forall p <- AllowedPeers(peers, roomFilter) :: Lists(AllowedRooms(rooms, roomFilter), p.roomId)
  {
    var someRooms, somePeers := AllowedRooms(rooms, roomFilter), AllowedPeers(peers, roomFilter);
    FilterKeepsDistinct(rooms, (r: RoomMetrics) => Allowed(roomFilter, r.roomId));
    forall p <- somePeers ensures Lists(someRooms, p.roomId) {
      var room :| room in rooms && room.roomId == p.roomId;
      assert room in someRooms;
    }
  }

  /** A room the filter allows keeps its listed peers. */
  lemma {:induction false} AllowedKeepsRoom(peers: seq<PeerMetrics>, roomFilter: Option<set<string>>, roomId: string)
    requires Allowed(roomFilter, roomId)
    ensures InRoom(AllowedPeers(peers, roomFilter), roomId) == InRoom(peers, roomId)
  {
    FilterTwice(peers, (p: PeerMetrics) => Allowed(roomFilter, p.roomId), (p: PeerMetrics) => p.roomId == roomId,
      (p: PeerMetrics) => p.roomId == roomId);
  }

  lemma {:induction false} AllowedIsConserved(rooms: seq<RoomMetrics>, peers: seq<PeerMetrics>, roomFilter: Option<set<string>>)
    requires Conserved(rooms, peers)
    ensures Conserved(AllowedRooms(rooms, roomFilter), AllowedPeers(peers, roomFilter))
  {
    hide InRoom, AllowedPeers, Lists;
    AllowedIsListed(rooms, peers, roomFilter);
    forall room <- AllowedRooms(rooms, roomFilter)
      ensures room.peerCount == |InRoom(AllowedPeers(peers, roomFilter), room.roomId)| {
      AllowedKeepsRoom(peers, roomFilter, room.roomId);
    }
  }

  /** Recounting by a sublist of the peers restores conservation. */
  lemma RecountedIsConserved(rooms: seq<RoomMetrics>, peers: seq<PeerMetrics>)
    requires DistinctRooms(rooms) && forall p <- peers :: Lists(rooms, p.roomId)
    ensures Conserved(Recounted(rooms, peers), peers)
  {
    hide InRoom;
    var recounted := Recounted(rooms, peers);
    assert forall i | 0 <= i < |rooms| :: recounted[i].roomId == rooms[i].roomId;
    forall p <- peers ensures Lists(recounted, p.roomId) {
      var room :| room in rooms && room.roomId == p.roomId;
      var i :| 0 <= i < |rooms| && rooms[i] == room;
      assert recounted[i] in recounted;
    }
  }

  /** Listing stale peers too, a conserved aggregation gives a balanced snapshot. */
  lemma {:induction false} ConservedBalances(rooms: seq<RoomMetrics>, peers: seq<PeerMetrics>, roomFilter: Option<set<string>>, now: real, id: string)
    requires Conserved(AllowedRooms(rooms, roomFilter), AllowedPeers(peers, roomFilter))
    ensures Balanced(Built(rooms, peers, true, roomFilter, now, id))
  {
    hide Conserved, PeerCounts, InRoom, ComputeTotals, AllowedRooms, AllowedPeers, Recounted;
    CountsSumUp(AllowedRooms(rooms, roomFilter), AllowedPeers(peers, roomFilter));
    TotalsCount(AllowedRooms(rooms, roomFilter), AllowedPeers(peers, roomFilter));
  }

  /** Without stale peers the rooms are recounted, so distinct rooms that list all peers are enough. */
  lemma {:induction false} RecountedBalances(rooms: seq<RoomMetrics>, peers: seq<PeerMetrics>, roomFilter: Option<set<string>>, now: real, id: string)
    requires DistinctRooms(rooms) && forall p <- peers :: Lists(rooms, p.roomId)
    ensures Balanced(Built(rooms, peers, false, roomFilter, now, id))
  {
    hide Conserved, PeerCounts, InRoom, ComputeTotals, AllowedRooms, AllowedPeers, Recounted, DistinctRooms, Lists;
    var s := Built(rooms, peers, false, roomFilter, now, id);
    AllowedIsListed(rooms, peers, roomFilter);
    RecountedIsConserved(AllowedRooms(rooms, roomFilter), s.peers);
    CountsSumUp(s.rooms, s.peers);
    TotalsCount(s.rooms, s.peers);
  }

  lemma TotalsCount(rooms: seq<RoomMetrics>, peers: seq<PeerMetrics>)
    ensures ComputeTotals(rooms, peers).totalPeers == |peers| && ComputeTotals(rooms, peers).totalRooms == |rooms|
  {
  }

  lemma InRoomHolds(peers: seq<PeerMetrics>, p: PeerMetrics)
    requires p in peers
    ensures p in InRoom(peers, p.roomId)
  {
  }

  /** Filtering by quality keeps the balance, whatever counts the rooms had before. */
  lemma {:induction false} FilterBalances(s: Snapshot, minimumScore: int, now: real, id: string)
    requires DistinctRooms(s.rooms) && forall p <- s.peers :: Lists(s.rooms, p.roomId)
    ensures Balanced(Filtered(s, minimumScore, now, id))
  {
    var after := Filtered(s, minimumScore, now, id);
    var peers := after.peers;
    var kept := Filter(s.rooms, (r: RoomMetrics) => InRoom(peers, r.roomId) != []);
    hide InRoom, ComputeTotals, Scores, AverageScore, Active, PeerCounts;
    FilterKeepsDistinct(s.rooms, (r: RoomMetrics) => InRoom(peers, r.roomId) != []);
    assert forall i | 0 <= i < |kept| :: after.rooms[i].roomId == kept[i].roomId;
    forall p <- peers ensures Lists(after.rooms, p.roomId) {
      assert p in s.peers;
      var room :| room in s.rooms && room.roomId == p.roomId;
      InRoomHolds(peers, p);
      assert room in kept;
      var i :| 0 <= i < |kept| && kept[i] == room;
      assert after.rooms[i] in after.rooms;
    }
    CountsSumUp(after.rooms, peers);
    TotalsCount(after.rooms, peers);
  }

  // ------------------------------------------------- the aggregation is conserved

  /** The records that name a room. */
  function Named(records: seq<PeerRecord>, roomId: string): seq<PeerRecord> {
    Filter(records, (r: PeerRecord) => r.roomId == roomId)
  }

  predicate DistinctIds(ids: seq<string>) { forall i, j | 0 <= i < j < |ids| :: ids[i] != ids[j] }

  lemma {:induction false} RoomIdsDistinct(records: seq<PeerRecord>)
    ensures DistinctIds(RoomIds(records))
  {
    if records != [] { RoomIdsDistinct(records[..|records| - 1]); }
  }

  lemma {:induction false} DescribedInRoom(peers: seq<PeerMetrics>, records: seq<PeerRecord>, roomId: string)
    requires Describes(peers, records)
    ensures |InRoom(peers, roomId)| == |Named(records, roomId)|
  {
    if records != [] {
      DescribedInRoom(peers[1..], records[1..], roomId);
    }
  }

  /** Of the records a room query selects, those that name a room. */
  lemma NamedAmongSelected(records: seq<PeerRecord>, id: string, roomId: string)
    ensures |Named(RecordsOf(records, id), roomId)| == if id == "" || id == roomId then |Named(records, roomId)| else 0
    ensures RecordsOf(records, id) == if id == "" then records else Named(records, id)
  {
    var selects := (r: PeerRecord) => id == "" || r.roomId == id;
    var names := (r: PeerRecord) => r.roomId == roomId;
    if id == "" {
      FilterAll(records, selects);
    } else {
      FilterSame(records, selects, (r: PeerRecord) => r.roomId == id);
      if id == roomId {
        FilterTwice(records, selects, names, names);
      } else {
        FilterNone(RecordsOf(records, id), names);
      }
    }
  }

  /** What the aggregation over some room ids lists and counts. */
  ghost predicate Tallied(a: Aggregation, records: seq<PeerRecord>, ids: seq<string>) {
    && |a.rooms| == |ids|
    && (forall i | 0 <= i < |ids| :: a.rooms[i].roomId == ids[i] && a.rooms[i].peerCount == |RecordsOf(records, ids[i])|)
    && (forall r :: |InRoom(a.allPeers, r)| ==
                    (if r in ids && r != "" then |Named(records, r)| else 0) + if "" in ids then |Named(records, r)| else 0)
    && |a.allPeers| == Selected(records, ids)
  }

  /** How many records the room queries select together. */
  function Selected(records: seq<PeerRecord>, ids: seq<string>): nat {
    if ids == [] then 0 else Selected(records, ids[..|ids| - 1]) + |RecordsOf(records, ids[|ids| - 1])|
  }

  lemma TalliedStep(before: Aggregation, room: RoomMetrics, peers: seq<PeerMetrics>, after: Aggregation,
                    records: seq<PeerRecord>, ids: seq<string>)
    requires ids != [] && DistinctIds(ids) && Tallied(before, records, ids[..|ids| - 1])
    requires var id := ids[|ids| - 1]; room.roomId == id && room.peerCount == |RecordsOf(records, id)| && Describes(peers, RecordsOf(records, id))
    requires after.rooms == before.rooms + [room] && after.allPeers == before.allPeers + peers
    ensures Tallied(after, records, ids)
  {
    hide InRoom, RecordsOf, Named;
    var n := |ids| - 1;
    var id, others := ids[n], ids[..n];
    assert id !in others;
    forall r ensures |InRoom(after.allPeers, r)| ==
                     (if r in ids && r != "" then |Named(records, r)| else 0) + if "" in ids then |Named(records, r)| else 0 {
      InRoomAppend(before.allPeers, peers, r);
      DescribedInRoom(peers, RecordsOf(records, id), r);
      NamedAmongSelected(records, id, r);
      assert r in ids <==> r in others || r == id;
      assert "" in ids <==> "" in others || "" == id;
    }
  }

  lemma InRoomAppend(a: seq<PeerMetrics>, b: seq<PeerMetrics>, roomId: string)
    ensures InRoom(a + b, roomId) == InRoom(a, roomId) + InRoom(b, roomId)
  {
    FilterAppend(a, b, (p: PeerMetrics) => p.roomId == roomId);
  }

  lemma {:induction false} AggregationTallies(c: Settings, records: seq<PeerRecord>, ids: seq<string>, last: Option<real>, now: real)
    requires c.thresholds.Complete() && DistinctIds(ids)
    ensures Tallied(Aggregated(c, records, ids, last, now), records, ids)
  {
    hide BuildPeers, RecordsOf, RoomOf, JitterAfter, Named;
    if ids != [] {
      hide Tallied, InRoom;
      var n := |ids| - 1;
      AggregationTallies(c, records, ids[..n], last, now);
      var before := Aggregated(c, records, ids[..n], last, now);
      var members := RecordsOf(records, ids[n]);
      var peers := BuildPeers(c, members, before.jitter, now);
      BuiltInOrder(c, members, before.jitter, now);
      RoomOfCounts(c, ids[n], peers, now);
      TalliedStep(before, RoomOf(c, ids[n], peers, now), peers, Aggregated(c, records, ids, last, now), records, ids);
    }
  }

  lemma RoomOfCounts(c: Settings, roomId: string, peers: seq<PeerMetrics>, now: real)
    ensures RoomOf(c, roomId, peers, now).roomId == roomId && RoomOf(c, roomId, peers, now).peerCount == |peers|
  {
  }

  /** No record names the empty room, or all do. */
  predicate BlankIsAlone(records: seq<PeerRecord>) {
    (forall r <- records :: r.roomId != "") || (forall r <- records :: r.roomId == "")
  }

  lemma {:induction false} NamedCounts(records: seq<PeerRecord>, roomId: string)
    ensures |Named(records, roomId)| == |records| <==> forall r <- records :: r.roomId == roomId
    ensures |Named(records, roomId)| == 0 <==> forall r <- records :: r.roomId != roomId
    ensures |Named(records, roomId)| <= |records|
  {
    if records != [] {
      NamedCounts(records[1..], roomId);
      assert forall r :: r in records <==> r == records[0] || r in records[1..];
    }
  }

  /** Records of other rooms are not selected by a query for a room. */
  lemma {:induction false} SelectedElsewhere(records: seq<PeerRecord>, others: seq<PeerRecord>, id: string, ids: seq<string>)
    requires id !in ids && "" !in ids && others == Filter(records, (r: PeerRecord) => r.roomId != id)
    ensures Selected(others, ids) == Selected(records, ids)
  {
    if ids != [] {
      var n := |ids| - 1;
      SelectedElsewhere(records, others, id, ids[..n]);
      FilterTwice(records, (r: PeerRecord) => r.roomId != id, (r: PeerRecord) => ids[n] == "" || r.roomId == ids[n],
        (r: PeerRecord) => ids[n] == "" || r.roomId == ids[n]);
    }
  }

  lemma {:induction false} SplitRecords(records: seq<PeerRecord>, id: string)
    ensures |records| == |Named(records, id)| + |Filter(records, (r: PeerRecord) => r.roomId != id)|
  {
    if records != [] { SplitRecords(records[1..], id); }
  }

  /** Queries for all the rooms select each record once. */
  lemma {:induction false} SelectedIsAll(records: seq<PeerRecord>, ids: seq<string>)
    requires DistinctIds(ids) && "" !in ids && forall r <- records :: r.roomId in ids
    ensures Selected(records, ids) == |records|
    decreases |ids|
  {
    if ids != [] {
      hide Named, RecordsOf;
      var n := |ids| - 1;
      var id := ids[n];
      var others := Filter(records, (r: PeerRecord) => r.roomId != id);
      forall r <- others ensures r.roomId in ids[..n] {
        var i :| 0 <= i < |ids| && ids[i] == r.roomId;
      }
      SelectedIsAll(others, ids[..n]);
      SelectedElsewhere(records, others, id, ids[..n]);
      NamedAmongSelected(records, id, id);
      SplitRecords(records, id);
    }
  }

  /** With non-empty room ids, the aggregation lists as many peers as the store holds. */
  lemma {:induction false} AggregationListsAll(c: Settings, records: seq<PeerRecord>, last: Option<real>, now: real)
    requires c.thresholds.Complete() && forall r <- records :: r.roomId != ""
    ensures |Aggregated(c, records, RoomIds(records), last, now).allPeers| == |records|
  {
    RoomIdsDistinct(records);
    AggregationTallies(c, records, RoomIds(records), last, now);
    SelectedIsAll(records, RoomIds(records));
  }

  /**
   * Aggregating all rooms conserves peers exactly when the empty room id is not used beside
   * another: the empty id queries every record.
   */
  lemma {:induction false} AggregationConserves(c: Settings, records: seq<PeerRecord>, last: Option<real>, now: real)
    requires c.thresholds.Complete()
    ensures var a := Aggregated(c, records, RoomIds(records), last, now);
            Conserved(a.rooms, a.allPeers) <==> BlankIsAlone(records)
  {
    hide RecordsOf, Named, InRoom, Aggregated;
    var ids := RoomIds(records);
    var a := Aggregated(c, records, ids, last, now);
    RoomIdsDistinct(records);
    AggregationTallies(c, records, ids, last, now);
    NamedCounts(records, "");
    assert "" in ids <==> exists r <- records :: r.roomId == "";
    if BlankIsAlone(records) {
      forall p <- a.allPeers ensures Lists(a.rooms, p.roomId) {
        InRoomHolds(a.allPeers, p);
        NamedCounts(records, p.roomId);
        assert |InRoom(a.allPeers, p.roomId)| > 0;
        var i :| 0 <= i < |ids| && ids[i] == p.roomId;
        assert a.rooms[i] in a.rooms;
      }
      forall room <- a.rooms ensures room.peerCount == |InRoom(a.allPeers, room.roomId)| {
        var i :| 0 <= i < |ids| && a.rooms[i] == room;
        NamedAmongSelected(records, ids[i], ids[i]);
      }
    } else {
      var i :| 0 <= i < |ids| && ids[i] == "";
      NamedAmongSelected(records, "", "");
      assert a.rooms[i] in a.rooms && a.rooms[i].peerCount == |records|;
    }
  }

  /** The rooms of the aggregation are distinct and are those of its peers, whatever the room ids. */
  lemma {:induction false} AggregationIsListed(c: Settings, records: seq<PeerRecord>, last: Option<real>, now: real)
    requires c.thresholds.Complete()
    ensures var a := Aggregated(c, records, RoomIds(records), last, now);
            DistinctRooms(a.rooms) && forall p <- a.allPeers :: Lists(a.rooms, p.roomId)
  {
    hide RecordsOf, Named, InRoom, Aggregated;
    var ids := RoomIds(records);
    var a := Aggregated(c, records, ids, last, now);
    RoomIdsDistinct(records);
    AggregationTallies(c, records, ids, last, now);
    forall p <- a.allPeers ensures Lists(a.rooms, p.roomId) {
      InRoomHolds(a.allPeers, p);
      NamedCounts(records, p.roomId);
      assert |InRoom(a.allPeers, p.roomId)| > 0;
      var r :| r in records && r.roomId == p.roomId;
      var i :| 0 <= i < |ids| && ids[i] == p.roomId;
      assert a.rooms[i] in a.rooms;
    }
  }

  /** No record is in a room that the filter allows. */
  predicate NoneAllowed(records: seq<PeerRecord>, roomFilter: Option<set<string>>) {
    forall r <- records :: !Allowed(roomFilter, r.roomId)
  }

  lemma {:induction false} NoneAllowedIsEmpty(c: Settings, records: seq<PeerRecord>, last: Option<real>, now: real, roomFilter: Option<set<string>>)
    requires c.thresholds.Complete() && NoneAllowed(records, roomFilter)
    ensures var a := Aggregated(c, records, RoomIds(records), last, now);
            AllowedRooms(a.rooms, roomFilter) == [] && AllowedPeers(a.allPeers, roomFilter) == []
  {
    hide RecordsOf, Named, InRoom, Aggregated;
    var ids := RoomIds(records);
    var a := Aggregated(c, records, ids, last, now);
    RoomIdsDistinct(records);
    AggregationTallies(c, records, ids, last, now);
    AggregationIsListed(c, records, last, now);
    forall room <- a.rooms ensures !Allowed(roomFilter, room.roomId) {
      var i :| 0 <= i < |ids| && a.rooms[i] == room;
      assert ids[i] in ids;
    }
    FilterNone(a.rooms, (r: RoomMetrics) => Allowed(roomFilter, r.roomId));
    forall p <- a.allPeers ensures !Allowed(roomFilter, p.roomId) {
      var room :| room in a.rooms && room.roomId == p.roomId;
    }
    FilterNone(a.allPeers, (p: PeerMetrics) => Allowed(roomFilter, p.roomId));
  }

  /** How a room some record names is counted and listed when another record has no room id. */
  lemma {:induction false} RoomBesideBlank(c: Settings, records: seq<PeerRecord>, last: Option<real>, now: real, roomId: string)
    returns (room: RoomMetrics)
    requires c.thresholds.Complete() && (exists r <- records :: r.roomId == roomId) && (exists r <- records :: r.roomId == "")
    ensures var a := Aggregated(c, records, RoomIds(records), last, now);
            && room in a.rooms && room.roomId == roomId
            && room.peerCount == (if roomId == "" then |records| else |Named(records, roomId)|)
            && |InRoom(a.allPeers, roomId)| == (if roomId == "" then 1 else 2) * |Named(records, roomId)|
  {
    hide RecordsOf, Named, InRoom, Aggregated;
    var ids := RoomIds(records);
    var a := Aggregated(c, records, ids, last, now);
    RoomIdsDistinct(records);
    AggregationTallies(c, records, ids, last, now);
    assert roomId in ids && "" in ids;
    var i :| 0 <= i < |ids| && ids[i] == roomId;
    NamedAmongSelected(records, roomId, roomId);
    room := a.rooms[i];
  }

  /** With the empty room id beside others, any allowed room is miscounted. */
  lemma {:induction false} MiscountedRoom(c: Settings, records: seq<PeerRecord>, last: Option<real>, now: real, roomFilter: Option<set<string>>)
    requires c.thresholds.Complete() && !BlankIsAlone(records) && !NoneAllowed(records, roomFilter)
    ensures var a := Aggregated(c, records, RoomIds(records), last, now);
            !Conserved(AllowedRooms(a.rooms, roomFilter), AllowedPeers(a.allPeers, roomFilter))
  {
    hide RecordsOf, Named, InRoom, Aggregated, AllowedPeers, RoomIds;
    var a := Aggregated(c, records, RoomIds(records), last, now);
    var some :| some in records && Allowed(roomFilter, some.roomId);
    var room := RoomBesideBlank(c, records, last, now, some.roomId);
    assert room in AllowedRooms(a.rooms, roomFilter);
    AllowedKeepsRoom(a.allPeers, roomFilter, some.roomId);
    NamedCounts(records, some.roomId);
  }

  /**
   * A built snapshot is balanced exactly when stale peers are left out, or the empty room id is
   * not used beside another, or the filter allows no record's room.
   */
  lemma {:induction false} BuildBalancesExactlyWhen(c: Settings, records: seq<PeerRecord>, last: Option<real>, includeStalePeers: bool,
                                                    roomFilter: Option<set<string>>, now: real, id: string)
    requires c.thresholds.Complete()
    ensures var a := Aggregated(c, records, RoomIds(records), last, now);
            Balanced(Built(a.rooms, a.allPeers, includeStalePeers, roomFilter, now, id)) <==>
            !includeStalePeers || BlankIsAlone(records) || NoneAllowed(records, roomFilter)
  {
    hide Aggregated, RoomIds, Conserved, BlankIsAlone, NoneAllowed, PeerCounts, DistinctRooms, Lists, ComputeTotals, AllowedRooms, AllowedPeers;
    var a := Aggregated(c, records, RoomIds(records), last, now);
    if !includeStalePeers {
      AggregationIsListed(c, records, last, now);
      RecountedBalances(a.rooms, a.allPeers, roomFilter, now, id);
    } else if BlankIsAlone(records) {
      AggregationConserves(c, records, last, now);
      AllowedIsConserved(a.rooms, a.allPeers, roomFilter);
      ConservedBalances(a.rooms, a.allPeers, roomFilter, now, id);
    } else if NoneAllowed(records, roomFilter) {
      NoneAllowedIsEmpty(c, records, last, now, roomFilter);
      NothingIsConserved();
      ConservedBalances(a.rooms, a.allPeers, roomFilter, now, id);
    } else {
      MiscountedRoom(c, records, last, now, roomFilter);
    }
  }

  lemma {:induction false} NothingIsConserved()
    ensures Conserved([], [])
  {
  }

  // ------------------------------------------------------------------ the builder

  class SnapshotBuilder {
    const aggregator: RoomMetricsAggregator
    const includeStalePeers: bool
    const roomFilter: Option<set<string>>
    var lastSnapshot: Option<Snapshot>

    constructor (aggregator: RoomMetricsAggregator, includeStalePeers: bool, roomFilter: Option<set<string>>)
      ensures this.aggregator == aggregator && this.includeStalePeers == includeStalePeers && this.roomFilter == roomFilter
      ensures lastSnapshot == None
    {
      this.aggregator, this.includeStalePeers, this.roomFilter := aggregator, includeStalePeers, roomFilter;
      lastSnapshot := None;
    }

    method CountActive(peers: seq<PeerMetrics>) returns (counts: map<string, int>)
      ensures forall r :: GetOr(counts, r, 0) == |InRoom(peers, r)|
    {
      counts := map[];
      for i := 0 to |peers|
        invariant forall r :: GetOr(counts, r, 0) == |InRoom(peers[..i], r)|
      {
        assert peers[..i + 1] == peers[..i] + [peers[i]];
        forall r { InRoomAppend(peers[..i], [peers[i]], r); }
        counts := counts[peers[i].roomId := GetOr(counts, peers[i].roomId, 0) + 1];
      }
      assert peers[..|peers|] == peers;
    }

    method Build(now: real, id: string) returns (snapshot: Snapshot)
      requires aggregator.Ready() && aggregator.settings.thresholds.Complete()
      requires aggregator.store.Valid() && aggregator.jitterCalculator.Valid()
      modifies this, aggregator.jitterCalculator
      ensures aggregator.jitterCalculator.Valid()
      ensures var records := aggregator.Records();
              var a := Aggregated(aggregator.settings, records, RoomIds(records), old(aggregator.jitterCalculator.lastRfcJitter), now);
              && snapshot == Built(a.rooms, a.allPeers, includeStalePeers, roomFilter, now, id)
              && (Balanced(snapshot) <==> !includeStalePeers || BlankIsAlone(records) || NoneAllowed(records, roomFilter))
      ensures lastSnapshot == Some(snapshot)
    {
      hide InRoom, ComputeTotals, Aggregated, Balanced, Conserved, RoomIds, BlankIsAlone, NoneAllowed;
      ghost var jitter := aggregator.jitterCalculator.lastRfcJitter;
      var rooms, peers := aggregator.AggregateAllRooms(now);
      ghost var allRooms, allPeers := rooms, peers;
      rooms, peers := AllowedRooms(rooms, roomFilter), AllowedPeers(peers, roomFilter);
      if !includeStalePeers {
        peers := Active(peers);
        var counts := CountActive(peers);
        rooms := seq(|rooms|, i requires 0 <= i < |rooms| =>
          rooms[i].(activePeerCount := GetOr(counts, rooms[i].roomId, 0), peerCount := GetOr(counts, rooms[i].roomId, 0)));
        assert rooms == Recounted(AllowedRooms(allRooms, roomFilter), peers);
      }
      snapshot := Snapshot(now, id, rooms, peers, ComputeTotals(rooms, peers));
      lastSnapshot := Some(snapshot);
      BuildBalancesExactlyWhen(aggregator.settings, aggregator.Records(), jitter, includeStalePeers, roomFilter, now, id);
    }

    method FilterByMinimumQuality(snapshot: Snapshot, minimumScore: int, now: real, id: string) returns (filtered: Snapshot)
      ensures filtered == Filtered(snapshot, minimumScore, now, id)
    {
      var peers := Filter(snapshot.peers, (p: PeerMetrics) => p.quality.score >= minimumScore);
      var peerIdsByRoom: map<string, set<string>> := map[];
      for i := 0 to |peers|
        invariant forall r :: r in peerIdsByRoom <==> InRoom(peers[..i], r) != []
      {
        assert peers[..i + 1] == peers[..i] + [peers[i]];
        forall r { InRoomAppend(peers[..i], [peers[i]], r); }
        var ids := GetOr(peerIdsByRoom, peers[i].roomId, {});
        peerIdsByRoom := peerIdsByRoom[peers[i].roomId := ids + {peers[i].peerId}];
      }
      assert peers[..|peers|] == peers;
      FilterSame(snapshot.rooms, (r: RoomMetrics) => r.roomId in peerIdsByRoom, (r: RoomMetrics) => InRoom(peers, r.roomId) != []);
      var rooms := Rescored(Filter(snapshot.rooms, (r: RoomMetrics) => r.roomId in peerIdsByRoom), peers);
      return Snapshot(now, id, rooms, peers, ComputeTotals(rooms, peers));
    }
  }
}
