/** The peer metrics store: rolling samples per peer and an index of peers by room. */
module MetricsStore {
  import opened Common
  import opened Retention

  datatype TransportKind = AudioTransport | VideoTransport | DataTransport | ScreenTransport
  datatype Direction = Upload | Download | Bidirectional

  datatype Latency = Latency(rttMs: real, oneWayMs: Option<real>, kind: Option<TransportKind>)
  datatype Bandwidth = Bandwidth(direction: Direction, bytes: real, intervalMs: real, kind: Option<TransportKind>)
  datatype Loss = Loss(sent: int, received: int, lost: int, kind: Option<TransportKind>)

  type LatencySample = Stamped<Latency>
  type BandwidthSample = Stamped<Bandwidth>
  type LossSample = Stamped<Loss>

  const MIN_BANDWIDTH_SAMPLE_INTERVAL_MS := 100.0

  predicate ValidLatency(s: LatencySample) {
    s.value.rttMs >= 0.0 && (s.value.oneWayMs.Some? ==> s.value.oneWayMs.value >= 0.0)
  }

  predicate ValidBandwidth(s: BandwidthSample) {
    s.value.bytes >= 0.0 && s.value.intervalMs >= MIN_BANDWIDTH_SAMPLE_INTERVAL_MS
  }

  predicate ValidLoss(s: LossSample) {
    s.value.sent >= 0 && s.value.received >= 0 && s.value.lost >= 0 && s.value.received + s.value.lost <= s.value.sent + 1
  }

  datatype PeerRecord = PeerRecord(
    peerId: string,
    roomId: string,
    displayName: Option<string>,
    connectedAt: real,
    lastUpdatedAt: real,
    latency: seq<LatencySample>,
    bandwidth: seq<BandwidthSample>,
    loss: seq<LossSample>)

  function EmptyRecord(peerId: string, roomId: string, displayName: Option<string>, now: real): PeerRecord {
    PeerRecord(peerId, roomId, displayName, now, now, [], [], [])
  }

  datatype Query = Query(roomId: Option<string>, includeStale: bool, staleThresholdMs: Option<real>)

  // ------------------------------------------------ what the index must agree with

  type Peers = map<string, PeerRecord>

  /** The peers whose record names the room. */
  function PeersOf(peers: Peers, roomId: string): set<string> {
    set p | p in peers && peers[p].roomId == roomId
  }

  /** The index lists exactly the peers of each room and keeps no empty entry. */
  ghost predicate IndexAgrees(peers: Peers, index: map<string, set<string>>) {
    && (forall r <- index :: index[r] == PeersOf(peers, r) && index[r] != {})
    && (forall p <- peers :: peers[p].roomId in index)
  }

  function Entry(index: map<string, set<string>>, roomId: string): set<string> {
    if roomId in index then index[roomId] else {}
  }

  /** Adding a peer to its new room's entry after it left its old one. */
  function Indexed(index: map<string, set<string>>, peerId: string, roomId: string): map<string, set<string>> {
    index[roomId := Entry(index, roomId) + {peerId}]
  }

  function Unindexed(index: map<string, set<string>>, peerId: string, roomId: string): map<string, set<string>> {
    if roomId !in index then index
    else if index[roomId] - {peerId} == {} then index - {roomId}
    else index[roomId := index[roomId] - {peerId}]
  }

  lemma IndexKeeps(peers: Peers, index: map<string, set<string>>, peerId: string, record: PeerRecord)
    requires IndexAgrees(peers, index) && peerId !in peers
    ensures IndexAgrees(peers[peerId := record], Indexed(index, peerId, record.roomId))
  {
    var more, next := peers[peerId := record], Indexed(index, peerId, record.roomId);
    forall r | r in next ensures next[r] == PeersOf(more, r) {
      assert Entry(index, r) == PeersOf(peers, r);
    }
  }

  lemma UnindexKeeps(peers: Peers, index: map<string, set<string>>, peerId: string)
    requires IndexAgrees(peers, index) && peerId in peers
    ensures IndexAgrees(peers - {peerId}, Unindexed(index, peerId, peers[peerId].roomId))
  {
    var less, next := peers - {peerId}, Unindexed(index, peerId, peers[peerId].roomId);
    forall r ensures PeersOf(less, r) == PeersOf(peers, r) - {peerId} {}
    forall p | p in less ensures less[p].roomId in next {
      assert p in PeersOf(peers, peers[p].roomId) - {peerId};
    }
  }

  lemma SameRoomKeeps(peers: Peers, index: map<string, set<string>>, peerId: string, record: PeerRecord)
    requires IndexAgrees(peers, index) && peerId in peers && record.roomId == peers[peerId].roomId
    ensures IndexAgrees(peers[peerId := record], index)
  {
    forall r ensures PeersOf(peers[peerId := record], r) == PeersOf(peers, r) {}
  }

  /** Moving a peer: out of its old room's entry, then into the new one's. */
  lemma MoveKeeps(peers: Peers, index: map<string, set<string>>, peerId: string, record: PeerRecord)
    requires IndexAgrees(peers, index) && peerId in peers
    ensures IndexAgrees(peers[peerId := record],
                        Indexed(Unindexed(index, peerId, peers[peerId].roomId), peerId, record.roomId))
  {
    UnindexKeeps(peers, index, peerId);
    IndexKeeps(peers - {peerId}, Unindexed(index, peerId, peers[peerId].roomId), peerId, record);
    assert (peers - {peerId})[peerId := record] == peers[peerId := record];
    hide IndexAgrees, Indexed, Unindexed;
  }

  /** The sum of the index entries' sizes, as adding countByRoom over all rooms computes it. */
  ghost function CountAll(index: map<string, set<string>>): nat {
    if index == map[] then 0
    else var r :| r in index; |index[r]| + CountAll(index - {r})
  }

  lemma {:induction false} DropRoomAgrees(peers: Peers, index: map<string, set<string>>, r: string)
    requires IndexAgrees(peers, index) && r in index
    ensures IndexAgrees(peers - index[r], index - {r}) && index[r] <= peers.Keys
  {
    var rest := peers - index[r];
    assert index[r] == PeersOf(peers, r);
    forall q | q in index - {r} ensures (index - {r})[q] == PeersOf(rest, q) && (index - {r})[q] != {} {
      OtherRoomStays(peers, r, q);
    }
    forall p | p in rest ensures rest[p].roomId in index - {r} {
      assert p in peers && p !in PeersOf(peers, r);
    }
    hide PeersOf;
  }

  lemma {:induction false} OtherRoomStays(peers: Peers, r: string, q: string)
    requires q != r
    ensures PeersOf(peers - PeersOf(peers, r), q) == PeersOf(peers, q)
  {
  }

  lemma {:induction false} DropSizes(peers: Peers, index: map<string, set<string>>, r: string)
    requires r in index && index[r] <= peers.Keys
    ensures |peers| == |index[r]| + |peers - index[r]| && |index - {r}| < |index|
  {
    assert peers.Keys == (peers - index[r]).Keys + index[r];
    assert index.Keys == (index - {r}).Keys + {r};
  }

  /** The rooms' counts add up to the number of peers. */
  lemma {:induction false} CountsAddUp(peers: Peers, index: map<string, set<string>>)
    requires IndexAgrees(peers, index)
    ensures CountAll(index) == |peers|
    decreases |index|
  {
    if index == map[] {
      assert peers == map[] by { assert forall p :: p !in peers; }
    } else {
      var r :| r in index && CountAll(index) == |index[r]| + CountAll(index - {r});
      hide IndexAgrees, CountAll;
      DropRoomAgrees(peers, index, r);
      DropSizes(peers, index, r);
      CountsAddUp(peers - index[r], index - {r});
    }
  }

  // --------------------------------------------------------------------- listing

  /** The records of the listed keys, in insertion order, that satisfy a condition. */
  function Listing(order: seq<string>, peers: Peers, keep: PeerRecord -> bool): seq<PeerRecord> {
    if order == [] then []
    else
      var rest := Listing(order[1..], peers, keep);
      if order[0] in peers && keep(peers[order[0]]) then [peers[order[0]]] + rest else rest
  }

  lemma {:induction false} FilterListing(order: seq<string>, peers: Peers, p: PeerRecord -> bool, q: PeerRecord -> bool, both: PeerRecord -> bool)
    requires forall k <- order :: k in peers ==> (both(peers[k]) <==> p(peers[k]) && q(peers[k]))
    ensures Filter(Listing(order, peers, p), q) == Listing(order, peers, both)
  {
    if order != [] {
      FilterListing(order[1..], peers, p, q, both);
    }
  }

  lemma {:induction false} ListingNone(order: seq<string>, peers: Peers, keep: PeerRecord -> bool)
    requires forall k <- order :: k in peers ==> !keep(peers[k])
    ensures Listing(order, peers, keep) == []
  {
    if order != [] {
      ListingNone(order[1..], peers, keep);
    }
  }

  /** The naive meaning of a room query: keep the records that name the room. */
  function NaiveList(order: seq<string>, peers: Peers, roomId: string): seq<PeerRecord> {
    Listing(order, peers, (record: PeerRecord) => record.roomId == roomId)
  }

  /** What a query keeps: an absent or empty room id filters nothing. */
  predicate Matches(q: Query, retentionMs: real, now: real, record: PeerRecord) {
    && (q.roomId.None? || q.roomId.value == "" || record.roomId == q.roomId.value)
    && (q.includeStale || now - record.lastUpdatedAt <= if q.staleThresholdMs.Some? then q.staleThresholdMs.value else retentionMs)
  }

  function ListResult(order: seq<string>, peers: Peers, q: Query, retentionMs: real, now: real): seq<PeerRecord> {
    Listing(order, peers, record => Matches(q, retentionMs, now, record))
  }

  lemma {:induction false} ListingSame(order: seq<string>, peers: Peers, p: PeerRecord -> bool, q: PeerRecord -> bool)
    requires forall k <- order :: k in peers ==> (p(peers[k]) <==> q(peers[k]))
    ensures Listing(order, peers, p) == Listing(order, peers, q)
  {
    if order != [] {
      ListingSame(order[1..], peers, p, q);
    }
  }

  lemma {:induction false} ListingSound(order: seq<string>, peers: Peers, p: PeerRecord -> bool, k: string)
    requires k in order && k in peers && p(peers[k])
    ensures peers[k] in Listing(order, peers, p)
  {
    if order[0] != k {
      ListingSound(order[1..], peers, p, k);
    }
  }

  lemma {:induction false} ListingKeeps(order: seq<string>, peers: Peers, p: PeerRecord -> bool)
    ensures forall record <- Listing(order, peers, p) :: p(record)
  {
    if order != [] {
      ListingKeeps(order[1..], peers, p);
    }
  }

  /**
   * A room query that includes stale peers returns exactly the room's records, unless the
   * room id is empty: then it returns everything, which is right only if all peers are in
   * the room with the empty id.
   */
  lemma RoomQueryIsNaive(order: seq<string>, peers: Peers, roomId: string, retentionMs: real, now: real)
    requires forall k :: k in order <==> k in peers
    ensures ListResult(order, peers, Query(Some(roomId), true, None), retentionMs, now) == NaiveList(order, peers, roomId) <==>
            roomId != "" || forall k <- peers :: peers[k].roomId == ""
  {
    var naive := (record: PeerRecord) => record.roomId == roomId;
    var wide := record => Matches(Query(Some(roomId), true, None), retentionMs, now, record);
    if roomId != "" || forall k <- peers :: peers[k].roomId == "" {
      ListingSame(order, peers, naive, wide);
    } else {
      var k :| k in peers && peers[k].roomId != "";
      ListingSound(order, peers, wide, k);
      ListingKeeps(order, peers, naive);
    }
  }

  /**
   * A query lists, in insertion order, the records of the room it names, if it names one, that
   * were updated within its threshold or, without one, within the retention time.
   */
  lemma {:induction false} QueryListsExactly(order: seq<string>, peers: Peers, q: Query, retentionMs: real, now: real)
    ensures var oldest := now - if q.staleThresholdMs == None then retentionMs else q.staleThresholdMs.value;
            ListResult(order, peers, q, retentionMs, now) ==
            Filter(Listing(order, peers, (r: PeerRecord) => true), (r: PeerRecord) =>
              (q.roomId == None || q.roomId == Some("") || q.roomId == Some(r.roomId)) && (q.includeStale || r.lastUpdatedAt >= oldest))
  {
    var oldest := now - if q.staleThresholdMs == None then retentionMs else q.staleThresholdMs.value;
    FilterListing(order, peers, (r: PeerRecord) => true,
      (r: PeerRecord) => (q.roomId == None || q.roomId == Some("") || q.roomId == Some(r.roomId)) && (q.includeStale || r.lastUpdatedAt >= oldest),
      record => Matches(q, retentionMs, now, record));
  }

  // ----------------------------------------------------------------- the store

  /** The records left when every peer of a room is gone. */
  function WithoutRoom(peers: Peers, roomId: string): Peers {
    map p | p in peers && peers[p].roomId != roomId :: peers[p]
  }

  lemma WithoutRoomIsMinus(peers: Peers, roomId: string)
    ensures peers - (PeersOf(peers, roomId) - {}) == WithoutRoom(peers, roomId)
  {
  }

  lemma DeleteStep(before: Peers, all: set<string>, rest: set<string>, p: string)
    requires p in rest && rest <= all <= before.Keys
    ensures p in before - (all - rest)
    ensures (before - (all - rest)) - {p} == before - (all - (rest - {p}))
    ensures |rest - {p}| + 1 == |rest|
  {
  }

  function Without(order: seq<string>, peerId: string): seq<string> {
    Filter(order, k => k != peerId)
  }

  function WithoutAll(order: seq<string>, gone: set<string>): seq<string> {
    Filter(order, k => k !in gone)
  }

  lemma {:induction false} WithoutOneMore(order: seq<string>, all: set<string>, rest: set<string>, p: string)
    requires p in rest && rest <= all
    ensures Without(WithoutAll(order, all - rest), p) == WithoutAll(order, all - (rest - {p}))
  {
    FilterTwice(order, k => k !in all - rest, k => k != p, k => k !in all - (rest - {p}));
  }

  lemma {:induction false} WithoutNobody(order: seq<string>, gone: set<string>)
    requires gone == {}
    ensures WithoutAll(order, gone) == order
  {
    FilterAll(order, k => k !in gone);
  }

  lemma NobodyInRoom(peers: Peers, roomId: string)
    requires PeersOf(peers, roomId) == {}
    ensures peers == WithoutRoom(peers, roomId)
  {
    forall p <- peers ensures peers[p].roomId != roomId {
      assert p !in PeersOf(peers, roomId);
    }
  }

  /** What was done to each of a peer's three sample lists. */
  datatype Runs = Runs(latency: seq<SampleOp<Latency>>, bandwidth: seq<SampleOp<Bandwidth>>, loss: seq<SampleOp<Loss>>)

  /** A record's lists are what its runs leave behind. */
  ghost predicate HoldsRuns(c: RollingWindow, record: PeerRecord, runs: Runs) {
    record.latency == Held(c, runs.latency) && record.bandwidth == Held(c, runs.bandwidth) && record.loss == Held(c, runs.loss)
  }

  ghost predicate AllHold(c: RollingWindow, peers: Peers, runs: map<string, Runs>) {
    runs.Keys == peers.Keys && forall p <- peers :: HoldsRuns(c, peers[p], runs[p])
  }

  function PrunedRuns(runs: Runs, now: real): Runs {
    Runs(runs.latency + [PruneAt(now)], runs.bandwidth + [PruneAt(now)], runs.loss + [PruneAt(now)])
  }

  lemma PutHolds(c: RollingWindow, peers: Peers, runs: map<string, Runs>, peerId: string, record: PeerRecord, run: Runs)
    requires AllHold(c, peers, runs) && HoldsRuns(c, record, run)
    ensures AllHold(c, peers[peerId := record], runs[peerId := run])
  {
    hide HoldsRuns;
  }

  lemma TakeHolds(c: RollingWindow, peers: Peers, runs: map<string, Runs>, peerId: string)
    requires AllHold(c, peers, runs) && peerId in peers
    ensures peerId in runs && HoldsRuns(c, peers[peerId], runs[peerId])
  {
  }

  lemma DropHolds(c: RollingWindow, peers: Peers, runs: map<string, Runs>, peerId: string)
    requires AllHold(c, peers, runs)
    ensures AllHold(c, peers - {peerId}, runs - {peerId})
  {
    hide HoldsRuns;
  }

  lemma NothingToDrop(c: RollingWindow, peers: Peers, runs: map<string, Runs>, peerId: string)
    requires AllHold(c, peers, runs) && peerId !in peers
    ensures peers - {peerId} == peers && runs - {peerId} == runs
  {
  }

  lemma {:induction false} IndexedRoom(peers: Peers, index: map<string, set<string>>, roomId: string)
    requires IndexAgrees(peers, index) && roomId in index
    ensures index[roomId] == PeersOf(peers, roomId)
  {
  }

  lemma {:induction false} UnindexedRoom(peers: Peers, index: map<string, set<string>>, roomId: string)
    requires IndexAgrees(peers, index) && roomId !in index
    ensures PeersOf(peers, roomId) == {}
  {
  }

  /** The ghost runs record what was done to each peer's lists since the peer was created. */
  class PeerMetricsStore {
    const config: RollingWindow
    var peers: Peers
    /** The keys of `peers` in insertion order, as the source's map iterates. */
    var order: seq<string>
    var roomIndex: map<string, set<string>>
    ghost var runs: map<string, Runs>

    constructor (config: RollingWindow)
      ensures Valid() && this.config == config && peers == map[]
    {
      this.config := config;
      peers, order, roomIndex := map[], [], map[];
      runs := map[];
    }

    ghost predicate Valid()
      reads this
    {
      && IndexAgrees(peers, roomIndex)
      && (forall k :: k in order <==> k in peers)
      && (forall p <- peers :: peers[p].peerId == p)
      && AllHold(config, peers, runs)
    }

    method Create(peerId: string, roomId: string, displayName: Option<string>, now: real)
      returns (created: Result<PeerRecord, ErrorCode>)
      requires Valid()
      modifies this
      ensures Valid()
      ensures created == if peerId in old(peers) then Failure(InternalError)
                         else Success(EmptyRecord(peerId, roomId, displayName, now))
      ensures peers == if created.Success? then old(peers)[peerId := created.value] else old(peers)
      ensures order == if created.Success? then old(order) + [peerId] else old(order)
      ensures runs == if created.Success? then old(runs)[peerId := Runs([], [], [])] else old(runs)
    {
      hide IndexAgrees, AllHold, Indexed;
      if peerId in peers { return Failure(InternalError); }
      var record := EmptyRecord(peerId, roomId, displayName, now);
      IndexKeeps(peers, roomIndex, peerId, record);
      PutHolds(config, peers, runs, peerId, record, Runs([], [], []));
      runs := runs[peerId := Runs([], [], [])];
      peers := peers[peerId := record];
      order := order + [peerId];
      IndexPeer(peerId, roomId);
      return Success(record);
    }

    method IndexPeer(peerId: string, roomId: string)
      modifies this`roomIndex
      ensures roomIndex == Indexed(old(roomIndex), peerId, roomId)
    {
      var peerIds := if roomId in roomIndex then roomIndex[roomId] else {};
      roomIndex := roomIndex[roomId := peerIds + {peerId}];
    }

    method UnindexPeer(peerId: string, roomId: string)
      modifies this`roomIndex
      ensures roomIndex == Unindexed(old(roomIndex), peerId, roomId)
    {
      if roomId !in roomIndex { return; }
      var peerIds := roomIndex[roomId] - {peerId};
      if peerIds == {} {
        roomIndex := roomIndex - {roomId};
      } else {
        roomIndex := roomIndex[roomId := peerIds];
      }
    }

    method Update(peerId: string, displayName: Option<string>, roomId: Option<string>, now: real)
      returns (updated: Result<PeerRecord, ErrorCode>)
      requires Valid()
      modifies this
      ensures Valid() && order == old(order) && runs == old(runs)
      ensures peerId !in old(peers) ==> updated == Failure(PeerNotFound) && peers == old(peers)
      ensures peerId in old(peers) ==>
                var was := old(peers)[peerId];
                && updated == Success(was.(displayName := if displayName.Some? then displayName else was.displayName,
                                           roomId := if roomId.Some? then roomId.value else was.roomId,
                                           lastUpdatedAt := now))
                && peers == old(peers)[peerId := updated.value]
    {
      hide IndexAgrees, Indexed, Unindexed, AllHold, Held;
      if peerId !in peers { return Failure(PeerNotFound); }
      TakeHolds(config, peers, runs, peerId);
      var record := peers[peerId];
      if displayName.Some? { record := record.(displayName := displayName); }
      if roomId.Some? && roomId.value != record.roomId {
        MoveKeeps(peers, roomIndex, peerId, record.(roomId := roomId.value, lastUpdatedAt := now));
        UnindexPeer(peerId, record.roomId);
        record := record.(roomId := roomId.value);
        IndexPeer(peerId, roomId.value);
      } else {
        SameRoomKeeps(peers, roomIndex, peerId, record.(lastUpdatedAt := now));
      }
      record := record.(lastUpdatedAt := now);
      PutHolds(config, peers, runs, peerId, record, runs[peerId]);
      assert runs[peerId := runs[peerId]] == runs;
      peers := peers[peerId := record];
      return Success(record);
    }

    method Delete(peerId: string) returns (deleted: bool)
      requires Valid()
      modifies this
      ensures Valid()
      ensures deleted <==> peerId in old(peers)
      ensures peers == old(peers) - {peerId} && order == Without(old(order), peerId)
      ensures runs == old(runs) - {peerId}
    {
      hide IndexAgrees, AllHold, HoldsRuns, Unindexed;
      if peerId !in peers {
        FilterAll(order, k => k != peerId);
        NothingToDrop(config, peers, runs, peerId);
        return false;
      }
      UnindexKeeps(peers, roomIndex, peerId);
      UnindexPeer(peerId, peers[peerId].roomId);
      DropHolds(config, peers, runs, peerId);
      runs := runs - {peerId};
      peers := peers - {peerId};
      order := Without(order, peerId);
      return true;
    }

    /** Deletes the room's peers one by one and counts them. */
    method DeleteByRoom(roomId: string) returns (removed: nat)
      requires Valid()
      modifies this
      ensures Valid()
      ensures peers == WithoutRoom(old(peers), roomId)
      ensures removed == |PeersOf(old(peers), roomId)|
      ensures order == WithoutAll(old(order), PeersOf(old(peers), roomId))
    {
      hide WithoutAll, Without, IndexAgrees, AllHold;
      ghost var before := peers;
      if roomId in roomIndex { IndexedRoom(peers, roomIndex, roomId); } else { UnindexedRoom(peers, roomIndex, roomId); }
      removed := 0;
      if roomId !in roomIndex {
        NobodyInRoom(before, roomId);
        WithoutNobody(order, PeersOf(before, roomId));
        return;
      }
      var peerIds := roomIndex[roomId];
      WithoutNobody(order, PeersOf(before, roomId) - peerIds);
      while peerIds != {}
        invariant Valid()
        invariant peerIds <= PeersOf(before, roomId)
        invariant peers == before - (PeersOf(before, roomId) - peerIds)
        invariant removed + |peerIds| == |PeersOf(before, roomId)|
        invariant order == WithoutAll(old(order), PeersOf(before, roomId) - peerIds)
        decreases peerIds
      {
        assert (exists k :: k in peerIds) || peerIds == {};
        var peerId :| peerId in peerIds;
        DeleteStep(before, PeersOf(before, roomId), peerIds, peerId);
        WithoutOneMore(old(order), PeersOf(before, roomId), peerIds, peerId);
        peerIds := peerIds - {peerId};
        var deleted := Delete(peerId);
        if deleted { removed := removed + 1; }
      }
      WithoutRoomIsMinus(before, roomId);
      assert PeersOf(before, roomId) - {} == PeersOf(before, roomId);
    }

    method List(q: Query, now: real) returns (records: seq<PeerRecord>)
      requires Valid()
      ensures records == ListResult(order, peers, q, config.retentionMs, now)
    {
      var staleThreshold := if q.staleThresholdMs.Some? then q.staleThresholdMs.value else config.retentionMs;
      ghost var wanted := record => Matches(q, config.retentionMs, now, record);
      var any := (record: PeerRecord) => true;
      records := Listing(order, peers, any);
      ghost var inRoom := (record: PeerRecord) => q.roomId.None? || q.roomId.value == "" || record.roomId == q.roomId.value;
      if q.roomId.Some? && q.roomId.value != "" {
        if q.roomId.value !in roomIndex || roomIndex[q.roomId.value] == {} {
          ListingNone(order, peers, wanted);
          return [];
        }
        var peerIds := roomIndex[q.roomId.value];
        var listed := (record: PeerRecord) => record.peerId in peerIds;
        FilterListing(order, peers, any, listed, inRoom);
        records := Filter(records, listed);
      } else {
        ListingSame(order, peers, any, inRoom);
      }
      if !q.includeStale {
        var recent := (record: PeerRecord) => now - record.lastUpdatedAt <= staleThreshold;
        FilterListing(order, peers, inRoom, recent, wanted);
        records := Filter(records, recent);
      } else {
        ListingSame(order, peers, inRoom, wanted);
      }
    }

    /**
     * Appends and retains. With times that never went back, the list is afterwards the last
     * maxSamples of everything recorded that is within the retention time.
     */
    method RecordLatency(peerId: string, sample: LatencySample) returns (recorded: Result<LatencySample, ErrorCode>)
      requires Valid()
      modifies this`peers, this`runs
      ensures Valid()
      ensures recorded == if peerId !in old(peers) then Failure(PeerNotFound)
                          else if sample.value.rttMs < 0.0 || (sample.value.oneWayMs.Some? && sample.value.oneWayMs.value < 0.0)
                          then Failure(InvalidMessage) else Success(sample)
      ensures recorded.Failure? ==> peers == old(peers)
      ensures recorded.Success? ==>
                var was := old(peers)[peerId];
                peers == old(peers)[peerId := was.(latency := RetainAll(was.latency + [sample], sample.timestamp, config),
                                                   lastUpdatedAt := sample.timestamp)]
      ensures recorded.Failure? ==> runs == old(runs)
      ensures recorded.Success? ==>
                && peerId in old(runs)
                && runs == old(runs)[peerId := old(runs)[peerId].(latency := old(runs)[peerId].latency + [Record(sample)])]
                && (Retention.Monotone(runs[peerId].latency) ==>
                      peers[peerId].latency == RetainAll(History(runs[peerId].latency), sample.timestamp, config))
    {
      hide IndexAgrees, AllHold, Held, RetainAll, History, Retention.Monotone;
      if peerId !in peers { return Failure(PeerNotFound); }
      TakeHolds(config, peers, runs, peerId);
      if !ValidLatency(sample) { return Failure(InvalidMessage); }
      var record := peers[peerId];
      ghost var ops := runs[peerId].latency + [Record(sample)];
      HeldOneMore(config, runs[peerId].latency, Record(sample));
      if Retention.Monotone(ops) { IncrementalIsBatch(config, ops); }
      record := record.(latency := RetainAll(record.latency + [sample], sample.timestamp, config), lastUpdatedAt := sample.timestamp);
      SameRoomKeeps(peers, roomIndex, peerId, record);
      PutHolds(config, peers, runs, peerId, record, runs[peerId].(latency := ops));
      runs := runs[peerId := runs[peerId].(latency := ops)];
      peers := peers[peerId := record];
      return Success(sample);
    }

    /**
     * Appends and retains. With times that never went back, the list is afterwards the last
     * maxSamples of everything recorded that is within the retention time.
     */
    method RecordBandwidth(peerId: string, sample: BandwidthSample) returns (recorded: Result<BandwidthSample, ErrorCode>)
      requires Valid()
      modifies this`peers, this`runs
      ensures Valid()
      ensures recorded == if peerId !in old(peers) then Failure(PeerNotFound)
                          else if sample.value.bytes < 0.0 || sample.value.intervalMs < 100.0 then Failure(InvalidMessage)
                          else Success(sample)
      ensures recorded.Failure? ==> peers == old(peers)
      ensures recorded.Success? ==>
                var was := old(peers)[peerId];
                peers == old(peers)[peerId := was.(bandwidth := RetainAll(was.bandwidth + [sample], sample.timestamp, config),
                                                   lastUpdatedAt := sample.timestamp)]
      ensures recorded.Failure? ==> runs == old(runs)
      ensures recorded.Success? ==>
                && peerId in old(runs)
                && runs == old(runs)[peerId := old(runs)[peerId].(bandwidth := old(runs)[peerId].bandwidth + [Record(sample)])]
                && (Retention.Monotone(runs[peerId].bandwidth) ==>
                      peers[peerId].bandwidth == RetainAll(History(runs[peerId].bandwidth), sample.timestamp, config))
    {
      hide IndexAgrees, AllHold, Held, RetainAll, History, Retention.Monotone;
      if peerId !in peers { return Failure(PeerNotFound); }
      TakeHolds(config, peers, runs, peerId);
      if !ValidBandwidth(sample) { return Failure(InvalidMessage); }
      var record := peers[peerId];
      ghost var ops := runs[peerId].bandwidth + [Record(sample)];
      HeldOneMore(config, runs[peerId].bandwidth, Record(sample));
      if Retention.Monotone(ops) { IncrementalIsBatch(config, ops); }
      record := record.(bandwidth := RetainAll(record.bandwidth + [sample], sample.timestamp, config), lastUpdatedAt := sample.timestamp);
      SameRoomKeeps(peers, roomIndex, peerId, record);
      PutHolds(config, peers, runs, peerId, record, runs[peerId].(bandwidth := ops));
      runs := runs[peerId := runs[peerId].(bandwidth := ops)];
      peers := peers[peerId := record];
      return Success(sample);
    }

    /** A loss count that the caller leaves out is what was sent and not received, at least zero. */
    method RecordPacketLoss(peerId: string, timestamp: real, sent: int, received: int, lost: Option<int>, kind: Option<TransportKind>)
      returns (recorded: Result<LossSample, ErrorCode>)
      requires Valid()
      modifies this`peers, this`runs
      ensures Valid()
      ensures var count := if lost.Some? then lost.value else if sent >= received then sent - received else 0;
              var sample := Stamped(timestamp, Loss(sent, received, count, kind));
              recorded == if peerId !in old(peers) then Failure(PeerNotFound)
                          else if sent < 0 || received < 0 || count < 0 || received + count > sent + 1 then Failure(InvalidMessage)
                          else Success(sample)
      ensures recorded.Failure? ==> peers == old(peers)
      ensures recorded.Success? ==>
                var was := old(peers)[peerId];
                peers == old(peers)[peerId := was.(loss := RetainAll(was.loss + [recorded.value], timestamp, config),
                                                   lastUpdatedAt := timestamp)]
      ensures recorded.Failure? ==> runs == old(runs)
      ensures recorded.Success? ==>
                && peerId in old(runs)
                && runs == old(runs)[peerId := old(runs)[peerId].(loss := old(runs)[peerId].loss + [Record(recorded.value)])]
                && (Retention.Monotone(runs[peerId].loss) ==>
                      peers[peerId].loss == RetainAll(History(runs[peerId].loss), timestamp, config))
    {
      hide IndexAgrees, AllHold, Held, RetainAll, History, Retention.Monotone;
      if peerId !in peers { return Failure(PeerNotFound); }
      TakeHolds(config, peers, runs, peerId);
      var count := if lost.Some? then lost.value else if sent >= received then sent - received else 0;
      var sample := Stamped(timestamp, Loss(sent, received, count, kind));
      if !ValidLoss(sample) { return Failure(InvalidMessage); }
      var record := peers[peerId];
      ghost var ops := runs[peerId].loss + [Record(sample)];
      HeldOneMore(config, runs[peerId].loss, Record(sample));
      if Retention.Monotone(ops) { IncrementalIsBatch(config, ops); }
      record := record.(loss := RetainAll(record.loss + [sample], timestamp, config), lastUpdatedAt := timestamp);
      SameRoomKeeps(peers, roomIndex, peerId, record);
      PutHolds(config, peers, runs, peerId, record, runs[peerId].(loss := ops));
      runs := runs[peerId := runs[peerId].(loss := ops)];
      peers := peers[peerId := record];
      return Success(sample);
    }

    /** Prunes one peer's three lists and reports how many samples went. */
    method PrunePeer(peerId: string, now: real) returns (removed: int)
      requires Valid()
      modifies this`peers, this`runs
      ensures Valid()
      ensures peerId !in old(peers) ==> peers == old(peers) && runs == old(runs) && removed == 0
      ensures peerId in old(peers) ==>
                var was := old(peers)[peerId];
                && peers == old(peers)[peerId := was.(latency := RetainAll(was.latency, now, config),
                                                      bandwidth := RetainAll(was.bandwidth, now, config),
                                                      loss := RetainAll(was.loss, now, config))]
                && peerId in old(runs) && runs == old(runs)[peerId := PrunedRuns(old(runs)[peerId], now)]
                && removed == |was.latency| + |was.bandwidth| + |was.loss|
                              - |peers[peerId].latency| - |peers[peerId].bandwidth| - |peers[peerId].loss|
    {
      hide IndexAgrees, AllHold, Held, RetainAll, PruneSamples;
      if peerId !in peers { return 0; }
      TakeHolds(config, peers, runs, peerId);
      var was := peers[peerId];
      PruneEqualsRetain(was.latency, now, config);
      PruneEqualsRetain(was.bandwidth, now, config);
      PruneEqualsRetain(was.loss, now, config);
      var record := was.(latency := PruneSamples(was.latency, now, config),
        bandwidth := PruneSamples(was.bandwidth, now, config), loss := PruneSamples(was.loss, now, config));
      SameRoomKeeps(peers, roomIndex, peerId, record);
      HeldOneMore(config, runs[peerId].latency, PruneAt(now));
      HeldOneMore(config, runs[peerId].bandwidth, PruneAt(now));
      HeldOneMore(config, runs[peerId].loss, PruneAt(now));
      PutHolds(config, peers, runs, peerId, record, PrunedRuns(runs[peerId], now));
      runs := runs[peerId := PrunedRuns(runs[peerId], now)];
      peers := peers[peerId := record];
      removed := |was.latency| + |was.bandwidth| + |was.loss| - (|record.latency| + |record.bandwidth| + |record.loss|);
    }

    method Clear()
      modifies this
      ensures Valid() && peers == map[] && order == []
    {
      peers, order, roomIndex := map[], [], map[];
      runs := map[];
    }

    method CountByRoom(roomId: string) returns (count: nat)
      requires Valid()
      ensures count == |PeersOf(peers, roomId)|
    {
      assert roomId !in roomIndex ==> PeersOf(peers, roomId) == {};
      count := if roomId in roomIndex then |roomIndex[roomId]| else 0;
    }
  }
}
