/** What every interleaving of the signaling protocol keeps, and what follows from it. */
module ProtocolProofs {
  import opened Common
  import opened Protocol

  // ------------------------------------------------------- membership indices

  /** The three maps of the room service agree. */
  ghost predicate MembersOk(m: Members) {
    && m.live <= m.table.Keys
    && (forall p <- m.live ::
          && m.table[p].roomId.Some? && m.table[p].roomId.value != ""
          && m.table[p].roomId.value in m.rooms
          && p in m.rooms[m.table[p].roomId.value]
          && m.rooms[m.table[p].roomId.value][p] == m.table[p].displayName)
    && (forall r, p :: r in m.rooms && p in m.rooms[r] ==> p in m.live && m.table[p].roomId == Some(r))
    && (forall p <- m.table.Keys - m.live :: m.table[p].roomId == None)
    && (forall k <- m.bySocket :: m.bySocket[k] in m.table && m.table[m.bySocket[k]].socket == k)
  }

  lemma JoinKeepsMembers(m: Members, roomId: string, name: string, socket: SocketId, peer: PeerId)
    requires MembersOk(m) && roomId != "" && peer !in m.table
    ensures MembersOk(JoinRoom(m, roomId, name, socket, peer))
    ensures PeersIn(JoinRoom(m, roomId, name, socket, peer), roomId) == PeersIn(m, roomId)[peer := name]
    ensures forall r :: r != roomId ==> PeersIn(JoinRoom(m, roomId, name, socket, peer), r) == PeersIn(m, r)
    ensures peer !in PeersIn(m, roomId)
  {
  }

  /** Leaving removes the peer from its own room and changes no other room. */
  lemma LeaveEffect(m: Members, peer: PeerId)
    requires MembersOk(m)
    ensures LeavePeer(m, peer).live == m.live - {peer}
    ensures LeavePeer(m, peer).bySocket == m.bySocket
    ensures LeavePeer(m, peer).table.Keys == m.table.Keys
    ensures forall p <- m.table :: LeavePeer(m, peer).table[p] ==
                                   if p == peer then m.table[p].(roomId := None) else m.table[p]
    ensures forall r :: PeersIn(LeavePeer(m, peer), r) == PeersIn(m, r) - {peer}
    ensures forall r <- LeavePeer(m, peer).rooms :: r in m.rooms
  {
    var n := LeavePeer(m, peer);
    if peer in m.live {
      var roomId := m.table[peer].roomId.value;
      forall r ensures PeersIn(n, r) == PeersIn(m, r) - {peer} {
        if r != roomId {
          assert peer !in PeersIn(m, r);
          assert PeersIn(m, r) - {peer} == PeersIn(m, r);
        }
      }
    } else {
      assert m.live - {peer} == m.live;
      forall r ensures PeersIn(m, r) == PeersIn(m, r) - {peer} {
        assert peer !in PeersIn(m, r);
      }
    }
  }

  lemma LeaveKeepsListing(m: Members, peer: PeerId, p: PeerId)
    requires MembersOk(m) && p in LeavePeer(m, peer).live
    ensures var n := LeavePeer(m, peer);
            && p in n.table && n.table[p] == m.table[p] && m.table[p].roomId.Some?
            && m.table[p].roomId.value in n.rooms && p in n.rooms[m.table[p].roomId.value]
            && n.rooms[m.table[p].roomId.value][p] == n.table[p].displayName
  {
    LeaveEffect(m, peer);
    var r := m.table[p].roomId.value;
    assert PeersIn(LeavePeer(m, peer), r) == PeersIn(m, r) - {peer};
    assert p in PeersIn(LeavePeer(m, peer), r);
  }

  lemma LeaveKeepsMembers(m: Members, peer: PeerId)
    requires MembersOk(m)
    ensures MembersOk(LeavePeer(m, peer))
  {
    var n := LeavePeer(m, peer);
    LeaveEffect(m, peer);
    forall p | p in n.live
      ensures p in n.table && n.table[p] == m.table[p] && n.table[p].roomId.value in n.rooms
      ensures p in n.rooms[n.table[p].roomId.value]
      ensures n.rooms[n.table[p].roomId.value][p] == n.table[p].displayName
    {
      LeaveKeepsListing(m, peer, p);
    }
    forall r, p | r in n.rooms && p in n.rooms[r] ensures p in n.live && n.table[p].roomId == Some(r) {
      assert PeersIn(n, r) == PeersIn(m, r) - {peer};
    }
    hide LeavePeer;
  }

  // ------------------------------------------------------------ client beliefs

  lemma BelievesAfter(log: seq<Message>, message: Message)
    ensures Believes(log + [message]) ==
            match message
            case RoomJoined(_, _, peers) => Some(peers)
            case PeerJoined(p, name) => if Believes(log).Some? then Some(Believes(log).value[p := name]) else None
            case PeerLeft(p) => if Believes(log).Some? then Some(Believes(log).value - {p}) else None
            case _ => Believes(log)
  {
    assert (log + [message])[..|log|] == log;
  }

  /** A live peer on an open socket. */
  ghost predicate Attached(m: Members, net: Net, p: PeerId) {
    p in m.live && CanReceive(m, net, p)
  }

  /** Peer p's folded messages give exactly the current peers of its room. */
  ghost predicate Converged(m: Members, net: Net, p: PeerId)
    requires p in m.table && p in net.log
  {
    m.table[p].roomId.Some? && Believes(net.log[p]) == Some(PeersIn(m, m.table[p].roomId.value))
  }

  ghost predicate ViewsOk(m: Members, net: Net) {
    && net.log.Keys == m.table.Keys
    && forall p :: Attached(m, net, p) ==> Converged(m, net, p)
  }

  /** At the moment it was sent, the announcement named someone else its reader knew of. */
  ghost predicate KnownProducer(log: seq<Message>, reader: PeerId, i: nat)
    requires i < |log|
  {
    log[i].NewProducer? ==>
      && log[i].producer != reader
      && Believes(log[..i]).Some?
      && log[i].producer in Believes(log[..i]).value
  }

  ghost predicate AnnouncementsOk(net: Net) {
    forall q, i: nat :: q in net.log && i < |net.log[q]| ==> KnownProducer(net.log[q], q, i)
  }

  /** Extending logs by one acceptable message each keeps all announcements acceptable. */
  lemma ExtendAnnouncements(net: Net, longer: Net, message: Message)
    requires AnnouncementsOk(net)
    requires forall q <- longer.log ::
               longer.log[q] == [] || (q in net.log && longer.log[q] == net.log[q]) ||
               (longer.log[q] == LogOf(net, q) + [message] &&
                KnownProducer(longer.log[q], q, |longer.log[q]| - 1))
    ensures AnnouncementsOk(longer)
  {
    forall q, i: nat | q in longer.log && i < |longer.log[q]| ensures KnownProducer(longer.log[q], q, i) {
      var before := LogOf(net, q);
      if longer.log[q] != before && i < |before| {
        assert longer.log[q][..i] == before[..i];
        assert KnownProducer(before, q, i);
      } else if q in net.log && longer.log[q] == net.log[q] {
        assert KnownProducer(net.log[q], q, i);
      }
    }
  }

  /** The newcomer believes what it was told; the others in the room add it; other rooms hear nothing. */
  lemma JoinConverges(s: State, socket: SocketId, roomId: string, name: string, peer: PeerId, p: PeerId)
    requires MembersOk(s.members) && ViewsOk(s.members, s.net) && roomId != "" && peer !in s.members.table
    requires var t := JoinSegment(s, socket, roomId, name, peer); Attached(t.members, t.net, p)
    ensures var t := JoinSegment(s, socket, roomId, name, peer);
            p in t.members.table && p in t.net.log && Converged(t.members, t.net, p)
  {
    var t := JoinSegment(s, socket, roomId, name, peer);
    JoinKeepsMembers(s.members, roomId, name, socket, peer);
    var welcome := RoomJoined(roomId, peer, PeersIn(t.members, roomId));
    if p == peer {
      BelievesAfter([], welcome);
      assert t.net.log[p] == [] + [welcome];
    } else {
      assert Attached(s.members, s.net, p);
      BelievesAfter(s.net.log[p], PeerJoined(peer, name));
    }
  }

  lemma JoinKeepsAnnouncements(s: State, socket: SocketId, roomId: string, name: string, peer: PeerId)
    requires AnnouncementsOk(s.net) && peer !in s.net.log
    ensures AnnouncementsOk(JoinSegment(s, socket, roomId, name, peer).net)
  {
    var t := JoinSegment(s, socket, roomId, name, peer);
    var logged := s.net.(log := s.net.log[peer := []]);
    var welcome := RoomJoined(roomId, peer, PeersIn(t.members, roomId));
    var welcomed := Send(t.members, logged, peer, welcome);
    hide AnnouncementsOk;
    ExtendAnnouncements(s.net, logged, welcome);
    ExtendAnnouncements(logged, welcomed, welcome);
    ExtendAnnouncements(welcomed, t.net, PeerJoined(peer, name));
  }

  lemma JoinKeepsViews(s: State, socket: SocketId, roomId: string, name: string, peer: PeerId)
    requires MembersOk(s.members) && ViewsOk(s.members, s.net)
    requires roomId != "" && peer !in s.members.table
    ensures var t := JoinSegment(s, socket, roomId, name, peer); ViewsOk(t.members, t.net)
  {
    var t := JoinSegment(s, socket, roomId, name, peer);
    forall p | Attached(t.members, t.net, p) ensures p in t.net.log && Converged(t.members, t.net, p) {
      JoinConverges(s, socket, roomId, name, peer, p);
    }
    hide MembersOk, Converged, Attached;
  }

  /** Extending logs by a message that is not about membership changes no belief. */
  lemma NeutralKeepsViews(m: Members, net: Net, longer: Net, message: Message)
    requires ViewsOk(m, net) && (message.Produced? || message.NewProducer?)
    requires longer.closed == net.closed && longer.log.Keys == net.log.Keys
    requires forall q <- net.log :: longer.log[q] == net.log[q] || longer.log[q] == net.log[q] + [message]
    ensures ViewsOk(m, longer)
  {
    forall p | Attached(m, longer, p) ensures Converged(m, longer, p) {
      assert Attached(m, net, p);
      BelievesAfter(net.log[p], message);
    }
  }

  /** Telling a room that an absent peer left changes no client's belief. */
  lemma StaleLeftKeepsViews(m: Members, net: Net, roomId: string, peer: PeerId)
    requires MembersOk(m) && ViewsOk(m, net) && AnnouncementsOk(net) && peer !in m.live
    ensures ViewsOk(m, Broadcast(m, net, roomId, PeerLeft(peer), None))
    ensures AnnouncementsOk(Broadcast(m, net, roomId, PeerLeft(peer), None))
  {
    var after := Broadcast(m, net, roomId, PeerLeft(peer), None);
    ExtendAnnouncements(net, after, PeerLeft(peer));
    forall p | Attached(m, after, p) ensures Converged(m, after, p) {
      assert Attached(m, net, p);
      BelievesAfter(net.log[p], PeerLeft(peer));
      var peers := PeersIn(m, m.table[p].roomId.value);
      assert peers - {peer} == peers;
    }
  }

  /** Who is still attached after a departure believes the new peers of its room, told or not in that room. */
  lemma DepartConverges(m: Members, net: Net, peer: PeerId, roomId: string, p: PeerId)
    requires MembersOk(m) && ViewsOk(m, net)
    requires peer in m.live ==> m.table[peer].roomId == Some(roomId)
    requires Attached(LeavePeer(m, peer), net, p)
    ensures var n := LeavePeer(m, peer);
            p in n.table && p in net.log && n.table[p].roomId.Some? &&
            (n.table[p].roomId == Some(roomId) ==> Believes(net.log[p] + [PeerLeft(peer)]) == Some(PeersIn(n, roomId))) &&
            (n.table[p].roomId != Some(roomId) ==> Converged(n, net, p)) &&
            (n.table[p].roomId == Some(roomId) ==> p in PeersIn(n, roomId))
  {
    LeaveEffect(m, peer);
    assert Attached(m, net, p);
    BelievesAfter(net.log[p], PeerLeft(peer));
    var room := m.table[p].roomId.value;
    assert PeersIn(LeavePeer(m, peer), room) == PeersIn(m, room) - {peer};
    if room != roomId {
      assert peer !in PeersIn(m, room);
      assert PeersIn(m, room) - {peer} == PeersIn(m, room);
    }
  }

  lemma DepartKeepsAnnouncements(s: State, peer: PeerId, roomId: string)
    requires AnnouncementsOk(s.net)
    ensures AnnouncementsOk(DepartSegment(s, peer, roomId).net)
  {
    var t := DepartSegment(s, peer, roomId);
    hide AnnouncementsOk, LeavePeer;
    ExtendAnnouncements(s.net, t.net, PeerLeft(peer));
  }

  lemma DepartKeepsConvergence(s: State, peer: PeerId, roomId: string, p: PeerId)
    requires MembersOk(s.members) && ViewsOk(s.members, s.net)
    requires peer in s.members.live ==> s.members.table[peer].roomId == Some(roomId)
    requires var t := DepartSegment(s, peer, roomId); Attached(t.members, t.net, p)
    ensures var t := DepartSegment(s, peer, roomId);
            p in t.members.table && p in t.net.log && Converged(t.members, t.net, p)
  {
    DepartConverges(s.members, s.net, peer, roomId, p);
    hide MembersOk, LeavePeer, ViewsOk;
  }

  lemma DepartKeepsViews(s: State, peer: PeerId, roomId: string)
    requires MembersOk(s.members) && ViewsOk(s.members, s.net)
    requires peer in s.members.live ==> s.members.table[peer].roomId == Some(roomId)
    ensures var t := DepartSegment(s, peer, roomId); ViewsOk(t.members, t.net)
  {
    var t := DepartSegment(s, peer, roomId);
    LeaveEffect(s.members, peer);
    forall p | Attached(t.members, t.net, p) ensures p in t.net.log && Converged(t.members, t.net, p) {
      DepartKeepsConvergence(s, peer, roomId, p);
    }
    hide MembersOk, LeavePeer, Attached, Converged;
  }

  lemma AnnounceKeepsViews(s: State, peer: PeerId, producerId: int, kind: MediaKind)
    requires MembersOk(s.members) && ViewsOk(s.members, s.net) && AnnouncementsOk(s.net)
    ensures var t := AnnounceProducerSegment(s, peer, producerId, kind);
            ViewsOk(t.members, t.net) && AnnouncementsOk(t.net)
  {
    var m := s.members;
    var t := AnnounceProducerSegment(s, peer, producerId, kind);
    var reply, message := Produced(producerId), NewProducer(peer, producerId, kind);
    var replied := Send(m, s.net, peer, reply);
    NeutralKeepsViews(m, s.net, replied, reply);
    ExtendAnnouncements(s.net, replied, reply);
    if peer in m.table && m.table[peer].roomId.Some? {
      var roomId := m.table[peer].roomId.value;
      forall q | q in Audience(m, replied, roomId, Some(peer))
        ensures q in replied.log && KnownProducer(replied.log[q] + [message], q, |replied.log[q]|)
      {
        AudienceKnows(m, replied, peer, q, message);
      }
      hide MembersOk, KnownProducer, AnnouncementsOk;
      NeutralKeepsViews(m, replied, t.net, message);
      ExtendAnnouncements(replied, t.net, message);
    }
  }

  /** A peer that shares the producer's room already lists the producer in its view. */
  lemma AudienceKnows(m: Members, net: Net, peer: PeerId, q: PeerId, message: Message)
    requires MembersOk(m) && ViewsOk(m, net) && peer in m.table && m.table[peer].roomId.Some?
    requires q in Audience(m, net, m.table[peer].roomId.value, Some(peer)) && message.NewProducer? && message.producer == peer
    ensures q in net.log && KnownProducer(net.log[q] + [message], q, |net.log[q]|)
  {
    assert Attached(m, net, q);
    assert (net.log[q] + [message])[..|net.log[q]|] == net.log[q];
  }

  // ------------------------------------------------------------------- routers

  /** Every created router is mapped, closed or displaced, and only one of the three. */
  ghost predicate Accounted(r: Routers) {
    && r.created == r.mapped.Values + r.closed + r.displaced
    && r.mapped.Values !! r.closed && r.mapped.Values !! r.displaced && r.closed !! r.displaced
    && (forall a, b :: a in r.mapped && b in r.mapped && r.mapped[a] == r.mapped[b] ==> a == b)
  }

  ghost predicate RoutersTimed(r: Routers, clock: int) {
    && r.begun.Keys == r.created && r.stored.Keys == r.created
    && (forall id <- r.created :: r.begun[id] < r.stored[id] < clock)
  }

  /** Room r lost its last peer between the two clock values and no one is in it. */
  ghost predicate EmptiedBetween(s: State, r: string, from: int, to: int) {
    r in s.emptied && from < s.emptied[r] < to
  }

  /** A router mapped for a room without peers was being created when that room emptied. */
  ghost predicate RouterWitnessed(s: State, r: string)
    requires r in s.routers.mapped && s.routers.mapped[r] in s.routers.begun && s.routers.mapped[r] in s.routers.stored
  {
    PeersIn(s.members, r) == map[] ==>
      EmptiedBetween(s, r, s.routers.begun[s.routers.mapped[r]], s.routers.stored[s.routers.mapped[r]])
  }

  /**
   * A pending creation began before now; a router mapped for its room was stored since it
   * began, and if the room has no peers, it emptied since it began.
   */
  ghost predicate CreationTimed(s: State, r: string, begun: int) {
    && begun < s.clock
    && (r in s.routers.mapped && s.routers.mapped[r] in s.routers.stored ==>
          begun < s.routers.stored[s.routers.mapped[r]])
    && (PeersIn(s.members, r) == map[] ==> EmptiedBetween(s, r, begun, s.clock))
  }

  ghost predicate MappedOk(s: State) {
    forall r <- s.routers.mapped ::
      && s.routers.mapped[r] in s.routers.begun && s.routers.mapped[r] in s.routers.stored
      && RouterWitnessed(s, r)
  }

  ghost predicate CreationsOk(s: State) {
    forall t <- s.tasks :: t.AwaitRouter? ==> CreationTimed(s, t.roomId, t.begun)
  }

  ghost predicate EmptiedOk(s: State) {
    forall r <- s.emptied :: s.emptied[r] < s.clock
  }

  ghost predicate RoutersOk(s: State) {
    && Accounted(s.routers)
    && RoutersTimed(s.routers, s.clock)
    && EmptiedOk(s)
    && MappedOk(s)
    && CreationsOk(s)
  }

  lemma StoreKeepsAccount(r: Routers, roomId: string, id: RouterId, begun: int, now: int)
    requires Accounted(r) && RoutersTimed(r, now) && begun < now && id !in r.created
    ensures Accounted(StoreRouter(r, roomId, id, begun, now))
    ensures RoutersTimed(StoreRouter(r, roomId, id, begun, now), now + 1)
  {
    var t := StoreRouter(r, roomId, id, begun, now);
    forall x ensures x in t.mapped.Values <==>
                     x == id || (x in r.mapped.Values && !(roomId in r.mapped && r.mapped[roomId] == x)) {
      if x in r.mapped.Values {
        var k :| k in r.mapped && r.mapped[k] == x;
        assert k != roomId ==> k in t.mapped && t.mapped[k] == x;
      }
      if x == id { assert t.mapped[roomId] == x; }
    }
  }

  lemma CloseKeepsAccount(r: Routers, roomId: string)
    requires Accounted(r)
    ensures Accounted(CloseRouter(r, roomId))
    ensures roomId !in CloseRouter(r, roomId).mapped
  {
    var t := CloseRouter(r, roomId);
    if roomId in r.mapped {
      forall x ensures x in t.mapped.Values <==> x in r.mapped.Values && x != r.mapped[roomId] {
        if x in r.mapped.Values && x != r.mapped[roomId] {
          var k :| k in r.mapped && r.mapped[k] == x;
          assert k in t.mapped && t.mapped[k] == x;
        }
      }
    }
  }

  // ----------------------------------------------------------- parked handlers

  ghost predicate TaskOk(m: Members, t: Task) {
    match t
    case LeaveAfterMedia(p, r) => p in m.table && (p in m.live ==> m.table[p].roomId == Some(r))
    case AnnounceLeft(p, _) => p in m.table && p !in m.live
    case CloseAfterMedia(_) => true
    case _ => t.peer in m.table
  }

  ghost predicate TasksOk(s: State) {
    forall t <- s.tasks :: TaskOk(s.members, t)
  }

  /** The empty rooms are the ones created over HTTP and not joined since. */
  ghost predicate ExplicitOk(s: State) {
    forall r :: r in s.explicit <==> r in s.members.rooms && s.members.rooms[r] == map[]
  }

  ghost predicate Inv(s: State) {
    && MembersOk(s.members)
    && ViewsOk(s.members, s.net)
    && AnnouncementsOk(s.net)
    && TasksOk(s)
    && ExplicitOk(s)
    && RoutersOk(s)
  }

  // -------------------------------------------------------- every step keeps it

  /** What a task needs survives any step that creates sessions or makes peers leave. */
  lemma TaskOkStable(m: Members, n: Members, t: Task)
    requires TaskOk(m, t) && m.table.Keys <= n.table.Keys
    requires forall p <- n.live :: p in m.table ==> p in m.live && p in n.table && n.table[p].roomId == m.table[p].roomId
    ensures TaskOk(n, t)
  {
  }

  /** A step that stores and closes no router, begins no creation and empties no room. */
  lemma RoutersStable(s: State, t: State)
    requires RoutersOk(s)
    requires t.routers == s.routers && t.emptied == s.emptied && t.clock == s.clock + 1
    requires forall r :: PeersIn(t.members, r) == map[] ==> PeersIn(s.members, r) == map[]
    requires forall k <- t.tasks :: k.AwaitRouter? ==> k in s.tasks
    ensures RoutersOk(t)
  {
    forall r | r in t.routers.mapped ensures RouterWitnessed(t, r) {
      assert RouterWitnessed(s, r);
    }
    forall k | k in t.tasks && k.AwaitRouter? ensures CreationTimed(t, k.roomId, k.begun) {
      assert CreationTimed(s, k.roomId, k.begun);
    }
  }

  lemma WitnessSame(s: State, t: State, r: string)
    requires r in s.routers.mapped && s.routers.mapped[r] in s.routers.begun && s.routers.mapped[r] in s.routers.stored
    requires t.members == s.members && t.routers == s.routers && t.emptied == s.emptied && RouterWitnessed(s, r)
    ensures RouterWitnessed(t, r)
  {
  }

  lemma CreationSame(s: State, t: State, r: string, begun: int)
    requires t.members == s.members && t.routers == s.routers && t.emptied == s.emptied && t.clock == s.clock
    requires CreationTimed(s, r, begun)
    ensures CreationTimed(t, r, begun)
  {
  }

  /** The state after a departure, with the clock advanced. */
  function Departed(s: State, peer: PeerId, roomId: string): State {
    Tick(DepartSegment(s, peer, roomId))
  }

  /** Only the departing peer's room can lose a peer. */
  lemma DepartRooms(s: State, peer: PeerId, roomId: string, r: string)
    requires MembersOk(s.members)
    requires peer in s.members.live ==> s.members.table[peer].roomId == Some(roomId)
    ensures PeersIn(Departed(s, peer, roomId).members, r) == PeersIn(s.members, r) - {peer}
    ensures r != roomId ==> PeersIn(Departed(s, peer, roomId).members, r) == PeersIn(s.members, r)
  {
    LeaveEffect(s.members, peer);
    if r != roomId {
      assert peer !in PeersIn(s.members, r);
      assert PeersIn(s.members, r) - {peer} == PeersIn(s.members, r);
    }
  }

  /** A departure closes the router of a room it empties, so no mapped router loses its witness. */
  lemma DepartKeepsMapped(s: State, peer: PeerId, roomId: string)
    requires MembersOk(s.members) && EmptiedOk(s) && MappedOk(s)
    requires peer in s.members.live ==> s.members.table[peer].roomId == Some(roomId)
    ensures MappedOk(Departed(s, peer, roomId)) && EmptiedOk(Departed(s, peer, roomId))
  {
    var t := Departed(s, peer, roomId);
    DepartRooms(s, peer, roomId, roomId);
    forall r | r in t.routers.mapped
      ensures t.routers.mapped[r] in t.routers.begun && t.routers.mapped[r] in t.routers.stored
      ensures RouterWitnessed(t, r)
    {
      assert r in s.routers.mapped && t.routers.mapped[r] == s.routers.mapped[r];
      DepartRooms(s, peer, roomId, r);
      assert RouterWitnessed(s, r);
      hide MembersOk;
    }
  }

  /** A creation pending while its room empties is timed by that emptying. */
  lemma DepartKeepsCreations(s: State, peer: PeerId, roomId: string)
    requires MembersOk(s.members) && EmptiedOk(s) && CreationsOk(s)
    requires peer in s.members.live ==> s.members.table[peer].roomId == Some(roomId)
    ensures CreationsOk(Departed(s, peer, roomId))
  {
    var t := Departed(s, peer, roomId);
    forall k | k in t.tasks && k.AwaitRouter? ensures CreationTimed(t, k.roomId, k.begun) {
      assert k in s.tasks;
      assert CreationTimed(s, k.roomId, k.begun);
      DepartRooms(s, peer, roomId, k.roomId);
      DepartRooms(s, peer, roomId, roomId);
      hide MembersOk;
    }
  }

  lemma {:induction false} DepartKeepsRouters(s: State, peer: PeerId, roomId: string)
    requires MembersOk(s.members) && RoutersOk(s)
    requires peer in s.members.live ==> s.members.table[peer].roomId == Some(roomId)
    ensures RoutersOk(Departed(s, peer, roomId))
  {
    CloseKeepsAccount(s.routers, roomId);
    DepartKeepsMapped(s, peer, roomId);
    DepartKeepsCreations(s, peer, roomId);
    hide MembersOk, Accounted, MappedOk, CreationsOk, EmptiedOk;
  }

  lemma StoreKeepsMapped(s: State, task: Task, outcome: Outcome)
    requires task.AwaitRouter? && outcome.Completed? && outcome.id !in s.routers.created
    requires MappedOk(s) && EmptiedOk(s) && CreationTimed(s, task.roomId, task.begun)
    requires s.routers.begun.Keys == s.routers.created && s.routers.stored.Keys == s.routers.created
    ensures var t := Tick(RouterSegment(s, task, outcome)); MappedOk(t) && EmptiedOk(t)
  {
    var t := Tick(RouterSegment(s, task, outcome));
    forall r | r in t.routers.mapped
      ensures t.routers.mapped[r] in t.routers.begun && t.routers.mapped[r] in t.routers.stored
      ensures RouterWitnessed(t, r)
    {
      if r != task.roomId {
        assert RouterWitnessed(s, r);
      }
    }
  }

  lemma StoreKeepsCreations(s: State, task: Task, outcome: Outcome)
    requires task.AwaitRouter? && outcome.Completed? && outcome.id !in s.routers.created
    requires CreationsOk(s) && MappedOk(s)
    requires s.routers.begun.Keys == s.routers.created && s.routers.stored.Keys == s.routers.created
    ensures CreationsOk(Tick(RouterSegment(s, task, outcome)))
  {
    var t := Tick(RouterSegment(s, task, outcome));
    forall k | k in t.tasks && k.AwaitRouter? ensures CreationTimed(t, k.roomId, k.begun) {
      assert k in s.tasks;
      assert CreationTimed(s, k.roomId, k.begun);
      if k.roomId != task.roomId && k.roomId in s.routers.mapped {
        assert RouterWitnessed(s, k.roomId);
      }
    }
  }

  lemma {:induction false} StoreKeepsRouters(s: State, task: Task, outcome: Outcome)
    requires RoutersOk(s) && task.AwaitRouter? && outcome.Completed? && outcome.id !in s.routers.created
    requires CreationTimed(s, task.roomId, task.begun)
    ensures RoutersOk(Tick(RouterSegment(s, task, outcome)))
  {
    StoreKeepsAccount(s.routers, task.roomId, outcome.id, task.begun, s.clock);
    StoreKeepsMapped(s, task, outcome);
    StoreKeepsCreations(s, task, outcome);
    hide Accounted, MappedOk, CreationsOk, EmptiedOk;
  }

  lemma DepartKeepsTasks(s: State, peer: PeerId, roomId: string)
    requires MembersOk(s.members) && TasksOk(s) && peer in s.members.table
    ensures TasksOk(Departed(s, peer, roomId))
  {
    var t := Departed(s, peer, roomId);
    LeaveEffect(s.members, peer);
    forall k | k in t.tasks ensures TaskOk(t.members, k) {
      if k in s.tasks { TaskOkStable(s.members, t.members, k); }
    }
  }

  lemma DepartKeepsExplicit(s: State, peer: PeerId, roomId: string)
    requires MembersOk(s.members) && ExplicitOk(s)
    ensures ExplicitOk(Departed(s, peer, roomId))
  {
    var t := Departed(s, peer, roomId);
    forall r ensures r in t.explicit <==> r in t.members.rooms && t.members.rooms[r] == map[] {
      LeaveEmptiesNothing(s.members, peer, r);
    }
  }

  /** Leaving neither leaves an empty room behind nor removes one. */
  lemma LeaveEmptiesNothing(m: Members, peer: PeerId, r: string)
    requires MembersOk(m)
    ensures r in LeavePeer(m, peer).rooms && LeavePeer(m, peer).rooms[r] == map[] <==> r in m.rooms && m.rooms[r] == map[]
  {
  }

  lemma DepartKeepsInv(s: State, peer: PeerId, roomId: string)
    requires Inv(s) && peer in s.members.table
    requires peer in s.members.live ==> s.members.table[peer].roomId == Some(roomId)
    ensures Inv(Departed(s, peer, roomId))
  {
    LeaveKeepsMembers(s.members, peer);
    DepartKeepsViews(s, peer, roomId);
    DepartKeepsAnnouncements(s, peer, roomId);
    DepartKeepsRouters(s, peer, roomId);
    DepartKeepsTasks(s, peer, roomId);
    DepartKeepsExplicit(s, peer, roomId);
    hide MembersOk, ViewsOk, AnnouncementsOk, TasksOk, ExplicitOk, RoutersOk;
  }

  lemma JoinKeepsRest(s: State, e: Event)
    requires MembersOk(s.members) && TasksOk(s) && ExplicitOk(s) && RoutersOk(s) && e.Join? && Enabled(s, e)
    ensures TasksOk(Apply(s, e)) && ExplicitOk(Apply(s, e)) && RoutersOk(Apply(s, e))
  {
    var t := Apply(s, e);
    JoinKeepsMembers(s.members, e.roomId, e.displayName, e.socket, e.peer);
    hide MembersOk, Broadcast, Send, Accounted, RoutersTimed, MappedOk, CreationsOk, EmptiedOk;
    forall k | k in t.tasks ensures TaskOk(t.members, k) { TaskOkStable(s.members, t.members, k); }
    RoutersStable(s, t);
  }

  lemma {:induction false} JoinKeepsInv(s: State, e: Event)
    requires Inv(s) && e.Join? && Enabled(s, e)
    ensures Inv(Apply(s, e))
  {
    JoinKeepsMembers(s.members, e.roomId, e.displayName, e.socket, e.peer);
    JoinKeepsViews(s, e.socket, e.roomId, e.displayName, e.peer);
    JoinKeepsAnnouncements(s, e.socket, e.roomId, e.displayName, e.peer);
    JoinKeepsRest(s, e);
    hide MembersOk, ViewsOk, AnnouncementsOk, RoutersOk, TasksOk, ExplicitOk, Broadcast, Send, JoinRoom;
  }

  lemma HttpCreateKeepsMembers(m: Members, roomId: string)
    requires MembersOk(m)
    ensures MembersOk(CreateRoom(m, roomId))
    ensures forall r :: PeersIn(CreateRoom(m, roomId), r) == PeersIn(m, r)
  {
  }

  lemma HttpCreateKeepsInv(s: State, e: Event)
    requires Inv(s) && e.HttpCreateRoom?
    ensures Inv(Apply(s, e))
  {
    var t := Apply(s, e);
    HttpCreateKeepsMembers(s.members, e.roomId);
    hide MembersOk, AnnouncementsOk, RoutersOk, Accounted, RoutersTimed, MappedOk, CreationsOk, EmptiedOk;
    forall p | Attached(t.members, t.net, p) ensures Converged(t.members, t.net, p) {
      assert Attached(s.members, s.net, p);
    }
    forall k | k in t.tasks ensures TaskOk(t.members, k) { TaskOkStable(s.members, t.members, k); }
    RoutersStable(s, t);
  }

  lemma SocketClosesKeepsInv(s: State, e: Event)
    requires Inv(s) && e.SocketCloses?
    ensures Inv(Apply(s, e))
  {
    var t := Apply(s, e);
    forall p | Attached(t.members, t.net, p) ensures Converged(t.members, t.net, p) {
      assert Attached(s.members, s.net, p);
    }
    forall q, i: nat | q in t.net.log && i < |t.net.log[q]| ensures KnownProducer(t.net.log[q], q, i) {
      assert KnownProducer(s.net.log[q], q, i);
    }
    RoutersStable(s, t);
  }

  /** A handler that starts by looking up its socket's session finds a live peer in its room. */
  lemma LookupFindsRoom(m: Members, socket: SocketId)
    requires MembersOk(m)
    ensures match SessionOf(m, socket)
            case Failure(_) => SessionInRoom(m, socket).Failure?
            case Success(p) => p in m.live && p in m.table && m.table[p].roomId.Some? &&
                               SessionInRoom(m, socket) == Success((p, m.table[p].roomId.value))
  {
  }

  /** A step that changes no room and no router keeps the invariant if what it parks and sends is acceptable. */
  lemma QuietKeepsInv(s: State, t: State)
    requires Inv(s)
    requires t.members == s.members && t.routers == s.routers && t.explicit == s.explicit && t.emptied == s.emptied
    requires t.clock == s.clock + 1
    requires ViewsOk(t.members, t.net) && AnnouncementsOk(t.net)
    requires forall k <- t.tasks :: k in s.tasks ||
               (TaskOk(s.members, k) && (k.AwaitRouter? ==> CreationTimed(t, k.roomId, k.begun)))
    ensures Inv(t)
  {
    var u := t.(tasks := s.tasks);
    RoutersStable(s, u);
    hide MembersOk, ViewsOk, AnnouncementsOk, Accounted, RoutersTimed, RouterWitnessed, CreationTimed;
    assert MappedOk(t) by {
      forall r | r in t.routers.mapped ensures RouterWitnessed(t, r) { assert RouterWitnessed(u, r); WitnessSame(u, t, r); }
    }
    forall k | k in t.tasks && k.AwaitRouter? ensures CreationTimed(t, k.roomId, k.begun) {
      if k in s.tasks {
        assert CreationTimed(u, k.roomId, k.begun);
        CreationSame(u, t, k.roomId, k.begun);
      }
    }
  }

  predicate IsStart(e: Event) { e.Leave? || e.Close? || e.NeedRouter? || e.Produce? || e.Consume? }

  /** A starting handler changes no room and parks at most one task, naming a live peer and its room. */
  lemma StartEffect(s: State, e: Event)
    requires MembersOk(s.members) && IsStart(e)
    ensures var t := Effect(s, e); t == s.(tasks := t.tasks, media := t.media)
    ensures forall k <- Effect(s, e).tasks :: k in s.tasks ||
              (&& TaskOk(s.members, k)
               && (k.AwaitRouter? ==>
                     k.begun == s.clock && k.roomId !in s.routers.mapped && PeersIn(s.members, k.roomId) != map[]))
  {
    LookupFindsRoom(s.members, e.socket);
    if SessionOf(s.members, e.socket).Success? {
      var peer := SessionOf(s.members, e.socket).value;
      assert peer in PeersIn(s.members, s.members.table[peer].roomId.value);
      hide MembersOk;
    }
  }

  lemma {:induction false} StartKeepsInv(s: State, e: Event)
    requires Inv(s) && IsStart(e)
    ensures Inv(Apply(s, e))
  {
    StartEffect(s, e);
    hide MembersOk, ViewsOk, AnnouncementsOk, RoutersOk, TasksOk, ExplicitOk, Effect;
    QuietKeepsInv(s, Apply(s, e));
  }

  lemma {:induction false} RouterKeepsInv(s: State, task: Task, outcome: Outcome)
    requires Inv(s) && task.AwaitRouter? && TaskOk(s.members, task) && CreationTimed(s, task.roomId, task.begun)
    requires outcome.Completed? && outcome.id !in s.routers.created
    ensures Inv(Tick(RouterSegment(s, task, outcome)))
  {
    var t := Tick(RouterSegment(s, task, outcome));
    StoreKeepsRouters(s, task, outcome);
    hide MembersOk, ViewsOk, AnnouncementsOk, RoutersOk;
  }

  /** Taking a task out of the pool keeps the invariant. */
  lemma TakeKeepsInv(s: State, task: Task)
    requires Inv(s) && task in s.tasks
    ensures Inv(s.(tasks := s.tasks - multiset{task}))
    ensures TaskOk(s.members, task)
    ensures task.AwaitRouter? ==> CreationTimed(s.(tasks := s.tasks - multiset{task}), task.roomId, task.begun)
  {
    var u := s.(tasks := s.tasks - multiset{task});
    hide MembersOk, ViewsOk, AnnouncementsOk, Accounted, RoutersTimed;
    forall r | r in u.routers.mapped ensures RouterWitnessed(u, r) { assert RouterWitnessed(s, r); }
    forall k | k in s.tasks && k.AwaitRouter? ensures CreationTimed(u, k.roomId, k.begun) {
      assert CreationTimed(s, k.roomId, k.begun);
    }
  }

  lemma AnnounceKeepsInv(s: State, task: Task, outcome: Outcome)
    requires Inv(s) && TaskOk(s.members, task) && (task.AnnounceLeft? || task.AnnounceProducer?)
    ensures Inv(Tick(ResumeSegment(s, task, outcome)))
  {
    var t := Tick(ResumeSegment(s, task, outcome));
    if task.AnnounceLeft? {
      StaleLeftKeepsViews(s.members, s.net, task.roomId, task.peer);
    } else {
      AnnounceKeepsViews(s, task.peer, task.producerId, task.kind);
    }
    hide MembersOk, ViewsOk, AnnouncementsOk, RoutersOk, TasksOk, ExplicitOk;
    QuietKeepsInv(s, t);
  }

  lemma MediaKeepsInv(s: State, task: Task, outcome: Outcome)
    requires Inv(s) && TaskOk(s.members, task)
    requires task.AwaitTransport? || task.AwaitProducer? || task.AwaitConsumer? || (task.AwaitRouter? && outcome.Rejected?)
    ensures Inv(Tick(ResumeSegment(s, task, outcome)))
  {
    hide MembersOk, ViewsOk, AnnouncementsOk, RoutersOk, TasksOk, ExplicitOk;
    QuietKeepsInv(s, Tick(ResumeSegment(s, task, outcome)));
  }

  lemma CloseAfterMediaKeepsInv(s: State, socket: SocketId)
    requires Inv(s)
    ensures Inv(Tick(CloseAfterMediaSegment(s, socket)))
  {
    var t := Tick(CloseAfterMediaSegment(s, socket));
    if socket in s.members.bySocket && s.members.bySocket[socket] in s.members.live {
      var peer := s.members.bySocket[socket];
      DepartKeepsInv(s, peer, RoomOf(s.members, peer).value);
    } else {
      hide MembersOk, ViewsOk, AnnouncementsOk, RoutersOk, TasksOk, ExplicitOk;
      QuietKeepsInv(s, t);
    }
  }

  lemma ResumeKeepsInv(s: State, e: Event)
    requires Inv(s) && e.Resume? && Enabled(s, e)
    ensures Inv(Apply(s, e))
  {
    var u := s.(tasks := s.tasks - multiset{e.task});
    TakeKeepsInv(s, e.task);
    hide Inv, CreationTimed, DepartSegment, CloseAfterMediaSegment, AnnounceProducerSegment, RouterSegment, Broadcast, Tick;
    match e.task {
      case LeaveAfterMedia(peer, roomId) => DepartKeepsInv(u, peer, roomId);
      case CloseAfterMedia(socket) => CloseAfterMediaKeepsInv(u, socket);
      case AnnounceLeft(_, _) => AnnounceKeepsInv(u, e.task, e.outcome);
      case AnnounceProducer(_, _, _) => AnnounceKeepsInv(u, e.task, e.outcome);
      case AwaitRouter(_, _, _, _) =>
        if e.outcome.Completed? { RouterKeepsInv(u, e.task, e.outcome); } else { MediaKeepsInv(u, e.task, e.outcome); }
      case _ => MediaKeepsInv(u, e.task, e.outcome);
    }
  }

  lemma {:induction false} ApplyKeepsInv(s: State, e: Event)
    requires Inv(s) && Enabled(s, e)
    ensures Inv(Apply(s, e))
  {
    match e {
      case SocketCloses(_) => SocketClosesKeepsInv(s, e);
      case HttpCreateRoom(_) => HttpCreateKeepsInv(s, e);
      case Join(_, _, _, _) => JoinKeepsInv(s, e);
      case Resume(_, _) => ResumeKeepsInv(s, e);
      case _ => assert IsStart(e); StartKeepsInv(s, e);
    }
  }

  lemma {:induction false} RunKeepsInv(run: seq<Event>)
    requires IsRun(run)
    ensures Inv(After(run))
  {
    if run != [] {
      RunKeepsInv(run[..|run| - 1]);
      ApplyKeepsInv(After(run[..|run| - 1]), run[|run| - 1]);
    }
  }
}
