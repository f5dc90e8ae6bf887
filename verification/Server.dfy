/**
 * The stateful services behind the protocol: the sockets, the room store, the room service
 * and the router manager. Each method is proved to act on the abstract delivery, membership
 * and router state exactly as the corresponding protocol function does.
 */
module Server {
  import opened Common
  import opened Protocol

  /** The sockets' ready states and, per peer id, what was handed to its socket. */
  class Network {
    var closed: set<SocketId>
    var log: map<PeerId, seq<Message>>

    constructor ()
      ensures AsNet() == Net({}, map[])
    {
      closed, log := {}, map[];
    }

    function AsNet(): Net
      reads this
    {
      Net(closed, log)
    }

    method Deliver(peer: PeerId, socket: SocketId, message: Message)
      modifies this`log
      ensures log == if socket in closed then old(log) else old(log)[peer := LogOf(old(AsNet()), peer) + [message]]
    {
      if socket !in closed {
        log := log[peer := LogOf(AsNet(), peer) + [message]];
      }
    }
  }

  class RoomStore {
    var rooms: map<string, Peers>

    constructor ()
      ensures rooms == map[]
    {
      rooms := map[];
    }

    method Create(roomId: string) returns (created: Result<string, ErrorCode>)
      modifies this
      ensures created == if roomId in old(rooms) then Failure(InternalError) else Success(roomId)
      ensures rooms == if roomId in old(rooms) then old(rooms) else old(rooms)[roomId := map[]]
    {
      if roomId in rooms {
        return Failure(InternalError);
      }
      rooms := rooms[roomId := map[]];
      return Success(roomId);
    }

    method GetOrCreate(roomId: string) returns (peers: Peers)
      modifies this
      ensures rooms == if roomId in old(rooms) then old(rooms) else old(rooms)[roomId := map[]]
      ensures roomId in rooms && peers == rooms[roomId]
    {
      if roomId !in rooms {
        var _ := Create(roomId);
      }
      peers := rooms[roomId];
    }

    method Put(roomId: string, peers: Peers)
      modifies this
      ensures rooms == old(rooms)[roomId := peers]
    {
      rooms := rooms[roomId := peers];
    }

    method Delete(roomId: string)
      modifies this
      ensures rooms == old(rooms) - {roomId}
    {
      rooms := rooms - {roomId};
    }
  }

  lemma CreateThenAdd(rooms: map<string, Peers>, roomId: string, peer: PeerId, name: string)
    ensures roomId !in rooms ==> rooms[roomId := map[]][roomId := map[peer := name]] == rooms[roomId := map[peer := name]]
  {
  }

  lemma MoveToDeparted(departed: map<PeerId, Session>, sessions: map<PeerId, Session>, peer: PeerId, session: Session)
    ensures departed[peer := session] + (sessions - {peer}) == (departed + sessions)[peer := session]
  {
  }

  /**
   * `sessions` and `socketToPeer` are the service's maps. A session that left stays in
   * `departed`, because a parked handler may still hold it, and `media` are the media maps
   * of every session, live or departed.
   */
  class RoomService {
    const network: Network
    const store: RoomStore
    var sessions: map<PeerId, Session>
    var socketToPeer: map<SocketId, PeerId>
    var departed: map<PeerId, Session>
    var media: map<PeerId, Media>

    constructor ()
      ensures fresh(network) && fresh(store)
      ensures network.AsNet() == Net({}, map[]) && AsMembers() == Members(map[], map[], {}, map[]) && media == map[]
    {
      network := new Network();
      store := new RoomStore();
      sessions, socketToPeer, departed, media := map[], map[], map[], map[];
    }

    function AsMembers(): Members
      reads this, store
    {
      Members(store.rooms, departed + sessions, sessions.Keys, socketToPeer)
    }

    method CreateRoom(roomId: string) returns (created: Result<string, ErrorCode>)
      modifies store
      ensures AsMembers() == Protocol.CreateRoom(old(AsMembers()), roomId)
      ensures created.Success? <==> roomId !in old(store.rooms)
    {
      created := store.Create(roomId);
    }

    method JoinRoom(roomId: string, displayName: string, socket: SocketId, peerId: PeerId)
      modifies this, store, network`log
      ensures AsMembers() == Protocol.JoinRoom(old(AsMembers()), roomId, displayName, socket, peerId)
      ensures media == old(media)[peerId := NoMedia]
      ensures network.log == old(network.log)[peerId := []]
    {
      ghost var after := Protocol.JoinRoom(AsMembers(), roomId, displayName, socket, peerId);
      var peers := store.GetOrCreate(roomId);
      CreateThenAdd(old(store.rooms), roomId, peerId, displayName);
      store.Put(roomId, peers[peerId := displayName]);
      sessions := sessions[peerId := Session(displayName, socket, Some(roomId))];
      assert departed + sessions == after.table;
      socketToPeer := socketToPeer[socket := peerId];
      media := media[peerId := NoMedia];
      network.log := network.log[peerId := []];
    }

    /** Forgets the peer and empties its room's slot; reports its room and who remains, or nothing if it was not in one. */
    method LeavePeer(peerId: PeerId) returns (left: Option<(string, Peers)>)
      modifies this, store
      ensures AsMembers() == Protocol.LeavePeer(old(AsMembers()), peerId)
      ensures left == if peerId in old(sessions) && RoomOf(old(AsMembers()), peerId).Some?
                      then var roomId := RoomOf(old(AsMembers()), peerId).value;
                           Some((roomId, PeersIn(old(AsMembers()), roomId) - {peerId}))
                      else None
      ensures media == old(media)
    {
      if peerId !in sessions || sessions[peerId].roomId.None? || sessions[peerId].roomId.value == "" {
        return None;
      }
      var session := sessions[peerId];
      var roomId := session.roomId.value;
      var remaining: Peers := map[];
      if roomId in store.rooms {
        remaining := store.rooms[roomId] - {peerId};
        store.rooms := store.rooms[roomId := remaining];
        if remaining == map[] {
          store.Delete(roomId);
        }
      }
      MoveToDeparted(departed, sessions, peerId, session.(roomId := None));
      sessions := sessions - {peerId};
      departed := departed[peerId := session.(roomId := None)];
      left := Some((roomId, remaining));
      assert remaining == PeersIn(old(AsMembers()), roomId) - {peerId};
      assert store.rooms == Protocol.LeavePeer(old(AsMembers()), peerId).rooms;
    }

    method LeaveBySocket(socket: SocketId) returns (left: Option<(PeerId, string)>)
      modifies this, store
      ensures AsMembers() == if socket in old(socketToPeer)
                             then Protocol.LeavePeer(old(AsMembers()), old(socketToPeer)[socket]) else old(AsMembers())
      ensures left == if socket in old(socketToPeer) && old(socketToPeer)[socket] in old(sessions) &&
                         RoomOf(old(AsMembers()), old(socketToPeer)[socket]).Some?
                      then Some((old(socketToPeer)[socket], RoomOf(old(AsMembers()), old(socketToPeer)[socket]).value))
                      else None
      ensures media == old(media)
    {
      if socket !in socketToPeer {
        return None;
      }
      var peerId := socketToPeer[socket];
      var room := LeavePeer(peerId);
      left := if room.Some? then Some((peerId, room.value.0)) else None;
    }

    method GetSessionBySocket(socket: SocketId) returns (found: Result<PeerId, ErrorCode>)
      ensures found == SessionOf(AsMembers(), socket)
    {
      if socket !in socketToPeer || socketToPeer[socket] !in sessions {
        return Failure(PeerNotFound);
      }
      return Success(socketToPeer[socket]);
    }

    method GetPeersInRoom(roomId: string) returns (peers: Peers)
      ensures peers == PeersIn(AsMembers(), roomId)
    {
      peers := if roomId in store.rooms then store.rooms[roomId] else map[];
    }

    /** Sends to each listed peer in turn, skipping the excluded one and peers without a session. */
    method Broadcast(roomId: string, message: Message, exclude: Option<PeerId>)
      modifies network`log
      ensures network.AsNet() == Protocol.Broadcast(AsMembers(), old(network.AsNet()), roomId, message, exclude)
    {
      ghost var m, before := AsMembers(), network.AsNet();
      ghost var audience := Audience(m, before, roomId, exclude);
      if roomId !in store.rooms {
        assert audience == {};
        assert network.log == Protocol.Broadcast(m, before, roomId, message, exclude).log;
        return;
      }
      var rest: set<PeerId> := store.rooms[roomId].Keys;
      while rest != {}
        invariant network.closed == before.closed && AsMembers() == m
        invariant rest <= store.rooms[roomId].Keys
        invariant network.log.Keys == before.log.Keys + (audience - rest)
        invariant forall q <- network.log ::
                    network.log[q] == if q in audience - rest then LogOf(before, q) + [message] else LogOf(before, q)
        decreases rest
      {
        assert (exists q :: q in rest) || rest == {};
        var peerId :| peerId in rest;
        if Some(peerId) != exclude && peerId in sessions {
          network.Deliver(peerId, sessions[peerId].socket, message);
        }
        rest := rest - {peerId};
      }
      assert audience - rest == audience;
      ghost var told := Protocol.Broadcast(m, before, roomId, message, exclude).log;
      assert network.log.Keys == told.Keys;
      assert forall q <- told :: network.log[q] == told[q];
    }
  }

  class RouterManager {
    var routers: map<string, RouterId>
    ghost var account: Routers

    constructor ()
      ensures Valid() && account == Routers(map[], {}, {}, {}, map[], map[])
    {
      routers := map[];
      account := Routers(map[], {}, {}, {}, map[], map[]);
    }

    ghost predicate Valid()
      reads this
    {
      account.mapped == routers
    }

    /** The part of getOrCreateRouter before its await: the mapped router, if there is one. */
    method Existing(roomId: string) returns (router: Option<RouterId>)
      requires Valid()
      ensures router == if roomId in account.mapped then Some(account.mapped[roomId]) else None
    {
      router := if roomId in routers then Some(routers[roomId]) else None;
    }

    /** The part of getOrCreateRouter after its await: the map is set without looking again. */
    method StoreCreated(roomId: string, id: RouterId, ghost begun: int, ghost now: int)
      requires Valid()
      modifies this
      ensures Valid() && account == StoreRouter(old(account), roomId, id, begun, now)
    {
      account := StoreRouter(account, roomId, id, begun, now);
      routers := routers[roomId := id];
    }

    method CloseRouter(roomId: string)
      requires Valid()
      modifies this
      ensures Valid() && account == Protocol.CloseRouter(old(account), roomId)
    {
      account := Protocol.CloseRouter(account, roomId);
      if roomId in routers {
        routers := routers - {roomId};
      }
    }
  }
}
