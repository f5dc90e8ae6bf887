/**
 * The signaling dispatcher and the socket's close handler, one method per stretch of code
 * between awaits. A handler that reaches an await parks a task; `Resume` runs what follows
 * the await. Every method takes the whole server state exactly one protocol step further.
 */
module Dispatcher {
  import opened Common
  import opened Protocol
  import opened ProtocolTheorems
  import opened Server

  /** A message to a peer that has just joined goes to the joining socket. */
  lemma JoinedIsOnSocket(m: Members, net: Net, roomId: string, displayName: string, socket: SocketId, peer: PeerId)
    ensures forall message :: Send(JoinRoom(m, roomId, displayName, socket, peer), net, peer, message) ==
                              if socket in net.closed then net else net.(log := net.log[peer := LogOf(net, peer) + [message]])
  {
  }

  function LookupError<T>(found: Result<T, ErrorCode>): Option<ErrorCode> {
    if found.Failure? then Some(found.error) else None
  }

  lemma LookupErrors(m: Members, socket: SocketId)
    ensures SessionInRoom(m, socket).Failure? ==> SessionInRoom(m, socket).error in {PeerNotFound, PeerNotInRoom}
  {
  }

  class SignalingDispatcher {
    const rooms: RoomService
    const routers: RouterManager
    ghost var parked: multiset<Task>
    ghost var clock: int
    ghost var explicit: set<string>
    ghost var emptied: map<string, int>

    constructor ()
      ensures Valid() && fresh(rooms) && fresh(rooms.store) && fresh(rooms.network) && fresh(routers)
      ensures AsState() == Init
    {
      rooms := new RoomService();
      routers := new RouterManager();
      parked := multiset{};
      clock, explicit, emptied := 0, {}, map[];
    }

    ghost predicate Valid()
      reads routers
    {
      routers.Valid()
    }

    ghost function AsState(): State
      reads this, rooms, rooms.store, rooms.network, routers
    {
      State(rooms.AsMembers(), rooms.network.AsNet(), routers.account, rooms.media, parked, clock, explicit, emptied)
    }

    method SocketLeavesOpen(socket: SocketId)
      requires Valid()
      modifies this, rooms.network
      ensures Valid() && AsState() == Apply(old(AsState()), SocketCloses(socket))
    {
      rooms.network.closed := rooms.network.closed + {socket};
      clock := clock + 1;
    }

    method CreateRoom(roomId: string) returns (created: Result<string, ErrorCode>)
      requires Valid()
      modifies this, rooms.store
      ensures Valid() && AsState() == Apply(old(AsState()), HttpCreateRoom(roomId))
      ensures created.Success? <==> roomId !in old(rooms.store.rooms)
    {
      created := rooms.CreateRoom(roomId);
      if created.Success? { explicit := explicit + {roomId}; }
      clock := clock + 1;
    }

    method RoomJoin(socket: SocketId, roomId: string, displayName: string, peerId: PeerId)
      requires Valid() && Enabled(AsState(), Join(socket, roomId, displayName, peerId))
      modifies this, rooms, rooms.store, rooms.network
      ensures Valid() && AsState() == Apply(old(AsState()), Join(socket, roomId, displayName, peerId))
    {
      hide Broadcast, JoinRoom, PeersIn, LogOf, Send;
      ghost var before := AsState();
      JoinedIsOnSocket(before.members, before.net.(log := before.net.log[peerId := []]), roomId, displayName, socket, peerId);
      rooms.JoinRoom(roomId, displayName, socket, peerId);
      var peers := rooms.GetPeersInRoom(roomId);
      rooms.network.Deliver(peerId, socket, RoomJoined(roomId, peerId, peers));
      rooms.Broadcast(roomId, PeerJoined(peerId, displayName), Some(peerId));
      explicit := explicit - {roomId};
      clock := clock + 1;
    }

    /** Looks up the socket's session and its room, as every media handler first does. */
    method RequireRoom(socket: SocketId) returns (found: Result<(PeerId, string), ErrorCode>)
      ensures found == SessionInRoom(rooms.AsMembers(), socket)
    {
      var session := rooms.GetSessionBySocket(socket);
      if session.Failure? { return Failure(session.error); }
      var peer := session.value;
      if rooms.sessions[peer].roomId.None? || rooms.sessions[peer].roomId.value == "" {
        return Failure(PeerNotInRoom);
      }
      return Success((peer, rooms.sessions[peer].roomId.value));
    }

    method CloseMedia(peer: PeerId)
      modifies rooms`media
      ensures rooms.media == old(rooms.media)[peer := NoMedia]
    {
      rooms.media := rooms.media[peer := NoMedia];
    }

    /** Leaves the handler waiting on an await. */
    ghost method ParkTask(task: Task)
      requires Valid()
      modifies this`parked
      ensures AsState() == Park(old(AsState()), task)
    {
      parked := parked + multiset{task};
    }

    ghost method UnparkTask(task: Task)
      requires Valid()
      modifies this`parked
      ensures Valid() && AsState() == old(AsState()).(tasks := old(AsState()).tasks - multiset{task})
    {
      parked := parked - multiset{task};
    }

    /** The end of a stretch of code without an await. */
    ghost method Finish()
      requires Valid()
      modifies this`clock
      ensures AsState() == Tick(old(AsState()))
    {
      clock := clock + 1;
    }

    method RoomLeave(socket: SocketId) returns (error: Option<ErrorCode>)
      requires Valid()
      modifies this, rooms`media
      ensures Valid() && AsState() == Apply(old(AsState()), Leave(socket))
      ensures error == LookupError(SessionInRoom(old(rooms.AsMembers()), socket))
    {
      hide SessionInRoom, Tick, Park;
      var found := RequireRoom(socket);
      if found.Success? {
        CloseMedia(found.value.0);
        ParkTask(LeaveAfterMedia(found.value.0, found.value.1));
      }
      Finish();
      return if found.Failure? then Some(found.error) else None;
    }

    method SocketClose(socket: SocketId)
      requires Valid()
      modifies this, rooms`media
      ensures Valid() && AsState() == Apply(old(AsState()), Close(socket))
    {
      hide Tick, Park;
      var found := rooms.GetSessionBySocket(socket);
      if found.Success? {
        CloseMedia(found.value);
        ParkTask(CloseAfterMedia(socket));
      }
      Finish();
    }

    /** After the peer left: close the router of an empty room and park, or tell the others. */
    method FinishDeparture(peer: PeerId, roomId: string, ghost before: State)
      requires Valid()
      requires AsState() == before.(members := Protocol.LeavePeer(before.members, peer))
      modifies this, routers, rooms.network`log
      ensures Valid() && AsState() == Tick(DepartSegment(before, peer, roomId))
    {
      var peers := rooms.GetPeersInRoom(roomId);
      if PeersIn(before.members, roomId) != map[] && peers == map[] { emptied := emptied[roomId := clock]; }
      if peers == map[] {
        routers.CloseRouter(roomId);
        parked := parked + multiset{AnnounceLeft(peer, roomId)};
      } else {
        rooms.Broadcast(roomId, PeerLeft(peer), None);
      }
      clock := clock + 1;
    }

    method ResumeLeave(peer: PeerId, roomId: string)
      requires Valid()
      modifies this, rooms, rooms.store, rooms.network`log, routers
      ensures Valid() && AsState() == Tick(DepartSegment(old(AsState()), peer, roomId))
    {
      ghost var before := AsState();
      var _ := rooms.LeavePeer(peer);
      FinishDeparture(peer, roomId, before);
    }

    method ResumeClose(socket: SocketId)
      requires Valid()
      modifies this, rooms, rooms.store, rooms.network`log, routers
      ensures Valid() && AsState() == Tick(CloseAfterMediaSegment(old(AsState()), socket))
    {
      ghost var before := AsState();
      var left := rooms.LeaveBySocket(socket);
      if left.None? {
        clock := clock + 1;
        return;
      }
      FinishDeparture(left.value.0, left.value.1, before);
    }

    method RequestRouter(socket: SocketId, purpose: Purpose) returns (error: Option<ErrorCode>)
      requires Valid()
      modifies this
      ensures Valid() && AsState() == Apply(old(AsState()), NeedRouter(socket, purpose))
      ensures error == LookupError(SessionInRoom(old(rooms.AsMembers()), socket))
    {
      hide SessionInRoom, Tick, Park;
      var found := RequireRoom(socket);
      if found.Failure? {
        Finish();
        return Some(found.error);
      }
      var (peer, roomId) := found.value;
      var existing := routers.Existing(roomId);
      if existing.None? {
        ParkTask(AwaitRouter(peer, roomId, purpose, clock));
      } else if purpose.Transport? {
        ParkTask(AwaitTransport(peer));
      }
      Finish();
      return None;
    }

    method MediaProduce(socket: SocketId, transportId: int, kind: MediaKind) returns (error: Option<ErrorCode>)
      requires Valid()
      modifies this
      ensures Valid() && AsState() == Apply(old(AsState()), Produce(socket, transportId, kind))
      ensures var found := old(SessionInRoom(rooms.AsMembers(), socket));
              error == if found.Failure? then Some(found.error)
                       else if transportId !in MediaOf(old(AsState()), found.value.0).transports then Some(TransportNotFound)
                       else None
    {
      hide SessionInRoom, Tick, Park;
      var found := RequireRoom(socket);
      if found.Failure? {
        Finish();
        return Some(found.error);
      }
      var peer := found.value.0;
      if peer in rooms.media && transportId in rooms.media[peer].transports {
        ParkTask(AwaitProducer(peer, kind));
        error := None;
      } else {
        error := Some(TransportNotFound);
      }
      Finish();
    }

    /** `accepted` is what the router answers to canConsume. */
    method MediaConsume(socket: SocketId, transportId: int, accepted: bool) returns (error: Option<ErrorCode>)
      requires Valid()
      modifies this
      ensures Valid() && AsState() == Apply(old(AsState()), Consume(socket, transportId, accepted))
      ensures var found := old(SessionInRoom(rooms.AsMembers(), socket));
              error == if found.Failure? then Some(found.error)
                       else if found.value.1 !in old(routers.routers) || !accepted then Some(MediaError)
                       else if transportId !in MediaOf(old(AsState()), found.value.0).transports then Some(TransportNotFound)
                       else None
    {
      hide SessionInRoom, Tick, Park;
      var found := RequireRoom(socket);
      LookupErrors(rooms.AsMembers(), socket);
      if found.Failure? {
        Finish();
        return Some(found.error);
      }
      var (peer, roomId) := found.value;
      var router := routers.Existing(roomId);
      if router.None? || !accepted {
        error := Some(MediaError);
      } else if peer !in rooms.media || transportId !in rooms.media[peer].transports {
        error := Some(TransportNotFound);
      } else {
        ParkTask(AwaitConsumer(peer));
        error := None;
      }
      Finish();
    }

    method ResumeRouter(task: Task, outcome: Outcome)
      requires Valid() && task.AwaitRouter?
      modifies this, routers
      ensures Valid() && AsState() == Tick(RouterSegment(old(AsState()), task, outcome))
    {
      if outcome.Completed? {
        routers.StoreCreated(task.roomId, outcome.id, task.begun, clock);
        if task.purpose.Transport? { parked := parked + multiset{AwaitTransport(task.peer)}; }
      }
      clock := clock + 1;
    }

    method ResumeProducerReply(peer: PeerId, producerId: int, kind: MediaKind)
      requires Valid()
      modifies this, rooms.network`log
      ensures Valid() && AsState() == Tick(AnnounceProducerSegment(old(AsState()), peer, producerId, kind))
    {
      var table := rooms.departed + rooms.sessions;
      if peer in table {
        rooms.network.Deliver(peer, table[peer].socket, Produced(producerId));
        if table[peer].roomId.Some? {
          rooms.Broadcast(table[peer].roomId.value, NewProducer(peer, producerId, kind), Some(peer));
        }
      }
      clock := clock + 1;
    }

    /** What a session's media maps become when the foreign call a media task awaits has ended. */
    method ResumeMedia(task: Task, outcome: Outcome)
      requires Valid() && (task.AwaitTransport? || task.AwaitProducer? || task.AwaitConsumer?)
      modifies this, rooms`media
      ensures Valid() && AsState() == Tick(ResumeSegment(old(AsState()), task, outcome))
    {
      hide Tick, Park;
      if outcome.Completed? {
        var before := if task.peer in rooms.media then rooms.media[task.peer] else NoMedia;
        match task {
          case AwaitTransport(peer) =>
            rooms.media := rooms.media[peer := before.(transports := before.transports + {outcome.id})];
          case AwaitConsumer(peer) =>
            rooms.media := rooms.media[peer := before.(consumers := before.consumers + {outcome.id})];
          case AwaitProducer(peer, kind) =>
            rooms.media := rooms.media[peer := before.(producers := before.producers + {outcome.id})];
            ParkTask(AnnounceProducer(peer, outcome.id, kind));
        }
      }
      Finish();
    }

    /** Runs the parked handler that the event loop picked, up to its next await or its end. */
    method ResumeTask(task: Task, outcome: Outcome)
      requires Valid() && Enabled(AsState(), Resume(task, outcome))
      modifies this, rooms, rooms.store, rooms.network`log, routers
      ensures Valid() && AsState() == Apply(old(AsState()), Resume(task, outcome))
    {
      hide Broadcast, LeavePeer, DepartSegment, CloseAfterMediaSegment, AnnounceProducerSegment, RouterSegment, Tick;
      UnparkTask(task);
      match task {
        case LeaveAfterMedia(peer, roomId) => ResumeLeave(peer, roomId);
        case CloseAfterMedia(socket) => ResumeClose(socket);
        case AnnounceLeft(peer, roomId) => ResumeAnnounceLeft(peer, roomId);
        case AwaitRouter(_, _, _, _) => ResumeRouter(task, outcome);
        case AnnounceProducer(peer, producerId, kind) => ResumeProducerReply(peer, producerId, kind);
        case _ => ResumeMedia(task, outcome);
      }
    }

    method ResumeAnnounceLeft(peer: PeerId, roomId: string)
      requires Valid()
      modifies this, rooms.network`log
      ensures Valid()
      ensures AsState() == Tick(ResumeSegment(old(AsState()), AnnounceLeft(peer, roomId), Rejected))
    {
      rooms.Broadcast(roomId, PeerLeft(peer), None);
      clock := clock + 1;
    }
  }

  /**
   * The event loop: it hands the dispatcher one event at a time. The ghost run records them,
   * and the server's state is always the state after the run.
   */
  class EventLoop {
    const dispatcher: SignalingDispatcher
    ghost var run: seq<Event>

    constructor ()
      ensures Valid() && fresh(Parts()) && run == []
    {
      dispatcher := new SignalingDispatcher();
      run := [];
    }

    ghost function Parts(): set<object>
      reads this
    {
      {dispatcher, dispatcher.rooms, dispatcher.rooms.store, dispatcher.rooms.network, dispatcher.routers}
    }

    ghost predicate Valid()
      reads this, Parts()
    {
      dispatcher.Valid() && IsRun(run) && dispatcher.AsState() == After(run)
    }

    /**
     * One event. Whatever ran before, afterwards every live peer on an open socket has been
     * sent exactly what it needs to know the peers of its room.
     */
    method Handle(e: Event)
      requires Valid() && Enabled(dispatcher.AsState(), e)
      modifies this, Parts()
      ensures Valid() && run == old(run) + [e]
      ensures var s := dispatcher.AsState();
              forall p :: p in s.members.live && CanReceive(s.members, s.net, p) ==>
                RoomOf(s.members, p).Some? && p in s.net.log &&
                Believes(s.net.log[p]) == Some(PeersIn(s.members, RoomOf(s.members, p).value))
    {
      hide Apply, CanReceive, RoomOf, PeersIn, Believes, After, IsRun;
      RunStep(run, e);
      match e {
        case SocketCloses(socket) => dispatcher.SocketLeavesOpen(socket);
        case HttpCreateRoom(roomId) => var _ := dispatcher.CreateRoom(roomId);
        case Join(socket, roomId, displayName, peer) => dispatcher.RoomJoin(socket, roomId, displayName, peer);
        case Leave(socket) => var _ := dispatcher.RoomLeave(socket);
        case Close(socket) => dispatcher.SocketClose(socket);
        case NeedRouter(socket, purpose) => var _ := dispatcher.RequestRouter(socket, purpose);
        case Produce(socket, transportId, kind) => var _ := dispatcher.MediaProduce(socket, transportId, kind);
        case Consume(socket, transportId, accepted) => var _ := dispatcher.MediaConsume(socket, transportId, accepted);
        case Resume(task, outcome) => dispatcher.ResumeTask(task, outcome);
      }
      run := run + [e];
      ghost var s := After(run);
      forall p | p in s.members.live && CanReceive(s.members, s.net, p)
        ensures RoomOf(s.members, p).Some? && p in s.net.log && Believes(s.net.log[p]) == Some(PeersIn(s.members, RoomOf(s.members, p).value)) {
        ViewConvergence(run, p);
      }
    }
  }
}
