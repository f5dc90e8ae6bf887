/**
 * The signaling and membership protocol as a step machine.
 *
 * One event is one run of server code between two awaits: a handler starting, or a
 * handler resuming after the await it was parked on. `Apply` says what the event does to
 * the whole server state. Parked handlers are kept in a multiset of tasks, and any of them
 * may resume next, so a sequence of events is one interleaving.
 */
module Protocol {
  import opened Common

  type PeerId = int
  type SocketId = int
  type RouterId = int
  type Peers = map<PeerId, string>

  datatype MediaKind = Audio | Video

  /** What is handed to a peer's socket. Peer lists map a peer id to its display name. */
  datatype Message =
    | RoomJoined(roomId: string, peerId: PeerId, peers: Peers)
    | PeerJoined(joined: PeerId, displayName: string)
    | PeerLeft(left: PeerId)
    | Produced(producerId: int)
    | NewProducer(producer: PeerId, newProducerId: int, kind: MediaKind)

  datatype Session = Session(displayName: string, socket: SocketId, roomId: Option<string>)

  // ---------------------------------------------------------------- membership

  /**
   * `table` holds every session object ever created, because a parked handler keeps its
   * session after the service forgot it; `live` are the keys of the service's session map.
   */
  datatype Members = Members(
    rooms: map<string, Peers>,
    table: map<PeerId, Session>,
    live: set<PeerId>,
    bySocket: map<SocketId, PeerId>)

  function PeersIn(m: Members, roomId: string): Peers {
    if roomId in m.rooms then m.rooms[roomId] else map[]
  }

  function CreateRoom(m: Members, roomId: string): Members {
    if roomId in m.rooms then m else m.(rooms := m.rooms[roomId := map[]])
  }

  function JoinRoom(m: Members, roomId: string, displayName: string, socket: SocketId, peer: PeerId): Members {
    Members(
      m.rooms[roomId := PeersIn(m, roomId)[peer := displayName]],
      m.table[peer := Session(displayName, socket, Some(roomId))],
      m.live + {peer},
      m.bySocket[socket := peer])
  }

  /** The room a session is in; an absent or empty room id counts as no room. */
  function RoomOf(m: Members, peer: PeerId): Option<string> {
    if peer in m.table && m.table[peer].roomId.Some? && m.table[peer].roomId.value != "" then m.table[peer].roomId
    else None
  }

  function LeavePeer(m: Members, peer: PeerId): Members {
    if peer !in m.live || peer !in m.table || RoomOf(m, peer).None? then m
    else
      var roomId := RoomOf(m, peer).value;
      var rest := PeersIn(m, roomId) - {peer};
      Members(
        if roomId !in m.rooms then m.rooms
        else if rest == map[] then m.rooms - {roomId}
        else m.rooms[roomId := rest],
        m.table[peer := m.table[peer].(roomId := None)],
        m.live - {peer},
        m.bySocket)
  }

  /** The live session most recently bound to the socket. */
  function SessionOf(m: Members, socket: SocketId): Result<PeerId, ErrorCode> {
    if socket in m.bySocket && m.bySocket[socket] in m.live then Success(m.bySocket[socket]) else Failure(PeerNotFound)
  }

  /** The session of the socket together with its room. */
  function SessionInRoom(m: Members, socket: SocketId): Result<(PeerId, string), ErrorCode> {
    match SessionOf(m, socket)
    case Failure(e) => Failure(e)
    case Success(peer) =>
      if RoomOf(m, peer).Some? then Success((peer, RoomOf(m, peer).value)) else Failure(PeerNotInRoom)
  }

  // ------------------------------------------------------------------ delivery

  /** `closed` are the sockets that left the OPEN state; `log` is what each peer was sent. */
  datatype Net = Net(closed: set<SocketId>, log: map<PeerId, seq<Message>>)

  function LogOf(net: Net, peer: PeerId): seq<Message> { if peer in net.log then net.log[peer] else [] }

  predicate CanReceive(m: Members, net: Net, peer: PeerId) {
    peer in m.table && m.table[peer].socket !in net.closed
  }

  function Send(m: Members, net: Net, peer: PeerId, message: Message): Net {
    if CanReceive(m, net, peer) then net.(log := net.log[peer := LogOf(net, peer) + [message]]) else net
  }

  /** The peers a broadcast reaches: listed in the room, not excluded, live, and on an open socket. */
  function Audience(m: Members, net: Net, roomId: string, exclude: Option<PeerId>): set<PeerId> {
    set q | q in PeersIn(m, roomId) && Some(q) != exclude && q in m.live && CanReceive(m, net, q)
  }

  function Broadcast(m: Members, net: Net, roomId: string, message: Message, exclude: Option<PeerId>): Net {
    var audience := Audience(m, net, roomId, exclude);
    net.(log := map q | q in net.log.Keys + audience ::
                  if q in audience then LogOf(net, q) + [message] else net.log[q])
  }

  // ------------------------------------------------------------------- routers

  /**
   * `mapped` is the router manager's map. The other fields are bookkeeping: every router
   * `createRouter` returned, the ones closed, the ones another router overwrote in the map,
   * and the clock values at which each router's creation was begun and stored.
   */
  datatype Routers = Routers(
    mapped: map<string, RouterId>,
    created: set<RouterId>,
    closed: set<RouterId>,
    displaced: set<RouterId>,
    begun: map<RouterId, int>,
    stored: map<RouterId, int>)

  function StoreRouter(r: Routers, roomId: string, id: RouterId, begun: int, now: int): Routers {
    Routers(
      r.mapped[roomId := id],
      r.created + {id},
      r.closed,
      if roomId in r.mapped then r.displaced + {r.mapped[roomId]} else r.displaced,
      r.begun[id := begun],
      r.stored[id := now])
  }

  function CloseRouter(r: Routers, roomId: string): Routers {
    if roomId in r.mapped then r.(mapped := r.mapped - {roomId}, closed := r.closed + {r.mapped[roomId]}) else r
  }

  // --------------------------------------------------------------------- media

  datatype Media = Media(transports: set<int>, producers: set<int>, consumers: set<int>)

  const NoMedia := Media({}, {}, {})

  function AddTransport(m: Media, id: int): Media { m.(transports := m.transports + {id}) }
  function AddProducer(m: Media, id: int): Media { m.(producers := m.producers + {id}) }
  function AddConsumer(m: Media, id: int): Media { m.(consumers := m.consumers + {id}) }

  // -------------------------------------------------------------------- states

  datatype Purpose = Capabilities | Transport

  /** A parked handler: the await it waits on and the values it kept. */
  datatype Task =
    | LeaveAfterMedia(peer: PeerId, roomId: string)
    | CloseAfterMedia(socket: SocketId)
    | AnnounceLeft(peer: PeerId, roomId: string)
    | AwaitRouter(peer: PeerId, roomId: string, purpose: Purpose, begun: int)
    | AwaitTransport(peer: PeerId)
    | AwaitProducer(peer: PeerId, kind: MediaKind)
    | AnnounceProducer(peer: PeerId, producerId: int, kind: MediaKind)
    | AwaitConsumer(peer: PeerId)

  /**
   * `explicit` and `emptied` are bookkeeping: rooms created over HTTP and not joined since,
   * and the clock value at which a room last lost its last peer.
   */
  datatype State = State(
    members: Members,
    net: Net,
    routers: Routers,
    media: map<PeerId, Media>,
    tasks: multiset<Task>,
    clock: int,
    explicit: set<string>,
    emptied: map<string, int>)

  const Init := State(
    Members(map[], map[], {}, map[]), Net({}, map[]), Routers(map[], {}, {}, {}, map[], map[]),
    map[], multiset{}, 0, {}, map[])

  /** How a foreign call that a task awaits ends; tasks that await no foreign call ignore it. */
  datatype Outcome = Completed(id: int) | Rejected

  datatype Event =
    | SocketCloses(socket: SocketId)
    | HttpCreateRoom(roomId: string)
    | Join(socket: SocketId, roomId: string, displayName: string, peer: PeerId)
    | Leave(socket: SocketId)
    | Close(socket: SocketId)
    | NeedRouter(socket: SocketId, purpose: Purpose)
    | Produce(socket: SocketId, transportId: int, kind: MediaKind)
    | Consume(socket: SocketId, transportId: int, accepted: bool)
    | Resume(task: Task, outcome: Outcome)

  /**
   * Which events can occur: peer ids and router ids are fresh, a joined room id is not
   * empty, and only a parked task resumes.
   */
  predicate Enabled(s: State, e: Event) {
    match e
    case Join(_, roomId, _, peer) => roomId != "" && peer !in s.members.table
    case Resume(task, outcome) =>
      task in s.tasks && (task.AwaitRouter? && outcome.Completed? ==> outcome.id !in s.routers.created)
    case _ => true
  }

  // ------------------------------------------------------------------ segments

  function Park(s: State, task: Task): State { s.(tasks := s.tasks + multiset{task}) }

  function MediaOf(s: State, peer: PeerId): Media { if peer in s.media then s.media[peer] else NoMedia }

  function CloseMedia(s: State, peer: PeerId): State { s.(media := s.media[peer := NoMedia]) }

  function JoinSegment(s: State, socket: SocketId, roomId: string, displayName: string, peer: PeerId): State {
    var m := JoinRoom(s.members, roomId, displayName, socket, peer);
    var logged := s.net.(log := s.net.log[peer := []]);
    var welcomed := Send(m, logged, peer, RoomJoined(roomId, peer, PeersIn(m, roomId)));
    s.(members := m,
    net := Broadcast(m, welcomed, roomId, PeerJoined(peer, displayName), Some(peer)),
    media := s.media[peer := NoMedia],
    explicit := s.explicit - {roomId})
  }

  function LeaveSegment(s: State, socket: SocketId): State {
    match SessionInRoom(s.members, socket)
    case Failure(_) => s
    case Success((peer, roomId)) => Park(CloseMedia(s, peer), LeaveAfterMedia(peer, roomId))
  }

  function CloseSegment(s: State, socket: SocketId): State {
    match SessionOf(s.members, socket)
    case Failure(_) => s
    case Success(peer) => Park(CloseMedia(s, peer), CloseAfterMedia(socket))
  }

  /**
   * The segment shared by leave and disconnect once media is closed: drop the peer, then
   * either close the router of the now empty room and park, or tell the others at once.
   */
  function DepartSegment(s: State, peer: PeerId, roomId: string): State {
    var m := LeavePeer(s.members, peer);
    var emptied := if PeersIn(s.members, roomId) != map[] && PeersIn(m, roomId) == map[]
                   then s.emptied[roomId := s.clock] else s.emptied;
    if PeersIn(m, roomId) == map[] then
      Park(s.(members := m, emptied := emptied, routers := CloseRouter(s.routers, roomId)), AnnounceLeft(peer, roomId))
    else
      s.(members := m, emptied := emptied, net := Broadcast(m, s.net, roomId, PeerLeft(peer), None))
  }

  function CloseAfterMediaSegment(s: State, socket: SocketId): State {
    if socket !in s.members.bySocket then s
    else
      var peer := s.members.bySocket[socket];
      if peer in s.members.live && RoomOf(s.members, peer).Some?
      then DepartSegment(s, peer, RoomOf(s.members, peer).value)
      else s.(members := LeavePeer(s.members, peer))
  }

  function NeedRouterSegment(s: State, socket: SocketId, purpose: Purpose): State {
    match SessionInRoom(s.members, socket)
    case Failure(_) => s
    case Success((peer, roomId)) =>
      if roomId !in s.routers.mapped then Park(s, AwaitRouter(peer, roomId, purpose, s.clock))
      else if purpose.Transport? then Park(s, AwaitTransport(peer))
      else s
  }

  function RouterSegment(s: State, task: Task, outcome: Outcome): State
    requires task.AwaitRouter?
  {
    match outcome
    case Rejected => s
    case Completed(id) =>
      var t := s.(routers := StoreRouter(s.routers, task.roomId, id, task.begun, s.clock));
      if task.purpose.Transport? then Park(t, AwaitTransport(task.peer)) else t
  }

  function ProduceSegment(s: State, socket: SocketId, transportId: int, kind: MediaKind): State {
    match SessionInRoom(s.members, socket)
    case Failure(_) => s
    case Success((peer, _)) =>
      if transportId in MediaOf(s, peer).transports then Park(s, AwaitProducer(peer, kind)) else s
  }

  function ConsumeSegment(s: State, socket: SocketId, transportId: int, accepted: bool): State {
    match SessionInRoom(s.members, socket)
    case Failure(_) => s
    case Success((peer, roomId)) =>
      if roomId in s.routers.mapped && accepted && transportId in MediaOf(s, peer).transports
      then Park(s, AwaitConsumer(peer))
      else s
  }

  /** The reply to the producer, then the announcement to the room it is in at this moment. */
  function AnnounceProducerSegment(s: State, peer: PeerId, producerId: int, kind: MediaKind): State {
    var replied := Send(s.members, s.net, peer, Produced(producerId));
    s.(net :=
      if peer in s.members.table && s.members.table[peer].roomId.Some?
      then Broadcast(s.members, replied, s.members.table[peer].roomId.value,
                     NewProducer(peer, producerId, kind), Some(peer))
      else replied)
  }

  function ResumeSegment(s: State, task: Task, outcome: Outcome): State {
    match task
    case LeaveAfterMedia(peer, roomId) => DepartSegment(s, peer, roomId)
    case CloseAfterMedia(socket) => CloseAfterMediaSegment(s, socket)
    case AnnounceLeft(peer, roomId) =>
      s.(net := Broadcast(s.members, s.net, roomId, PeerLeft(peer), None))
    case AwaitRouter(_, _, _, _) => RouterSegment(s, task, outcome)
    case AwaitTransport(peer) =>
      if outcome.Rejected? then s else s.(media := s.media[peer := AddTransport(MediaOf(s, peer), outcome.id)])
    case AwaitProducer(peer, kind) =>
      if outcome.Rejected? then s
      else Park(s.(media := s.media[peer := AddProducer(MediaOf(s, peer), outcome.id)]),
                AnnounceProducer(peer, outcome.id, kind))
    case AnnounceProducer(peer, producerId, kind) => AnnounceProducerSegment(s, peer, producerId, kind)
    case AwaitConsumer(peer) =>
      if outcome.Rejected? then s else s.(media := s.media[peer := AddConsumer(MediaOf(s, peer), outcome.id)])
  }

  function Effect(s: State, e: Event): State {
    match e
    case SocketCloses(socket) => s.(net := s.net.(closed := s.net.closed + {socket}))
    case HttpCreateRoom(roomId) =>
      s.(members := CreateRoom(s.members, roomId),
      explicit := if roomId in s.members.rooms then s.explicit else s.explicit + {roomId})
    case Join(socket, roomId, displayName, peer) => JoinSegment(s, socket, roomId, displayName, peer)
    case Leave(socket) => LeaveSegment(s, socket)
    case Close(socket) => CloseSegment(s, socket)
    case NeedRouter(socket, purpose) => NeedRouterSegment(s, socket, purpose)
    case Produce(socket, transportId, kind) => ProduceSegment(s, socket, transportId, kind)
    case Consume(socket, transportId, accepted) => ConsumeSegment(s, socket, transportId, accepted)
    case Resume(task, outcome) => ResumeSegment(s.(tasks := s.tasks - multiset{task}), task, outcome)
  }

  function Tick(s: State): State { s.(clock := s.clock + 1) }

  function Apply(s: State, e: Event): State { Tick(Effect(s, e)) }

  // ---------------------------------------------------------------------- runs

  /** The state after a sequence of events. */
  function After(run: seq<Event>): State {
    if run == [] then Init else Apply(After(run[..|run| - 1]), run[|run| - 1])
  }

  /** A run: every event was possible when it occurred. */
  predicate IsRun(run: seq<Event>) {
    run == [] || (IsRun(run[..|run| - 1]) && Enabled(After(run[..|run| - 1]), run[|run| - 1]))
  }

  /** A run in which a handler starts only when no other handler is parked. */
  predicate IsHandlerAtomic(run: seq<Event>) {
    && IsRun(run)
    && (run == [] ||
        (&& IsHandlerAtomic(run[..|run| - 1])
         && (run[|run| - 1].Resume? || run[|run| - 1].SocketCloses? || After(run[..|run| - 1]).tasks == multiset{})))
  }

  // ------------------------------------------------------------ what a client believes

  /** The room a client believes it is in, folded from the messages it was sent. */
  function Believes(log: seq<Message>): Option<Peers> {
    if log == [] then None
    else
      var before := Believes(log[..|log| - 1]);
      match log[|log| - 1]
      case RoomJoined(_, _, peers) => Some(peers)
      case PeerJoined(peer, displayName) => if before.Some? then Some(before.value[peer := displayName]) else None
      case PeerLeft(peer) => if before.Some? then Some(before.value - {peer}) else None
      case _ => before
  }
}
