/** What every event hands to every peer, stated per reader: who is told what, and that nothing else is sent. */
module Delivery {
  import opened Common
  import opened Protocol
  import opened ProtocolProofs
  import opened ProtocolTheorems

  /** A live session of the room whose socket is still open. */
  ghost predicate Hears(s: State, q: PeerId, roomId: string) {
    && q in s.members.live && q in s.members.table
    && s.members.table[q].roomId == Some(roomId) && s.members.table[q].socket !in s.net.closed
  }

  function When<T>(condition: bool, message: T): seq<T> { if condition then [message] else [] }

  /** The other members of the leaver's room hear that it left. */
  ghost function LeftTo(s: State, leaver: PeerId, roomId: string, q: PeerId): seq<Message> {
    When(q != leaver && Hears(s, q, roomId), PeerLeft(leaver))
  }

  /** The messages that an event adds to what q was sent. */
  ghost function Told(s: State, e: Event, q: PeerId): seq<Message> {
    match e
    case Join(socket, roomId, displayName, peer) =>
      if q == peer then When(socket !in s.net.closed, RoomJoined(roomId, peer, PeersIn(s.members, roomId)[peer := displayName]))
      else When(Hears(s, q, roomId), PeerJoined(peer, displayName))
    case Resume(LeaveAfterMedia(peer, roomId), _) => LeftTo(s, peer, roomId, q)
    case Resume(AnnounceLeft(peer, roomId), _) => LeftTo(s, peer, roomId, q)
    case Resume(CloseAfterMedia(socket), _) =>
      if SessionInRoom(s.members, socket).Success?
      then LeftTo(s, SessionInRoom(s.members, socket).value.0, SessionInRoom(s.members, socket).value.1, q)
      else []
    case Resume(AnnounceProducer(peer, producerId, kind), _) =>
      if q == peer then When(peer in s.members.table && s.members.table[peer].socket !in s.net.closed, Produced(producerId))
      else When(RoomOf(s.members, peer).Some? && Hears(s, q, RoomOf(s.members, peer).value), NewProducer(peer, producerId, kind))
    case _ => []
  }

  lemma {:induction false} JoinTells(s: State, e: Event, q: PeerId)
    requires Inv(s) && Enabled(s, e) && e.Join?
    ensures LogOf(Apply(s, e).net, q) == LogOf(s.net, q) + Told(s, e, q)
  {
    JoinKeepsMembers(s.members, e.roomId, e.displayName, e.socket, e.peer);
    hide AnnouncementsOk, RoutersOk, TasksOk, ExplicitOk;
  }

  lemma {:induction false} BroadcastTells(m: Members, net: Net, roomId: string, message: Message, exclude: Option<PeerId>, q: PeerId)
    ensures LogOf(Broadcast(m, net, roomId, message, exclude), q) ==
            LogOf(net, q) + When(q in Audience(m, net, roomId, exclude), message)
  {
  }

  lemma {:induction false} AudienceHears(s: State, roomId: string, q: PeerId)
    requires MembersOk(s.members)
    ensures q in PeersIn(s.members, roomId) && q in s.members.live && CanReceive(s.members, s.net, q) <==> Hears(s, q, roomId)
  {
  }

  lemma {:induction false} DepartTells(s: State, peer: PeerId, roomId: string, q: PeerId)
    requires MembersOk(s.members)
    ensures LogOf(DepartSegment(s, peer, roomId).net, q) == LogOf(s.net, q) + LeftTo(s, peer, roomId, q)
  {
    LeaveEffect(s.members, peer);
    var m := LeavePeer(s.members, peer);
    AudienceHears(s, roomId, q);
    hide MembersOk, LeavePeer, Hears, CloseRouter;
    if PeersIn(m, roomId) == map[] {
      assert q != peer ==> q !in PeersIn(s.members, roomId);
    } else {
      BroadcastTells(m, s.net, roomId, PeerLeft(peer), None, q);
      hide Broadcast;
    }
  }

  lemma {:induction false} ReplyTells(s: State, peer: PeerId, producerId: int, kind: MediaKind, q: PeerId)
    requires MembersOk(s.members)
    ensures LogOf(AnnounceProducerSegment(s, peer, producerId, kind).net, q) ==
            LogOf(s.net, q) + Told(s, Resume(AnnounceProducer(peer, producerId, kind), Rejected), q)
  {
    var replied := Send(s.members, s.net, peer, Produced(producerId));
    if peer in s.members.table && s.members.table[peer].roomId.Some? {
      var roomId := s.members.table[peer].roomId.value;
      AudienceHears(s, roomId, q);
      BroadcastTells(s.members, replied, roomId, NewProducer(peer, producerId, kind), Some(peer), q);
    }
    hide Broadcast;
  }

  lemma {:induction false} OthersTellNothing(s: State, e: Event, q: PeerId)
    requires !e.Join? && !e.Resume?
    ensures LogOf(Apply(s, e).net, q) == LogOf(s.net, q) + Told(s, e, q)
  {
    hide SessionOf, SessionInRoom, MediaOf;
  }

  lemma {:induction false} CloseTells(s: State, socket: SocketId, outcome: Outcome, q: PeerId)
    requires MembersOk(s.members)
    ensures LogOf(CloseAfterMediaSegment(s, socket).net, q) == LogOf(s.net, q) + Told(s, Resume(CloseAfterMedia(socket), outcome), q)
  {
    if SessionInRoom(s.members, socket).Success? {
      var found := SessionInRoom(s.members, socket).value;
      DepartTells(s, found.0, found.1, q);
    }
    hide MembersOk, DepartSegment, LeavePeer, LeftTo;
  }

  lemma {:induction false} LateLeftTells(s: State, peer: PeerId, roomId: string, q: PeerId)
    requires MembersOk(s.members) && peer !in s.members.live
    ensures LogOf(Broadcast(s.members, s.net, roomId, PeerLeft(peer), None), q) == LogOf(s.net, q) + LeftTo(s, peer, roomId, q)
  {
    AudienceHears(s, roomId, q);
    BroadcastTells(s.members, s.net, roomId, PeerLeft(peer), None, q);
    hide Broadcast;
  }

  /** Taking the task off the parked ones changes nobody's messages. */
  lemma {:induction false} TakingTellsNothing(s: State, e: Event, q: PeerId)
    requires e.Resume?
    ensures Told(s.(tasks := s.tasks - multiset{e.task}), e, q) == Told(s, e, q)
  {
  }

  lemma {:induction false} QuietTells(s: State, e: Event, q: PeerId)
    requires e.Resume? && (e.task.AwaitRouter? || e.task.AwaitTransport? || e.task.AwaitProducer? || e.task.AwaitConsumer?)
    ensures LogOf(ResumeSegment(s, e.task, e.outcome).net, q) == LogOf(s.net, q) + Told(s, e, q)
  {
  }

  lemma {:induction false} ResumeTells(s: State, e: Event, q: PeerId)
    requires Inv(s) && Enabled(s, e) && e.Resume?
    ensures LogOf(Apply(s, e).net, q) == LogOf(s.net, q) + Told(s, e, q)
  {
    var u := s.(tasks := s.tasks - multiset{e.task});
    TakingTellsNothing(s, e, q);
    assert TaskOk(s.members, e.task);
    hide Inv, MembersOk, Hears, DepartSegment, AnnounceProducerSegment, CloseAfterMediaSegment, RouterSegment, Broadcast, LeftTo, SessionInRoom;
    match e.task {
      case LeaveAfterMedia(peer, roomId) => DepartTells(u, peer, roomId, q);
      case CloseAfterMedia(socket) => CloseTells(u, socket, e.outcome, q);
      case AnnounceLeft(peer, roomId) => LateLeftTells(u, peer, roomId, q);
      case AnnounceProducer(peer, producerId, kind) => ReplyTells(u, peer, producerId, kind, q);
      case _ => QuietTells(u, e, q);
    }
  }

  /** In every run, each event adds to each peer's messages exactly what it is to be told. */
  lemma {:induction false} EveryoneIsTold(run: seq<Event>, e: Event, q: PeerId)
    requires IsRun(run + [e])
    ensures LogOf(After(run + [e]).net, q) == LogOf(After(run).net, q) + Told(After(run), e, q)
  {
    assert (run + [e])[..|run|] == run;
    RunKeepsInv(run);
    hide Inv, Apply, Told;
    if e.Join? {
      JoinTells(After(run), e, q);
    } else if e.Resume? {
      ResumeTells(After(run), e, q);
    } else {
      OthersTellNothing(After(run), e, q);
    }
  }

  /**
   * Who joins on an open socket is sent the reply alone, under its own id and room and with
   * the room's peers, itself included; it is in that room and its socket finds it there.
   */
  lemma {:induction false} NewcomerIsWelcomed(run: seq<Event>, socket: SocketId, roomId: string, name: string, peer: PeerId)
    requires IsRun(run + [Join(socket, roomId, name, peer)])
    ensures var s, t := After(run), After(run + [Join(socket, roomId, name, peer)]);
            var peers := PeersIn(s.members, roomId)[peer := name];
            && LogOf(t.net, peer) == (if socket in s.net.closed then [] else [RoomJoined(roomId, peer, peers)])
            && PeersIn(t.members, roomId) == peers && peer !in PeersIn(s.members, roomId)
            && SessionInRoom(t.members, socket) == Success((peer, roomId))
  {
    var e := Join(socket, roomId, name, peer);
    assert (run + [e])[..|run|] == run;
    RunKeepsInv(run);
    EveryoneIsTold(run, e, peer);
    JoinKeepsMembers(After(run).members, roomId, name, socket, peer);
    hide MembersOk, AnnouncementsOk, RoutersOk, TasksOk, ExplicitOk, Broadcast;
  }

  /** A socket counts as closed exactly when the run closed it. */
  lemma {:induction false} ClosedSockets(run: seq<Event>, socket: SocketId)
    ensures socket in After(run).net.closed <==> SocketCloses(socket) in run
  {
    hide Apply;
    if run != [] {
      var before, e := run[..|run| - 1], run[|run| - 1];
      ClosedSockets(before, socket);
      ClosedStep(After(before), e);
      assert run == before + [e];
    }
  }

  lemma {:induction false} ClosedStep(s: State, e: Event)
    ensures Apply(s, e).net.closed == if e.SocketCloses? then s.net.closed + {e.socket} else s.net.closed
  {
    hide LeavePeer, JoinRoom, PeersIn, RoomOf, SessionInRoom, SessionOf, MediaOf, Broadcast, Send, DepartSegment;
    if e.Join? {
      JoinKeepsClosed(s, e);
    } else if e.Resume? {
      ResumeKeepsClosed(s.(tasks := s.tasks - multiset{e.task}), e.task, e.outcome);
      hide ResumeSegment;
    }
  }

  lemma {:induction false} JoinKeepsClosed(s: State, e: Event)
    requires e.Join?
    ensures Apply(s, e).net.closed == s.net.closed
  {
    hide JoinRoom, PeersIn, Audience;
  }

  lemma {:induction false} BroadcastKeepsClosed(m: Members, net: Net, roomId: string, message: Message, exclude: Option<PeerId>)
    ensures Broadcast(m, net, roomId, message, exclude).closed == net.closed
  {
  }

  lemma {:induction false} DepartKeepsClosed(s: State, peer: PeerId, roomId: string)
    ensures DepartSegment(s, peer, roomId).net.closed == s.net.closed
  {
    BroadcastKeepsClosed(LeavePeer(s.members, peer), s.net, roomId, PeerLeft(peer), None);
    hide LeavePeer, PeersIn, Broadcast;
  }

  lemma {:induction false} ResumeKeepsClosed(s: State, task: Task, outcome: Outcome)
    ensures ResumeSegment(s, task, outcome).net.closed == s.net.closed
  {
    hide LeavePeer, PeersIn, Audience, DepartSegment, RoomOf, MediaOf, LogOf;
    match task {
      case LeaveAfterMedia(peer, roomId) => DepartKeepsClosed(s, peer, roomId);
      case CloseAfterMedia(socket) =>
        if socket in s.members.bySocket {
          var peer := s.members.bySocket[socket];
          if RoomOf(s.members, peer).Some? { DepartKeepsClosed(s, peer, RoomOf(s.members, peer).value); }
        }
      case _ =>
    }
  }
}
