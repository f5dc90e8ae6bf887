/**
 * What becomes of clients' requests over whole runs: which transports, producers and
 * consumers a session holds, and that no waiting handler is lost or resumed twice.
 */
module MediaSessions {
  import opened Common
  import opened Protocol
  import opened ProtocolProofs
  import opened ProtocolTheorems

  // ------------------------------------------------------- what a session holds

  datatype MediaPart = TransportPart | ProducerPart | ConsumerPart

  function PartOf(media: Media, part: MediaPart): set<int> {
    match part
    case TransportPart => media.transports
    case ProducerPart => media.producers
    case ConsumerPart => media.consumers
  }

  /** The foreign call for such a medium of p ended with this id. */
  ghost predicate Completes(e: Event, part: MediaPart, p: PeerId, id: int) {
    e.Resume? && e.outcome == Completed(id) &&
    match part
    case TransportPart => e.task == AwaitTransport(p)
    case ProducerPart => e.task.AwaitProducer? && e.task.peer == p
    case ConsumerPart => e.task == AwaitConsumer(p)
  }

  /** A leave or the close handler starts for p, and closes its media. */
  ghost predicate ClosesMediaOf(s: State, e: Event, p: PeerId) {
    (e.Leave? || e.Close?) && SessionOf(s.members, e.socket) == Success(p)
  }

  /** The medium was completed for p at some point of the run, and p's media were not closed since. */
  ghost predicate CompletedAndNotClosed(run: seq<Event>, part: MediaPart, p: PeerId, id: int) {
    exists i | 0 <= i < |run| :: Completes(run[i], part, p, id) && NotClosedFrom(run, i + 1, p)
  }

  ghost predicate NotClosedFrom(run: seq<Event>, from: int, p: PeerId)
    requires 0 <= from
  {
    forall j | from <= j < |run| :: !ClosesMediaOf(After(run[..j]), run[j], p)
  }

  lemma {:induction false} StartMedia(s: State, e: Event, p: PeerId)
    requires MembersOk(s.members) && IsStart(e)
    ensures MediaOf(Apply(s, e), p) == if ClosesMediaOf(s, e, p) then NoMedia else MediaOf(s, p)
  {
    LookupFindsRoom(s.members, e.socket);
    hide MembersOk;
  }

  lemma {:induction false} ResumeMedia(s: State, e: Event, part: MediaPart, p: PeerId, id: int)
    requires e.Resume?
    ensures id in PartOf(MediaOf(Apply(s, e), p), part) <==> Completes(e, part, p, id) || id in PartOf(MediaOf(s, p), part)
  {
    hide Broadcast, Send, LeavePeer, PeersIn, SessionOf, RoomOf;
  }

  lemma {:induction false} MediaStep(s: State, e: Event, part: MediaPart, p: PeerId, id: int)
    requires Inv(s) && Enabled(s, e)
    requires p !in s.members.table ==> MediaOf(s, p) == NoMedia
    ensures id in PartOf(MediaOf(Apply(s, e), p), part) <==>
            Completes(e, part, p, id) || (id in PartOf(MediaOf(s, p), part) && !ClosesMediaOf(s, e, p))
  {
    if e.Resume? {
      ResumeMedia(s, e, part, p, id);
      hide Apply, Inv;
    } else if IsStart(e) {
      StartMedia(s, e, p);
      hide Apply, Inv, ClosesMediaOf;
    } else {
      hide Inv, Broadcast, Send;
    }
  }

  lemma {:induction false} ResumeKeepsSessions(s: State, task: Task, outcome: Outcome)
    requires MembersOk(s.members)
    ensures ResumeSegment(s, task, outcome).members.table.Keys == s.members.table.Keys
  {
    if task.LeaveAfterMedia? {
      LeaveEffect(s.members, task.peer);
    } else if task.CloseAfterMedia? && task.socket in s.members.bySocket {
      LeaveEffect(s.members, s.members.bySocket[task.socket]);
    }
    hide MembersOk, LeavePeer, PeersIn, Broadcast, Send, MediaOf, RoomOf;
  }

  lemma {:induction false} SessionsStay(s: State, e: Event)
    requires Inv(s)
    ensures s.members.table.Keys <= Apply(s, e).members.table.Keys
  {
    if e.Resume? {
      ResumeKeepsSessions(s.(tasks := s.tasks - multiset{e.task}), e.task, e.outcome);
      hide Inv, MembersOk, ResumeSegment;
    } else {
      hide Inv, MembersOk, Broadcast, Send, MediaOf, ResumeSegment;
    }
  }

  /** Only a session that exists ever held media. */
  lemma {:induction false} UnknownHoldNothing(run: seq<Event>, p: PeerId)
    requires IsRun(run) && p !in After(run).members.table
    ensures MediaOf(After(run), p) == NoMedia
  {
    if run != [] {
      var before, e := run[..|run| - 1], run[|run| - 1];
      RunKeepsInv(before);
      SessionsStay(After(before), e);
      UnknownHoldNothing(before, p);
      forall part, id ensures id !in PartOf(MediaOf(After(run), p), part) {
        MediaStep(After(before), e, part, p, id);
        assert e.Resume? ==> TaskOk(After(before).members, e.task);
        hide Apply, Inv;
      }
      var media := MediaOf(After(run), p);
      assert PartOf(media, TransportPart) == {} && PartOf(media, ProducerPart) == {} && PartOf(media, ConsumerPart) == {};
      hide Apply, Inv;
    }
  }

  lemma {:induction false} NotClosedStep(before: seq<Event>, e: Event, from: nat, p: PeerId)
    requires from <= |before|
    ensures NotClosedFrom(before + [e], from, p) <==> NotClosedFrom(before, from, p) && !ClosesMediaOf(After(before), e, p)
  {
    hide ClosesMediaOf, After;
    var run := before + [e];
    assert run[..|before|] == before && run[|before|] == e;
    forall j | 0 <= j < |before| ensures run[..j] == before[..j] && run[j] == before[j] {}
  }

  lemma {:induction false} CompletedStep(before: seq<Event>, e: Event, part: MediaPart, p: PeerId, id: int)
    ensures CompletedAndNotClosed(before + [e], part, p, id) <==>
            Completes(e, part, p, id) || (CompletedAndNotClosed(before, part, p, id) && !ClosesMediaOf(After(before), e, p))
  {
    var run := before + [e];
    hide Completes, ClosesMediaOf, After, NotClosedFrom;
    if Completes(e, part, p, id) {
      NotClosedAtEnd(run, p);
      assert run[|before|] == e;
    }
    if CompletedAndNotClosed(before, part, p, id) && !ClosesMediaOf(After(before), e, p) {
      var i :| 0 <= i < |before| && Completes(before[i], part, p, id) && NotClosedFrom(before, i + 1, p);
      NotClosedStep(before, e, i + 1, p);
      assert run[i] == before[i];
    }
    if i :| 0 <= i < |run| && Completes(run[i], part, p, id) && NotClosedFrom(run, i + 1, p) {
      if i < |before| {
        NotClosedStep(before, e, i + 1, p);
        assert before[i] == run[i];
      }
    }
  }

  lemma NotClosedAtEnd(run: seq<Event>, p: PeerId)
    ensures NotClosedFrom(run, |run|, p)
  {
  }

  /**
   * In every run a session holds a transport, producer or consumer exactly when the call
   * that makes it completed with that id for this session, and no leave or close handler of
   * the session started since.
   */
  lemma {:induction false} HoldsExactlyCompleted(run: seq<Event>, part: MediaPart, p: PeerId, id: int)
    requires IsRun(run)
    ensures id in PartOf(MediaOf(After(run), p), part) <==> CompletedAndNotClosed(run, part, p, id)
  {
    hide Completes, CompletedAndNotClosed, ClosesMediaOf, Inv, Apply, PartOf, MediaOf;
    if run == [] {
      NothingHeld(part, p, id);
    } else {
      var before, e := run[..|run| - 1], run[|run| - 1];
      HoldsExactlyCompleted(before, part, p, id);
      RunKeepsInv(before);
      if p !in After(before).members.table { UnknownHoldNothing(before, p); }
      MediaStep(After(before), e, part, p, id);
      CompletedStep(before, e, part, p, id);
      assert before + [e] == run;
    }
  }

  lemma NothingHeld(part: MediaPart, p: PeerId, id: int)
    ensures id !in PartOf(MediaOf(After([]), p), part) && !CompletedAndNotClosed([], part, p, id)
  {
  }

  /**
   * A produce request waits for its producer exactly when its socket's session was given that
   * transport and its media were not closed since; otherwise nothing changes but the clock.
   */
  lemma {:induction false} ProduceWaitsExactlyWhen(run: seq<Event>, socket: SocketId, transportId: int, kind: MediaKind)
    requires IsRun(run + [Produce(socket, transportId, kind)])
    ensures var s, t := After(run), After(run + [Produce(socket, transportId, kind)]);
            var found := SessionOf(s.members, socket);
            t == s.(clock := s.clock + 1,
            tasks := if found.Success? && CompletedAndNotClosed(run, TransportPart, found.value, transportId)
                     then s.tasks + multiset{AwaitProducer(found.value, kind)} else s.tasks)
  {
    var e := Produce(socket, transportId, kind);
    assert (run + [e])[..|run|] == run;
    RunKeepsInv(run);
    LookupFindsRoom(After(run).members, socket);
    var found := SessionOf(After(run).members, socket);
    if found.Success? { HoldsExactlyCompleted(run, TransportPart, found.value, transportId); }
    hide Inv, CompletedAndNotClosed, SessionOf;
  }

  /** Likewise for a consume request, which also needs a router for the room and its consent. */
  lemma {:induction false} ConsumeWaitsExactlyWhen(run: seq<Event>, socket: SocketId, transportId: int, accepted: bool)
    requires IsRun(run + [Consume(socket, transportId, accepted)])
    ensures var s, t := After(run), After(run + [Consume(socket, transportId, accepted)]);
            var found := SessionInRoom(s.members, socket);
            t == s.(clock := s.clock + 1,
            tasks := if found.Success? && found.value.1 in s.routers.mapped && accepted &&
                        CompletedAndNotClosed(run, TransportPart, found.value.0, transportId)
                     then s.tasks + multiset{AwaitConsumer(found.value.0)} else s.tasks)
  {
    var e := Consume(socket, transportId, accepted);
    assert (run + [e])[..|run|] == run;
    RunKeepsInv(run);
    var found := SessionInRoom(After(run).members, socket);
    if found.Success? { HoldsExactlyCompleted(run, TransportPart, found.value.0, transportId); }
    hide Inv, CompletedAndNotClosed, SessionInRoom;
  }

  // ---------------------------------------------------- handlers are never lost

  /** The waiting handlers that an event leaves behind. */
  ghost function Parks(s: State, e: Event): multiset<Task> {
    match e
    case Leave(socket) =>
      if SessionInRoom(s.members, socket).Success?
      then multiset{LeaveAfterMedia(SessionInRoom(s.members, socket).value.0, SessionInRoom(s.members, socket).value.1)}
      else multiset{}
    case Close(socket) => if SessionOf(s.members, socket).Success? then multiset{CloseAfterMedia(socket)} else multiset{}
    case NeedRouter(socket, purpose) =>
      if SessionInRoom(s.members, socket).Success?
      then RouterWait(s, SessionInRoom(s.members, socket).value.0, SessionInRoom(s.members, socket).value.1, purpose)
      else multiset{}
    case Produce(socket, transportId, kind) =>
      if SessionInRoom(s.members, socket).Success? &&
         transportId in MediaOf(s, SessionInRoom(s.members, socket).value.0).transports
      then multiset{AwaitProducer(SessionInRoom(s.members, socket).value.0, kind)} else multiset{}
    case Consume(socket, transportId, accepted) =>
      if SessionInRoom(s.members, socket).Success? && accepted &&
         SessionInRoom(s.members, socket).value.1 in s.routers.mapped &&
         transportId in MediaOf(s, SessionInRoom(s.members, socket).value.0).transports
      then multiset{AwaitConsumer(SessionInRoom(s.members, socket).value.0)} else multiset{}
    case Resume(LeaveAfterMedia(peer, roomId), _) => AnnounceWait(s, peer, roomId)
    case Resume(CloseAfterMedia(socket), _) =>
      if SessionInRoom(s.members, socket).Success?
      then AnnounceWait(s, SessionInRoom(s.members, socket).value.0, SessionInRoom(s.members, socket).value.1)
      else multiset{}
    case Resume(AwaitRouter(peer, _, Transport, _), Completed(_)) => multiset{AwaitTransport(peer)}
    case Resume(AwaitProducer(peer, kind), Completed(id)) => multiset{AnnounceProducer(peer, id, kind)}
    case _ => multiset{}
  }

  /** A mapped router is at hand for a transport; otherwise one is created first. */
  ghost function RouterWait(s: State, peer: PeerId, roomId: string, purpose: Purpose): multiset<Task> {
    if roomId !in s.routers.mapped then multiset{AwaitRouter(peer, roomId, purpose, s.clock)}
    else if purpose == Transport then multiset{AwaitTransport(peer)}
    else multiset{}
  }

  /** The announcement waits for the router only when nobody else is in the room. */
  ghost function AnnounceWait(s: State, peer: PeerId, roomId: string): multiset<Task> {
    if PeersIn(s.members, roomId).Keys <= {peer} then multiset{AnnounceLeft(peer, roomId)} else multiset{}
  }

  lemma {:induction false} DepartWaits(s: State, peer: PeerId, roomId: string)
    requires MembersOk(s.members)
    ensures DepartSegment(s, peer, roomId).tasks == s.tasks + AnnounceWait(s, peer, roomId)
  {
    LeaveEffect(s.members, peer);
    var m := LeavePeer(s.members, peer);
    assert PeersIn(m, roomId) == PeersIn(s.members, roomId) - {peer};
    assert PeersIn(m, roomId) == map[] <==> PeersIn(s.members, roomId).Keys <= {peer} by {
      if PeersIn(m, roomId) == map[] {
        forall q | q in PeersIn(s.members, roomId) ensures q == peer { assert q != peer ==> q in PeersIn(m, roomId); }
      }
    }
    hide MembersOk, LeavePeer, PeersIn, Broadcast;
  }

  lemma {:induction false} StartWaits(s: State, e: Event)
    requires !e.Resume?
    ensures Apply(s, e).tasks == s.tasks + Parks(s, e)
  {
    hide SessionOf, SessionInRoom, Broadcast, Send;
  }

  lemma {:induction false} CloseWaits(s: State, socket: SocketId, outcome: Outcome)
    requires MembersOk(s.members)
    ensures CloseAfterMediaSegment(s, socket).tasks == s.tasks + Parks(s, Resume(CloseAfterMedia(socket), outcome))
  {
    if SessionInRoom(s.members, socket).Success? {
      var found := SessionInRoom(s.members, socket).value;
      DepartWaits(s, found.0, found.1);
    }
    hide MembersOk, DepartSegment, LeavePeer, AnnounceWait;
  }

  lemma {:induction false} QuietWaits(s: State, e: Event)
    requires e.Resume? && !e.task.LeaveAfterMedia? && !e.task.CloseAfterMedia?
    ensures ResumeSegment(s, e.task, e.outcome).tasks == s.tasks + Parks(s, e)
  {
    hide Broadcast, Send;
  }

  lemma {:induction false} ResumeWaits(s: State, e: Event)
    requires MembersOk(s.members) && e.Resume? && e.task in s.tasks
    ensures Apply(s, e).tasks + multiset{e.task} == s.tasks + Parks(s, e)
  {
    var u := s.(tasks := s.tasks - multiset{e.task});
    assert Parks(u, e) == Parks(s, e);
    assert u.tasks + multiset{e.task} == s.tasks;
    hide MembersOk, Parks, DepartSegment, CloseAfterMediaSegment, AnnounceProducerSegment, RouterSegment;
    match e.task {
      case LeaveAfterMedia(peer, roomId) =>
        DepartWaits(u, peer, roomId);
        LeaveParksAnnounce(u, peer, roomId, e.outcome);
      case CloseAfterMedia(socket) => CloseWaits(u, socket, e.outcome);
      case _ => QuietWaits(u, e);
    }
  }

  lemma LeaveParksAnnounce(s: State, peer: PeerId, roomId: string, outcome: Outcome)
    ensures Parks(s, Resume(LeaveAfterMedia(peer, roomId), outcome)) == AnnounceWait(s, peer, roomId)
  {
  }

  ghost function Resumes(e: Event): multiset<Task> { if e.Resume? then multiset{e.task} else multiset{} }

  /** All waiting handlers that a run left behind, and all that it resumed. */
  ghost function AllParked(run: seq<Event>): multiset<Task> {
    if run == [] then multiset{} else AllParked(run[..|run| - 1]) + Parks(After(run[..|run| - 1]), run[|run| - 1])
  }

  ghost function AllResumed(run: seq<Event>): multiset<Task> {
    if run == [] then multiset{} else AllResumed(run[..|run| - 1]) + Resumes(run[|run| - 1])
  }

  /** In every run the handlers left waiting are those resumed, each once, and those that wait now. */
  lemma {:induction false} HandlersAreConserved(run: seq<Event>)
    requires IsRun(run)
    ensures AllParked(run) == AllResumed(run) + After(run).tasks
  {
    hide Inv, Parks, Apply;
    if run != [] {
      var before, e := run[..|run| - 1], run[|run| - 1];
      HandlersAreConserved(before);
      RunKeepsInv(before);
      InvMembers(After(before));
      if e.Resume? { ResumeWaits(After(before), e); } else { StartWaits(After(before), e); }
      Balance(AllParked(before), AllResumed(before), After(before).tasks, After(run).tasks, Resumes(e), Parks(After(before), e));
    }
  }

  lemma Balance(parked: multiset<Task>, resumed: multiset<Task>, waiting: multiset<Task>, now: multiset<Task>,
                taken: multiset<Task>, added: multiset<Task>)
    requires parked == resumed + waiting && now + taken == waiting + added
    ensures parked + added == (resumed + taken) + now
  {
    assert parked + added == resumed + (waiting + added);
    assert (resumed + taken) + now == resumed + (now + taken);
  }

  lemma InvMembers(s: State)
    requires Inv(s)
    ensures MembersOk(s.members)
  {
  }
}
