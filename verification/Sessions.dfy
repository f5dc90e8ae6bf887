/** When a session is live and which session a socket finds, told by the events of the run alone. */
module Sessions {
  import opened Common
  import opened Protocol
  import opened ProtocolProofs
  import opened ProtocolTheorems
  import opened MediaSessions

  predicate JoinsOn(e: Event, socket: SocketId) { e.Join? && e.socket == socket }

  predicate JoinsAs(e: Event, p: PeerId) { e.Join? && e.peer == p }

  /** The socket's last join in the run was that of p. */
  predicate LastJoined(run: seq<Event>, socket: SocketId, p: PeerId) {
    exists i | 0 <= i < |run| :: LastJoinAt(run, i, socket, p)
  }

  predicate LastJoinAt(run: seq<Event>, i: nat, socket: SocketId, p: PeerId)
    requires i < |run|
  {
    JoinsOn(run[i], socket) && run[i].peer == p && forall j | i < j < |run| :: !JoinsOn(run[j], socket)
  }

  lemma {:induction false} LastJoinStep(before: seq<Event>, e: Event, i: nat, socket: SocketId, p: PeerId)
    requires i <= |before|
    ensures LastJoinAt(before + [e], i, socket, p) <==>
            if i == |before| then JoinsOn(e, socket) && e.peer == p else LastJoinAt(before, i, socket, p) && !JoinsOn(e, socket)
  {
    var run := before + [e];
    assert run[|before|] == e && forall j | 0 <= j < |before| :: run[j] == before[j];
  }

  lemma {:induction false} LastJoinedStep(before: seq<Event>, e: Event, socket: SocketId, p: PeerId)
    ensures LastJoined(before + [e], socket, p) <==> if JoinsOn(e, socket) then e.peer == p else LastJoined(before, socket, p)
  {
    hide LastJoinAt;
    var run := before + [e];
    LastJoinStep(before, e, |before|, socket, p);
    if i :| 0 <= i < |run| && LastJoinAt(run, i, socket, p) {
      LastJoinStep(before, e, i, socket, p);
    }
    if i :| 0 <= i < |before| && LastJoinAt(before, i, socket, p) {
      LastJoinStep(before, e, i, socket, p);
    }
  }

  /** Only a join binds a socket. */
  lemma {:induction false} SocketStep(s: State, e: Event)
    requires Inv(s)
    ensures Apply(s, e).members.bySocket == if e.Join? then s.members.bySocket[e.socket := e.peer] else s.members.bySocket
  {
    if e.Resume? {
      ResumeKeepsSockets(s.(tasks := s.tasks - multiset{e.task}), e.task, e.outcome);
      hide Inv, MembersOk, ResumeSegment;
    } else if IsStart(e) {
      StartEffect(s, e);
      hide Inv, MembersOk, Apply;
    } else {
      hide Inv, MembersOk, Broadcast, Send;
    }
  }

  lemma {:induction false} ResumeKeepsSockets(s: State, task: Task, outcome: Outcome)
    requires MembersOk(s.members)
    ensures ResumeSegment(s, task, outcome).members.bySocket == s.members.bySocket
  {
    if task.LeaveAfterMedia? {
      LeaveEffect(s.members, task.peer);
    } else if task.CloseAfterMedia? && task.socket in s.members.bySocket {
      LeaveEffect(s.members, s.members.bySocket[task.socket]);
    }
    hide MembersOk, LeavePeer, PeersIn, Broadcast, Send, MediaOf, RoomOf;
  }

  lemma {:induction false} SocketIsLastJoin(run: seq<Event>, socket: SocketId, p: PeerId)
    requires IsRun(run)
    ensures socket in After(run).members.bySocket && After(run).members.bySocket[socket] == p <==> LastJoined(run, socket, p)
  {
    hide Apply, Inv, LastJoined;
    if run == [] {
      NobodyJoined(socket, p);
    } else {
      var before, e := run[..|run| - 1], run[|run| - 1];
      SocketIsLastJoin(before, socket, p);
      RunKeepsInv(before);
      SocketStep(After(before), e);
      LastJoinedStep(before, e, socket, p);
      assert before + [e] == run;
    }
  }

  lemma NobodyJoined(socket: SocketId, p: PeerId)
    ensures !LastJoined([], socket, p)
  {
  }

  // ----------------------------------------------------------------- being live

  /** A waiting leave of p resumes, or the waiting close handler of the socket that p joined on last. */
  ghost predicate Departs(before: seq<Event>, e: Event, p: PeerId) {
    && e.Resume?
    && (e.task.LeaveAfterMedia? ==> e.task.peer == p)
    && (e.task.CloseAfterMedia? ==> LastJoined(before, e.task.socket, p))
    && (e.task.LeaveAfterMedia? || e.task.CloseAfterMedia?)
  }

  /** p joined, and has not departed since. */
  ghost predicate JoinedAndStayed(run: seq<Event>, p: PeerId) {
    exists i | 0 <= i < |run| :: StayedSince(run, i, p)
  }

  ghost predicate StayedSince(run: seq<Event>, i: nat, p: PeerId)
    requires i < |run|
  {
    JoinsAs(run[i], p) && forall j | i < j < |run| :: !Departs(run[..j], run[j], p)
  }

  lemma {:induction false} StayedStep(before: seq<Event>, e: Event, i: nat, p: PeerId)
    requires i <= |before|
    ensures StayedSince(before + [e], i, p) <==>
            if i == |before| then JoinsAs(e, p) else StayedSince(before, i, p) && !Departs(before, e, p)
  {
    hide Departs;
    var run := before + [e];
    assert run[..|before|] == before && run[|before|] == e;
    forall j | 0 <= j < |before| ensures run[..j] == before[..j] && run[j] == before[j] {}
  }

  lemma {:induction false} JoinedStep(before: seq<Event>, e: Event, p: PeerId)
    ensures JoinedAndStayed(before + [e], p) <==> JoinsAs(e, p) || (JoinedAndStayed(before, p) && !Departs(before, e, p))
  {
    hide StayedSince;
    var run := before + [e];
    StayedStep(before, e, |before|, p);
    if i :| 0 <= i < |run| && StayedSince(run, i, p) {
      StayedStep(before, e, i, p);
    }
    if i :| 0 <= i < |before| && StayedSince(before, i, p) {
      StayedStep(before, e, i, p);
    }
  }

  lemma {:induction false} LiveStep(before: seq<Event>, e: Event, p: PeerId)
    requires IsRun(before) && Enabled(After(before), e)
    ensures p in Apply(After(before), e).members.live <==> JoinsAs(e, p) || (p in After(before).members.live && !Departs(before, e, p))
  {
    var s := After(before);
    RunKeepsInv(before);
    if e.Resume? {
      if e.task.CloseAfterMedia? { SocketIsLastJoin(before, e.task.socket, p); }
      ResumeLive(s.(tasks := s.tasks - multiset{e.task}), e.task, e.outcome, p);
      hide Inv, MembersOk, ResumeSegment, After, LastJoined;
    } else if IsStart(e) {
      StartEffect(s, e);
      hide Inv, Apply, After, LastJoined;
    } else {
      hide Inv, Broadcast, Send, After, LastJoined;
    }
  }

  lemma {:induction false} ResumeLive(s: State, task: Task, outcome: Outcome, p: PeerId)
    requires MembersOk(s.members)
    ensures p in ResumeSegment(s, task, outcome).members.live <==>
            p in s.members.live && !(task.LeaveAfterMedia? && task.peer == p) &&
            !(task.CloseAfterMedia? && task.socket in s.members.bySocket && s.members.bySocket[task.socket] == p)
  {
    if task.LeaveAfterMedia? {
      LeaveEffect(s.members, task.peer);
    } else if task.CloseAfterMedia? && task.socket in s.members.bySocket {
      LeaveEffect(s.members, s.members.bySocket[task.socket]);
    }
    hide MembersOk, LeavePeer, PeersIn, Broadcast, Send, MediaOf, RoomOf;
  }

  /** In every run a session is live exactly when it joined and did not depart since. */
  lemma {:induction false} LiveUntilDeparture(run: seq<Event>, p: PeerId)
    requires IsRun(run)
    ensures p in After(run).members.live <==> JoinedAndStayed(run, p)
  {
    hide Apply, Enabled, JoinedAndStayed, Departs;
    if run == [] {
      NobodyStayed(p);
    } else {
      var before, e := run[..|run| - 1], run[|run| - 1];
      LiveUntilDeparture(before, p);
      LiveStep(before, e, p);
      JoinedStep(before, e, p);
      assert before + [e] == run;
    }
  }

  lemma NobodyStayed(p: PeerId)
    ensures !JoinedAndStayed([], p)
  {
  }

  /** A handler's lookup finds the session of the socket's last join while it is live, with its room, and otherwise no peer. */
  lemma {:induction false} LookupFindsLastJoin(run: seq<Event>, socket: SocketId)
    requires IsRun(run)
    ensures forall p, roomId :: SessionInRoom(After(run).members, socket) == Success((p, roomId)) <==>
              LastJoined(run, socket, p) && JoinedAndStayed(run, p) && p in PeersIn(After(run).members, roomId)
    ensures SessionInRoom(After(run).members, socket).Failure? ==> SessionInRoom(After(run).members, socket) == Failure(PeerNotFound)
  {
    var m := After(run).members;
    RunKeepsInv(run);
    InvMembers(After(run));
    forall p, roomId ensures SessionInRoom(m, socket) == Success((p, roomId)) <==>
                             LastJoined(run, socket, p) && JoinedAndStayed(run, p) && p in PeersIn(m, roomId) {
      SocketIsLastJoin(run, socket, p);
      LiveUntilDeparture(run, p);
      LookupInState(m, socket, p, roomId);
    }
    LookupFindsRoom(m, socket);
    hide Inv, MembersOk, After, LastJoined, JoinedAndStayed;
  }

  lemma {:induction false} LookupInState(m: Members, socket: SocketId, p: PeerId, roomId: string)
    requires MembersOk(m)
    ensures SessionInRoom(m, socket) == Success((p, roomId)) <==>
            socket in m.bySocket && m.bySocket[socket] == p && p in m.live && p in PeersIn(m, roomId)
  {
  }
}
