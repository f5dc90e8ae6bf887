/**
 * Sessions that can never leave: a socket that joins again is remembered with its newest
 * session only, so neither a leave nor the close handler finds the older one any more.
 */
module Stranding {
  import opened Common
  import opened Protocol
  import opened ProtocolProofs
  import opened ProtocolTheorems

  /** The peer is the one its own socket is remembered with. */
  ghost predicate IsNewest(m: Members, p: PeerId) {
    p in m.table && m.table[p].socket in m.bySocket && m.bySocket[m.table[p].socket] == p
  }

  /** A leave that already looked the peer up is still waiting. */
  ghost predicate LeavePending(s: State, p: PeerId) { exists r :: LeaveAfterMedia(p, r) in s.tasks }

  /** A live session that nothing will ever make leave. */
  ghost predicate Stranded(s: State, p: PeerId) {
    p in s.members.live && !IsNewest(s.members, p) && !LeavePending(s, p)
  }

  /** A socket's lookup finds only a session that is the newest of that socket. */
  lemma {:induction false} FoundIsNewest(m: Members, socket: SocketId, p: PeerId)
    requires MembersOk(m) && socket in m.bySocket && m.bySocket[socket] == p
    ensures IsNewest(m, p) && m.table[p].socket == socket
  {
  }

  // -------------------------------------------------------------- one more step

  lemma {:induction false} JoinStrands(s: State, e: Event, p: PeerId)
    requires MembersOk(s.members) && Enabled(s, e) && e.Join?
    ensures Stranded(Apply(s, e), p) <==>
            Stranded(s, p) ||
            (p in s.members.live && s.members.table[p].socket == e.socket && !LeavePending(s, p))
  {
    var t := Apply(s, e);
    assert t.tasks == s.tasks && t.members == JoinRoom(s.members, e.roomId, e.displayName, e.socket, e.peer);
    hide Apply;
    assert LeavePending(t, p) <==> LeavePending(s, p);
    hide LeavePending;
    if p in s.members.live && s.members.table[p].socket == e.socket {
      assert !IsNewest(t.members, p);
    }
  }

  /** A handler that starts parks a leave only for the newest session of its socket. */
  lemma {:induction false} StartStrandsNothing(s: State, e: Event, p: PeerId)
    requires MembersOk(s.members) && IsStart(e) && p in s.members.live
    ensures Apply(s, e).members == s.members
    ensures LeavePending(s, p) ==> LeavePending(Apply(s, e), p)
    ensures LeavePending(Apply(s, e), p) ==> LeavePending(s, p) || IsNewest(s.members, p)
  {
    StartEffect(s, e);
    var t := Apply(s, e);
    if LeavePending(s, p) {
      var r :| LeaveAfterMedia(p, r) in s.tasks;
      StartKeepsTasks(s, e, LeaveAfterMedia(p, r));
    }
    if LeavePending(t, p) && !LeavePending(s, p) {
      var r :| LeaveAfterMedia(p, r) in t.tasks;
      LeaveParkedForFound(s, e, p, r);
      FoundIsNewest(s.members, e.socket, p);
    }
    hide MembersOk, IsNewest, LeavePending;
  }

  lemma {:induction false} StartKeepsTasks(s: State, e: Event, task: Task)
    requires IsStart(e) && task in s.tasks
    ensures task in Apply(s, e).tasks
  {
    hide SessionOf, SessionInRoom, MediaOf;
  }

  lemma {:induction false} LeaveParkedForFound(s: State, e: Event, p: PeerId, r: string)
    requires IsStart(e) && LeaveAfterMedia(p, r) in Apply(s, e).tasks && LeaveAfterMedia(p, r) !in s.tasks
    ensures e.socket in s.members.bySocket && s.members.bySocket[e.socket] == p
  {
    hide MediaOf;
  }

  /** A departure makes its own peer leave and touches no other session. */
  lemma {:induction false} DepartureStrandsNothing(s: State, peer: PeerId, roomId: string, p: PeerId)
    requires MembersOk(s.members)
    ensures var t := Tick(DepartSegment(s, peer, roomId));
            && t.members == LeavePeer(s.members, peer)
            && t.members.live == s.members.live - {peer}
            && (p != peer ==> (IsNewest(t.members, p) <==> IsNewest(s.members, p)))
            && (LeavePending(t, p) <==> LeavePending(s, p))
  {
    LeaveEffect(s.members, peer);
    var t := Tick(DepartSegment(s, peer, roomId));
    hide MembersOk, LeavePeer, Broadcast, PeersIn;
    assert forall r :: LeaveAfterMedia(p, r) in t.tasks <==> LeaveAfterMedia(p, r) in s.tasks;
  }

  lemma {:induction false} TakenTask(s: State, task: Task, p: PeerId)
    ensures var u := s.(tasks := s.tasks - multiset{task});
            && (LeavePending(u, p) ==> LeavePending(s, p))
            && (!(task.LeaveAfterMedia? && task.peer == p) ==> (LeavePending(u, p) <==> LeavePending(s, p)))
  {
    var u := s.(tasks := s.tasks - multiset{task});
    if LeavePending(u, p) {
      var r :| LeaveAfterMedia(p, r) in u.tasks;
      assert LeaveAfterMedia(p, r) in s.tasks;
    }
    if LeavePending(s, p) && !(task.LeaveAfterMedia? && task.peer == p) {
      var r :| LeaveAfterMedia(p, r) in s.tasks;
      assert LeaveAfterMedia(p, r) in u.tasks;
    }
  }

  /** The remaining continuations change no session and park no leave. */
  lemma {:induction false} QuietResume(s: State, task: Task, outcome: Outcome, p: PeerId)
    requires !task.LeaveAfterMedia? && !task.CloseAfterMedia?
    ensures Tick(ResumeSegment(s, task, outcome)).members == s.members
    ensures LeavePending(Tick(ResumeSegment(s, task, outcome)), p) <==> LeavePending(s, p)
  {
    hide Broadcast, Send, MediaOf;
    var t := Tick(ResumeSegment(s, task, outcome));
    assert forall r :: LeaveAfterMedia(p, r) in t.tasks <==> LeaveAfterMedia(p, r) in s.tasks;
  }

  lemma {:induction false} ResumeStrandsNothing(s: State, e: Event, p: PeerId)
    requires MembersOk(s.members) && e.Resume? && p in s.members.live
    ensures Stranded(s, p) ==> Stranded(Apply(s, e), p) || (e.task.LeaveAfterMedia? && e.task.peer == p)
    ensures Stranded(Apply(s, e), p) ==> Stranded(s, p)
  {
    var u := s.(tasks := s.tasks - multiset{e.task});
    TakenTask(s, e.task, p);
    hide LeavePending, IsNewest, DepartSegment, Tick, MembersOk;
    match e.task {
      case LeaveAfterMedia(peer, roomId) => DepartureStrandsNothing(u, peer, roomId, p);
      case CloseAfterMedia(socket) => CloseStrandsNothing(s, u, socket, p);
      case _ => QuietResume(u, e.task, e.outcome, p);
    }
  }

  lemma {:induction false} CloseStrandsNothing(s: State, u: State, socket: SocketId, p: PeerId)
    requires MembersOk(s.members) && u.members == s.members && (LeavePending(u, p) <==> LeavePending(s, p)) && p in s.members.live
    ensures Stranded(Tick(CloseAfterMediaSegment(u, socket)), p) <==> Stranded(s, p)
  {
    if socket in s.members.bySocket {
      var peer := s.members.bySocket[socket];
      FoundIsNewest(s.members, socket, peer);
      if peer in s.members.live {
        var roomId := RoomOf(s.members, peer).value;
        DepartureStrandsNothing(u, peer, roomId, p);
        hide MembersOk, IsNewest, LeavePending, DepartSegment;
      } else {
        assert LeavePeer(s.members, peer) == s.members;
        SameStranding(s, Tick(CloseAfterMediaSegment(u, socket)), u, p);
      }
    } else {
      SameStranding(s, Tick(CloseAfterMediaSegment(u, socket)), u, p);
    }
  }

  lemma {:induction false} SameStranding(s: State, t: State, u: State, p: PeerId)
    requires t.members == s.members && t.tasks == u.tasks && (LeavePending(u, p) <==> LeavePending(s, p))
    ensures Stranded(t, p) <==> Stranded(s, p)
  {
  }

  lemma {:induction false} PlainStep(s: State, e: Event, p: PeerId)
    requires e.SocketCloses? || e.HttpCreateRoom?
    ensures Stranded(Apply(s, e), p) <==> Stranded(s, p)
  {
    var t := Apply(s, e);
    assert forall r :: LeaveAfterMedia(p, r) in t.tasks <==> LeaveAfterMedia(p, r) in s.tasks;
  }

  /** What a continuation does to the sessions: none becomes live, and no socket is remembered differently. */
  lemma {:induction false} ResumeMembers(s: State, e: Event)
    requires MembersOk(s.members) && e.Resume?
    ensures var m := Apply(s, e).members; m.live <= s.members.live && m.bySocket == s.members.bySocket
    ensures e.task.CloseAfterMedia? && e.task.socket in s.members.bySocket ==>
              s.members.bySocket[e.task.socket] !in Apply(s, e).members.live
  {
    var u := s.(tasks := s.tasks - multiset{e.task});
    hide DepartSegment, Tick, MembersOk;
    match e.task {
      case LeaveAfterMedia(peer, roomId) =>
        LeaveEffect(s.members, peer);
        DepartureStrandsNothing(u, peer, roomId, peer);
      case CloseAfterMedia(socket) =>
        if socket in s.members.bySocket {
          var peer := s.members.bySocket[socket];
          LeaveEffect(s.members, peer);
          LiveIsInRoom(s.members, peer);
          if peer in s.members.live { DepartureStrandsNothing(u, peer, RoomOf(s.members, peer).value, peer); }
        }
      case _ => QuietResume(u, e.task, e.outcome, 0);
    }
    hide LeavePeer;
  }

  lemma {:induction false} LiveIsInRoom(m: Members, p: PeerId)
    requires MembersOk(m)
    ensures p in m.live ==> RoomOf(m, p).Some?
  {
  }

  /** Only a join makes a session live. */
  lemma {:induction false} LiveOnlyByJoin(s: State, e: Event, p: PeerId)
    requires MembersOk(s.members) && p !in s.members.live && !e.Join?
    ensures p !in Apply(s, e).members.live
  {
    if e.Resume? {
      ResumeMembers(s, e);
      hide Apply;
    } else if IsStart(e) {
      StartEffect(s, e);
    }
    hide MembersOk, SessionInRoom, SessionOf, ResumeSegment;
  }

  /**
   * A session becomes stranded exactly when its socket joins again while the session is the
   * socket's newest and no leave of it is waiting.
   */
  lemma {:induction false} StrandsExactlyWhen(s: State, e: Event, p: PeerId)
    requires Inv(s) && Enabled(s, e)
    ensures !Stranded(s, p) && Stranded(Apply(s, e), p) <==>
            e.Join? && p in s.members.live && s.members.table[p].socket == e.socket && IsNewest(s.members, p) && !LeavePending(s, p)
    ensures Stranded(s, p) ==> Stranded(Apply(s, e), p)
  {
    if e.Join? {
      JoinStrands(s, e, p);
      hide Apply, LeavePending, Inv, MembersOk;
    } else if p !in s.members.live {
      LiveOnlyByJoin(s, e, p);
      hide Apply, LeavePending, Inv, MembersOk;
    } else if e.Resume? {
      ResumeStrandsNothing(s, e, p);
      hide Apply, Inv, MembersOk;
    } else if IsStart(e) {
      StartStrandsNothing(s, e, p);
      hide Apply, LeavePending, Inv, MembersOk;
    } else {
      PlainStep(s, e, p);
      hide Apply, LeavePending, Inv, MembersOk;
    }
  }

  // ------------------------------------------------------------------- forever

  lemma {:induction false} StrandedForever(run: seq<Event>, more: seq<Event>, p: PeerId)
    requires IsRun(run + more) && Stranded(After(run), p)
    ensures Stranded(After(run + more), p)
  {
    hide Stranded, Apply, Inv;
    if more == [] {
      assert run + more == run;
    } else {
      var n := |more| - 1;
      assert (run + more)[..|run + more| - 1] == run + more[..n];
      StrandedForever(run, more[..n], p);
      RunKeepsInv(run + more[..n]);
      StrandsExactlyWhen(After(run + more[..n]), more[n], p);
    }
  }

  /** A waiting leave can resume at once. */
  lemma {:induction false} PendingCanLeave(run: seq<Event>, p: PeerId) returns (more: seq<Event>)
    requires IsRun(run) && LeavePending(After(run), p)
    ensures IsRun(run + more) && p !in After(run + more).members.live
  {
    hide IsRun, After;
    var s := After(run);
    RunKeepsInv(run);
    var r :| LeaveAfterMedia(p, r) in s.tasks;
    var e := Resume(LeaveAfterMedia(p, r), Rejected);
    RunStep(run, e);
    DepartureStrandsNothing(s.(tasks := s.tasks - multiset{LeaveAfterMedia(p, r)}), p, r, p);
    hide Inv, DepartSegment, Tick;
    more := [e];
  }

  /** The newest session of a socket can be asked to leave. */
  lemma {:induction false} NewestCanStartLeaving(run: seq<Event>, p: PeerId) returns (e: Event)
    requires IsRun(run) && p in After(run).members.live && IsNewest(After(run).members, p)
    ensures IsRun(run + [e]) && LeavePending(After(run + [e]), p)
  {
    hide IsRun, After;
    var s := After(run);
    RunKeepsInv(run);
    var socket := s.members.table[p].socket;
    e := Leave(socket);
    RunStep(run, e);
    LookupFindsRoom(s.members, socket);
    LeaveParks(s, socket, p, s.members.table[p].roomId.value);
    hide Inv, Apply;
    assert LeaveAfterMedia(p, s.members.table[p].roomId.value) in After(run + [e]).tasks;
  }

  /**
   * In every reachable state, a live session can still leave in some continuation exactly when
   * it is the newest of its socket or a leave of it is waiting. Otherwise it stays live in all.
   */
  lemma {:induction false} CanLeaveExactlyWhen(run: seq<Event>, p: PeerId)
    requires IsRun(run) && p in After(run).members.live
    ensures (exists more: seq<Event> :: IsRun(run + more) && p !in After(run + more).members.live) <==>
            IsNewest(After(run).members, p) || LeavePending(After(run), p)
  {
    hide IsRun, After, LeavePending, IsNewest, Inv;
    if more: seq<Event> :| IsRun(run + more) && p !in After(run + more).members.live {
      if !IsNewest(After(run).members, p) && !LeavePending(After(run), p) {
        StrandedForever(run, more, p);
        assert false;
      }
    }
    if LeavePending(After(run), p) {
      var more := PendingCanLeave(run, p);
    } else if IsNewest(After(run).members, p) {
      var e := NewestCanStartLeaving(run, p);
      var more := PendingCanLeave(run + [e], p);
      assert run + [e] + more == run + ([e] + more);
      assert IsRun(run + ([e] + more));
    }
  }

  // ------------------------------------------------- after the close handler ran

  /** The newest session of the socket is gone, or the close handler that will make it leave is waiting. */
  ghost predicate ClosingOrGone(s: State, socket: SocketId) {
    socket in s.members.bySocket && s.members.bySocket[socket] in s.members.live ==> CloseAfterMedia(socket) in s.tasks
  }

  lemma {:induction false} CloseStarts(s: State, socket: SocketId)
    ensures ClosingOrGone(Apply(s, Close(socket)), socket)
  {
  }

  lemma {:induction false} StillClosing(s: State, e: Event, socket: SocketId)
    requires Inv(s) && Enabled(s, e) && ClosingOrGone(s, socket) && !(e.Join? && e.socket == socket)
    ensures ClosingOrGone(Apply(s, e), socket)
  {
    if e.Resume? {
      ResumeMembers(s, e);
      if CloseAfterMedia(socket) in s.tasks && e.task != CloseAfterMedia(socket) {
        ResumeKeepsTasks(s, e, CloseAfterMedia(socket));
      }
      hide Apply, Inv, MembersOk;
    } else if IsStart(e) {
      StartEffect(s, e);
      if CloseAfterMedia(socket) in s.tasks { StartKeepsTasks(s, e, CloseAfterMedia(socket)); }
      hide Inv, MembersOk, SessionOf, SessionInRoom;
    } else {
      hide ViewsOk, AnnouncementsOk, TasksOk, ExplicitOk, RoutersOk, Broadcast, Send;
    }
  }

  lemma {:induction false} ResumeKeepsTasks(s: State, e: Event, task: Task)
    requires e.Resume? && task in s.tasks && e.task != task
    ensures task in Apply(s, e).tasks
  {
    hide Broadcast, Send, LeavePeer, PeersIn, MediaOf;
  }

  lemma {:induction false} ClosingStays(run: seq<Event>, more: seq<Event>, socket: SocketId)
    requires IsRun(run + more) && ClosingOrGone(After(run), socket)
    requires forall e <- more :: !(e.Join? && e.socket == socket)
    ensures ClosingOrGone(After(run + more), socket)
  {
    hide ClosingOrGone, Apply, Inv;
    if more == [] {
      assert run + more == run;
    } else {
      var n := |more| - 1;
      assert (run + more)[..|run + more| - 1] == run + more[..n];
      assert more[n] in more && forall e <- more[..n] :: e in more;
      ClosingStays(run, more[..n], socket);
      RunKeepsInv(run + more[..n]);
      StillClosing(After(run + more[..n]), more[n], socket);
    }
  }

  /**
   * Once a socket's close handler started, the socket joined no more and no close handler of it
   * is waiting, a session of that socket that is still live is stranded exactly when no leave
   * of it is waiting.
   */
  lemma {:induction false} AfterCloseStrandedExactlyWhen(run: seq<Event>, more: seq<Event>, socket: SocketId, p: PeerId)
    requires IsRun(run + [Close(socket)] + more) && forall e <- more :: !(e.Join? && e.socket == socket)
    requires var s := After(run + [Close(socket)] + more);
             CloseAfterMedia(socket) !in s.tasks && p in s.members.live && p in s.members.table && s.members.table[p].socket == socket
    ensures var s := After(run + [Close(socket)] + more); Stranded(s, p) <==> !LeavePending(s, p)
  {
    var closed := run + [Close(socket)];
    assert closed[..|run|] == run;
    CloseStarts(After(run), socket);
    ClosingStays(closed, more, socket);
    hide Apply, IsRun;
  }
}
