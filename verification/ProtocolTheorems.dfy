/** The protocol's promises, stated for every run and every interleaving. */
module ProtocolTheorems {
  import opened Common
  import opened Protocol
  import opened ProtocolProofs

  // --------------------------------------------------------- view convergence

  /**
   * At every await point of every interleaving, a live peer on an open socket that folds
   * its joined, peer-joined and peer-left messages gets exactly the peers of its room.
   */
  lemma {:induction false} ViewConvergence(run: seq<Event>, p: PeerId)
    requires IsRun(run) && p in After(run).members.live && CanReceive(After(run).members, After(run).net, p)
    ensures var s := After(run);
            && RoomOf(s.members, p).Some?
            && p in PeersIn(s.members, RoomOf(s.members, p).value)
            && p in s.net.log
            && Believes(s.net.log[p]) == Some(PeersIn(s.members, RoomOf(s.members, p).value))
  {
    RunKeepsInv(run);
    assert Attached(After(run).members, After(run).net, p);
  }

  // ------------------------------------------------------- membership indices

  /** The keys of the session map are the disjoint union of the rooms' peer keys. */
  ghost predicate RoomsPartitionSessions(m: Members) {
    && (forall p :: p in m.live <==> exists r :: r in m.rooms && p in m.rooms[r])
    && (forall r1, r2 :: r1 in m.rooms && r2 in m.rooms && r1 != r2 ==> m.rooms[r1].Keys !! m.rooms[r2].Keys)
  }

  /** A listed peer's session names that room; a forgotten session names none; sockets find only their own. */
  ghost predicate SessionsNameTheirRoom(m: Members) {
    && (forall r, p :: r in m.rooms && p in m.rooms[r] ==>
          p in m.table && m.table[p].roomId == Some(r) && m.table[p].displayName == m.rooms[r][p])
    && (forall p :: p in m.table && p !in m.live ==> m.table[p].roomId == None)
    && (forall k :: SessionOf(m, k).Success? ==>
          SessionOf(m, k).value in m.table && m.table[SessionOf(m, k).value].socket == k)
  }

  lemma MembersPartition(m: Members)
    requires MembersOk(m)
    ensures RoomsPartitionSessions(m)
  {
    forall p | p in m.live ensures exists r :: r in m.rooms && p in m.rooms[r] {
      var r := m.table[p].roomId.value;
      assert p in PeersIn(m, r);
      assert r in m.rooms && p in m.rooms[r];
    }
    forall r1, r2 | r1 in m.rooms && r2 in m.rooms && r1 != r2 ensures m.rooms[r1].Keys !! m.rooms[r2].Keys {
      forall p | p in m.rooms[r1] ensures p !in m.rooms[r2] {
        assert m.table[p].roomId == Some(r1);
      }
      hide MembersOk;
    }
    hide MembersOk;
  }

  lemma MembersName(m: Members)
    requires MembersOk(m)
    ensures SessionsNameTheirRoom(m)
  {
    forall r, p | r in m.rooms && p in m.rooms[r]
      ensures p in m.table && m.table[p].roomId == Some(r) && m.table[p].displayName == m.rooms[r][p] {
      assert m.rooms[r] == PeersIn(m, r);
    }
  }

  /** The membership indices agree in every reachable state. */
  lemma {:induction false} MembershipIndices(run: seq<Event>)
    requires IsRun(run)
    ensures RoomsPartitionSessions(After(run).members)
    ensures SessionsNameTheirRoom(After(run).members)
  {
    RunKeepsInv(run);
    MembersPartition(After(run).members);
    MembersName(After(run).members);
  }

  /** A handler that finds its socket's session never fails for want of a room. */
  lemma {:induction false} NotInRoomIsUnreachable(run: seq<Event>, socket: SocketId)
    requires IsRun(run)
    ensures SessionInRoom(After(run).members, socket) != Failure(PeerNotInRoom)
  {
    RunKeepsInv(run);
    LookupFindsRoom(After(run).members, socket);
  }

  /** The room was created over HTTP by the run and no join named it since. */
  ghost predicate CreatedAndNotJoinedSince(run: seq<Event>, roomId: string) {
    exists i :: 0 <= i < |run| && run[i] == HttpCreateRoom(roomId) &&
                forall j :: i < j < |run| ==> !(run[j].Join? && run[j].roomId == roomId)
  }

  lemma CreatedStays(run: seq<Event>, e: Event, roomId: string)
    requires e == HttpCreateRoom(roomId) || (CreatedAndNotJoinedSince(run, roomId) && !(e.Join? && e.roomId == roomId))
    ensures CreatedAndNotJoinedSince(run + [e], roomId)
  {
    var longer := run + [e];
    if e == HttpCreateRoom(roomId) {
      assert longer[|run|] == HttpCreateRoom(roomId);
    } else {
      var i :| 0 <= i < |run| && run[i] == HttpCreateRoom(roomId) &&
               forall j :: i < j < |run| ==> !(run[j].Join? && run[j].roomId == roomId);
      assert longer[i] == HttpCreateRoom(roomId);
    }
  }

  lemma {:induction false} ExplicitWereCreated(run: seq<Event>, roomId: string)
    requires roomId in After(run).explicit
    ensures CreatedAndNotJoinedSince(run, roomId)
  {
    hide Apply, CreatedAndNotJoinedSince;
    var before, e := run[..|run| - 1], run[|run| - 1];
    ExplicitUnlessEvent(After(before), e, roomId);
    if e != HttpCreateRoom(roomId) { ExplicitWereCreated(before, roomId); }
    CreatedStays(before, e, roomId);
    assert before + [e] == run;
  }

  lemma ExplicitUnlessEvent(s: State, e: Event, roomId: string)
    requires roomId in Apply(s, e).explicit
    ensures e == HttpCreateRoom(roomId) || (roomId in s.explicit && !(e.Join? && e.roomId == roomId))
  {
  }

  /** The only empty rooms are those created explicitly and never joined since. */
  lemma {:induction false} EmptyRoomsAreExplicit(run: seq<Event>, roomId: string)
    requires IsRun(run) && roomId in After(run).members.rooms && After(run).members.rooms[roomId] == map[]
    ensures CreatedAndNotJoinedSince(run, roomId)
  {
    RunKeepsInv(run);
    ExplicitWereCreated(run, roomId);
  }

  /** The room was created over HTTP while it was missing, and no join named it since. */
  ghost predicate CreatedWhileMissing(run: seq<Event>, roomId: string) {
    exists i | 0 <= i < |run| :: MadeAt(run, i, roomId)
  }

  ghost predicate MadeAt(run: seq<Event>, i: nat, roomId: string)
    requires i < |run|
  {
    run[i] == HttpCreateRoom(roomId) && roomId !in After(run[..i]).members.rooms &&
    forall j | i < j < |run| :: !(run[j].Join? && run[j].roomId == roomId)
  }

  lemma ExplicitStep(s: State, e: Event, roomId: string)
    ensures roomId in Apply(s, e).explicit <==>
            (e == HttpCreateRoom(roomId) && roomId !in s.members.rooms) ||
            (roomId in s.explicit && !(e.Join? && e.roomId == roomId))
  {
    hide LeavePeer, Broadcast, Send, JoinRoom;
  }

  lemma {:induction false} MadeStep(before: seq<Event>, e: Event, i: nat, roomId: string)
    requires i <= |before|
    ensures MadeAt(before + [e], i, roomId) <==>
            if i == |before| then e == HttpCreateRoom(roomId) && roomId !in After(before).members.rooms
            else MadeAt(before, i, roomId) && !(e.Join? && e.roomId == roomId)
  {
    var run := before + [e];
    hide After;
    assert run[..i] == before[..i] && run[|before|] == e && before[..|before|] == before;
    assert forall j | 0 <= j < |before| :: run[j] == before[j];
  }

  lemma {:induction false} ExplicitExactly(run: seq<Event>, roomId: string)
    ensures roomId in After(run).explicit <==> CreatedWhileMissing(run, roomId)
  {
    hide Apply, MadeAt;
    if run != [] {
      var n := |run| - 1;
      var before, e := run[..n], run[n];
      assert before + [e] == run;
      ExplicitExactly(before, roomId);
      ExplicitStep(After(before), e, roomId);
      CreatedStep(before, e, roomId);
    }
  }

  lemma {:induction false} CreatedStep(before: seq<Event>, e: Event, roomId: string)
    ensures CreatedWhileMissing(before + [e], roomId) <==>
            (e == HttpCreateRoom(roomId) && roomId !in After(before).members.rooms) ||
            (CreatedWhileMissing(before, roomId) && !(e.Join? && e.roomId == roomId))
  {
    hide MadeAt, After;
    var run := before + [e];
    MadeStep(before, e, |before|, roomId);
    if i :| 0 <= i < |run| && MadeAt(run, i, roomId) {
      MadeStep(before, e, i, roomId);
    }
    if i :| 0 <= i < |before| && MadeAt(before, i, roomId) {
      MadeStep(before, e, i, roomId);
    }
  }

  /** The listed rooms are those with a live session and those created explicitly. */
  lemma {:induction false} ListedInState(s: State, roomId: string)
    requires MembersOk(s.members) && ExplicitOk(s)
    ensures roomId in s.members.rooms <==>
            (exists p <- s.members.live :: p in s.members.table && s.members.table[p].roomId == Some(roomId)) || roomId in s.explicit
  {
    var m := s.members;
    if roomId in m.rooms && m.rooms[roomId] != map[] {
      var peers := m.rooms[roomId];
      assert (exists p :: p in peers) || peers == map[];
      var p :| p in peers;
      assert p in m.live && m.table[p].roomId == Some(roomId);
    }
  }

  /** In every run a room is listed exactly when a live session names it, or it was created while missing and not joined since. */
  lemma {:induction false} RoomsListedExactly(run: seq<Event>, roomId: string)
    requires IsRun(run)
    ensures var m := After(run).members;
            roomId in m.rooms <==> (exists p <- m.live :: p in m.table && m.table[p].roomId == Some(roomId)) || CreatedWhileMissing(run, roomId)
    ensures var m := After(run).members;
            roomId in m.rooms && m.rooms[roomId] == map[] <==> CreatedWhileMissing(run, roomId)
  {
    RunKeepsInv(run);
    ExplicitExactly(run, roomId);
    ListedInState(After(run), roomId);
    hide MembersOk, ViewsOk, AnnouncementsOk, TasksOk, RoutersOk, After, CreatedWhileMissing;
  }

  // ------------------------------------------------------ announcement safety

  /** No log of `after` extends its log in `before` by a producer announcement. */
  ghost predicate NothingAnnounced(before: Net, after: Net) {
    forall q, i :: q in after.log && |LogOf(before, q)| <= i < |after.log[q]| ==> !after.log[q][i].NewProducer?
  }

  lemma JoinAnnouncesNothing(s: State, e: Event)
    requires Inv(s) && Enabled(s, e) && e.Join?
    ensures NothingAnnounced(s.net, Apply(s, e).net)
  {
    hide MembersOk, AnnouncementsOk, RoutersOk, TasksOk, ExplicitOk;
  }

  lemma DepartAnnouncesNothing(s: State, peer: PeerId, roomId: string)
    ensures NothingAnnounced(s.net, DepartSegment(s, peer, roomId).net)
  {
    hide LeavePeer;
  }

  lemma {:induction false} OthersAnnounceNothing(s: State, e: Event)
    requires Inv(s) && Enabled(s, e) && !(e.Resume? && e.task.AnnounceProducer?)
    ensures NothingAnnounced(s.net, Apply(s, e).net)
  {
    if e.Join? {
      JoinAnnouncesNothing(s, e);
    } else if e.Resume? && e.task.LeaveAfterMedia? {
      DepartAnnouncesNothing(s.(tasks := s.tasks - multiset{e.task}), e.task.peer, e.task.roomId);
    } else if e.Resume? && e.task.CloseAfterMedia? {
      hide Inv, LeavePeer, DepartSegment;
      var u := s.(tasks := s.tasks - multiset{e.task});
      if e.task.socket in s.members.bySocket {
        var peer := s.members.bySocket[e.task.socket];
        if RoomOf(s.members, peer).Some? { DepartAnnouncesNothing(u, peer, RoomOf(s.members, peer).value); }
      }
    } else {
      hide Inv;
    }
  }

  /** An announcement is sent by its producer's handler, to peers of the room the producer is in. */
  lemma {:induction false} AnnouncementsComeFromProducers(s: State, e: Event, q: PeerId, i: nat)
    requires Inv(s) && Enabled(s, e)
    requires q in Apply(s, e).net.log && |LogOf(s.net, q)| <= i < |Apply(s, e).net.log[q]|
    requires Apply(s, e).net.log[q][i].NewProducer?
    ensures e.Resume? && e.task.AnnounceProducer? && e.task.peer == Apply(s, e).net.log[q][i].producer
    ensures e.task.peer in s.members.live && q != e.task.peer
    ensures q in PeersIn(s.members, s.members.table[e.task.peer].roomId.value)
    ensures Apply(s, e).members == s.members
  {
    if !(e.Resume? && e.task.AnnounceProducer?) {
      OthersAnnounceNothing(s, e);
      assert false;
    }
    assert TaskOk(s.members, e.task);
    hide ViewsOk, AnnouncementsOk, RoutersOk, TasksOk, ExplicitOk;
  }

  /**
   * Whenever an announcement of p's producer is delivered to q, p and q are at that moment
   * distinct live members of one room, and p is in the view q folded from what it was sent
   * before, although p may have left while its produce call was pending.
   */
  lemma {:induction false} AnnouncementSafety(run: seq<Event>, e: Event)
    requires IsRun(run + [e])
    ensures forall q, i :: JustAnnounced(After(run).net, After(run + [e]).net, q, i) ==> SafelyAnnounced(After(run + [e]), q, i)
  {
    hide JustAnnounced, SafelyAnnounced, After, IsRun;
    forall q, i | JustAnnounced(After(run).net, After(run + [e]).net, q, i) ensures SafelyAnnounced(After(run + [e]), q, i) {
      SafeDelivery(run, e, q, i);
    }
  }

  /** The i-th message of q's log in `after` is new there and announces a producer. */
  ghost predicate JustAnnounced(before: Net, after: Net, q: PeerId, i: int) {
    q in after.log && |LogOf(before, q)| <= i < |after.log[q]| && after.log[q][i].NewProducer?
  }

  /** The announced producer and q are distinct live members of one room, and q's view before knows the producer. */
  ghost predicate SafelyAnnounced(t: State, q: PeerId, i: int) {
    q in t.net.log && 0 <= i < |t.net.log[q]| && t.net.log[q][i].NewProducer? &&
    var p := t.net.log[q][i].producer;
    var view := Believes(t.net.log[q][..i]);
    && p != q && p in t.members.live && q in t.members.live
    && RoomOf(t.members, p).Some? && RoomOf(t.members, p) == RoomOf(t.members, q)
    && view.Some? && p in view.value
  }

  lemma {:induction false} SafeDelivery(run: seq<Event>, e: Event, q: PeerId, i: int)
    requires IsRun(run + [e]) && JustAnnounced(After(run).net, After(run + [e]).net, q, i)
    ensures SafelyAnnounced(After(run + [e]), q, i)
  {
    assert (run + [e])[..|run|] == run;
    RunKeepsInv(run);
    RunKeepsInv(run + [e]);
    AnnouncementsComeFromProducers(After(run), e, q, i);
    assert KnownProducer(After(run + [e]).net.log[q], q, i);
  }

  /** A producer still in its room is announced exactly once to every other peer there that can receive. */
  lemma {:induction false} AnnouncementReachesRoom(run: seq<Event>, e: Event, q: PeerId)
    requires IsRun(run + [e]) && e.Resume? && e.task.AnnounceProducer?
    requires var m := After(run).members;
             e.task.peer in m.live && q in m.live && q != e.task.peer && CanReceive(m, After(run).net, q) &&
             RoomOf(m, e.task.peer) == RoomOf(m, q)
    ensures q in After(run).net.log && q in After(run + [e]).net.log
    ensures After(run + [e]).net.log[q] ==
            After(run).net.log[q] + [NewProducer(e.task.peer, e.task.producerId, e.task.kind)]
  {
    assert (run + [e])[..|run|] == run;
    RunKeepsInv(run);
    var s := After(run);
    assert q in PeersIn(s.members, s.members.table[q].roomId.value);
    hide MembersOk, AnnouncementsOk, RoutersOk, TasksOk, ExplicitOk;
  }

  // ---------------------------------------------------------- router accounting

  lemma UnionSize<T>(a: set<T>, b: set<T>)
    requires a !! b
    ensures |a + b| == |a| + |b|
  {
  }

  lemma {:induction false} ValuesSize(m: map<string, RouterId>)
    requires forall a, b :: a in m && b in m && m[a] == m[b] ==> a == b
    ensures |m.Values| == |m|
  {
    if m != map[] {
      var k :| k in m;
      var rest := m - {k};
      ValuesSize(rest);
      ValuesWithout(m, k);
      assert m.Keys == rest.Keys + {k};
    }
  }

  lemma ValuesWithout(m: map<string, RouterId>, k: string)
    requires k in m && forall a, b :: a in m && b in m && m[a] == m[b] ==> a == b
    ensures m.Values == (m - {k}).Values + {m[k]} && m[k] !in (m - {k}).Values
  {
    var rest := m - {k};
    forall x | x in m.Values ensures x in rest.Values || x == m[k] {
      var j :| j in m && m[j] == x;
      if j != k { assert j in rest && rest[j] == x; }
    }
    forall x | x in rest.Values ensures x in m.Values && x != m[k] {
      var j :| j in rest && rest[j] == x;
      assert j in m && m[j] == x;
    }
  }

  /** Routers created = mapped + closed + displaced, with no router counted twice. */
  lemma {:induction false} RouterAccounting(run: seq<Event>)
    requires IsRun(run)
    ensures var r := After(run).routers;
            && |r.created| == |r.mapped| + |r.closed| + |r.displaced|
            && r.closed !! r.displaced
  {
    RunKeepsInv(run);
    var r := After(run).routers;
    ValuesSize(r.mapped);
    UnionSize(r.mapped.Values, r.closed);
    UnionSize(r.mapped.Values + r.closed, r.displaced);
  }

  /**
   * A router is displaced exactly by the completion of a creation for the room it is mapped
   * for, and the two creations overlapped: each began before the other was stored.
   */
  lemma {:induction false} DisplacementNeedsOverlap(run: seq<Event>, e: Event)
    requires IsRun(run + [e])
    ensures forall x :: x in After(run + [e]).routers.displaced - After(run).routers.displaced <==>
                        exists r :: CompletesFor(e, r) && r in After(run).routers.mapped && After(run).routers.mapped[r] == x
    ensures forall x :: x in After(run + [e]).routers.displaced - After(run).routers.displaced ==> Overlaps(After(run), e, x)
  {
    assert (run + [e])[..|run|] == run;
    RunKeepsInv(run);
    hide Inv, Apply, Overlaps, CompletesFor;
    forall x | x in Apply(After(run), e).routers.displaced && x !in After(run).routers.displaced ensures Overlaps(After(run), e, x) {
      DisplacedOverlaps(After(run), e, x);
    }
    forall x ensures x in Apply(After(run), e).routers.displaced - After(run).routers.displaced <==>
                     exists r :: CompletesFor(e, r) && r in After(run).routers.mapped && After(run).routers.mapped[r] == x {
      DisplacedExactlyWhen(After(run), e, x);
    }
  }

  /** The event is the completion of a creation for the room. */
  ghost predicate CompletesFor(e: Event, roomId: string) {
    e.Resume? && e.task.AwaitRouter? && e.task.roomId == roomId && e.outcome.Completed?
  }

  /** The event stores a router over x, whose creation began before x was stored and after whose beginning x was. */
  ghost predicate Overlaps(s: State, e: Event, x: RouterId) {
    && e.Resume? && e.task.AwaitRouter?
    && e.task.roomId in s.routers.mapped && s.routers.mapped[e.task.roomId] == x
    && x in s.routers.begun && x in s.routers.stored
    && e.task.begun < s.routers.stored[x]
    && s.routers.begun[x] < s.clock
  }

  lemma {:induction false} DisplacedExactlyWhen(s: State, e: Event, x: RouterId)
    requires Inv(s) && Enabled(s, e)
    ensures x in Apply(s, e).routers.displaced - s.routers.displaced <==>
            exists r :: CompletesFor(e, r) && r in s.routers.mapped && s.routers.mapped[r] == x
  {
    if e.Resume? && e.task.AwaitRouter? && e.outcome.Completed? {
      RoutersOnlyGrow(s, e);
      assert CompletesFor(e, e.task.roomId);
      hide Apply, MembersOk, ViewsOk, AnnouncementsOk, TasksOk, ExplicitOk;
    } else if x in Apply(s, e).routers.displaced && x !in s.routers.displaced {
      DisplacedByCompletion(s, e, x);
      assert false;
    }
  }

  lemma RoutersOnlyGrow(s: State, e: Event)
    requires e.Resume? && e.task.AwaitRouter? && e.outcome.Completed?
    ensures Apply(s, e).routers == StoreRouter(s.routers, e.task.roomId, e.outcome.id, e.task.begun, s.clock)
    ensures Apply(s, e).members == s.members
  {
  }

  lemma {:induction false} DisplacedOverlaps(s: State, e: Event, x: RouterId)
    requires Inv(s) && Enabled(s, e) && x in Apply(s, e).routers.displaced && x !in s.routers.displaced
    ensures Overlaps(s, e, x)
  {
    DisplacedByCompletion(s, e, x);
    assert CreationTimed(s, e.task.roomId, e.task.begun);
    assert RouterWitnessed(s, e.task.roomId);
  }

  /** A departure closes routers and displaces none. */
  lemma {:induction false} DepartDisplacesNothing(s: State, peer: PeerId, roomId: string)
    ensures DepartSegment(s, peer, roomId).routers.displaced == s.routers.displaced
  {
    hide LeavePeer, Broadcast, PeersIn;
  }

  lemma {:induction false} OthersDisplaceNothing(s: State, e: Event)
    requires !(e.Resume? && e.task.AwaitRouter?)
    ensures Apply(s, e).routers.displaced == s.routers.displaced
  {
    hide LeavePeer, JoinRoom, Broadcast, Send, PeersIn, RoomOf, SessionOf, SessionInRoom, CreateRoom, MediaOf, DepartSegment;
    if e.Resume? {
      var u := s.(tasks := s.tasks - multiset{e.task});
      if e.task.LeaveAfterMedia? { DepartDisplacesNothing(u, e.task.peer, e.task.roomId); }
      if e.task.CloseAfterMedia? && e.task.socket in s.members.bySocket {
        var peer := s.members.bySocket[e.task.socket];
        if RoomOf(s.members, peer).Some? { DepartDisplacesNothing(u, peer, RoomOf(s.members, peer).value); }
      }
    }
  }

  lemma {:induction false} DisplacedByCompletion(s: State, e: Event, x: RouterId)
    requires x in Apply(s, e).routers.displaced && x !in s.routers.displaced
    ensures e.Resume? && e.task.AwaitRouter? && e.outcome.Completed?
    ensures e.task.roomId in s.routers.mapped && s.routers.mapped[e.task.roomId] == x
  {
    if !(e.Resume? && e.task.AwaitRouter?) {
      OthersDisplaceNothing(s, e);
    }
    hide LeavePeer, JoinRoom, Broadcast, Send, PeersIn, DepartSegment, CloseAfterMediaSegment, AnnounceProducerSegment;
  }

  /**
   * A router mapped for a room without peers was created by a call that was pending when
   * the last peer left: it began before the room emptied and was stored after.
   */
  lemma {:induction false} EmptyRoomRouterWasPending(run: seq<Event>)
    requires IsRun(run)
    ensures forall roomId <- After(run).routers.mapped ::
              PeersIn(After(run).members, roomId) == map[] ==> WasPending(After(run), roomId)
  {
    RunKeepsInv(run);
    var s := After(run);
    forall roomId | roomId in s.routers.mapped && PeersIn(s.members, roomId) == map[] ensures WasPending(s, roomId) {
      assert RouterWitnessed(s, roomId);
    }
  }

  ghost predicate WasPending(s: State, roomId: string)
    requires roomId in s.routers.mapped
  {
    var id := s.routers.mapped[roomId];
    && id in s.routers.begun && id in s.routers.stored && roomId in s.emptied
    && s.routers.begun[id] < s.emptied[roomId] < s.routers.stored[id]
  }

  /** A router is mapped for the room, and the room has no peers. */
  ghost predicate Orphaned(s: State, roomId: string) {
    roomId in s.routers.mapped && PeersIn(s.members, roomId) == map[]
  }

  /** A router starts to be mapped for a room without peers exactly when its creation completes while the room has none. */
  lemma {:induction false} OrphansAriseExactlyWhen(run: seq<Event>, e: Event)
    requires IsRun(run + [e])
    ensures forall r :: Orphaned(After(run + [e]), r) && !Orphaned(After(run), r) <==>
                        CompletesFor(e, r) && PeersIn(After(run).members, r) == map[] && r !in After(run).routers.mapped
  {
    assert (run + [e])[..|run|] == run;
    RunKeepsInv(run);
    hide Inv, Apply, Orphaned, CompletesFor, PeersIn;
    var s := After(run);
    forall r ensures Orphaned(Apply(s, e), r) && !Orphaned(s, r) <==>
                     CompletesFor(e, r) && PeersIn(s.members, r) == map[] && r !in s.routers.mapped {
      OrphanStep(s, e, r);
    }
  }

  lemma {:induction false} OrphanStep(s: State, e: Event, r: string)
    requires Inv(s) && Enabled(s, e)
    ensures Orphaned(Apply(s, e), r) && !Orphaned(s, r) <==>
            CompletesFor(e, r) && PeersIn(s.members, r) == map[] && r !in s.routers.mapped
  {
    if e.Resume? && e.task.AwaitRouter? && e.outcome.Completed? {
      RoutersOnlyGrow(s, e);
      hide Apply, Inv;
    } else if e.Resume? && (e.task.LeaveAfterMedia? || e.task.CloseAfterMedia?) {
      assert TaskOk(s.members, e.task);
      DepartureOrphansNothing(s, e, r);
      hide Apply, Inv;
    } else {
      OthersOrphanNothing(s, e, r);
      hide Apply, Inv;
    }
  }

  lemma {:induction false} DepartedOrphansNothing(s: State, peer: PeerId, roomId: string, r: string)
    requires MembersOk(s.members)
    requires peer in s.members.live ==> s.members.table[peer].roomId == Some(roomId)
    ensures Orphaned(Departed(s, peer, roomId), r) ==> Orphaned(s, r)
  {
    DepartRooms(s, peer, roomId, r);
    hide MembersOk, LeavePeer, Broadcast;
  }

  lemma {:induction false} DepartureOrphansNothing(s: State, e: Event, r: string)
    requires MembersOk(s.members) && e.Resume? && (e.task.LeaveAfterMedia? || e.task.CloseAfterMedia?) && TaskOk(s.members, e.task)
    ensures Orphaned(Apply(s, e), r) ==> Orphaned(s, r)
  {
    var u := s.(tasks := s.tasks - multiset{e.task});
    hide Orphaned, DepartSegment, Tick;
    SameOrphans(s, u, r);
    if e.task.LeaveAfterMedia? {
      DepartedOrphansNothing(u, e.task.peer, e.task.roomId, r);
    } else if e.task.socket in s.members.bySocket {
      var peer := s.members.bySocket[e.task.socket];
      if peer in s.members.live && RoomOf(s.members, peer).Some? {
        DepartedOrphansNothing(u, peer, RoomOf(s.members, peer).value, r);
      } else {
        SameOrphans(s, Apply(s, e), r);
      }
    } else {
      SameOrphans(s, Apply(s, e), r);
    }
  }

  lemma SameOrphans(s: State, t: State, r: string)
    ensures t.members == s.members && t.routers == s.routers ==> (Orphaned(t, r) <==> Orphaned(s, r))
  {
  }

  lemma {:induction false} OthersOrphanNothing(s: State, e: Event, r: string)
    requires Enabled(s, e) && !(e.Resume? && (e.task.LeaveAfterMedia? || e.task.CloseAfterMedia?))
    requires !(e.Resume? && e.task.AwaitRouter? && e.outcome.Completed?)
    ensures Orphaned(Apply(s, e), r) ==> Orphaned(s, r)
  {
    hide Broadcast, Send;
  }

  // ------------------------------------------------------- handler-atomic runs

  ghost predicate NoMediaAfterLeaving(s: State) {
    forall p <- s.members.table.Keys - s.members.live :: MediaOf(s, p) == NoMedia
  }

  ghost predicate RoutersHavePeers(s: State) {
    forall r <- s.routers.mapped :: PeersIn(s.members, r) != map[]
  }

  /** What the one parked handler of an atomic run still holds. */
  ghost predicate Undisturbed(s: State, t: Task) {
    match t
    case LeaveAfterMedia(p, _) => MediaOf(s, p) == NoMedia
    case CloseAfterMedia(socket) =>
      SessionOf(s.members, socket).Success? && MediaOf(s, SessionOf(s.members, socket).value) == NoMedia
    case AnnounceLeft(_, _) => true
    case AwaitRouter(p, r, _, _) => p in s.members.live && PeersIn(s.members, r) != map[]
    case _ => t.peer in s.members.live
  }

  ghost predicate AtomicOk(s: State) {
    && NoMediaAfterLeaving(s)
    && RoutersHavePeers(s)
    && (s.tasks == multiset{} || exists t :: s.tasks == multiset{t} && Undisturbed(s, t))
  }

  lemma {:induction false} AtomicStart(s: State, e: Event)
    requires MembersOk(s.members) && AtomicOk(s) && s.tasks == multiset{} && IsStart(e)
    ensures AtomicOk(Apply(s, e))
  {
    StartClosesMediaAtMost(s, e);
    if SessionOf(s.members, e.socket).Success? && Apply(s, e).tasks != multiset{} {
      AtomicParks(s, e, SessionOf(s.members, e.socket).value);
    }
    hide MembersOk, NoMediaAfterLeaving;
  }

  /** A leaving or closing handler closes media and parks alone. */
  lemma {:induction false} AtomicLeaveParks(s: State, e: Event, peer: PeerId, roomId: string)
    requires s.tasks == multiset{} && (e.Leave? || e.Close?)
    requires SessionOf(s.members, e.socket) == Success(peer) && SessionInRoom(s.members, e.socket) == Success((peer, roomId))
    ensures exists k :: Apply(s, e).tasks == multiset{k} && Undisturbed(Apply(s, e), k)
  {
    hide SessionOf, SessionInRoom;
    var k := if e.Leave? then LeaveAfterMedia(peer, roomId) else CloseAfterMedia(e.socket);
    assert Apply(s, e).tasks == multiset{k} && Undisturbed(Apply(s, e), k);
  }

  lemma {:induction false} AtomicRouterParks(s: State, e: Event, peer: PeerId, roomId: string)
    requires s.tasks == multiset{} && e.NeedRouter? && SessionInRoom(s.members, e.socket) == Success((peer, roomId))
    requires peer in s.members.live && PeersIn(s.members, roomId) != map[] && Apply(s, e).tasks != multiset{}
    ensures exists k :: Apply(s, e).tasks == multiset{k} && Undisturbed(Apply(s, e), k)
  {
    hide SessionInRoom, PeersIn;
    var k := if roomId in s.routers.mapped then AwaitTransport(peer) else AwaitRouter(peer, roomId, e.purpose, s.clock);
    assert Apply(s, e).tasks == multiset{k} && Undisturbed(Apply(s, e), k);
  }

  lemma {:induction false} AtomicMediaParks(s: State, e: Event, peer: PeerId, roomId: string)
    requires s.tasks == multiset{} && (e.Produce? || e.Consume?) && SessionInRoom(s.members, e.socket) == Success((peer, roomId))
    requires peer in s.members.live && Apply(s, e).tasks != multiset{}
    ensures exists k :: Apply(s, e).tasks == multiset{k} && Undisturbed(Apply(s, e), k)
  {
    hide SessionInRoom, PeersIn;
    var k := if e.Produce? then AwaitProducer(peer, e.kind) else AwaitConsumer(peer);
    assert Apply(s, e).tasks == multiset{k} && Undisturbed(Apply(s, e), k);
  }

  lemma {:induction false} AtomicParks(s: State, e: Event, peer: PeerId)
    requires MembersOk(s.members) && s.tasks == multiset{} && IsStart(e)
    requires SessionOf(s.members, e.socket) == Success(peer) && Apply(s, e).tasks != multiset{}
    ensures exists k :: Apply(s, e).tasks == multiset{k} && Undisturbed(Apply(s, e), k)
  {
    LookupFindsRoom(s.members, e.socket);
    assert peer in PeersIn(s.members, s.members.table[peer].roomId.value);
    var roomId := RoomOf(s.members, peer).value;
    assert SessionInRoom(s.members, e.socket) == Success((peer, roomId)) && peer in s.members.live;
    hide MembersOk, Apply, Undisturbed, SessionOf, SessionInRoom;
    match e {
      case NeedRouter(_, _) => AtomicRouterParks(s, e, peer, roomId);
      case Leave(_) => AtomicLeaveParks(s, e, peer, roomId);
      case Close(_) => AtomicLeaveParks(s, e, peer, roomId);
      case _ => AtomicMediaParks(s, e, peer, roomId);
    }
  }

  lemma StartClosesMediaAtMost(s: State, e: Event)
    requires IsStart(e) && NoMediaAfterLeaving(s)
    ensures NoMediaAfterLeaving(Apply(s, e)) && Apply(s, e).members == s.members && Apply(s, e).routers == s.routers
  {
  }

  lemma AtomicDepartRouters(s: State, peer: PeerId, roomId: string)
    requires MembersOk(s.members) && RoutersHavePeers(s)
    requires peer in s.members.live ==> s.members.table[peer].roomId == Some(roomId)
    ensures RoutersHavePeers(Departed(s, peer, roomId))
  {
    var t := Departed(s, peer, roomId);
    DepartRooms(s, peer, roomId, roomId);
    forall r | r in t.routers.mapped ensures PeersIn(t.members, r) != map[] {
      DepartRooms(s, peer, roomId, r);
      hide MembersOk, LeavePeer;
    }
  }

  lemma AtomicDepart(s: State, peer: PeerId, roomId: string)
    requires MembersOk(s.members) && NoMediaAfterLeaving(s) && RoutersHavePeers(s) && s.tasks == multiset{}
    requires MediaOf(s, peer) == NoMedia
    requires peer in s.members.live ==> s.members.table[peer].roomId == Some(roomId)
    ensures AtomicOk(Departed(s, peer, roomId))
  {
    var t := Departed(s, peer, roomId);
    AtomicDepartRouters(s, peer, roomId);
    LeaveEffect(s.members, peer);
    forall p | p in t.members.table.Keys - t.members.live ensures MediaOf(t, p) == NoMedia {
      assert p == peer || p in s.members.table.Keys - s.members.live;
    }
    hide MembersOk, LeavePeer, RoutersHavePeers, NoMediaAfterLeaving;
    if t.tasks != multiset{} {
      assert t.tasks == multiset{AnnounceLeft(peer, roomId)};
      assert Undisturbed(t, AnnounceLeft(peer, roomId));
    }
  }

  lemma AtomicClose(s: State, socket: SocketId)
    requires MembersOk(s.members) && NoMediaAfterLeaving(s) && RoutersHavePeers(s) && s.tasks == multiset{}
    requires Undisturbed(s, CloseAfterMedia(socket))
    ensures AtomicOk(Tick(CloseAfterMediaSegment(s, socket)))
  {
    LookupFindsRoom(s.members, socket);
    var peer := s.members.bySocket[socket];
    AtomicDepart(s, peer, RoomOf(s.members, peer).value);
    hide MembersOk, AtomicOk, DepartSegment;
  }

  lemma AtomicRouter(s: State, task: Task, outcome: Outcome)
    requires NoMediaAfterLeaving(s) && RoutersHavePeers(s) && s.tasks == multiset{} && Undisturbed(s, task) && task.AwaitRouter?
    ensures AtomicOk(Tick(RouterSegment(s, task, outcome)))
  {
    var t := Tick(RouterSegment(s, task, outcome));
    if t.tasks != multiset{} {
      assert t.tasks == multiset{AwaitTransport(task.peer)} && Undisturbed(t, AwaitTransport(task.peer));
    }
  }

  /** The remaining continuations park at most one task, about the same peer, and touch only live sessions. */
  lemma AtomicMedia(s: State, task: Task, outcome: Outcome)
    requires NoMediaAfterLeaving(s) && RoutersHavePeers(s) && s.tasks == multiset{}
    requires Undisturbed(s, task) && !task.LeaveAfterMedia? && !task.CloseAfterMedia?
    ensures AtomicOk(Tick(ResumeSegment(s, task, outcome)))
  {
    hide Broadcast, Send;
    if task.AwaitRouter? {
      AtomicRouter(s, task, outcome);
      hide RouterSegment, Tick, AtomicOk;
    } else {
      var t := Tick(ResumeSegment(s, task, outcome));
      if t.tasks != multiset{} {
        var k :| k in t.tasks;
        assert t.tasks == multiset{k} && Undisturbed(t, k);
      }
      hide RouterSegment;
    }
  }

  lemma {:induction false} AtomicResume(s: State, e: Event)
    requires Inv(s) && AtomicOk(s) && e.Resume? && Enabled(s, e)
    ensures AtomicOk(Apply(s, e))
  {
    var u := s.(tasks := s.tasks - multiset{e.task});
    assert Undisturbed(s, e.task) && u.tasks == multiset{} && MembersOk(u.members);
    assert TaskOk(s.members, e.task);
    hide Inv, MembersOk, AtomicOk, DepartSegment, CloseAfterMediaSegment, AnnounceProducerSegment, RouterSegment, Broadcast, Tick;
    match e.task {
      case LeaveAfterMedia(peer, roomId) => AtomicDepart(u, peer, roomId);
      case CloseAfterMedia(socket) => AtomicClose(u, socket);
      case _ => AtomicMedia(u, e.task, e.outcome);
    }
  }

  lemma {:induction false} AtomicSocketCloses(s: State, e: Event)
    requires AtomicOk(s) && e.SocketCloses?
    ensures AtomicOk(Apply(s, e))
  {
    var t := Apply(s, e);
    if s.tasks != multiset{} {
      var k :| s.tasks == multiset{k} && Undisturbed(s, k);
      assert t.tasks == multiset{k} && Undisturbed(t, k);
    }
  }

  lemma {:induction false} AtomicOther(s: State, e: Event)
    requires Inv(s) && AtomicOk(s) && Enabled(s, e)
    requires e.SocketCloses? || ((e.HttpCreateRoom? || e.Join?) && s.tasks == multiset{})
    ensures AtomicOk(Apply(s, e))
  {
    if e.SocketCloses? {
      hide Inv, AtomicOk, Apply;
      AtomicSocketCloses(s, e);
    } else {
      hide ViewsOk, AnnouncementsOk, RoutersOk, TasksOk, Broadcast, Send;
    }
  }

  /**
   * When handlers do not overlap, every mapped router belongs to a room with at least one
   * peer, and a session that left has no open transport, producer or consumer.
   */
  lemma {:induction false} AtomicRunsCleanUp(run: seq<Event>)
    requires IsHandlerAtomic(run)
    ensures RoutersHavePeers(After(run)) && NoMediaAfterLeaving(After(run)) && AtomicOk(After(run))
  {
    if run != [] {
      var before, e := run[..|run| - 1], run[|run| - 1];
      AtomicRunsCleanUp(before);
      RunKeepsInv(before);
      if e.Resume? { AtomicResume(After(before), e); }
      else if IsStart(e) { AtomicStart(After(before), e); }
      else { AtomicOther(After(before), e); }
    }
  }

  // ------------------------------------------- what overlapping handlers can do

  lemma RunStep(run: seq<Event>, e: Event)
    requires IsRun(run) && Enabled(After(run), e)
    ensures IsRun(run + [e]) && After(run + [e]) == Apply(After(run), e)
  {
    assert (run + [e])[..|run|] == run;
  }

  /** The effect of asking for a router that is not mapped, and of the creation it awaits. */
  lemma AskParks(s: State, socket: SocketId, peer: PeerId, roomId: string)
    requires SessionInRoom(s.members, socket) == Success((peer, roomId)) && roomId !in s.routers.mapped
    ensures Apply(s, NeedRouter(socket, Capabilities)) ==
            s.(tasks := s.tasks + multiset{AwaitRouter(peer, roomId, Capabilities, s.clock)}, clock := s.clock + 1)
  {
  }

  lemma RouterArrives(s: State, task: Task, id: RouterId)
    requires task in s.tasks && task.AwaitRouter? && task.purpose == Capabilities
    ensures Apply(s, Resume(task, Completed(id))) ==
            s.(tasks := s.tasks - multiset{task}, routers := StoreRouter(s.routers, task.roomId, id, task.begun, s.clock),
            clock := s.clock + 1)
  {
  }

  lemma LeaveParks(s: State, socket: SocketId, peer: PeerId, roomId: string)
    requires SessionInRoom(s.members, socket) == Success((peer, roomId))
    ensures var t := Apply(s, Leave(socket));
            t.tasks == s.tasks + multiset{LeaveAfterMedia(peer, roomId)} && t.members == s.members && t.routers == s.routers
  {
  }

  lemma LastPeerLeaves(s: State, peer: PeerId, roomId: string)
    requires LeaveAfterMedia(peer, roomId) in s.tasks && RoomOf(s.members, peer) == Some(roomId) && peer in s.members.live
    requires roomId in s.members.rooms && s.members.rooms[roomId].Keys == {peer} && roomId !in s.routers.mapped
    ensures var t := Apply(s, Resume(LeaveAfterMedia(peer, roomId), Rejected));
            && t.tasks == s.tasks - multiset{LeaveAfterMedia(peer, roomId)} + multiset{AnnounceLeft(peer, roomId)}
            && PeersIn(t.members, roomId) == map[] && t.routers == s.routers
  {
    assert s.members.rooms[roomId] - {peer} == map[];
  }

  lemma JoinAlone()
    ensures var s := Apply(Init, Join(1, "r", "n", 1));
            && s.tasks == multiset{} && s.clock == 1 && s.routers == Init.routers
            && SessionInRoom(s.members, 1) == Success((1, "r")) && RoomOf(s.members, 1) == Some("r")
            && 1 in s.members.live && "r" in s.members.rooms && s.members.rooms["r"].Keys == {1}
  {
    hide Broadcast, Send;
  }

  lemma NothingRun()
    ensures IsRun([]) && After([]) == Init && Enabled(Init, Join(1, "r", "n", 1))
  {
  }

  /** One client joins room r and asks for its router. */
  lemma JoinedAndAsked() returns (run: seq<Event>, waiting: Task)
    ensures IsRun(run) && waiting == AwaitRouter(1, "r", Capabilities, 1)
    ensures var s := After(run);
            && s.tasks == multiset{waiting} && s.clock == 2 && s.routers == Init.routers
            && SessionInRoom(s.members, 1) == Success((1, "r")) && RoomOf(s.members, 1) == Some("r")
            && 1 in s.members.live && "r" in s.members.rooms && s.members.rooms["r"].Keys == {1}
  {
    hide Apply, IsRun, After, SessionInRoom, RoomOf;
    NothingRun();
    RunStep([], Join(1, "r", "n", 1));
    JoinAlone();
    var joined := [] + [Join(1, "r", "n", 1)];
    AskParks(After(joined), 1, 1, "r");
    RunStep(joined, NeedRouter(1, Capabilities));
    run, waiting := joined + [NeedRouter(1, Capabilities)], AwaitRouter(1, "r", Capabilities, 1);
  }

  /** A client that asks twice before the first answer makes one router displace the other. */
  lemma {:induction false} TwoRequestsDisplace() returns (run: seq<Event>)
    ensures IsRun(run) && After(run).routers.displaced == {7} && After(run).routers.mapped == map["r" := 8]
  {
    hide Apply, IsRun, After, SessionInRoom, RoomOf;
    var start, first := JoinedAndAsked();
    var second := AwaitRouter(1, "r", Capabilities, 2);
    AskParks(After(start), 1, 1, "r");
    RunStep(start, NeedRouter(1, Capabilities));
    run := start + [NeedRouter(1, Capabilities)];
    RouterArrives(After(run), first, 7);
    RunStep(run, Resume(first, Completed(7)));
    run := run + [Resume(first, Completed(7))];
    RouterArrives(After(run), second, 8);
    RunStep(run, Resume(second, Completed(8)));
    run := run + [Resume(second, Completed(8))];
  }

  /** A client that leaves before the answer makes its room's router outlive the room. */
  lemma {:induction false} RouterOutlivesRoom() returns (run: seq<Event>)
    ensures IsRun(run) && After(run).routers.mapped == map["r" := 7] && PeersIn(After(run).members, "r") == map[]
    ensures !RoutersHavePeers(After(run))
  {
    hide Apply, IsRun, After, SessionInRoom, RoomOf, PeersIn;
    var start, waiting := JoinedAndAsked();
    var leaving := LeaveAfterMedia(1, "r");
    LeaveParks(After(start), 1, 1, "r");
    RunStep(start, Leave(1));
    run := start + [Leave(1)];
    LastPeerLeaves(After(run), 1, "r");
    RunStep(run, Resume(leaving, Rejected));
    run := run + [Resume(leaving, Rejected)];
    RouterArrives(After(run), waiting, 7);
    RunStep(run, Resume(waiting, Completed(7)));
    run := run + [Resume(waiting, Completed(7))];
    assert "r" in After(run).routers.mapped;
  }
}
