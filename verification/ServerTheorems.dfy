/** Socket bookkeeping over every run of the server. */
module ServerTheorems {
  import opened Messages
  import opened RoomSpec
  import opened RoomFacts
  import opened Disconnects
  import opened RoomRun
  import opened RoomInvariants
  import opened RoomTheorems
  import opened ServerSpec

  /** Room `n` has a player on socket `x`. */
  ghost predicate Holds(s: ServerState, n: string, x: Sock) {
    n in s.rooms && x in Socks(s.rooms[n].room.players)
  }

  ghost predicate Assigned(s: ServerState, n: string, x: Sock) {
    x in s.roomAssignments && s.roomAssignments[x] == n
  }

  /** The lobby and the rooms share no socket, each is listed once, and the two room
      tables have as keys exactly the sockets of the rooms' players, each assigned to
      the one room that has it. */
  ghost predicate Booked(s: ServerState) {
    && NoRepeats(s.lobbyConns)
    && (forall x | x in s.lobbyConns :: x !in s.roomConns)
    && s.roomConns == s.roomAssignments.Keys
    && forall n, x :: Holds(s, n, x) <==> Assigned(s, n, x)
  }

  /** No socket is in two rooms, and none is in a room and in the lobby. */
  lemma BookedKeepsApart(s: ServerState, n: string, m: string, x: Sock)
    requires Booked(s) && Holds(s, n, x)
    ensures x in s.roomConns && x !in s.lobbyConns
    ensures Holds(s, m, x) <==> m == n
  {
    assert Assigned(s, n, x);
    assert Holds(s, m, x) <==> Assigned(s, m, x);
  }

  /** Every room got to where it is by steps of a room. */
  ghost predicate RoomsReachable(s: ServerState) {
    forall n | n in s.rooms :: Reachable(s.rooms[n])
  }

  // ----- rooms

  lemma HeardSocks(w: World, k: nat, msg: ClientMsg, now: Timestamp, armed: Timestamp)
    requires k < |w.room.players|
    ensures Socks(Heard(w, k, msg, now, armed).room.players) == Socks(w.room.players)
  {
    HandleMessageKeepsPeople(w.room, k, msg, now);
    SocksSame(w.room.players, HandleMessage(w.room, k, msg, now).0.players);
  }

  lemma FiredSocks(w: World, j: nat, draw: nat, now: Timestamp)
    requires j < |w.timers| && DrawDefined(w.room, draw, now)
    ensures Socks(Fired(w, j, draw, now).room.players) == Socks(w.room.players)
  {
    if Explodes(w.room) {
      FiredPeople(w.room, draw, now);
      var qs := NotifyExplosion(w.room, draw, now).room.players;
      assert forall i | 0 <= i < |qs| ::
          BlastedBody(w.room.players[i], qs[i], LitTiles(w.room.field, w.room.bombs[0]), now);
      SocksSame(w.room.players, qs);
    }
  }

  /** A room's step hands back exactly the sockets of the players it removed. */
  lemma ClosedAreRemoved(w: World, e: Event)
    requires Inv(w) && Enabled(w, e) && !e.Join?
    ensures var before, after := Socks(w.room.players), Socks(Next(w, e).room.players);
      (set x | x in Closed(w, e)) == before - after && after <= before
  {
    match e
    case Hear(sock, msg, clock) =>
      var k := IndexOf(w.room.players, sock);
      HeardKeeps(w, k, msg, clock[0], clock[1]);
      HeardSocks(w, k, msg, clock[0], clock[1]);
      TwiceClosed(Heard(w, k, msg, clock[0], clock[1]), clock[2], clock[3], clock[4], clock[5]);
    case Lose(sock, clock) =>
      var k := IndexOf(w.room.players, sock);
      MarkedKeeps(w, k, clock[0]);
      SocksSame(w.room.players, Marked(w, k, clock[0]).room.players);
      SocketsAccountedFor(Marked(w, k, clock[0]).room, clock[0]);
    case Fire(timer, draw, clock) =>
      FiredKeeps(w, timer, draw, clock[0]);
      FiredSocks(w, timer, draw, clock[0]);
      SocketsAccountedFor(Fired(w, timer, draw, clock[0]).room, clock[1]);
  }

  lemma TwiceClosed(w: World, now: Timestamp, armed: Timestamp, now': Timestamp, armed': Timestamp)
    requires Core(w) && w.now <= now <= armed <= now'
    ensures var once := Post(w, now, armed);
      var closed := DisconnectPlayers(w.room, now).sockets + DisconnectPlayers(once.room, now').sockets;
      var before, after := Socks(w.room.players), Socks(Post(once, now', armed').room.players);
      (set x | x in closed) == before - after && after <= before
  {
    var once := Post(w, now, armed);
    PostKeeps(w, now, armed);
    SocketsAccountedFor(w.room, now);
    SocketsAccountedFor(once.room, now');
    var a, b := DisconnectPlayers(w.room, now).sockets, DisconnectPlayers(once.room, now').sockets;
    assert (set x | x in a + b) == (set x | x in a) + set x | x in b;
  }

  // ----- the lobby list

  lemma {:induction false} RemoveFirstMembers(s: seq<Sock>, sock: Sock)
    requires NoRepeats(s)
    ensures NoRepeats(RemoveFirst(s, sock))
    ensures forall x :: x in RemoveFirst(s, sock) <==> x in s && x != sock
  {
    if s != [] {
      RemoveFirstMembers(s[1..], sock);
      assert s == [s[0]] + s[1..];
      assert s[0] !in s[1..];
    }
  }

  lemma {:induction false} RemoveLastMembers(s: seq<Sock>, sock: Sock)
    requires NoRepeats(s)
    ensures NoRepeats(RemoveLast(s, sock))
    ensures forall x :: x in RemoveLast(s, sock) <==> x in s && x != sock
  {
    if s != [] {
      var n := |s| - 1;
      RemoveLastMembers(s[..n], sock);
      assert s == s[..n] + [s[n]];
      assert s[n] !in s[..n];
    }
  }

  // ----- every step keeps the books

  /** Only the lobby changes. */
  lemma SameRooms(s: ServerState, t: ServerState)
    requires Booked(s) && t.rooms == s.rooms && t.roomConns == s.roomConns && t.roomAssignments == s.roomAssignments
    requires NoRepeats(t.lobbyConns) && forall x | x in t.lobbyConns :: x !in s.roomConns
    ensures Booked(t)
  {
    forall n, x
      ensures Holds(t, n, x) <==> Assigned(t, n, x)
    {
      assert Holds(s, n, x) <==> Assigned(s, n, x);
    }
  }

  lemma CleanupKeepsBooks(s: ServerState, sock: Sock)
    requires Booked(s) && sock !in s.roomConns
    ensures Booked(CleanupSock(s, sock)) && CleanupSock(s, sock).rooms == s.rooms
  {
    RemoveFirstMembers(s.lobbyConns, sock);
    SameRooms(s, CleanupSock(s, sock));
  }

  lemma AcceptKeepsBooks(s: ServerState, sock: Sock)
    requires Booked(s) && sock !in s.roomConns
    ensures Booked(Accept(s, sock))
  {
    RemoveLastMembers(s.lobbyConns, sock);
    var kept := RemoveLast(s.lobbyConns, sock);
    assert sock !in kept;
    forall i, j | 0 <= i < j < |kept + [sock]|
      ensures (kept + [sock])[i] != (kept + [sock])[j]
    {
      assert kept[i] in kept;
    }
    SameRooms(s, Accept(s, sock));
  }

  /** The rooms destroyed were empty: nobody is dropped with them. */
  lemma ErasingFinishedRoomsDropsNobody(s: ServerState, n: string)
    requires RoomsReachable(s) && n in s.rooms && s.rooms[n].room.state == GameOver
    ensures Socks(s.rooms[n].room.players) == {}
  {
    ReachableIsGood(s.rooms[n]);
  }

  /** A room destroyed while the list is made is on that list all the same, if and only
      if four players never joined it. */
  lemma DestroyedRoomsAreListed(s: ServerState, sock: Sock, sendOk: bool, list: seq<ListedRoom>, n: string)
    requires ListsRooms(s, list) && n in s.rooms && s.rooms[n].room.state == GameOver
    ensures n !in ListRooms(s, sock, sendOk).rooms
    ensures (exists e :: e in list && e.name == n) <==> s.rooms[n].room.clientCount != 4
  {
    var e := ListedRoom(n, s.rooms[n].room.clientCount);
    assert e in list <==> e.players != 4;
  }

  lemma ListKeepsBooks(s: ServerState, sock: Sock, sendOk: bool)
    requires Booked(s) && RoomsReachable(s) && sock in s.lobbyConns
    ensures Booked(ListRooms(s, sock, sendOk)) && RoomsReachable(ListRooms(s, sock, sendOk))
  {
    var t := ListRooms(s, sock, true);
    forall n, x
      ensures Holds(t, n, x) <==> Assigned(t, n, x)
    {
      assert Holds(s, n, x) <==> Assigned(s, n, x);
      if n in s.rooms && s.rooms[n].room.state == GameOver {
        ErasingFinishedRoomsDropsNobody(s, n);
      }
    }
    if !sendOk {
      CleanupKeepsBooks(t, sock);
    }
  }

  lemma JoinedSocks(w: World, sock: Sock, username: string, faults: set<nat>, now: Timestamp)
    requires w.room.state == WaitForStart && IsColor(|w.room.players|)
    ensures Socks(Joined(w, sock, username, faults, now).room.players) == Socks(w.room.players) + {sock}
  {
    var qs := Joined(w, sock, username, faults, now).room.players;
    JoinedPeople(w.room, sock, username, faults, now);
    SocksSame(w.room.players, qs[1..]);
    assert qs == [qs[0]] + qs[1..];
  }

  lemma NotYetPresent(s: ServerState, name: string, sock: Sock)
    requires Booked(s) && name in s.rooms && sock !in s.roomConns
    ensures !Present(s.rooms[name].room.players, sock)
  {
    var ps := s.rooms[name].room.players;
    assert !Assigned(s, name, sock) && !Holds(s, name, sock);
    forall i | 0 <= i < |ps|
      ensures ps[i].sock != sock
    {
      assert ps[i] in ps && ps[i].sock in Socks(ps);
    }
  }

  /** One player moves from the lobby into room `name`. */
  lemma MovedKeepsBooks(s: ServerState, t: ServerState, name: string, sock: Sock)
    requires Booked(s) && sock in s.lobbyConns && name in s.rooms && t.rooms.Keys == s.rooms.Keys
    requires forall n | n in s.rooms && n != name :: t.rooms[n] == s.rooms[n]
    requires Socks(t.rooms[name].room.players) == Socks(s.rooms[name].room.players) + {sock}
    requires t.lobbyConns == RemoveLast(s.lobbyConns, sock)
    requires t.roomConns == s.roomConns + {sock} && t.roomAssignments == s.roomAssignments[sock := name]
    ensures Booked(t)
  {
    RemoveLastMembers(s.lobbyConns, sock);
    forall n, x
      ensures Holds(t, n, x) <==> Assigned(t, n, x)
    {
      assert Holds(s, n, x) <==> Assigned(s, n, x);
    }
  }

  lemma JoinKeepsBooks(s: ServerState, sock: Sock, name: string, join: Event, sendOk: bool)
    requires Booked(s) && RoomsReachable(s) && sock in s.lobbyConns && name in s.rooms
    requires join.Join? && join.sock == sock && |join.clock| == 1 && s.rooms[name].now <= join.clock[0]
    ensures Booked(JoinNamed(s, sock, name, join, sendOk)) && RoomsReachable(JoinNamed(s, sock, name, join, sendOk))
  {
    var w := s.rooms[name];
    if !CanJoin(w.room, join.username) {
      CleanupKeepsBooks(s, sock);
    } else if w.room.state == WaitForStart {
      JoinedKeepsBooks(s, sock, name, join, sendOk);
    } else {
      RemoveLastMembers(s.lobbyConns, sock);
      SameRooms(s, JoinNamed(s, sock, name, join, sendOk));
    }
  }

  lemma JoinedKeepsBooks(s: ServerState, sock: Sock, name: string, join: Event, sendOk: bool)
    requires Booked(s) && RoomsReachable(s) && sock in s.lobbyConns && name in s.rooms
    requires join.Join? && join.sock == sock && |join.clock| == 1 && s.rooms[name].now <= join.clock[0]
    requires CanJoin(s.rooms[name].room, join.username) && s.rooms[name].room.state == WaitForStart
    ensures Booked(JoinNamed(s, sock, name, join, sendOk)) && RoomsReachable(JoinNamed(s, sock, name, join, sendOk))
  {
    var w := s.rooms[name];
    ReachableIsGood(w);
    NotYetPresent(s, name, sock);
    ReachableStep(w, join);
    JoinedSocks(w, sock, join.username, join.faults, join.clock[0]);
    MovedKeepsBooks(s, JoinNamed(s, sock, name, join, sendOk), name, sock);
  }

  /** A room loses the players `closed` and the tables lose them too. */
  lemma WithRoomKeepsBooks(s: ServerState, name: string, w: World, closed: set<Sock>)
    requires Booked(s) && RoomsReachable(s) && name in s.rooms && Reachable(w)
    requires var before, after := Socks(s.rooms[name].room.players), Socks(w.room.players);
      closed == before - after && after <= before
    ensures Booked(WithRoom(s, name, w, closed)) && RoomsReachable(WithRoom(s, name, w, closed))
  {
    var t := WithRoom(s, name, w, closed);
    forall n, x
      ensures Holds(t, n, x) <==> Assigned(t, n, x)
    {
      assert Holds(s, n, x) <==> Assigned(s, n, x);
      assert Holds(s, name, x) <==> Assigned(s, name, x);
    }
  }

  lemma RoomStepKeepsBooks(s: ServerState, name: string, e: Event)
    requires Booked(s) && RoomsReachable(s) && name in s.rooms && Enabled(s.rooms[name], e) && !e.Join?
    ensures Booked(RoomStep(s, name, e)) && RoomsReachable(RoomStep(s, name, e))
  {
    ReachableIsGood(s.rooms[name]);
    ReachableStep(s.rooms[name], e);
    ClosedAreRemoved(s.rooms[name], e);
    WithRoomKeepsBooks(s, name, Next(s.rooms[name], e), set x | x in Closed(s.rooms[name], e));
  }

  lemma NewRoomKeepsBooks(s: ServerState, name: string, now: Timestamp)
    requires Booked(s) && RoomsReachable(s) && name !in s.rooms
    ensures var t := s.(rooms := s.rooms[name := NewWorld(now)]); Booked(t) && RoomsReachable(t)
  {
    var t := s.(rooms := s.rooms[name := NewWorld(now)]);
    NewRoomIsReachable(now);
    forall n, x
      ensures Holds(t, n, x) <==> Assigned(t, n, x)
    {
      assert Holds(s, n, x) <==> Assigned(s, n, x);
    }
  }

  lemma ServerStepKeepsBooks(s: ServerState, e: ServerEvent)
    requires Booked(s) && RoomsReachable(s) && ServerEnabled(s, e)
    ensures Booked(ServerNext(s, e)) && RoomsReachable(ServerNext(s, e))
  {
    match e
    case Accepted(sock) => AcceptKeepsBooks(s, sock);
    case LobbyLost(sock) => CleanupKeepsBooks(s, sock);
    case GetRoomList(sock, sendOk) => ListKeepsBooks(s, sock, sendOk);
    case JoinMsg(sock, room, drawn, join, sendOk) =>
      if room.None? {
        NewRoomKeepsBooks(s, drawn, join.clock[0]);
        JoinKeepsBooks(s.(rooms := s.rooms[drawn := NewWorld(join.clock[0])]), sock, drawn, join, sendOk);
      } else if room.value in s.rooms {
        JoinKeepsBooks(s, sock, room.value, join, sendOk);
      } else {
        CleanupKeepsBooks(s, sock);
      }
    case OtherMsg(sock, _) => CleanupKeepsBooks(s, sock);
    case PlayerEvent(sock, e) => RoomStepKeepsBooks(s, s.roomAssignments[sock], e);
    case TimerEvent(name, e) => RoomStepKeepsBooks(s, name, e);
  }

  /** Over every run of the server the books stay in order, and every room it holds is
      a reachable room, so all that is proved of those holds of it. */
  lemma {:induction false} ServerBookkeeping(s: ServerState, es: seq<ServerEvent>)
    requires Booked(s) && RoomsReachable(s) && ValidServerRun(s, es)
    ensures Booked(ServerRun(s, es)) && RoomsReachable(ServerRun(s, es))
    decreases es
  {
    if es != [] {
      ServerStepKeepsBooks(s, es[0]);
      ServerBookkeeping(ServerNext(s, es[0]), es[1..]);
    }
  }

  /** ... starting from an empty server. */
  lemma BooksFromTheStart(es: seq<ServerEvent>)
    requires ValidServerRun(NEW_SERVER, es)
    ensures Booked(ServerRun(NEW_SERVER, es)) && RoomsReachable(ServerRun(NEW_SERVER, es))
  {
    ServerBookkeeping(NEW_SERVER, es);
  }
}
