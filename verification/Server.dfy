/** The server object: what its event loops do to the tables and to the one room
    concerned is what `ServerSpec` says. */
module ServerObject {
  import opened Grid
  import opened Messages
  import opened RoomSpec
  import opened RoomFacts
  import opened RoomRun
  import opened RoomInvariants
  import opened RoomTheorems
  import S = ServerSpec
  import opened RoomObject

  lemma SocksAreThose(room: Room, r: RoomState)
    requires room.Shows(r) && Distinct(r.players)
    ensures SocksDiffer(room.players)
  {
    assert forall i | 0 <= i < |room.players| :: room.players[i].sock == room.View().players[i].sock;
  }

  /** `DisconnectPlayers` on a room object whose players are known. */
  method DisconnectIn(room: Room, now: Timestamp, ghost r: RoomState) returns (bombCount: nat, socks: seq<Sock>)
    requires room.Shows(r) && Distinct(r.players)
    modifies room.Footprint()
    ensures room.Footprint() <= old(room.Footprint())
    ensures room.Shows(DisconnectPlayers(r, now).room)
    ensures bombCount == |DisconnectPlayers(r, now).dropped| && socks == DisconnectPlayers(r, now).sockets
  {
    SocksAreThose(room, r);
    bombCount, socks := room.DisconnectPlayers(now);
  }

  /** Which player of the room is on that socket. */
  method FindIn(room: Room, sock: Sock, ghost r: RoomState) returns (k: nat)
    requires room.Shows(r) && Present(r.players, sock)
    ensures k == IndexOf(r.players, sock) && room.Shows(r)
  {
    assert forall i | 0 <= i < |room.players| :: room.players[i].sock == room.View().players[i].sock;
    k := 0;
    while room.players[k].sock != sock
      invariant k <= IndexOf(r.players, sock)
      decreases |room.players| - k
    {
      k := k + 1;
    }
    FirstIndex(r.players, sock, k);
  }

  method Heeds(room: Room, sock: Sock, ghost w: World) returns (k: nat, heeds: bool)
    requires room.Shows(w.room) && Present(w.room.players, sock)
    ensures room.Shows(w.room) && k == IndexOf(w.room.players, sock) && heeds == Listens(w, sock)
  {
    k := FindIn(room, sock, w.room);
    assert w.room.players[k] == room.players[k].View();
    heeds := !room.players[k].markedForDisconnect && room.state != GameOver;
  }

  lemma {:induction false} FirstIndex(ps: seq<PlayerState>, sock: Sock, k: nat)
    requires Present(ps, sock) && k <= IndexOf(ps, sock) && ps[k].sock == sock
    ensures k == IndexOf(ps, sock)
  {
    if k > 0 {
      FirstIndex(ps[1..], sock, k - 1);
    }
  }

  method CanJoinIn(room: Room, username: string, ghost r: RoomState) returns (allowed: bool)
    requires room.Shows(r)
    ensures room.Shows(r) && allowed == CanJoin(r, username)
  {
    var reason := room.CanJoin(username);
    allowed := reason == None;
  }

  /** True when the player got in. Here and below `grown` are the new objects of the room. */
  method JoinPlayerIn(room: Room, sock: Sock, username: string, faults: set<nat>, now: Timestamp, ghost r: RoomState)
    returns (joined: bool, ghost grown: set<object>)
    requires room.Shows(r) && (r.state == WaitForStart ==> IsColor(|r.players|))
    modifies room.Footprint()
    ensures joined == (r.state == WaitForStart)
    ensures room.Shows(if joined then JoinPlayer(r, sock, username, faults, now) else r)
    ensures fresh(grown) && room.Footprint() <= old(room.Footprint()) + grown
  {
    var player := room.JoinPlayer(sock, username, faults, now);
    joined := player != null;
    grown := if player == null then {} else {player, player.moveHistory};
  }

  method HearIn(room: Room, k: nat, msg: ClientMsg, now: Timestamp, ghost r: RoomState) returns (placed: bool)
    requires room.Shows(r) && k < |r.players| && (msg.IMove? ==> InGrid(msg.to))
    modifies room.Footprint()
    ensures room.Footprint() == old(room.Footprint())
    ensures room.Shows(HandleMessage(r, k, msg, now).0) && placed == HandleMessage(r, k, msg, now).1
  {
    placed := room.HandleMessage(room.players[k], k, msg, now);
  }

  method MarkIn(room: Room, k: nat, ghost r: RoomState)
    requires room.Shows(r) && k < |r.players|
    modifies room.Footprint()
    ensures room.Footprint() == old(room.Footprint())
    ensures room.Shows(r.(players := r.players[k := r.players[k].(marked := true)]))
  {
    room.MarkPlayer(k);
  }

  method ExplodeIn(room: Room, draw: nat, now: Timestamp, ghost r: RoomState)
    requires room.Shows(r) && DrawDefined(r, draw, now)
    requires Explodes(r) ==> Walled(r.field) && Inside(r.bombs[0].pos)
    modifies room.Footprint()
    ensures room.Footprint() == old(room.Footprint())
    ensures room.Shows(NotifyExplosion(r, draw, now).room)
  {
    room.NotifyExplosion(draw, now);
  }

  /** What `runRooms` may be told of a connection: a message in range, or that there is
      none, at readings of the clock. */
  ghost predicate MayHear(s: S.ServerState, name: string, sock: Sock, received: Option<ClientMsg>,
          clock: seq<Timestamp>) {
    && name in s.rooms && Reachable(s.rooms[name]) && Present(s.rooms[name].room.players, sock)
    && ClockRuns(s.rooms[name].now, S.Received(sock, received, clock))
    && (received.Some? ==> InRange(received.value))
  }

  /** The room a player is in has heard that, if it listens. */
  ghost function Served(s: S.ServerState, name: string, sock: Sock, received: Option<ClientMsg>,
          clock: seq<Timestamp>): (t: S.ServerState)
    requires MayHear(s, name, sock, received, clock)
    ensures name in t.rooms && t.rooms == s.rooms[name := t.rooms[name]]
  {
    if Listens(s.rooms[name], sock) then S.RoomStep(s, name, S.Received(sock, received, clock)) else s
  }

  class Server {
    var rooms: map<string, Room>
    var lobbyConns: seq<Sock>
    var roomConns: set<Sock>
    var roomAssignments: map<Sock, string>
    /** When the timers still armed for each room were armed. */
    var bombTimers: map<string, seq<Timestamp>>

    /** The tables, room objects aside, are those of `s`. */
    ghost predicate Keeps(s: S.ServerState)
      reads this
    {
      && rooms.Keys == s.rooms.Keys
      && lobbyConns == s.lobbyConns && roomConns == s.roomConns && roomAssignments == s.roomAssignments
      && forall n | n in s.rooms :: n in bombTimers && bombTimers[n] == s.rooms[n].timers
    }

    constructor ()
      ensures Keeps(S.NEW_SERVER)
    {
      rooms, lobbyConns, roomConns, roomAssignments, bombTimers := map[], [], {}, map[], map[];
    }

    lemma OutsideRooms(room: Room)
      ensures room in room.Footprint() && this !in room.Footprint()
    {
    }

    // ----- the socket tables

    method ArmTimers(name: string, count: nat, armed: Timestamp)
      requires name in bombTimers
      modifies this`bombTimers
      ensures bombTimers == old(bombTimers)[name := old(bombTimers)[name] + Repeat(armed, count)]
    {
      assert bombTimers[name] + Repeat(armed, 0) == bombTimers[name];
      for i := 0 to count
        invariant bombTimers == old(bombTimers)[name := old(bombTimers)[name] + Repeat(armed, i)]
      {
        var more := bombTimers[name] + [armed];
        assert more == old(bombTimers)[name] + Repeat(armed, i + 1);
        bombTimers := bombTimers[name := more];
      }
    }

    method ArmIf(name: string, placed: bool, armed: Timestamp, ghost s: S.ServerState, ghost w: World)
      requires Keeps(s) && name in s.rooms && w.timers == s.rooms[name].timers + if placed then [armed] else []
      modifies this`bombTimers
      ensures Keeps(s.(rooms := s.rooms[name := w]))
    {
      if placed {
        ArmTimers(name, 1, armed);
        assert Repeat(armed, 1) == [armed];
      }
    }

    method ForgetSockets(socks: seq<Sock>)
      modifies this`roomConns, this`roomAssignments
      ensures roomConns == old(roomConns) - set x | x in socks
      ensures roomAssignments == old(roomAssignments) - set x | x in socks
    {
      for i := 0 to |socks|
        invariant roomConns == old(roomConns) - set x | x in socks[..i]
        invariant roomAssignments == old(roomAssignments) - set x | x in socks[..i]
      {
        roomConns := roomConns - {socks[i]};
        roomAssignments := roomAssignments - {socks[i]};
      }
      assert socks[..|socks|] == socks;
    }

    /** The tables after room `name` has dropped `bombCount` bombs and closed `socks`;
        room objects are not touched. */
    method Settle(name: string, bombCount: nat, socks: seq<Sock>, armed: Timestamp, ghost s: S.ServerState,
            ghost w: World, ghost room: Room)
      requires Keeps(s) && name in s.rooms && room.Shows(w.room)
      requires w.timers == s.rooms[name].timers + Repeat(armed, bombCount)
      modifies this`bombTimers, this`roomConns, this`roomAssignments
      ensures Keeps(S.WithRoom(s, name, w, set x | x in socks)) && room.Shows(w.room)
    {
      OutsideRooms(room);
      SettleTables(name, bombCount, socks, armed, s, w);
    }

    method SettleTables(name: string, bombCount: nat, socks: seq<Sock>, armed: Timestamp, ghost s: S.ServerState,
            ghost w: World)
      requires Keeps(s) && name in s.rooms
      requires w.timers == s.rooms[name].timers + Repeat(armed, bombCount)
      modifies this`bombTimers, this`roomConns, this`roomAssignments
      ensures Keeps(S.WithRoom(s, name, w, set x | x in socks))
    {
      ArmTimers(name, bombCount, armed);
      ForgetSockets(socks);
    }

    /** Disconnects, then timers for the bombs dropped, then the tables. Here and below `t`
        is where `s` has got to. */
    method HandleRoomPostEvent(room: Room, name: string, now: Timestamp, armed: Timestamp, ghost s: S.ServerState)
      returns (ghost t: S.ServerState)
      requires Keeps(s) && name in s.rooms && room.Shows(s.rooms[name].room) && Distinct(s.rooms[name].room.players)
      modifies this`bombTimers, this`roomConns, this`roomAssignments, room.Footprint()
      ensures room.Footprint() <= old(room.Footprint())
      ensures var w := s.rooms[name];
        t == S.WithRoom(s, name, Post(w, now, armed), set x | x in DisconnectPlayers(w.room, now).sockets)
      ensures Keeps(t) && room.Shows(t.rooms[name].room)
    {
      ghost var w := s.rooms[name];
      ghost var d := DisconnectPlayers(w.room, now);
      OutsideRooms(room);
      var bombCount, socks := DisconnectIn(room, now, w.room);
      assert Keeps(s);
      Settle(name, bombCount, socks, armed, s, Post(w, now, armed), room);
      t := S.WithRoom(s, name, Post(w, now, armed), set x | x in socks);
    }

    // ----- the lobby

    /** The lobby list without the entry at `idx`, its last for that socket, if any. */
    method EraseLast(sock: Sock)
      modifies this`lobbyConns
      ensures lobbyConns == S.RemoveLast(old(lobbyConns), sock)
    {
      var idx := -1;
      for i := 0 to |lobbyConns|
        invariant lobbyConns == old(lobbyConns) && -1 <= idx < i
        invariant idx >= 0 ==> lobbyConns[idx] == sock
        invariant forall j | idx < j < i :: lobbyConns[j] != sock
      {
        if lobbyConns[i] == sock {
          idx := i;
        }
      }
      if idx != -1 {
        assert lobbyConns == lobbyConns[..idx] + [sock] + lobbyConns[idx + 1..];
        LastErased(lobbyConns[..idx], sock, lobbyConns[idx + 1..]);
        lobbyConns := lobbyConns[..idx] + lobbyConns[idx + 1..];
      } else {
        NoneErased(lobbyConns, sock);
      }
    }

    method Accept(newSock: Sock, ghost s: S.ServerState) returns (ghost t: S.ServerState)
      requires Keeps(s)
      modifies this`lobbyConns, this`roomConns, this`roomAssignments
      ensures t == S.Accept(s, newSock) && Keeps(t)
    {
      EraseLast(newSock);
      if newSock in roomConns || newSock in roomAssignments {
        roomConns := roomConns - {newSock};
        roomAssignments := roomAssignments - {newSock};
      }
      lobbyConns := lobbyConns + [newSock];
      t := S.Accept(s, newSock);
    }

    method CleanupSock(sock: Sock, ghost s: S.ServerState) returns (ghost t: S.ServerState)
      requires Keeps(s)
      modifies this`lobbyConns, this`roomConns, this`roomAssignments
      ensures t == S.CleanupSock(s, sock) && Keeps(t)
    {
      var i := 0;
      while i < |lobbyConns| && lobbyConns[i] != sock
        invariant i <= |lobbyConns| && forall j | 0 <= j < i :: lobbyConns[j] != sock
      {
        i := i + 1;
      }
      FirstErased(lobbyConns, sock, i);
      if i < |lobbyConns| {
        lobbyConns := lobbyConns[..i] + lobbyConns[i + 1..];
      }
      roomConns := roomConns - {sock};
      roomAssignments := roomAssignments - {sock};
      t := S.CleanupSock(s, sock);
    }

    /** An error reply; the connection is closed if it does not get through. */
    method Refuse(sock: Sock, sendOk: bool, ghost s: S.ServerState) returns (ghost t: S.ServerState)
      requires Keeps(s)
      modifies this`lobbyConns, this`roomConns, this`roomAssignments
      ensures t == S.Refuse(s, sock, sendOk) && Keeps(t)
    {
      t := s;
      if !sendOk {
        t := CleanupSock(sock, s);
      }
    }

    /** ... with no room object touched. */
    method RefuseJoin(sock: Sock, sendOk: bool, ghost s: S.ServerState, ghost room: Room, ghost r: RoomState)
      returns (ghost t: S.ServerState)
      requires Keeps(s) && room.Shows(r)
      modifies this`lobbyConns, this`roomConns, this`roomAssignments
      ensures t == S.Refuse(s, sock, sendOk) && Keeps(t) && room.Shows(r)
      ensures room.Footprint() == old(room.Footprint())
    {
      OutsideRooms(room);
      t := Refuse(sock, sendOk, s);
    }

    /** The rooms' states and head counts are those of `s`. */
    ghost predicate Counts(s: S.ServerState)
      reads this, rooms.Values
    {
      rooms.Keys == s.rooms.Keys &&
      forall n | n in rooms :: rooms[n].state == s.rooms[n].room.state &&
        rooms[n].clientCount == s.rooms[n].room.clientCount
    }

    /** Rooms that are not full, and rooms that are over; the table is walked in no
        particular order. */
    method SortRooms(ghost s: S.ServerState) returns (roomList: seq<S.ListedRoom>, finished: set<string>)
      requires Counts(s)
      ensures S.ListsRooms(s, roomList)
      ensures finished == set n | n in s.rooms && s.rooms[n].room.state == GameOver
    {
      roomList, finished := [], {};
      var left := rooms.Keys;
      while left != {}
        invariant left <= rooms.Keys
        invariant S.ListsSome(s, roomList, rooms.Keys - left)
        invariant finished == set n | n in rooms.Keys - left && s.rooms[n].room.state == GameOver
        decreases left
      {
        var name :| name in left;
        ghost var done := rooms.Keys - left;
        left := left - {name};
        assert rooms.Keys - left == done + {name};
        if rooms[name].state == GameOver {
          finished := finished + {name};
        }
        if rooms[name].clientCount != MAX_PLAYERS {
          roomList := roomList + [S.ListedRoom(name, rooms[name].clientCount)];
        }
      }
      assert rooms.Keys - left == s.rooms.Keys;
    }

    /** `GET_ROOM_LIST`: the reply, and finished rooms destroyed. */
    method HandleGetRoomList(sock: Sock, sendOk: bool, ghost s: S.ServerState)
      returns (roomList: seq<S.ListedRoom>, ghost t: S.ServerState)
      requires Keeps(s) && Counts(s)
      modifies this`rooms, this`lobbyConns, this`roomConns, this`roomAssignments
      ensures S.ListsRooms(s, roomList)
      ensures t == S.ListRooms(s, sock, sendOk) && Keeps(t)
      ensures forall n | n in rooms :: rooms[n] == old(rooms)[n]
    {
      var finished;
      roomList, finished := SortRooms(s);
      rooms := rooms - finished;
      t := S.ListRooms(s, sock, true);
      if !sendOk {
        t := CleanupSock(sock, t);
      }
    }

    /** The connection moves into room `name`, unless it cannot join. */
    method JoinNamed(room: Room, name: string, sock: Sock, username: string, faults: set<nat>, now: Timestamp,
            sendOk: bool, ghost s: S.ServerState)
      returns (ghost t: S.ServerState, ghost grown: set<object>)
      requires Keeps(s) && name in s.rooms && room.Shows(s.rooms[name].room) && Inv(s.rooms[name])
      modifies this`lobbyConns, this`roomConns, this`roomAssignments, room.Footprint()
      ensures t == S.JoinNamed(s, sock, name, Join(sock, username, faults, [now]), sendOk)
      ensures fresh(grown) && room.Footprint() <= old(room.Footprint()) + grown
      ensures Keeps(t) && room.Shows(t.rooms[name].room)
    {
      grown := {};
      ghost var r := s.rooms[name].room;
      OutsideRooms(room);
      var allowed := CanJoinIn(room, username, r);
      if !allowed {
        t := RefuseJoin(sock, sendOk, s, room, r);
        return;
      }
      t := S.JoinNamed(s, sock, name, Join(sock, username, faults, [now]), sendOk);
      JoinAdmits(s, name, sock, username, faults, now, sendOk);
      grown := Admit(room, name, sock, username, faults, now, s, t);
    }

    method Admit(room: Room, name: string, sock: Sock, username: string, faults: set<nat>, now: Timestamp,
            ghost s: S.ServerState, ghost t: S.ServerState)
      returns (ghost grown: set<object>)
      requires Keeps(s) && name in s.rooms && room.Shows(s.rooms[name].room)
      requires var r := s.rooms[name].room;
        var joins := r.state == WaitForStart;
        && (joins ==> IsColor(|r.players|))
        && Admitted(s, t, name, sock, joins)
        && t.rooms[name].room == if joins then JoinPlayer(r, sock, username, faults, now) else r
      modifies this`lobbyConns, this`roomConns, this`roomAssignments, room.Footprint()
      ensures fresh(grown) && room.Footprint() <= old(room.Footprint()) + grown
      ensures Keeps(t) && room.Shows(t.rooms[name].room)
    {
      OutsideRooms(room);
      ghost var r := t.rooms[name].room;
      var joined;
      joined, grown := JoinPlayerIn(room, sock, username, faults, now, s.rooms[name].room);
      assert Keeps(s);
      MoveToRoom(name, sock, joined, s, t, room, r);
    }

    /** The socket has left the lobby and, if `joined`, is booked into room `name`. */
    ghost predicate Admitted(s: S.ServerState, t: S.ServerState, name: string, sock: Sock, joined: bool) {
      && t.rooms.Keys == s.rooms.Keys && (forall n | n in s.rooms :: t.rooms[n].timers == s.rooms[n].timers)
      && t.lobbyConns == S.RemoveLast(s.lobbyConns, sock)
      && t.roomConns == (if joined then s.roomConns + {sock} else s.roomConns + {sock} - {sock})
      && t.roomAssignments == if joined then s.roomAssignments[sock := name] else s.roomAssignments
    }

    lemma JoinAdmits(s: S.ServerState, name: string, sock: Sock, username: string, faults: set<nat>, now: Timestamp,
            sendOk: bool)
      requires name in s.rooms && Inv(s.rooms[name]) && CanJoin(s.rooms[name].room, username)
      ensures var t := S.JoinNamed(s, sock, name, Join(sock, username, faults, [now]), sendOk);
        var r := s.rooms[name].room;
        var joins := r.state == WaitForStart;
        && (joins ==> IsColor(|r.players|))
        && Admitted(s, t, name, sock, joins)
        && t.rooms[name].room == if joins then JoinPlayer(r, sock, username, faults, now) else r
    {
    }

    /** The tables' part of a join; room objects are not touched. */
    method MoveToRoom(name: string, sock: Sock, joined: bool, ghost s: S.ServerState, ghost t: S.ServerState,
            ghost room: Room, ghost r: RoomState)
      requires Keeps(s) && Admitted(s, t, name, sock, joined) && room.Shows(r)
      modifies this`lobbyConns, this`roomConns, this`roomAssignments
      ensures Keeps(t) && room.Shows(r)
    {
      OutsideRooms(room);
      MoveSocket(name, sock, joined, s, t);
    }

    method MoveSocket(name: string, sock: Sock, joined: bool, ghost s: S.ServerState, ghost t: S.ServerState)
      requires Keeps(s) && Admitted(s, t, name, sock, joined)
      modifies this`lobbyConns, this`roomConns, this`roomAssignments
      ensures Keeps(t)
    {
      roomConns := roomConns + {sock};
      EraseLast(sock);
      if joined {
        roomAssignments := roomAssignments[sock := name];
      } else {
        roomConns := roomConns - {sock};
      }
    }

    method OpenRoom(drawn: string, ghost now: Timestamp, ghost s: S.ServerState)
      returns (room: Room, ghost t: S.ServerState)
      requires Keeps(s) && drawn !in rooms
      modifies this`rooms, this`bombTimers
      ensures t == s.(rooms := s.rooms[drawn := NewWorld(now)]) && Keeps(t)
      ensures rooms == old(rooms)[drawn := room] && fresh(room) && fresh(room.Footprint()) && room.Shows(NEW_ROOM)
    {
      room := new Room();
      assert room.Shows(NEW_ROOM);
      OutsideRooms(room);
      rooms := rooms[drawn := room];
      bombTimers := bombTimers[drawn := []];
      t := s.(rooms := s.rooms[drawn := NewWorld(now)]);
    }

    /** ... into a room opened for it. */
    method JoinOpened(drawn: string, sock: Sock, username: string, faults: set<nat>, now: Timestamp, sendOk: bool,
            ghost s: S.ServerState)
      returns (room: Room, ghost t: S.ServerState, ghost grown: set<object>)
      requires Keeps(s) && drawn !in rooms
      modifies this
      ensures t == S.JoinRoom(s, sock, None, drawn, Join(sock, username, faults, [now]), sendOk) && Keeps(t)
      ensures rooms == old(rooms)[drawn := room] && fresh(grown) && room.Footprint() <= grown
      ensures room.Shows(t.rooms[drawn].room)
    {
      room, t := OpenRoom(drawn, now, s);
      t, grown := JoinFirst(room, drawn, sock, username, faults, now, sendOk, t, room.Footprint());
    }

    /** The first to join a room just made of the objects `made`. */
    method JoinFirst(room: Room, name: string, sock: Sock, username: string, faults: set<nat>, now: Timestamp,
            sendOk: bool, ghost s: S.ServerState, ghost made: set<object>)
      returns (ghost t: S.ServerState, ghost grown: set<object>)
      requires Keeps(s) && name in s.rooms && s.rooms[name] == NewWorld(now) && room.Shows(NEW_ROOM)
      requires room.Footprint() <= made && this !in made
      modifies this`lobbyConns, this`roomConns, this`roomAssignments, made
      ensures unchanged(this`rooms)
      ensures t == S.JoinNamed(s, sock, name, Join(sock, username, faults, [now]), sendOk) && Keeps(t)
      ensures fresh(grown - made) && room.Footprint() <= grown && room.Shows(t.rooms[name].room)
    {
      OutsideRooms(room);
      NewWorldIsGood(now);
      t, grown := JoinNamed(room, name, sock, username, faults, now, sendOk, s);
      grown := grown + made;
    }

    /** `JOIN_ROOM`: into the room asked for, or into a new one named `drawn`. */
    method HandleJoinRoom(asked: Option<string>, drawn: string, sock: Sock, username: string, faults: set<nat>,
            now: Timestamp, sendOk: bool, ghost s: S.ServerState)
      returns (ghost t: S.ServerState, ghost grown: set<object>)
      requires Keeps(s) && (asked == None ==> drawn !in rooms)
      requires asked.Some? && asked.value in rooms ==>
        rooms[asked.value].Shows(s.rooms[asked.value].room) && Inv(s.rooms[asked.value])
      modifies this, if asked.Some? && asked.value in rooms then rooms[asked.value].Footprint() else {}
      ensures t == S.JoinRoom(s, sock, asked, drawn, Join(sock, username, faults, [now]), sendOk) && Keeps(t)
      ensures asked == None ==> drawn in rooms && rooms == old(rooms)[drawn := rooms[drawn]]
      ensures fresh(grown) && (asked == None ==> rooms[drawn].Footprint() <= grown)
      ensures asked.Some? ==> unchanged(this`rooms)
      ensures asked.Some? && asked.value in rooms ==>
        rooms[asked.value].Footprint() <= old(rooms[asked.value].Footprint()) + grown
      ensures var name := if asked.Some? then asked.value else drawn; name in rooms ==>
          rooms[name].Shows(t.rooms[name].room)
    {
      match asked
      case None =>
        var room;
        room, t, grown := JoinOpened(drawn, sock, username, faults, now, sendOk, s);
      case Some(name) =>
        if name in rooms {
          OutsideRooms(rooms[name]);
          t, grown := JoinNamed(rooms[name], name, sock, username, faults, now, sendOk, s);
        } else {
          t := Refuse(sock, sendOk, s);
          grown := {};
        }
    }

    // ----- player events

    /** A message handled in room `name`, and its bomb's timer armed. */
    method HandleMessage(room: Room, name: string, k: nat, msg: ClientMsg, now: Timestamp, armed: Timestamp,
            ghost s: S.ServerState)
      returns (ghost t: S.ServerState)
      requires Keeps(s) && name in s.rooms && room.Shows(s.rooms[name].room) && k < |s.rooms[name].room.players|
      requires msg.IMove? ==> InGrid(msg.to)
      modifies this`bombTimers, room.Footprint()
      ensures room.Footprint() == old(room.Footprint())
      ensures t == s.(rooms := s.rooms[name := Heard(s.rooms[name], k, msg, now, armed)])
      ensures Keeps(t) && room.Shows(t.rooms[name].room)
    {
      ghost var w := s.rooms[name];
      OutsideRooms(room);
      var placed := HearIn(room, k, msg, now, w.room);
      assert Keeps(s);
      ArmIf(name, placed, armed, s, Heard(w, k, msg, now, armed));
      assert room.Shows(RoomSpec.HandleMessage(w.room, k, msg, now).0);
      t := s.(rooms := s.rooms[name := Heard(w, k, msg, now, armed)]);
    }

    method MarkLost(room: Room, name: string, k: nat, ghost now: Timestamp, ghost s: S.ServerState)
      returns (ghost t: S.ServerState)
      requires Keeps(s) && name in s.rooms && room.Shows(s.rooms[name].room) && k < |s.rooms[name].room.players|
      modifies room.Footprint()
      ensures room.Footprint() == old(room.Footprint())
      ensures t == s.(rooms := s.rooms[name := Marked(s.rooms[name], k, now)])
      ensures Keeps(t) && room.Shows(t.rooms[name].room)
    {
      OutsideRooms(room);
      MarkIn(room, k, s.rooms[name].room);
      assert Keeps(s);
      t := s.(rooms := s.rooms[name := Marked(s.rooms[name], k, now)]);
    }

    /** The player is marked, then the disconnects. */
    method LoseIn(room: Room, name: string, ghost sock: Sock, k: nat, clock: seq<Timestamp>, ghost s: S.ServerState)
      returns (ghost t: S.ServerState)
      requires Keeps(s) && name in s.rooms && room.Shows(s.rooms[name].room) && Inv(s.rooms[name])
      requires Enabled(s.rooms[name], Lose(sock, clock)) && k == IndexOf(s.rooms[name].room.players, sock)
      modifies this`bombTimers, this`roomConns, this`roomAssignments, room.Footprint()
      ensures room.Footprint() <= old(room.Footprint())
      ensures t == S.RoomStep(s, name, Lose(sock, clock))
      ensures Keeps(t) && room.Shows(t.rooms[name].room)
    {
      ghost var s1;
      MarkedKeeps(s.rooms[name], k, clock[0]);
      s1 := MarkLost(room, name, k, clock[0], s);
      t := HandleRoomPostEvent(room, name, clock[0], clock[1], s1);
      LostSettled(s, name, sock, clock);
    }

    /** The message, then the disconnects, then the disconnects again. */
    method HearTwice(room: Room, name: string, ghost sock: Sock, k: nat, msg: ClientMsg, clock: seq<Timestamp>,
            ghost s: S.ServerState)
      returns (ghost t: S.ServerState)
      requires Keeps(s) && name in s.rooms && room.Shows(s.rooms[name].room) && Inv(s.rooms[name])
      requires Enabled(s.rooms[name], Hear(sock, msg, clock)) && k == IndexOf(s.rooms[name].room.players, sock)
      modifies this`bombTimers, this`roomConns, this`roomAssignments, room.Footprint()
      ensures room.Footprint() <= old(room.Footprint())
      ensures t == S.RoomStep(s, name, Hear(sock, msg, clock))
      ensures Keeps(t) && room.Shows(t.rooms[name].room)
    {
      ghost var u;
      u := HearOnce(room, name, k, msg, clock, s);
      t := HandleRoomPostEvent(room, name, clock[4], clock[5], u);
      HeardSettled(s, name, sock, msg, clock);
    }

    /** The message, then the disconnects. */
    method HearOnce(room: Room, name: string, k: nat, msg: ClientMsg, clock: seq<Timestamp>, ghost s: S.ServerState)
      returns (ghost t: S.ServerState)
      requires Keeps(s) && name in s.rooms && room.Shows(s.rooms[name].room) && Inv(s.rooms[name])
      requires k < |s.rooms[name].room.players| && InRange(msg) && s.rooms[name].room.state != GameOver
      requires |clock| == 6 && s.rooms[name].now <= clock[0] <= clock[1] <= clock[2] <= clock[3]
      modifies this`bombTimers, this`roomConns, this`roomAssignments, room.Footprint()
      ensures room.Footprint() <= old(room.Footprint())
      ensures var u := Heard(s.rooms[name], k, msg, clock[0], clock[1]);
        t == S.WithRoom(s.(rooms := s.rooms[name := u]), name, Post(u, clock[2], clock[3]),
            set x | x in DisconnectPlayers(u.room, clock[2]).sockets)
      ensures Keeps(t) && room.Shows(t.rooms[name].room) && Distinct(t.rooms[name].room.players)
    {
      ghost var u;
      HeardKeeps(s.rooms[name], k, msg, clock[0], clock[1]);
      u := HandleMessage(room, name, k, msg, clock[0], clock[1], s);
      PostKeeps(u.rooms[name], clock[2], clock[3]);
      t := HandleRoomPostEvent(room, name, clock[2], clock[3], u);
    }

    /** A section of `runRooms`, for the player and room of a table entry. A player
        already marked, or in a finished room, is not listened to. */
    method HandlePlayerEvent(room: Room, name: string, sock: Sock, received: Option<ClientMsg>,
            clock: seq<Timestamp>, ghost s: S.ServerState)
      returns (ghost t: S.ServerState)
      requires Keeps(s) && MayHear(s, name, sock, received, clock) && room.Shows(s.rooms[name].room)
      modifies this`bombTimers, this`roomConns, this`roomAssignments, room.Footprint()
      ensures room.Footprint() <= old(room.Footprint())
      ensures t == Served(s, name, sock, received, clock)
      ensures Keeps(t) && room.Shows(t.rooms[name].room)
    {
      ReachableIsGood(s.rooms[name]);
      var k, heeds := Heeds(room, sock, s.rooms[name]);
      if !heeds {
        return s;
      }
      match received
      case None => t := LoseIn(room, name, sock, k, clock, s);
      case Some(msg) => t := HearTwice(room, name, sock, k, msg, clock, s);
    }

    // ----- timer events

    /** Timer number `j` of room `name` goes off. */
    method FireTimer(room: Room, name: string, j: nat, draw: nat, now: Timestamp, ghost s: S.ServerState)
      returns (ghost t: S.ServerState)
      requires Keeps(s) && name in s.rooms && room.Shows(s.rooms[name].room) && Grounded(s.rooms[name].room)
      requires j < |s.rooms[name].timers| && DrawDefined(s.rooms[name].room, draw, now)
      modifies this`bombTimers, room.Footprint()
      ensures room.Footprint() == old(room.Footprint())
      ensures t == s.(rooms := s.rooms[name := Fired(s.rooms[name], j, draw, now)])
      ensures Keeps(t) && room.Shows(t.rooms[name].room)
    {
      ghost var w := s.rooms[name];
      ghost var fired, r := Fired(w, j, draw, now), NotifyExplosion(w.room, draw, now).room;
      assert fired.room == r;
      OutsideRooms(room);
      FieldIsWalled(w.room.field);
      DropTimer(name, j, s, fired, room, w.room);
      t := s.(rooms := s.rooms[name := fired]);
      ExplodeIn(room, draw, now, w.room);
      assert Keeps(t);
    }

    method DropTimer(name: string, j: nat, ghost s: S.ServerState, ghost w: World, ghost room: Room, ghost r: RoomState)
      requires Keeps(s) && name in s.rooms && j < |s.rooms[name].timers| && room.Shows(r)
      requires w.timers == s.rooms[name].timers[..j] + s.rooms[name].timers[j + 1..]
      modifies this`bombTimers
      ensures Keeps(s.(rooms := s.rooms[name := w])) && room.Shows(r)
    {
      OutsideRooms(room);
      bombTimers := bombTimers[name := bombTimers[name][..j] + bombTimers[name][j + 1..]];
    }

    /** A section of `runBombs`. */
    method HandleTimerEvent(room: Room, name: string, j: nat, draw: nat, clock: seq<Timestamp>, ghost s: S.ServerState)
      returns (ghost t: S.ServerState)
      requires Keeps(s) && name in s.rooms && room.Shows(s.rooms[name].room) && Inv(s.rooms[name])
      requires Enabled(s.rooms[name], Fire(j, draw, clock))
      modifies this`bombTimers, this`roomConns, this`roomAssignments, room.Footprint()
      ensures room.Footprint() <= old(room.Footprint())
      ensures t == S.RoomStep(s, name, Fire(j, draw, clock))
      ensures Keeps(t) && room.Shows(t.rooms[name].room)
    {
      ghost var s1;
      FiredKeeps(s.rooms[name], j, draw, clock[0]);
      s1 := FireTimer(room, name, j, draw, clock[0], s);
      t := HandleRoomPostEvent(room, name, clock[1], clock[2], s1);
      FiredSettled(s, name, j, draw, clock);
    }
  }

  lemma {:induction false} LastErased(front: seq<Sock>, sock: Sock, back: seq<Sock>)
    requires sock !in back
    ensures S.RemoveLast(front + [sock] + back, sock) == front + back
  {
    var conns := front + [sock] + back;
    if back == [] {
      assert conns[..|conns| - 1] == front;
    } else {
      var m := |back| - 1;
      LastErased(front, sock, back[..m]);
      assert conns[..|conns| - 1] == front + [sock] + back[..m];
      assert front + back[..m] + [back[m]] == front + back;
    }
  }

  lemma {:induction false} NoneErased(conns: seq<Sock>, sock: Sock)
    requires sock !in conns
    ensures S.RemoveLast(conns, sock) == conns
  {
    if conns != [] {
      NoneErased(conns[..|conns| - 1], sock);
    }
  }

  lemma {:induction false} FirstErased(conns: seq<Sock>, sock: Sock, i: nat)
    requires i <= |conns| && (i < |conns| ==> conns[i] == sock)
    requires forall j | 0 <= j < i :: conns[j] != sock
    ensures S.RemoveFirst(conns, sock) == if i == |conns| then conns else conns[..i] + conns[i + 1..]
  {
    if 0 < i {
      FirstErased(conns[1..], sock, i - 1);
      if i < |conns| {
        assert conns[..i] + conns[i + 1..] == [conns[0]] + (conns[1..][..i - 1] + conns[1..][i..]);
      }
    }
  }

  lemma LostSettled(s: S.ServerState, name: string, sock: Sock, clock: seq<Timestamp>)
    requires name in s.rooms && Enabled(s.rooms[name], Lose(sock, clock))
    ensures var u := Marked(s.rooms[name], IndexOf(s.rooms[name].room.players, sock), clock[0]);
      var closed := set x | x in DisconnectPlayers(u.room, clock[0]).sockets;
      S.WithRoom(s.(rooms := s.rooms[name := u]), name, Post(u, clock[0], clock[1]), closed)
      == S.RoomStep(s, name, Lose(sock, clock))
  {
    var u := Marked(s.rooms[name], IndexOf(s.rooms[name].room.players, sock), clock[0]);
    OnceSettled(s, name, u, Post(u, clock[0], clock[1]), DisconnectPlayers(u.room, clock[0]).sockets);
  }

  lemma FiredSettled(s: S.ServerState, name: string, j: nat, draw: nat, clock: seq<Timestamp>)
    requires name in s.rooms && Enabled(s.rooms[name], Fire(j, draw, clock))
    ensures var u := Fired(s.rooms[name], j, draw, clock[0]);
      var closed := set x | x in DisconnectPlayers(u.room, clock[1]).sockets;
      S.WithRoom(s.(rooms := s.rooms[name := u]), name, Post(u, clock[1], clock[2]), closed)
      == S.RoomStep(s, name, Fire(j, draw, clock))
  {
    var u := Fired(s.rooms[name], j, draw, clock[0]);
    OnceSettled(s, name, u, Post(u, clock[1], clock[2]), DisconnectPlayers(u.room, clock[1]).sockets);
  }

  lemma HeardSettled(s: S.ServerState, name: string, sock: Sock, msg: ClientMsg, clock: seq<Timestamp>)
    requires name in s.rooms && Enabled(s.rooms[name], Hear(sock, msg, clock))
    ensures var u := Heard(s.rooms[name], IndexOf(s.rooms[name].room.players, sock), msg, clock[0], clock[1]);
      var v := Post(u, clock[2], clock[3]);
      S.WithRoom(
        S.WithRoom(s.(rooms := s.rooms[name := u]), name, v, set x | x in DisconnectPlayers(u.room, clock[2]).sockets),
        name, Post(v, clock[4], clock[5]), set x | x in DisconnectPlayers(v.room, clock[4]).sockets)
      == S.RoomStep(s, name, Hear(sock, msg, clock))
  {
    var u := Heard(s.rooms[name], IndexOf(s.rooms[name].room.players, sock), msg, clock[0], clock[1]);
    var v := Post(u, clock[2], clock[3]);
    TwiceSettled(s, name, u, v, Post(v, clock[4], clock[5]),
      DisconnectPlayers(u.room, clock[2]).sockets, DisconnectPlayers(v.room, clock[4]).sockets);
  }

  lemma OnceSettled(s: S.ServerState, name: string, u: World, v: World, a: seq<Sock>)
    ensures S.WithRoom(s.(rooms := s.rooms[name := u]), name, v, set x | x in a) ==
        S.WithRoom(s, name, v, set x | x in a)
  {
    assert s.rooms[name := u][name := v] == s.rooms[name := v];
  }

  lemma TwiceSettled(s: S.ServerState, name: string, u: World, v: World, w: World, a: seq<Sock>, b: seq<Sock>)
    ensures S.WithRoom(S.WithRoom(s.(rooms := s.rooms[name := u]), name, v, set x | x in a), name, w, set x | x in b)
         == S.WithRoom(s, name, w, set x | x in a + b)
  {
    assert (set x | x in a + b) == (set x | x in a) + set x | x in b;
    assert s.rooms[name := u][name := v][name := w] == s.rooms[name := w];
  }
}
