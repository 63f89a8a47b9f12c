/** The server's event loops: every section leaves the server as `ServerSpec` says, all
    its rooms included. */
module ServerLoop {
  import opened Messages
  import opened RoomSpec
  import opened RoomFacts
  import opened RoomRun
  import opened RoomInvariants
  import opened RoomTheorems
  import opened RoomObject
  import opened ServerSpec
  import opened ServerTheorems
  import opened ServerObject

  /** The room stands as `r` says and is made of objects in `area`. */
  ghost predicate Owns(room: Room, area: set<object>, r: RoomState)
    reads room, room.Footprint()
  {
    room.Shows(r) && room.Footprint() <= area
  }

  /** Every room stands as its world says, in its own area. */
  ghost predicate Stand(rooms: map<string, Room>, areas: map<string, set<object>>, worlds: map<string, World>)
    reads *
  {
    && rooms.Keys == worlds.Keys == areas.Keys
    && forall n | n in rooms :: Owns(rooms[n], areas[n], worlds[n].room)
  }

  /** No two rooms share an object, and none is the server. */
  ghost predicate Separate(server: Server, areas: map<string, set<object>>) {
    && (forall n | n in areas :: server !in areas[n])
    && forall m, n | m in areas && n in areas && m != n :: areas[m] !! areas[n]
  }

  /** Tables and rooms of the server are those of `s`. */
  ghost predicate Linked(server: Server, s: ServerState, areas: map<string, set<object>>)
    reads *
  {
    server.Keeps(s) && Stand(server.rooms, areas, s.rooms) && Separate(server, areas)
  }

  /** ... and `s` is a state in order. */
  ghost predicate InStep(server: Server, s: ServerState, areas: map<string, set<object>>)
    reads *
  {
    Linked(server, s, areas) && Booked(s) && RoomsReachable(s)
  }

  // ----- what is not touched stands

  /** A room, or rooms, with the objects they are made of. */
  datatype Plot = Plot(room: Room, area: set<object>)
  datatype Estate = Estate(rooms: map<string, Room>, areas: map<string, set<object>>)
  datatype Site = Site(server: Server, areas: map<string, set<object>>)

  twostate lemma Untouched(p: Plot, new r: RoomState)
    requires old(Owns(p.room, p.area, r)) && unchanged(p.area)
    ensures Owns(p.room, p.area, r)
  {
  }

  twostate lemma OthersStand(e: Estate, new after: map<string, Room>, new worlds: map<string, World>,
          new names: set<string>)
    requires old(Stand(e.rooms, e.areas, worlds)) && names <= e.rooms.Keys && names <= after.Keys
    requires forall n | n in names :: after[n] == e.rooms[n] && unchanged(e.areas[n])
    ensures forall n | n in names :: Owns(after[n], e.areas[n], worlds[n].room)
  {
    forall n | n in names
      ensures Owns(after[n], e.areas[n], worlds[n].room)
    {
      Untouched(Plot(e.rooms[n], e.areas[n]), worlds[n].room);
    }
  }

  lemma OneMoved(rooms: map<string, Room>, areas: map<string, set<object>>, worlds: map<string, World>, name: string,
          area: set<object>, w: World)
    requires worlds.Keys == areas.Keys && rooms.Keys == worlds.Keys + {name}
    requires forall n | n in rooms.Keys - {name} :: Owns(rooms[n], areas[n], worlds[n].room)
    requires Owns(rooms[name], area, w.room)
    ensures Stand(rooms, areas[name := area], worlds[name := w])
  {
  }

  /** All areas. */
  ghost function All(areas: map<string, set<object>>): set<object> {
    set n, o | n in areas && o in areas[n] :: o
  }

  lemma AwayFromAll(server: Server, s: ServerState, areas: map<string, set<object>>)
    requires Linked(server, s, areas)
    ensures server !in All(areas)
  {
  }

  /** Every area but that of room `name`. */
  ghost function Beyond(areas: map<string, set<object>>, name: string): set<object> {
    set n, o | n in areas.Keys - {name} && o in areas[n] :: o
  }

  lemma AwayFrom(server: Server, areas: map<string, set<object>>, name: string)
    requires Separate(server, areas)
    ensures server !in Beyond(areas, name) && (name in areas ==> areas[name] !! Beyond(areas, name))
  {
  }

  /** One room has got on, its area grown by new objects at most, and the tables with it. */
  twostate lemma RoomGotOn(x: Site, new s: ServerState, new t: ServerState, new name: string, new w: World,
          new area: set<object>)
    requires old(Linked(x.server, s, x.areas)) && t.rooms == s.rooms[name := w]
    requires x.server.Keeps(t) && x.server.rooms.Keys == t.rooms.Keys
    requires forall n | n in s.rooms.Keys - {name} :: x.server.rooms[n] == old(x.server.rooms)[n]
    requires Owns(x.server.rooms[name], area, w.room)
    requires fresh(area - if name in x.areas then x.areas[name] else {})
    requires unchanged(Beyond(x.areas, name))
    ensures Linked(x.server, t, x.areas[name := area])
  {
    RoomsStand(x, s, name, w, area);
    AreaGrows(x, name, area);
  }

  twostate lemma RoomsStand(x: Site, new s: ServerState, new name: string, new w: World, new area: set<object>)
    requires old(Linked(x.server, s, x.areas)) && x.server.rooms.Keys == s.rooms.Keys + {name}
    requires forall n | n in s.rooms.Keys - {name} :: x.server.rooms[n] == old(x.server.rooms)[n]
    requires Owns(x.server.rooms[name], area, w.room) && unchanged(Beyond(x.areas, name))
    ensures Stand(x.server.rooms, x.areas[name := area], s.rooms[name := w])
  {
    OthersStand(Estate(old(x.server.rooms), x.areas), x.server.rooms, s.rooms, s.rooms.Keys - {name});
    OneMoved(x.server.rooms, x.areas, s.rooms, name, area, w);
  }

  lemma InPlace(rooms: map<string, Room>, areas: map<string, set<object>>, worlds: map<string, World>, name: string)
    requires name in areas && Stand(rooms, areas[name := areas[name]], worlds)
    ensures Stand(rooms, areas, worlds)
  {
    assert areas[name := areas[name]] == areas;
  }

  /** ... within its area. */
  twostate lemma RoomGotOnInPlace(x: Site, new s: ServerState, new t: ServerState, new name: string, new w: World)
    requires old(Linked(x.server, s, x.areas)) && name in s.rooms && t.rooms == s.rooms[name := w]
    requires x.server.Keeps(t) && unchanged(x.server`rooms)
    requires Owns(x.server.rooms[name], x.areas[name], w.room)
    requires unchanged(Beyond(x.areas, name))
    ensures Linked(x.server, t, x.areas)
  {
    RoomsStand(x, s, name, w, x.areas[name]);
    InPlace(x.server.rooms, x.areas, s.rooms[name := w], name);
  }

  twostate lemma AreaGrows(x: Site, new name: string, new area: set<object>)
    requires Separate(x.server, x.areas) && fresh(area - if name in x.areas then x.areas[name] else {})
    ensures Separate(x.server, x.areas[name := area])
  {
  }

  /** The tables have got on, and rooms at most been dropped. */
  twostate lemma TablesGotOn(x: Site, new s: ServerState, new t: ServerState)
    requires old(Linked(x.server, s, x.areas)) && x.server.Keeps(t) && t.rooms.Keys <= s.rooms.Keys
    requires forall n | n in t.rooms :: t.rooms[n] == s.rooms[n] && x.server.rooms[n] == old(x.server.rooms)[n]
    requires unchanged(All(x.areas))
    ensures Linked(x.server, t, Areas(x.areas, t))
  {
    OthersStand(Estate(old(x.server.rooms), x.areas), x.server.rooms, s.rooms, t.rooms.Keys);
  }

  /** ... and no room dropped either. */
  twostate lemma OnlyTables(x: Site, new s: ServerState, new t: ServerState)
    requires old(Linked(x.server, s, x.areas)) && x.server.Keeps(t) && t.rooms == s.rooms && unchanged(x.server`rooms)
    requires unchanged(All(x.areas))
    ensures Linked(x.server, t, x.areas)
  {
    OthersStand(Estate(old(x.server.rooms), x.areas), x.server.rooms, s.rooms, s.rooms.Keys);
  }

  /** The areas of the rooms there are. */
  ghost function Areas(areas: map<string, set<object>>, t: ServerState): map<string, set<object>> {
    map n | n in areas && n in t.rooms :: areas[n]
  }

  /** A server that has just been set up. */
  method Launch() returns (server: Server)
    ensures fresh(server) && InStep(server, NEW_SERVER, map[])
  {
    server := new Server();
  }

  // ----- the lobby

  /** A connection is accepted: a section of `runLobby`. */
  method OnAccepted(server: Server, sock: Sock, ghost s: ServerState, ghost areas: map<string, set<object>>)
    returns (ghost t: ServerState)
    requires InStep(server, s, areas) && ServerEnabled(s, Accepted(sock))
    modifies server
    ensures t == ServerNext(s, Accepted(sock)) && InStep(server, t, areas)
  {
    ServerStepKeepsBooks(s, Accepted(sock));
    AwayFromAll(server, s, areas);
    t := AcceptApart(server, sock, s, All(areas));
    OnlyTables(Site(server, areas), s, t);
  }

  method AcceptApart(server: Server, sock: Sock, ghost s: ServerState, ghost others: set<object>)
    returns (ghost t: ServerState)
    requires server.Keeps(s) && server !in others
    modifies server
    ensures unchanged(server`rooms) && unchanged(others)
    ensures t == Accept(s, sock) && t.rooms == s.rooms && server.Keeps(t)
  {
    t := server.Accept(sock, s);
  }

  /** A connection in the lobby cannot be received from. */
  method OnLobbyLost(server: Server, sock: Sock, ghost s: ServerState, ghost areas: map<string, set<object>>)
    returns (ghost t: ServerState)
    requires InStep(server, s, areas) && ServerEnabled(s, LobbyLost(sock))
    modifies server
    ensures t == ServerNext(s, LobbyLost(sock)) && InStep(server, t, areas)
  {
    ServerStepKeepsBooks(s, LobbyLost(sock));
    AwayFromAll(server, s, areas);
    t := CleanupApart(server, sock, s, All(areas));
    OnlyTables(Site(server, areas), s, t);
  }

  method CleanupApart(server: Server, sock: Sock, ghost s: ServerState, ghost others: set<object>)
    returns (ghost t: ServerState)
    requires server.Keeps(s) && server !in others
    modifies server
    ensures unchanged(server`rooms) && unchanged(others)
    ensures t == CleanupSock(s, sock) && t.rooms == s.rooms && server.Keeps(t)
  {
    t := server.CleanupSock(sock, s);
  }

  /** A message that has no place in the lobby. */
  method OnOtherMsg(server: Server, sock: Sock, sendOk: bool, ghost s: ServerState,
          ghost areas: map<string, set<object>>)
    returns (ghost t: ServerState)
    requires InStep(server, s, areas) && ServerEnabled(s, OtherMsg(sock, sendOk))
    modifies server
    ensures t == ServerNext(s, OtherMsg(sock, sendOk)) && InStep(server, t, areas)
  {
    ServerStepKeepsBooks(s, OtherMsg(sock, sendOk));
    AwayFromAll(server, s, areas);
    t := RefuseApart(server, sock, sendOk, s, All(areas));
    OnlyTables(Site(server, areas), s, t);
  }

  method RefuseApart(server: Server, sock: Sock, sendOk: bool, ghost s: ServerState, ghost others: set<object>)
    returns (ghost t: ServerState)
    requires server.Keeps(s) && server !in others
    modifies server
    ensures unchanged(server`rooms) && unchanged(others)
    ensures t == Refuse(s, sock, sendOk) && t.rooms == s.rooms && server.Keeps(t)
  {
    t := server.Refuse(sock, sendOk, s);
  }

  /** The room list is asked for. */
  method OnGetRoomList(server: Server, sock: Sock, sendOk: bool, ghost s: ServerState,
          ghost areas: map<string, set<object>>)
    returns (roomList: seq<ListedRoom>, ghost t: ServerState)
    requires InStep(server, s, areas) && ServerEnabled(s, GetRoomList(sock, sendOk))
    modifies server
    ensures ListsRooms(s, roomList)
    ensures t == ServerNext(s, GetRoomList(sock, sendOk)) && InStep(server, t, Areas(areas, t))
  {
    AllCounted(server, s, areas);
    AwayFromAll(server, s, areas);
    roomList, t := ListApart(server, sock, sendOk, s, All(areas));
    TablesGotOn(Site(server, areas), s, t);
    ServerStepKeepsBooks(s, GetRoomList(sock, sendOk));
  }

  method ListApart(server: Server, sock: Sock, sendOk: bool, ghost s: ServerState, ghost others: set<object>)
    returns (roomList: seq<ListedRoom>, ghost t: ServerState)
    requires server.Keeps(s) && server.Counts(s) && server !in others
    modifies server
    ensures ListsRooms(s, roomList) && unchanged(others)
    ensures t == ListRooms(s, sock, sendOk) && t.rooms.Keys <= s.rooms.Keys && server.Keeps(t)
    ensures forall n | n in t.rooms :: t.rooms[n] == s.rooms[n] && server.rooms[n] == old(server.rooms)[n]
  {
    roomList, t := server.HandleGetRoomList(sock, sendOk, s);
  }

  lemma AllCounted(server: Server, s: ServerState, areas: map<string, set<object>>)
    requires Linked(server, s, areas)
    ensures server.Counts(s)
  {
    forall n | n in server.rooms
      ensures server.rooms[n].state == s.rooms[n].room.state
      ensures server.rooms[n].clientCount == s.rooms[n].room.clientCount
    {
      assert Owns(server.rooms[n], areas[n], s.rooms[n].room);
    }
  }

  function JoinEvent(sock: Sock, asked: Option<string>, drawn: string, username: string, faults: set<nat>,
          now: Timestamp, sendOk: bool): ServerEvent {
    JoinMsg(sock, asked, drawn, Join(sock, username, faults, [now]), sendOk)
  }

  lemma AllGrows(areas: map<string, set<object>>, name: string, area: set<object>, grown: set<object>)
    requires area <= (if name in areas then areas[name] else {}) + grown
    ensures All(areas[name := area]) <= All(areas) + grown
  {
  }

  /** A room is asked for, by name or not; `grown` are the objects made for it. */
  method OnJoin(server: Server, sock: Sock, asked: Option<string>, drawn: string, username: string, faults: set<nat>,
          now: Timestamp, sendOk: bool, ghost s: ServerState, ghost areas: map<string, set<object>>)
    returns (ghost t: ServerState, ghost after: map<string, set<object>>, ghost grown: set<object>)
    requires InStep(server, s, areas)
    requires ServerEnabled(s, JoinEvent(sock, asked, drawn, username, faults, now, sendOk))
    modifies server, if asked.Some? && asked.value in areas then areas[asked.value] else {}
    ensures t == ServerNext(s, JoinEvent(sock, asked, drawn, username, faults, now, sendOk))
    ensures InStep(server, t, after) && fresh(grown) && All(after) <= All(areas) + grown
  {
    ServerStepKeepsBooks(s, JoinEvent(sock, asked, drawn, username, faults, now, sendOk));
    if asked.Some? && asked.value in server.rooms {
      ReachableIsGood(s.rooms[asked.value]);
      t, after, grown := JoinKnown(server, sock, asked.value, drawn, username, faults, now, sendOk, s, areas);
    } else if asked.Some? {
      t := JoinUnknown(server, sock, asked.value, drawn, username, faults, now, sendOk, s, areas);
      after, grown := areas, {};
    } else {
      t, after, grown := JoinNew(server, sock, drawn, username, faults, now, sendOk, s, areas);
    }
  }

  method JoinKnown(server: Server, sock: Sock, name: string, drawn: string, username: string, faults: set<nat>,
          now: Timestamp, sendOk: bool, ghost s: ServerState, ghost areas: map<string, set<object>>)
    returns (ghost t: ServerState, ghost after: map<string, set<object>>, ghost grown: set<object>)
    requires Linked(server, s, areas) && name in s.rooms && Inv(s.rooms[name])
    modifies server, areas[name]
    ensures t == JoinRoom(s, sock, Some(name), drawn, Join(sock, username, faults, [now]), sendOk)
    ensures Linked(server, t, after) && fresh(grown) && All(after) <= All(areas) + grown
  {
    AwayFrom(server, areas, name);
    ghost var w;
    t, w, grown :=
      JoinIn(server, name, sock, drawn, username, faults, now, sendOk, s, areas[name], Beyond(areas, name));
    RoomGotOn(Site(server, areas), s, t, name, w, areas[name] + grown);
    after := areas[name := areas[name] + grown];
    AllGrows(areas, name, areas[name] + grown, grown);
  }

  method JoinIn(server: Server, name: string, sock: Sock, drawn: string, username: string, faults: set<nat>,
          now: Timestamp, sendOk: bool, ghost s: ServerState, ghost before: set<object>, ghost beyond: set<object>)
    returns (ghost t: ServerState, ghost w: World, ghost grown: set<object>)
    requires server.Keeps(s) && name in s.rooms && Inv(s.rooms[name])
    requires Owns(server.rooms[name], before, s.rooms[name].room) && server !in before + beyond && before !! beyond
    modifies server, before
    ensures unchanged(server`rooms) && unchanged(beyond) && fresh(grown)
    ensures t == JoinRoom(s, sock, Some(name), drawn, Join(sock, username, faults, [now]), sendOk)
    ensures t.rooms == s.rooms[name := w]
    ensures server.Keeps(t) && Owns(server.rooms[name], before + grown, w.room)
  {
    t, grown := server.HandleJoinRoom(Some(name), drawn, sock, username, faults, now, sendOk, s);
    w := t.rooms[name];
  }

  method JoinUnknown(server: Server, sock: Sock, name: string, drawn: string, username: string, faults: set<nat>,
          now: Timestamp, sendOk: bool, ghost s: ServerState, ghost areas: map<string, set<object>>)
    returns (ghost t: ServerState)
    requires Linked(server, s, areas) && name !in s.rooms
    modifies server
    ensures t == JoinRoom(s, sock, Some(name), drawn, Join(sock, username, faults, [now]), sendOk)
    ensures Linked(server, t, areas)
  {
    AwayFromAll(server, s, areas);
    t := JoinUnknownIn(server, sock, name, drawn, username, faults, now, sendOk, s);
    OnlyTables(Site(server, areas), s, t);
  }

  method JoinUnknownIn(server: Server, sock: Sock, name: string, drawn: string, username: string, faults: set<nat>,
          now: Timestamp, sendOk: bool, ghost s: ServerState)
    returns (ghost t: ServerState)
    requires server.Keeps(s) && name !in s.rooms
    modifies server
    ensures unchanged(server`rooms) && t.rooms == s.rooms && server.Keeps(t)
    ensures t == JoinRoom(s, sock, Some(name), drawn, Join(sock, username, faults, [now]), sendOk)
  {
    ghost var grown;
    t, grown := server.HandleJoinRoom(Some(name), drawn, sock, username, faults, now, sendOk, s);
  }

  method JoinNew(server: Server, sock: Sock, drawn: string, username: string, faults: set<nat>,
          now: Timestamp, sendOk: bool, ghost s: ServerState, ghost areas: map<string, set<object>>)
    returns (ghost t: ServerState, ghost after: map<string, set<object>>, ghost grown: set<object>)
    requires Linked(server, s, areas) && drawn !in s.rooms
    modifies server
    ensures t == JoinRoom(s, sock, None, drawn, Join(sock, username, faults, [now]), sendOk)
    ensures Linked(server, t, after) && fresh(grown) && All(after) <= All(areas) + grown
  {
    AwayFrom(server, areas, drawn);
    ghost var w;
    t, w, grown := JoinNewIn(server, sock, drawn, username, faults, now, sendOk, s, Beyond(areas, drawn));
    RoomGotOn(Site(server, areas), s, t, drawn, w, grown);
    after := areas[drawn := grown];
    AllGrows(areas, drawn, grown, grown);
  }

  method JoinNewIn(server: Server, sock: Sock, drawn: string, username: string, faults: set<nat>,
          now: Timestamp, sendOk: bool, ghost s: ServerState, ghost beyond: set<object>)
    returns (ghost t: ServerState, ghost w: World, ghost grown: set<object>)
    requires server.Keeps(s) && drawn !in s.rooms && server !in beyond
    modifies server
    ensures drawn in server.rooms
    ensures forall n | n in s.rooms :: n in server.rooms && server.rooms[n] == old(server.rooms)[n]
    ensures unchanged(beyond) && fresh(grown)
    ensures t == JoinRoom(s, sock, None, drawn, Join(sock, username, faults, [now]), sendOk)
    ensures t.rooms == s.rooms[drawn := w]
    ensures server.Keeps(t) && Owns(server.rooms[drawn], grown, w.room)
  {
    t, grown := server.HandleJoinRoom(None, drawn, sock, username, faults, now, sendOk, s);
    w := t.rooms[drawn];
    OpenedRooms(s, sock, drawn, Join(sock, username, faults, [now]), sendOk);
  }

  /** A room opened for a join is the only one to change. */
  lemma OpenedRooms(s: ServerState, sock: Sock, drawn: string, join: Event, sendOk: bool)
    requires join.Join? && |join.clock| > 0
    ensures var t := JoinRoom(s, sock, None, drawn, join, sendOk);
      drawn in t.rooms && t.rooms == s.rooms[drawn := t.rooms[drawn]]
  {
  }

  // ----- rooms

  /** The connection of a player has something to say, or is lost: a section of
      `runRooms`, for the room the tables assign it. */
  method OnPlayer(server: Server, sock: Sock, received: Option<ClientMsg>, clock: seq<Timestamp>,
          ghost s: ServerState, ghost areas: map<string, set<object>>)
    returns (ghost t: ServerState)
    requires InStep(server, s, areas) && sock in s.roomAssignments && s.roomAssignments[sock] in s.rooms
    requires ClockRuns(s.rooms[s.roomAssignments[sock]].now, Received(sock, received, clock))
    requires received.Some? ==> InRange(received.value)
    modifies server, areas[s.roomAssignments[sock]]
    ensures InStep(server, t, areas)
    ensures var e := PlayerEvent(sock, Received(sock, received, clock));
      if Listens(s.rooms[s.roomAssignments[sock]], sock) then ServerEnabled(s, e) && t == ServerNext(s, e) else t == s
  {
    ghost var name := s.roomAssignments[sock];
    AssignedIsPresent(s, sock);
    t := PlayerSection(server, server.roomAssignments[sock], sock, received, clock, s, areas);
    if Listens(s.rooms[name], sock) {
      ServerStepKeepsBooks(s, PlayerEvent(sock, Received(sock, received, clock)));
    }
  }

  lemma AssignedIsPresent(s: ServerState, sock: Sock)
    requires Booked(s) && sock in s.roomAssignments && s.roomAssignments[sock] in s.rooms
    ensures Present(s.rooms[s.roomAssignments[sock]].room.players, sock)
  {
    var name := s.roomAssignments[sock];
    assert Assigned(s, name, sock) && Holds(s, name, sock);
    var ps := s.rooms[name].room.players;
    var p :| p in ps && p.sock == sock;
    var i :| 0 <= i < |ps| && ps[i] == p;
  }

  method PlayerSection(server: Server, name: string, sock: Sock, received: Option<ClientMsg>, clock: seq<Timestamp>,
          ghost s: ServerState, ghost areas: map<string, set<object>>)
    returns (ghost t: ServerState)
    requires Linked(server, s, areas) && MayHear(s, name, sock, received, clock)
    modifies server, areas[name]
    ensures t == Served(s, name, sock, received, clock) && Linked(server, t, areas)
  {
    AwayFrom(server, areas, name);
    t := PlayerApart(server, server.rooms[name], name, sock, received, clock, s, areas[name], Beyond(areas, name));
    RoomGotOnInPlace(Site(server, areas), s, t, name, t.rooms[name]);
  }

  method PlayerApart(server: Server, room: Room, name: string, sock: Sock, received: Option<ClientMsg>,
          clock: seq<Timestamp>, ghost s: ServerState, ghost area: set<object>, ghost beyond: set<object>)
    returns (ghost t: ServerState)
    requires server.Keeps(s) && MayHear(s, name, sock, received, clock)
    requires Owns(room, area, s.rooms[name].room) && server !in area + beyond && area !! beyond
    modifies server, area
    ensures unchanged(server`rooms) && unchanged(beyond)
    ensures t == Served(s, name, sock, received, clock)
    ensures server.Keeps(t) && Owns(room, area, t.rooms[name].room)
  {
    t := PlayerIn(server, room, name, sock, received, clock, s, area);
  }

  method PlayerIn(server: Server, room: Room, name: string, sock: Sock, received: Option<ClientMsg>,
          clock: seq<Timestamp>, ghost s: ServerState, ghost area: set<object>)
    returns (ghost t: ServerState)
    requires server.Keeps(s) && MayHear(s, name, sock, received, clock) && Owns(room, area, s.rooms[name].room)
    modifies server`bombTimers, server`roomConns, server`roomAssignments, area
    ensures t == Served(s, name, sock, received, clock)
    ensures server.Keeps(t) && Owns(room, area, t.rooms[name].room)
  {
    t := server.HandlePlayerEvent(room, name, sock, received, clock, s);
  }

  /** A timer of room `name` goes off: a section of `runBombs`. */
  method OnTimer(server: Server, name: string, j: nat, draw: nat, clock: seq<Timestamp>, ghost s: ServerState,
          ghost areas: map<string, set<object>>)
    returns (ghost t: ServerState)
    requires InStep(server, s, areas) && ServerEnabled(s, TimerEvent(name, Fire(j, draw, clock)))
    modifies server, areas[name]
    ensures t == ServerNext(s, TimerEvent(name, Fire(j, draw, clock))) && InStep(server, t, areas)
  {
    ReachableIsGood(s.rooms[name]);
    ServerStepKeepsBooks(s, TimerEvent(name, Fire(j, draw, clock)));
    t := TimerSection(server, name, j, draw, clock, s, areas);
  }

  method TimerSection(server: Server, name: string, j: nat, draw: nat, clock: seq<Timestamp>, ghost s: ServerState,
          ghost areas: map<string, set<object>>)
    returns (ghost t: ServerState)
    requires Linked(server, s, areas) && name in s.rooms && Inv(s.rooms[name])
    requires Enabled(s.rooms[name], Fire(j, draw, clock))
    modifies server, areas[name]
    ensures t == RoomStep(s, name, Fire(j, draw, clock)) && Linked(server, t, areas)
  {
    AwayFrom(server, areas, name);
    t := FireIn(server, server.rooms[name], name, j, draw, clock, s, areas[name], Beyond(areas, name));
    RoomGotOnInPlace(Site(server, areas), s, t, name, t.rooms[name]);
  }

  method FireIn(server: Server, room: Room, name: string, j: nat, draw: nat, clock: seq<Timestamp>,
          ghost s: ServerState, ghost area: set<object>, ghost beyond: set<object>)
    returns (ghost t: ServerState)
    requires server.Keeps(s) && name in s.rooms && Owns(room, area, s.rooms[name].room) && Inv(s.rooms[name])
    requires Enabled(s.rooms[name], Fire(j, draw, clock)) && server !in area + beyond && area !! beyond
    modifies server, area
    ensures unchanged(server`rooms) && unchanged(beyond)
    ensures t == RoomStep(s, name, Fire(j, draw, clock))
    ensures server.Keeps(t) && Owns(room, area, t.rooms[name].room)
  {
    t := server.HandleTimerEvent(room, name, j, draw, clock, s);
  }
}
