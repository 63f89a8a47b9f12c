/** The server's tables as a value, and what each locked section does to them. */
module ServerSpec {
  import opened Messages
  import opened RoomSpec
  import opened RoomFacts
  import opened RoomRun

  /** `roomConns` are the sockets of connections moved into rooms; `roomAssignments`
      names the room of each. A room carries its own timers. */
  datatype ServerState = ServerState(
    rooms: map<string, World>,
    lobbyConns: seq<Sock>,
    roomConns: set<Sock>,
    roomAssignments: map<Sock, string>)

  const NEW_SERVER := ServerState(map[], [], {}, map[])

  function RemoveFirst(s: seq<Sock>, sock: Sock): seq<Sock> {
    if s == [] then [] else if s[0] == sock then s[1..] else [s[0]] + RemoveFirst(s[1..], sock)
  }

  /** The lobby without the last entry of that socket. */
  function RemoveLast(s: seq<Sock>, sock: Sock): seq<Sock> {
    if s == [] then []
    else
      var n := |s| - 1;
      if s[n] == sock then s[..n] else RemoveLast(s[..n], sock) + [s[n]]
  }

  function ForgetAll(s: ServerState, socks: set<Sock>): ServerState {
    s.(roomConns := s.roomConns - socks, roomAssignments := s.roomAssignments - socks)
  }

  function CleanupSock(s: ServerState, sock: Sock): ServerState {
    ForgetAll(s, {sock}).(lobbyConns := RemoveFirst(s.lobbyConns, sock))
  }

  function Accept(s: ServerState, sock: Sock): ServerState {
    ForgetAll(s, {sock}).(lobbyConns := RemoveLast(s.lobbyConns, sock) + [sock])
  }

  /** An entry of the room list; the most a room takes is the same for all. */
  datatype ListedRoom = ListedRoom(name: string, players: nat)

  /** The entries are, once each, the rooms among `names` not full by head count. */
  ghost predicate ListsSome(s: ServerState, list: seq<ListedRoom>, names: set<string>)
    requires names <= s.rooms.Keys
  {
    && (forall e :: e in list <==> e.name in names && s.rooms[e.name].room.clientCount == e.players != MAX_PLAYERS)
    && forall i, j :: 0 <= i < j < |list| ==> list[i].name != list[j].name
  }

  /** The reply to a request for the room list. */
  ghost predicate ListsRooms(s: ServerState, list: seq<ListedRoom>) {
    ListsSome(s, list, s.rooms.Keys)
  }

  /** Finished rooms are destroyed as the list is made. */
  function ListRooms(s: ServerState, sock: Sock, sendOk: bool): ServerState {
    var t := s.(rooms := map n | n in s.rooms && s.rooms[n].room.state != GameOver :: s.rooms[n]);
    if sendOk then t else CleanupSock(t, sock)
  }

  /** Replying with an error; the connection is closed if that fails. */
  function Refuse(s: ServerState, sock: Sock, sendOk: bool): ServerState {
    if sendOk then s else CleanupSock(s, sock)
  }

  /** Joining `name`, which exists by now. */
  function JoinNamed(s: ServerState, sock: Sock, name: string, join: Event, sendOk: bool): ServerState
    requires name in s.rooms && join.Join? && |join.clock| > 0
  {
    var w := s.rooms[name];
    if !CanJoin(w.room, join.username) then Refuse(s, sock, sendOk)
    else
      var moved := s.(lobbyConns := RemoveLast(s.lobbyConns, sock), roomConns := s.roomConns + {sock});
      if w.room.state != WaitForStart || !IsColor(|w.room.players|) then moved.(roomConns := moved.roomConns - {sock})
      else moved.(rooms := s.rooms[name := Joined(w, sock, join.username, join.faults, join.clock[0])],
                  roomAssignments := s.roomAssignments[sock := name])
  }

  /** `JOIN_ROOM`, with a room name or with none; `drawn` is the random name drawn. */
  function JoinRoom(s: ServerState, sock: Sock, room: Option<string>, drawn: string, join: Event,
          sendOk: bool): ServerState
    requires join.Join? && |join.clock| > 0
  {
    match room
    case None => JoinNamed(s.(rooms := s.rooms[drawn := NewWorld(join.clock[0])]), sock, drawn, join, sendOk)
    case Some(name) => if name in s.rooms then JoinNamed(s, sock, name, join, sendOk) else Refuse(s, sock, sendOk)
  }

  /** The sockets `handleRoomPostEvent` is handed over a room's step. */
  ghost function Closed(w: World, e: Event): seq<Sock>
    requires Enabled(w, e)
  {
    match e
    case Join(_, _, _, _) => []
    case Hear(sock, msg, clock) =>
      var heard := Heard(w, IndexOf(w.room.players, sock), msg, clock[0], clock[1]);
      DisconnectPlayers(heard.room, clock[2]).sockets
        + DisconnectPlayers(Post(heard, clock[2], clock[3]).room, clock[4]).sockets
    case Lose(sock, clock) =>
      DisconnectPlayers(Marked(w, IndexOf(w.room.players, sock), clock[0]).room, clock[0]).sockets
    case Fire(timer, draw, clock) =>
      DisconnectPlayers(Fired(w, timer, draw, clock[0]).room, clock[1]).sockets
  }

  /** Room `name` has become `w`, and the sockets it closed are struck off the tables. */
  function WithRoom(s: ServerState, name: string, w: World, closed: set<Sock>): ServerState {
    ForgetAll(s.(rooms := s.rooms[name := w]), closed)
  }

  ghost function RoomStep(s: ServerState, name: string, e: Event): ServerState
    requires name in s.rooms && Enabled(s.rooms[name], e)
  {
    WithRoom(s, name, Next(s.rooms[name], e), set x | x in Closed(s.rooms[name], e))
  }

  // ----- steps and runs

  datatype ServerEvent =
    | Accepted(sock: Sock)
    | LobbyLost(sock: Sock)
    | GetRoomList(sock: Sock, sendOk: bool)
    | JoinMsg(sock: Sock, room: Option<string>, drawn: string, join: Event, sendOk: bool)
    | OtherMsg(sock: Sock, sendOk: bool)
    | PlayerEvent(sock: Sock, e: Event)
    | TimerEvent(name: string, e: Event)

  /** What the event of a player comes to: a message, or nothing when receiving failed. */
  function Received(sock: Sock, received: Option<ClientMsg>, clock: seq<Timestamp>): Event {
    match received
    case Some(msg) => Hear(sock, msg, clock)
    case None => Lose(sock, clock)
  }

  /** Descriptors handed out are not open, lobby messages come from the lobby, and a
      room name drawn is new. */
  ghost predicate ServerEnabled(s: ServerState, e: ServerEvent) {
    match e
    case Accepted(sock) => sock !in s.roomConns
    case LobbyLost(sock) => sock in s.lobbyConns
    case GetRoomList(sock, _) => sock in s.lobbyConns
    case JoinMsg(sock, room, drawn, join, _) =>
      && sock in s.lobbyConns && join.Join? && join.sock == sock && |join.clock| == 1
      && (room.None? ==> drawn !in s.rooms)
      && (room.Some? && room.value in s.rooms ==> s.rooms[room.value].now <= join.clock[0])
    case OtherMsg(sock, _) => sock in s.lobbyConns
    case PlayerEvent(sock, e) =>
      && sock in s.roomAssignments && s.roomAssignments[sock] in s.rooms
      && (e.Hear? || e.Lose?) && e.sock == sock && Enabled(s.rooms[s.roomAssignments[sock]], e)
    case TimerEvent(name, e) => name in s.rooms && e.Fire? && Enabled(s.rooms[name], e)
  }

  ghost function ServerNext(s: ServerState, e: ServerEvent): ServerState
    requires ServerEnabled(s, e)
  {
    match e
    case Accepted(sock) => Accept(s, sock)
    case LobbyLost(sock) => CleanupSock(s, sock)
    case GetRoomList(sock, sendOk) => ListRooms(s, sock, sendOk)
    case JoinMsg(sock, room, drawn, join, sendOk) => JoinRoom(s, sock, room, drawn, join, sendOk)
    case OtherMsg(sock, sendOk) => Refuse(s, sock, sendOk)
    case PlayerEvent(sock, e) => RoomStep(s, s.roomAssignments[sock], e)
    case TimerEvent(name, e) => RoomStep(s, name, e)
  }

  ghost predicate ValidServerRun(s: ServerState, es: seq<ServerEvent>)
    decreases es
  {
    es == [] || (ServerEnabled(s, es[0]) && ValidServerRun(ServerNext(s, es[0]), es[1..]))
  }

  ghost function ServerRun(s: ServerState, es: seq<ServerEvent>): ServerState
    requires ValidServerRun(s, es)
    decreases es
  {
    if es == [] then s else ServerRun(ServerNext(s, es[0]), es[1..])
  }
}
