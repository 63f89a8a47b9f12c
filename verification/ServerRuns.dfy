/** The server from its launch on: over any sequence of events its event loops take the
    object through the states of the state machine. */
module ServerRuns {
  import opened Messages
  import opened RoomRun
  import opened ServerSpec
  import opened ServerObject
  import opened ServerLoop

  lemma InAll(areas: map<string, set<object>>, name: string)
    requires name in areas
    ensures areas[name] <= All(areas)
  {
  }

  lemma FewerAreas(areas: map<string, set<object>>, t: ServerState)
    ensures All(Areas(areas, t)) <= All(areas)
  {
  }

  function MessageOf(e: Event): Option<ClientMsg> {
    if e.Hear? then Some(e.msg) else None
  }

  /** The section of the event loops for one event, whichever it is. */
  method OnEvent(server: Server, e: ServerEvent, ghost s: ServerState, ghost areas: map<string, set<object>>)
    returns (ghost t: ServerState, ghost after: map<string, set<object>>, ghost grown: set<object>)
    requires InStep(server, s, areas) && ServerEnabled(s, e)
    modifies server, All(areas)
    ensures t == ServerNext(s, e) && InStep(server, t, after)
    ensures fresh(grown) && All(after) <= All(areas) + grown
  {
    after, grown := areas, {};
    match e
    case Accepted(sock) => t := OnAccepted(server, sock, s, areas);
    case LobbyLost(sock) => t := OnLobbyLost(server, sock, s, areas);
    case OtherMsg(sock, sendOk) => t := OnOtherMsg(server, sock, sendOk, s, areas);
    case GetRoomList(sock, sendOk) =>
      var roomList;
      roomList, t := OnGetRoomList(server, sock, sendOk, s, areas);
      after := Areas(areas, t);
      FewerAreas(areas, t);
    case JoinMsg(_, _, _, _, _) => t, after, grown := OnJoinMsg(server, e, s, areas);
    case PlayerEvent(sock, ev) => t := OnPlayerEvent(server, sock, ev, s, areas);
    case TimerEvent(name, ev) =>
      InAll(areas, name);
      t := OnTimer(server, name, ev.timer, ev.draw, ev.clock, s, areas);
  }

  method OnJoinMsg(server: Server, e: ServerEvent, ghost s: ServerState, ghost areas: map<string, set<object>>)
    returns (ghost t: ServerState, ghost after: map<string, set<object>>, ghost grown: set<object>)
    requires InStep(server, s, areas) && e.JoinMsg? && ServerEnabled(s, e)
    modifies server, All(areas)
    ensures t == ServerNext(s, e) && InStep(server, t, after)
    ensures fresh(grown) && All(after) <= All(areas) + grown
  {
    var join := e.join;
    if e.room.Some? && e.room.value in server.rooms {
      InAll(areas, e.room.value);
    }
    assert join.clock == [join.clock[0]];
    assert e == JoinEvent(e.sock, e.room, e.drawn, join.username, join.faults, join.clock[0], e.sendOk);
    t, after, grown := OnJoin(
      server, e.sock, e.room, e.drawn, join.username, join.faults, join.clock[0], e.sendOk, s, areas);
  }

  method OnPlayerEvent(server: Server, sock: Sock, e: Event, ghost s: ServerState,
          ghost areas: map<string, set<object>>)
    returns (ghost t: ServerState)
    requires InStep(server, s, areas) && ServerEnabled(s, PlayerEvent(sock, e))
    modifies server, All(areas)
    ensures t == ServerNext(s, PlayerEvent(sock, e)) && InStep(server, t, areas)
  {
    InAll(areas, s.roomAssignments[sock]);
    assert e == Received(sock, MessageOf(e), e.clock);
    t := OnPlayer(server, sock, MessageOf(e), e.clock, s, areas);
  }

  /** The events from number `i` on lead from `s` to where all of them lead. */
  ghost predicate Ahead(s: ServerState, es: seq<ServerEvent>, i: nat)
    requires i <= |es| && ValidServerRun(NEW_SERVER, es)
  {
    ValidServerRun(s, es[i..]) && ServerRun(s, es[i..]) == ServerRun(NEW_SERVER, es)
  }

  lemma OneEventOn(s: ServerState, es: seq<ServerEvent>, i: nat)
    requires i < |es| && ValidServerRun(NEW_SERVER, es) && Ahead(s, es, i)
    ensures ServerEnabled(s, es[i]) && Ahead(ServerNext(s, es[i]), es, i + 1)
  {
    assert es[i..][0] == es[i] && es[i..][1..] == es[i + 1..];
  }

  /** Event number `i`. */
  method Turn(server: Server, es: seq<ServerEvent>, i: nat, ghost s: ServerState, ghost areas: map<string, set<object>>)
    returns (ghost t: ServerState, ghost after: map<string, set<object>>, ghost grown: set<object>)
    requires i < |es| && ValidServerRun(NEW_SERVER, es) && Ahead(s, es, i) && InStep(server, s, areas)
    modifies server, All(areas)
    ensures Ahead(t, es, i + 1) && InStep(server, t, after)
    ensures fresh(grown) && All(after) <= All(areas) + grown
  {
    OneEventOn(s, es, i);
    t, after, grown := OnEvent(server, es[i], s, areas);
  }

  /** Whatever happens, in whatever order, from the launch on. */
  method Serve(es: seq<ServerEvent>) returns (server: Server, ghost areas: map<string, set<object>>)
    requires ValidServerRun(NEW_SERVER, es)
    ensures InStep(server, ServerRun(NEW_SERVER, es), areas)
  {
    server := Launch();
    areas := map[];
    ghost var s, grown := NEW_SERVER, {};
    for i := 0 to |es|
      invariant fresh(server) && fresh(All(areas)) && InStep(server, s, areas) && Ahead(s, es, i)
    {
      s, areas, grown := Turn(server, es, i, s, areas);
    }
    NothingAhead(s, es);
  }

  lemma NothingAhead(s: ServerState, es: seq<ServerEvent>)
    requires ValidServerRun(NEW_SERVER, es) && Ahead(s, es, |es|)
    ensures s == ServerRun(NEW_SERVER, es)
  {
  }
}
