/** Who is in the lobby, and who gets from there into a room. */
module Lobby {
  import opened Messages
  import opened RoomSpec
  import opened RoomFacts
  import opened RoomRun
  import opened RoomInvariants
  import opened RoomTheorems
  import opened ServerSpec
  import opened ServerTheorems

  /** What every state holds that a run of the server reaches. */
  ghost predicate Good(s: ServerState) {
    Booked(s) && RoomsReachable(s)
  }

  /** Only the lobby may differ. */
  ghost predicate SameTables(s: ServerState, t: ServerState) {
    t.rooms == s.rooms && t.roomConns == s.roomConns && t.roomAssignments == s.roomAssignments
  }

  /** `sock` has left the lobby, and nobody else. */
  ghost predicate LeftLobby(s: ServerState, t: ServerState, sock: Sock) {
    forall x :: x in t.lobbyConns <==> x in s.lobbyConns && x != sock
  }

  // ----- connections without a room

  /** All that is known of every other socket is as it was. */
  ghost predicate OthersKept(s: ServerState, t: ServerState, sock: Sock) {
    && t.rooms == s.rooms
    && forall x | x != sock ::
      && (x in t.lobbyConns <==> x in s.lobbyConns) && (x in t.roomConns <==> x in s.roomConns)
      && (x in t.roomAssignments <==> x in s.roomAssignments)
      && (x in t.roomAssignments ==> t.roomAssignments[x] == s.roomAssignments[x])
  }

  /** Whatever the tables held, a socket cleaned up is in none of them, ... */
  lemma CleanedUp(s: ServerState, sock: Sock)
    requires NoRepeats(s.lobbyConns)
    ensures var t := CleanupSock(s, sock);
      && OthersKept(s, t, sock) && NoRepeats(t.lobbyConns)
      && sock !in t.lobbyConns && sock !in t.roomConns && sock !in t.roomAssignments
  {
    RemoveFirstMembers(s.lobbyConns, sock);
  }

  /** ... and one accepted is in the lobby, once, and nowhere else. */
  lemma AcceptedIsIn(s: ServerState, sock: Sock)
    requires NoRepeats(s.lobbyConns)
    ensures var t := Accept(s, sock);
      && OthersKept(s, t, sock) && NoRepeats(t.lobbyConns)
      && sock in t.lobbyConns && sock !in t.roomConns && sock !in t.roomAssignments
  {
    RemoveLastMembers(s.lobbyConns, sock);
    var kept := RemoveLast(s.lobbyConns, sock);
    assert forall i | 0 <= i < |kept| :: kept[i] in kept && kept[i] != sock;
  }

  lemma LobbyCleanedUp(s: ServerState, sock: Sock)
    requires Booked(s) && sock !in s.roomConns
    ensures SameTables(s, CleanupSock(s, sock)) && LeftLobby(s, CleanupSock(s, sock), sock)
  {
    CleanedUp(s, sock);
    assert s.roomAssignments - {sock} == s.roomAssignments;
  }

  /** A lobby connection lost is struck off. One that asks for the list, or for anything
      unknown, stays exactly if the reply gets through. */
  lemma LobbyAfter(s: ServerState, e: ServerEvent)
    requires Booked(s) && ServerEnabled(s, e) && !e.JoinMsg?
    ensures var t := ServerNext(s, e);
      match e
      case Accepted(sock) => forall x :: x in t.lobbyConns <==> x in s.lobbyConns || x == sock
      case LobbyLost(sock) => SameTables(s, t) && LeftLobby(s, t, sock)
      case GetRoomList(sock, sendOk) => if sendOk then t.lobbyConns == s.lobbyConns else LeftLobby(s, t, sock)
      case OtherMsg(sock, sendOk) => if sendOk then t == s else SameTables(s, t) && LeftLobby(s, t, sock)
      case _ => t.lobbyConns == s.lobbyConns
  {
    match e
    case Accepted(sock) => AcceptedIsIn(s, sock);
    case LobbyLost(sock) => LobbyCleanedUp(s, sock);
    case GetRoomList(sock, _) => RemoveFirstMembers(s.lobbyConns, sock);
    case OtherMsg(sock, _) => LobbyCleanedUp(s, sock);
    case _ =>
  }

  /** The list leaves the rooms not finished as they are, and no others. */
  lemma RoomsAfterList(s: ServerState, e: ServerEvent, n: string)
    requires Booked(s) && ServerEnabled(s, e) && e.GetRoomList?
    ensures var t := ServerNext(s, e);
      && t.roomConns == s.roomConns && t.roomAssignments == s.roomAssignments
      && (n in t.rooms <==> n in s.rooms && s.rooms[n].room.state != GameOver)
      && (n in t.rooms ==> t.rooms[n] == s.rooms[n])
  {
    assert s.roomAssignments - {e.sock} == s.roomAssignments;
  }

  // ----- asking for a room

  predicate NameInUse(ps: seq<PlayerState>, username: string) {
    exists p :: p in ps && p.username == username
  }

  lemma InUse(ps: seq<PlayerState>, username: string)
    ensures NameInUse(ps, username) <==> HasName(ps, username)
  {
    if i :| 0 <= i < |ps| && ps[i].username == username {
      assert ps[i] in ps;
    }
  }

  /** The room asked for is not there or has had its four, or the name is empty or taken. */
  ghost predicate InVain(s: ServerState, e: ServerEvent)
    requires e.JoinMsg? && e.join.Join?
  {
    match e.room
    case None => e.join.username == ""
    case Some(name) =>
      || name !in s.rooms
      || e.join.username == ""
      || NameInUse(s.rooms[name].room.players, e.join.username)
      || s.rooms[name].room.clientCount == 4
  }

  /** The room asked for is finished though it never had its four, and the name is real. */
  ghost predicate AsksForRuin(s: ServerState, e: ServerEvent)
    requires e.JoinMsg? && e.join.Join?
  {
    && e.room.Some? && e.room.value in s.rooms && e.join.username != ""
    && s.rooms[e.room.value].room.state == GameOver && s.rooms[e.room.value].room.clientCount != 4
  }

  /** The rooms as the request finds them: who names none gets a new one. */
  ghost function RoomsFor(s: ServerState, e: ServerEvent): ServerState
    requires e.JoinMsg? && e.join.Join? && |e.join.clock| == 1
  {
    if e.room.None? then s.(rooms := s.rooms[e.drawn := NewWorld(e.join.clock[0])]) else s
  }

  ghost function RoomFor(e: ServerEvent): string
    requires e.JoinMsg?
  {
    if e.room.None? then e.drawn else e.room.value
  }

  /** An error that gets through leaves everything as it was, the new room of somebody without
      a name aside; one that does not closes the connection. */
  lemma TurnedAway(s: ServerState, e: ServerEvent)
    requires Good(s) && e.JoinMsg? && ServerEnabled(s, e) && InVain(s, e)
    ensures var t, there := ServerNext(s, e), RoomsFor(s, e);
      if e.sendOk then t == there else SameTables(there, t) && LeftLobby(s, t, e.sock)
  {
    var there := RoomsFor(s, e);
    if e.room.None? {
      NewRoomKeepsBooks(s, e.drawn, e.join.clock[0]);
    } else if e.room.value in s.rooms {
      InUse(s.rooms[e.room.value].room.players, e.join.username);
    }
    LobbyCleanedUp(there, e.sock);
  }

  /** Who joins is in room `name`, in front, and nowhere else; the others there were told so,
      and nothing else has changed. */
  ghost predicate SeatedIn(s: ServerState, t: ServerState, name: string, sock: Sock, username: string)
    requires name in s.rooms
  {
    && LeftLobby(s, t, sock) && t.roomConns == s.roomConns + {sock}
    && t.roomAssignments == s.roomAssignments[sock := name]
    && t.rooms.Keys == s.rooms.Keys && (forall n | n in s.rooms && n != name :: t.rooms[n] == s.rooms[n])
    && InFront(s.rooms[name].room.players, t.rooms[name].room.players, sock, username)
  }

  ghost predicate InFront(ps: seq<PlayerState>, qs: seq<PlayerState>, sock: Sock, username: string) {
    && |qs| == |ps| + 1 && qs[0].sock == sock && qs[0].username == username
    && forall i | 0 <= i < |ps| :: SameBody(ps[i], qs[i + 1])
  }

  lemma NewcomerInFront(w: World, j: Event)
    requires w.room.state == WaitForStart && IsColor(|w.room.players|) && j.Join? && |j.clock| > 0
    ensures var x := Joined(w, j.sock, j.username, j.faults, j.clock[0]);
      InFront(w.room.players, x.room.players, j.sock, j.username)
  {
    JoinedPeople(w.room, j.sock, j.username, j.faults, j.clock[0]);
    var qs := Joined(w, j.sock, j.username, j.faults, j.clock[0]).room.players;
    assert forall i | 0 <= i < |w.room.players| :: qs[1..][i] == qs[i + 1];
  }

  lemma TakesSeat(s: ServerState, name: string, j: Event, sendOk: bool)
    requires Booked(s) && name in s.rooms && j.Join? && |j.clock| == 1
    requires var r := s.rooms[name].room;
      CanJoin(r, j.username) && r.state == WaitForStart && IsColor(|r.players|)
    ensures SeatedIn(s, JoinNamed(s, j.sock, name, j, sendOk), name, j.sock, j.username)
  {
    RemoveLastMembers(s.lobbyConns, j.sock);
    NewcomerInFront(s.rooms[name], j);
  }

  /** A real and unused name gets a seat in a room that waits. */
  lemma Seated(s: ServerState, e: ServerEvent)
    requires Good(s) && e.JoinMsg? && ServerEnabled(s, e) && !InVain(s, e)
    requires RoomsFor(s, e).rooms[RoomFor(e)].room.state == WaitForStart
    ensures SeatedIn(RoomsFor(s, e), ServerNext(s, e), RoomFor(e), e.sock, e.join.username)
  {
    RoomIsGood(s, e);
    InUse(RoomsFor(s, e).rooms[RoomFor(e)].room.players, e.join.username);
    if e.room.None? {
      NewRoomKeepsBooks(s, e.drawn, e.join.clock[0]);
    }
    TakesSeat(RoomsFor(s, e), RoomFor(e), e.join, e.sendOk);
  }

  lemma RoomIsGood(s: ServerState, e: ServerEvent)
    requires Good(s) && e.JoinMsg? && ServerEnabled(s, e) && !InVain(s, e)
    ensures Inv(RoomsFor(s, e).rooms[RoomFor(e)])
  {
    if e.room.None? {
      NewWorldIsGood(e.join.clock[0]);
    } else {
      ReachableIsGood(s.rooms[e.room.value]);
    }
  }

  /** In a finished room that never had four it gets none, and is out of the lobby too. */
  lemma LeftOutside(s: ServerState, e: ServerEvent)
    requires Good(s) && e.JoinMsg? && ServerEnabled(s, e) && AsksForRuin(s, e)
    ensures var t := ServerNext(s, e);
      SameTables(s, t) && LeftLobby(s, t, e.sock) && e.sock !in t.roomConns
  {
    var w := s.rooms[e.room.value];
    ReachableIsGood(w);
    RemoveLastMembers(s.lobbyConns, e.sock);
  }

  /** With replies getting through, nothing else makes a socket homeless. */
  lemma HomelessExactly(s: ServerState, e: ServerEvent)
    requires Good(s) && e.JoinMsg? && ServerEnabled(s, e) && e.sendOk
    ensures var t := ServerNext(s, e);
      e.sock !in t.lobbyConns && e.sock !in t.roomConns <==> AsksForRuin(s, e)
  {
    if InVain(s, e) {
      TurnedAway(s, e);
      if AsksForRuin(s, e) {
        ReachableIsGood(s.rooms[e.room.value]);
      }
    } else {
      RoomIsGood(s, e);
      if RoomsFor(s, e).rooms[RoomFor(e)].room.state == WaitForStart {
        Seated(s, e);
      } else {
        LeftOutside(s, e);
      }
    }
  }
}
