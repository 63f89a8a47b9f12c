/** A run of the server that reaches a room destroyed as it is listed. */
module DestroyedRooms {
  import opened Messages
  import opened RoomSpec
  import opened RoomFacts
  import opened RoomRun
  import opened RoomTheorems
  import opened WaitingRoom
  import opened Scenes
  import opened ServerSpec

  /** One player joins a new room. */
  lemma AnnJoins() returns (w: World)
    ensures Enabled(NewWorld(0), Enter(NewWorld(0))) && w == Next(NewWorld(0), Enter(NewWorld(0)))
    ensures Reachable(w) && Scene(w, [STARTER_LIVES]) && w.room.clientCount == 1
  {
    NewRoomIsReachable(0);
    SceneJoin(NewWorld(0), []);
    w := Next(NewWorld(0), Enter(NewWorld(0)));
    assert [STARTER_LIVES] + [] == [STARTER_LIVES];
  }

  function Chatter(w: World): Event {
    Hear(0, OtherType, Still(w.now, 6))
  }

  lemma PostKeepsCount(w: World, now: Timestamp, armed: Timestamp)
    ensures Post(w, now, armed).room.clientCount == w.room.clientCount
  {
  }

  lemma HeardKeepsCount(w: World, e: Event)
    requires Enabled(w, e) && e.Hear?
    ensures Next(w, e).room.clientCount == w.room.clientCount
  {
    var heard := Heard(w, IndexOf(w.room.players, e.sock), e.msg, e.clock[0], e.clock[1]);
    PostKeepsCount(heard, e.clock[2], e.clock[3]);
    PostKeepsCount(Post(heard, e.clock[2], e.clock[3]), e.clock[4], e.clock[5]);
  }

  lemma AnnMayChatter(w: World)
    requires Scene(w, [STARTER_LIVES]) && w.room.clientCount == 1
    ensures Enabled(w, Chatter(w))
  {
    assert Cast(w.room.players[0], 0, STARTER_LIVES, w.now);
    assert IndexOf(w.room.players, 0) == 0;
  }

  /** It sends a message while it waits alone, and the room is over. */
  lemma AnnChatters(w: World)
    requires Reachable(w) && Scene(w, [STARTER_LIVES]) && w.room.clientCount == 1
    ensures Enabled(w, Chatter(w))
    ensures Next(w, Chatter(w)).room.state == GameOver && Next(w, Chatter(w)).room.clientCount == 1
  {
    AnnMayChatter(w);
    WaitingAlone(w, Chatter(w));
    HeardKeepsCount(w, Chatter(w));
  }

  /** A room that is over, and that a list made now would both name and destroy. */
  ghost predicate HoldsFinishedRoom(s: ServerState) {
    exists n | n in s.rooms :: s.rooms[n].room.state == GameOver && s.rooms[n].room.clientCount != MAX_PLAYERS
  }

  ghost predicate ServerReachable(s: ServerState) {
    exists es :: ValidServerRun(NEW_SERVER, es) && s == ServerRun(NEW_SERVER, es)
  }

  lemma {:induction false} ServerRunSnoc(s: ServerState, es: seq<ServerEvent>, e: ServerEvent)
    requires ValidServerRun(s, es) && ServerEnabled(ServerRun(s, es), e)
    ensures ValidServerRun(s, es + [e]) && ServerRun(s, es + [e]) == ServerNext(ServerRun(s, es), e)
    decreases es
  {
    if es == [] {
      assert [e][1..] == [];
      assert ValidServerRun(ServerNext(s, e), []);
    } else {
      assert (es + [e])[0] == es[0] && (es + [e])[1..] == es[1..] + [e];
      ServerRunSnoc(ServerNext(s, es[0]), es[1..], e);
    }
  }

  lemma ServerReachableStep(s: ServerState, e: ServerEvent)
    requires ServerReachable(s) && ServerEnabled(s, e)
    ensures ServerReachable(ServerNext(s, e))
  {
    var es :| ValidServerRun(NEW_SERVER, es) && s == ServerRun(NEW_SERVER, es);
    ServerRunSnoc(NEW_SERVER, es, e);
  }

  lemma AnnConnects() returns (s: ServerState)
    ensures ServerReachable(s) && s.lobbyConns == [0] && s.rooms == map[] && s.roomAssignments == map[]
  {
    assert ValidServerRun(NEW_SERVER, []) && ServerRun(NEW_SERVER, []) == NEW_SERVER;
    ServerReachableStep(NEW_SERVER, Accepted(0));
    s := Accept(NEW_SERVER, 0);
  }

  lemma AnnGetsARoom(s: ServerState) returns (t: ServerState, w: World)
    requires ServerReachable(s) && s.lobbyConns == [0] && s.rooms == map[] && s.roomAssignments == map[]
    ensures Reachable(w) && Scene(w, [STARTER_LIVES]) && w.room.clientCount == 1
    ensures ServerReachable(t) && t.rooms == map["room" := w] && t.roomAssignments == map[0 := "room"]
  {
    w := AnnJoins();
    var e := JoinMsg(0, None, "room", Enter(NewWorld(0)), true);
    ServerReachableStep(s, e);
    t := ServerNext(s, e);
    assert t.rooms == map["room" := w];
  }

  lemma FinishedRoomIsReached()
    ensures exists s :: ServerReachable(s) && HoldsFinishedRoom(s)
  {
    var s := AnnConnects();
    var w;
    s, w := AnnGetsARoom(s);
    AnnChatters(w);
    ServerReachableStep(s, PlayerEvent(0, Chatter(w)));
    var t := RoomStep(s, "room", Chatter(w));
    assert t.rooms["room"] == Next(w, Chatter(w));
    assert HoldsFinishedRoom(t);
  }
}
