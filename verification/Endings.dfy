/** Runs that reach endings nobody announced: a last player who falls with the draw out of
    bounds, a winner who is dead, a room that is over with a timer still to go off. */
module Endings {
  import opened Grid
  import opened Blast
  import opened Messages
  import opened RoomSpec
  import opened RoomFacts
  import opened Disconnects
  import opened Leaving
  import opened RoomRun
  import opened RoomTheorems
  import opened Scenes
  import opened DeadGame

  // ----- the draw's upper bound

  /** The bomb due next leaves nobody alive, somebody was before it, and the largest number
      the draw may come up with picks nobody. */
  ghost predicate LastFalls(w: World, now: Timestamp) {
    && Explodes(w.room) && w.timers != [] && w.timers[0] + FUSE_MILLIS <= now && w.now <= now
    && Alive(w.room.players) != [] && DrawDefined(w.room, 0, now)
    && !DrawDefined(w.room, |Alive(w.room.players)|, now)
  }

  /** An atomic bomb in Ann's corner lights Cyd's: the column between holds no hard wall. */
  lemma AcrossTheColumn(field: Cells, plantTime: Timestamp)
    requires Clears(INITIAL, field)
    ensures Lit(field, Bomb(Spawn(0), 9, plantTime, true), Spawn(2))
  {
    forall u | u == Spawn(2) || Between(Spawn(0), u, Spawn(2))
      ensures At(field, u) != HARD
    {
      assert u == Tile(1, u.y) && u.y in {2, 3, 4, 5, 6, 7, 8, 9};
      assert At(INITIAL, u) != HARD;
    }
  }

  /** Cyd, with one life left, is hit by Ann's bomb. */
  lemma CydIsHit(w: World, now: Timestamp)
    requires Scene(w, [0, 1, 0]) && w.room.state == Play && w.now + FUSE_MILLIS <= now
    requires Clears(INITIAL, w.room.field) && w.room.bombs == [Bomb(Spawn(0), 9, w.now, true)]
    ensures Alive(w.room.players) != [] && Alive(Detonate(w.room, now).players) == []
  {
    var ps, lit := w.room.players, LitTiles(w.room.field, w.room.bombs[0]);
    var after := Detonate(w.room, now).players;
    AcrossTheColumn(w.room.field, w.now);
    assert Cast(ps[0], 3, 0, w.now) && Cast(ps[1], 2, 1, w.now) && Cast(ps[2], 1, 0, w.now);
    BlastedBodies(ps, 0, lit, now);
    assert Hit(ps[1], lit, now);
    forall i | 0 <= i < |after|
      ensures after[i].livesRemaining <= 0
    {
      assert BlastedBody(ps[i], after[i], lit, now);
    }
    NobodyAlive(after);
    NobodyAlive(ps);
  }

  /** It was the only one alive. */
  lemma CydFalls(w: World, now: Timestamp)
    requires Reachable(w) && Scene(w, [0, 1, 0]) && w.room.state == Play && w.now + FUSE_MILLIS <= now
    requires w.room.bombs == [Bomb(Spawn(0), 9, w.now, true)] && w.timers == [w.now]
    ensures LastFalls(w, now)
  {
    ReachableIsGood(w);
    CydIsHit(w, now);
    DrawNeedsSomebodyAlive(w.room, now);
  }

  /** Dan, the last to join, dies. */
  lemma DanDies() returns (w: World)
    ensures Reachable(w) && Scene(w, [0, 3, 3, 3]) && w.room.clientCount == MAX_PLAYERS
    ensures w.room.bombs == [] && w.timers == []
  {
    w := Gather(MAX_PLAYERS);
    assert Repeat(STARTER_LIVES, MAX_PLAYERS) == [3, 3, 3, 3];
    w := Wound(w, [3, 3, 3, 3], 0, 0, 1);
    assert [3, 3, 3, 3][0 := 0] == [0, 3, 3, 3];
  }

  /** Two die and a third has one life left. */
  lemma OneLifeLeft() returns (w: World)
    ensures Reachable(w) && Scene(w, [0, 1, 0, 3]) && w.room.clientCount == MAX_PLAYERS
    ensures w.room.bombs == [] && w.timers == []
  {
    w := DanDies();
    w := Wound(w, [0, 3, 3, 3], 2, 0, 1);
    assert [0, 3, 3, 3][2 := 0] == [0, 3, 0, 3];
    w := Wound(w, [0, 3, 0, 3], 1, 1, 1);
    assert [0, 3, 0, 3][1 := 1] == [0, 1, 0, 3];
  }

  /** The fourth leaves its bomb behind. */
  lemma LastFallIsReached()
    ensures exists w, now :: Reachable(w) && LastFalls(w, now)
  {
    var w := OneLifeLeft();
    w := FirstLeaves(w, [0, 1, 0, 3]);
    assert [0, 1, 0, 3][..3] == [0, 1, 0];
    CydFalls(w, w.now + FUSE_MILLIS);
  }

  // ----- a dead winner

  /** Somebody dead in `w` is announced as the winner by `x`. */
  ghost predicate DeadWins(w: World, x: World) {
    && w.room.state == Play && x.room.state == GameOver
    && exists p :: p in w.room.players && p.livesRemaining == 0 && x.winners == [p.username]
  }

  /** Cyd is marked, and Dan, who is dead, stays alone. */
  lemma DanStays(w: World)
    requires Scene(w, [0, 3]) && w.room.state == Play
    ensures var d := DisconnectPlayers(Marked(w, 1, w.now).room, w.now);
      d.winner == Some(w.room.players[0].username) && d.room.state == GameOver
  {
    var r := Marked(w, 1, w.now).room;
    MarkedScene(w, [0, 3], 1);
    assert Cast(w.room.players[0], 3, 0, w.now) && Cast(w.room.players[1], 2, 3, w.now);
    assert Calm(r.players);
    CalmWinner(r, 0, w.now);
    DisconnectKeepsOrder(r, w.now);
  }

  lemma DroppedWinner(w: World, k: nat)
    requires k < |w.room.players| && Enabled(w, Drop(w, k)) && k == IndexOf(w.room.players, w.room.players[k].sock)
    ensures var x, d := Next(w, Drop(w, k)), DisconnectPlayers(Marked(w, k, w.now).room, w.now);
      x.winners == w.winners + Winners(d.winner)
  {
  }

  /** The connection to Cyd is lost. */
  lemma DanWins(w: World)
    requires Reachable(w) && Scene(w, [0, 3]) && w.room.state == Play
    ensures Enabled(w, Drop(w, 1)) && Reachable(Next(w, Drop(w, 1))) && DeadWins(w, Next(w, Drop(w, 1)))
    ensures |Next(w, Drop(w, 1)).timers| >= |w.timers|
  {
    ReachableIsGood(w);
    DropIsEnabled(w, [0, 3], 1);
    ReachableStep(w, Drop(w, 1));
    DanStays(w);
    DroppedRoom(w, 1);
    DroppedWinner(w, 1);
    var p := w.room.players[0];
    assert Cast(p, 3, 0, w.now) && p in w.room.players;
    assert Next(w, Drop(w, 1)).winners == [p.username];
  }

  /** One dies and two leave. */
  lemma DanAndCyd() returns (w: World)
    ensures Reachable(w) && Scene(w, [0, 3]) && w.room.state == Play && w.timers != []
  {
    w := DanDies();
    w := FirstLeaves(w, [0, 3, 3, 3]);
    assert [0, 3, 3, 3][..3] == [0, 3, 3];
    w := FirstLeaves(w, [0, 3, 3]);
    assert [0, 3, 3][..2] == [0, 3];
  }

  lemma DeadWinnerIsReached()
    ensures exists w, e :: Reachable(w) && Enabled(w, e) && DeadWins(w, Next(w, e))
  {
    var w := DanAndCyd();
    DanWins(w);
  }

  // ----- timers left

  /** A room can be over with the timer of a bomb still to go off. */
  lemma TimerOutlivesTheGame()
    ensures exists w :: Reachable(w) && w.room.state == GameOver && w.timers != []
  {
    var w := DanAndCyd();
    DanWins(w);
    var x := Next(w, Drop(w, 1));
    assert Reachable(x) && x.room.state == GameOver && x.timers != [];
  }
}
