/** Games whose players are all dead: when the disconnects leave one, a run that gets
    there, and why it cannot go on as announced. */
module DeadGame {
  import opened Blast
  import opened Messages
  import opened RoomSpec
  import opened RoomFacts
  import opened Disconnects
  import opened Leaving
  import opened RoomRun
  import opened RoomInvariants
  import opened RoomTheorems
  import opened Scenes

  /** Disconnects count players, not lives. They leave a game in play with nobody alive
      if and only if at least two players stay and none of those who stay is alive. */
  lemma OnlyTheDeadRemain(r: RoomState, now: Timestamp)
    requires r.state == Play && Distinct(r.players)
    ensures var x, idx := DisconnectPlayers(r, now).room, StayUpTo(r.players, Leavers(r, now), |r.players|);
      x.state == Play && Alive(x.players) == [] <==>
      |idx| >= 2 && forall i :: 0 <= i < |idx| ==> r.players[idx[i]].livesRemaining <= 0
  {
    var x, idx := DisconnectPlayers(r, now).room, StayUpTo(r.players, Leavers(r, now), |r.players|);
    DisconnectKeepsOrder(r, now);
    DisconnectedState(r, now);
    NobodyAlive(x.players);
    if |idx| >= 2 {
      assert forall i | 0 <= i < |idx| :: x.players[i].livesRemaining == r.players[idx[i]].livesRemaining;
    }
  }

  /** The same, told from the room before: two of those who stay, and all of them dead. */
  lemma TheDeadStay(r: RoomState, now: Timestamp)
    requires r.state == Play && Distinct(r.players)
    ensures var x := DisconnectPlayers(r, now).room;
      x.state == Play && Alive(x.players) == [] <==>
      TwoStay(r) && forall i | 0 <= i < |r.players| :: Leaves(r, i) || r.players[i].livesRemaining <= 0
  {
    var idx := Stayers(r, now);
    OnlyTheDeadRemain(r, now);
    TwoStayers(r, now);
    assert forall x | 0 <= x < |idx| :: idx[x] in idx;
    forall i | 0 <= i < |r.players| && !Leaves(r, i)
      ensures exists x :: 0 <= x < |idx| && idx[x] == i
    {
      assert i in idx;
    }
  }

  /** And on marks alone, when the next sends get through: two unmarked, and all of those
      dead. */
  lemma TheUnmarkedAreDead(r: RoomState, now: Timestamp)
    requires r.state == Play && Distinct(r.players) && Calm(r.players)
    ensures var x, ps := DisconnectPlayers(r, now).room, r.players;
      x.state == Play && Alive(x.players) == [] <==>
      && (exists i, j :: 0 <= i < j < |ps| && !ps[i].marked && !ps[j].marked)
      && forall i | 0 <= i < |ps| :: ps[i].marked || ps[i].livesRemaining <= 0
  {
    CalmLeaves(r);
    TheDeadStay(r, now);
    if TwoStay(r) {
      var i, j :| 0 <= i < j < |r.players| && !Leaves(r, i) && !Leaves(r, j);
      assert !r.players[i].marked && !r.players[j].marked;
    }
  }

  /** An explosion among the dead leaves them dead, and there is nobody to draw. */
  lemma AllDeadStayDead(r: RoomState, now: Timestamp)
    requires Explodes(r) && Alive(r.players) == []
    ensures !exists draw: nat :: DrawDefined(r, draw, now)
  {
    var after := Detonate(r, now).players;
    BlastedBodies(r.players, 0, LitTiles(r.field, r.bombs[0]), now);
    assert forall i | 0 <= i < |after| :: BlastedBody(r.players[i], after[i], LitTiles(r.field, r.bombs[0]), now);
    NobodyAlive(r.players);
    NobodyAlive(after);
    DrawNeedsSomebodyAlive(r, now);
  }

  // ----- a run that gets there

  /** Player `v` loses a life to a bomb planted in its corner. */
  lemma Round(w: World, lives: seq<int>, v: nat) returns (x: World)
    requires Reachable(w) && Scene(w, lives) && |lives| == w.room.clientCount == MAX_PLAYERS
    requires w.room.bombs == [] && w.timers == [] && CanBeHit(lives, v)
    ensures Reachable(x) && Scene(x, lives[v := lives[v] - 1]) && x.room.clientCount == MAX_PLAYERS
    ensures x.room.bombs == [] && x.timers == []
  {
    ScenePlant(w, lives, Spawn(3 - v));
    var y := Next(w, Plant(w, Spawn(3 - v)));
    SceneBlast(y, lives, v);
    x := Next(y, GoOff(y, y.now + FUSE_MILLIS));
  }

  /** Player `v` is hit until it has `left` lives, while `other` is alive or `v` stays so. */
  lemma {:induction false} Wound(w: World, lives: seq<int>, v: nat, left: nat, other: nat) returns (x: World)
    requires Reachable(w) && Scene(w, lives) && |lives| == w.room.clientCount == MAX_PLAYERS
    requires w.room.bombs == [] && w.timers == []
    requires v < 3 && lives[v] >= left && lives[3] > 0 && other < 3
    requires if other == v then left > 0 else lives[other] > 0
    ensures Reachable(x) && Scene(x, lives[v := left]) && x.room.clientCount == MAX_PLAYERS
    ensures x.room.bombs == [] && x.timers == []
    decreases lives[v]
  {
    if lives[v] == left {
      assert lives[v := left] == lives;
      return w;
    }
    assert lives[other] > if other == v then 1 else 0;
    x := Round(w, lives, v);
    x := Wound(x, lives[v := lives[v] - 1], v, left, other);
    assert lives[v := lives[v] - 1][v := left] == lives[v := left];
  }

  /** The two players who joined last die. */
  lemma TwoDie() returns (w: World)
    ensures Reachable(w) && Scene(w, [0, 0, 3, 3]) && w.room.clientCount == MAX_PLAYERS
  {
    w := Gather(MAX_PLAYERS);
    assert Repeat(STARTER_LIVES, MAX_PLAYERS) == [3, 3, 3, 3];
    w := Wound(w, [3, 3, 3, 3], 0, 0, 2);
    assert [3, 3, 3, 3][0 := 0] == [0, 3, 3, 3];
    w := Wound(w, [0, 3, 3, 3], 1, 0, 2);
    assert [0, 3, 3, 3][1 := 0] == [0, 0, 3, 3];
  }

  /** The connection to the one who joined first of those present, alive, is lost. */
  lemma FirstLeaves(w: World, lives: seq<int>) returns (x: World)
    requires Reachable(w) && Scene(w, lives) && |lives| >= 3 && w.room.state == Play && lives[|lives| - 1] != 0
    ensures Reachable(x) && Scene(x, lives[..|lives| - 1]) && x.room.state == Play && x.now == w.now
    ensures x.room.bombs == w.room.bombs + [Bomb(Spawn(MAX_PLAYERS - |lives|), 9, w.now, true)]
    ensures x.timers == w.timers + [w.now]
  {
    var k := |lives| - 1;
    SceneDrop(w, lives, k);
    x := Next(w, Drop(w, k));
    RestIsScene(x, lives);
  }

  lemma RestIsScene(x: World, lives: seq<int>)
    requires |lives| >= 1 && Others(x.room, lives, |lives| - 1, x.now)
    requires x.room.state == Play && x.room.clientCount == MAX_PLAYERS
    ensures Scene(x, lives[..|lives| - 1])
  {
  }

  /** A game in play, its players all dead, a timer armed, and nobody to draw from when
      it goes off, whenever that is. */
  ghost predicate Stuck(w: World) {
    && w.room.state == Play && Alive(w.room.players) == [] && w.timers != []
    && forall draw: nat, now :: !DrawDefined(w.room, draw, now)
  }

  /** Such a game is reached: two of four players die, then the two alive leave. */
  lemma DeadGameIsReached()
    ensures exists w :: Reachable(w) && Stuck(w)
  {
    var w := TwoDie();
    w := FirstLeaves(w, [0, 0, 3, 3]);
    assert [0, 0, 3, 3][..3] == [0, 0, 3];
    w := FirstLeaves(w, [0, 0, 3]);
    assert [0, 0, 3][..2] == [0, 0];
    NobodyAlive(w.room.players);
    forall draw: nat, now
      ensures !DrawDefined(w.room, draw, now)
    {
      AllDeadStayDead(w.room, now);
    }
    assert Reachable(w) && Stuck(w);
  }
}
