/** A run that reaches a game started by three, which the clients that waited get wrong. */
module ShortStart {
  import opened Messages
  import opened RoomSpec
  import opened RoomFacts
  import opened RoomRun
  import opened RoomTheorems
  import opened ClientLog
  import opened Agreement
  import opened Scenes

  /** Three joined and the last of them is gone: the fourth starts a game of three. */
  lemma ShortOfOne(w: World, lives: seq<int>)
    requires Reachable(w) && |lives| == 3 == w.room.clientCount && w.room.state == WaitForStart
    requires Others(w.room, lives, 0, w.now)
    ensures Enabled(w, Dan(w)) && Next(w, Dan(w)).room.state == Play
    ensures var ps := Next(w, Dan(w)).room.players; |ps| == 3 && Faultless(ps[1])
  {
    var ps := w.room.players;
    assert Cast(ps[0], 1, lives[1], w.now);
    DanMayJoin(w, lives, 0);
    BobIsTold(w.room, w.now);
  }

  lemma BobIsTold(r: RoomState, now: Timestamp)
    requires r.state == WaitForStart && |r.players| == 2 && r.clientCount == 3 && Faultless(r.players[0])
    ensures var x := JoinPlayer(r, 3, NAMES[3], {}, now); |x.players| == 3 && Faultless(x.players[1])
  {
    JoinSends(r, 3, NAMES[3], {}, now, 1);
    FaultlessSends(r.players[0], GameJoin(Listed(NAMES[3], 2)), GameStart);
  }

  /** A game of three in which somebody is connected, off the error screen, and shows
      another room than the one it is in. */
  ghost predicate StartsApart(w: World) {
    && w.room.state == Play && |w.room.players| == 3
    && InTouch(w.room.players[1]) && !AgreesNow(w, 1)
  }

  /** Such a start is reached. */
  lemma DisagreementIsReached()
    ensures exists w, e :: Reachable(w) && Enabled(w, e) && e.Join? && StartsApart(Next(w, e))
  {
    var w := Gather(3);
    var lives := Repeat(STARTER_LIVES, 3);
    SceneDrop(w, lives, 0);
    var x := Next(w, Drop(w, 0));
    ShortOfOne(x, lives);
    PhaseOfLog(Next(x, Dan(x)).room.players[1].link.log);
    AgreementAtGameStart(x, Dan(x), 1);
    assert StartsApart(Next(x, Dan(x)));
  }
}
