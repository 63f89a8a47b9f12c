/** Colours. A join hands out the number of players present, which somebody present may
    have already. */
module Colours {
  import opened Messages
  import opened RoomSpec
  import opened RoomFacts
  import opened Disconnects
  import opened RoomRun
  import opened RoomInvariants
  import opened RoomTheorems
  import opened Scenes

  ghost predicate ColoursDiffer(ps: seq<PlayerState>) {
    forall i, j :: 0 <= i < j < |ps| ==> ps[i].color != ps[j].color
  }

  predicate HasColour(ps: seq<PlayerState>, color: int) {
    exists i :: 0 <= i < |ps| && ps[i].color == color
  }

  lemma JoinedColours(r: RoomState, sock: Sock, username: string, faults: set<nat>, now: Timestamp)
    requires r.state == WaitForStart && IsColor(|r.players|)
    ensures var qs := JoinPlayer(r, sock, username, faults, now).players;
      && |qs| == |r.players| + 1 && qs[0].color == |r.players| && qs[0].guard.coords == Spawn(|r.players|)
      && forall i | 0 <= i < |r.players| :: qs[i + 1].color == r.players[i].color
  {
    JoinSends(r, sock, username, faults, now, 0);
    forall i | 0 <= i < |r.players|
      ensures JoinPlayer(r, sock, username, faults, now).players[i + 1].color == r.players[i].color
    {
      OldColour(r, sock, username, faults, now, i);
    }
  }

  lemma OldColour(r: RoomState, sock: Sock, username: string, faults: set<nat>, now: Timestamp, i: nat)
    requires r.state == WaitForStart && IsColor(|r.players|) && i < |r.players|
    ensures var qs := JoinPlayer(r, sock, username, faults, now).players;
      |qs| == |r.players| + 1 && qs[i + 1].color == r.players[i].color
  {
    OldTimerIsSent(r, sock, username, faults, now, i);
  }

  lemma OneMoreColour(ps: seq<PlayerState>, qs: seq<PlayerState>)
    requires |qs| == |ps| + 1 && forall i | 0 <= i < |ps| :: qs[i + 1].color == ps[i].color
    ensures ColoursDiffer(qs) <==> ColoursDiffer(ps) && !HasColour(ps, qs[0].color)
  {
    if ColoursDiffer(qs) {
      forall i, j | 0 <= i < j < |ps|
        ensures ps[i].color != ps[j].color
      {
        assert qs[i + 1].color != qs[j + 1].color;
      }
      forall i | 0 <= i < |ps|
        ensures ps[i].color != qs[0].color
      {
        assert qs[0].color != qs[i + 1].color;
      }
    }
    if ColoursDiffer(ps) && !HasColour(ps, qs[0].color) {
      forall i, j | 0 <= i < j < |qs|
        ensures qs[i].color != qs[j].color
      {
        assert qs[(j - 1) + 1].color == ps[j - 1].color;
        assert i > 0 ==> qs[(i - 1) + 1].color == ps[i - 1].color;
      }
    }
  }

  /** After a join the colours differ if and only if they did before and nobody has the
      one handed out, the number of players present. */
  lemma JoinKeepsColoursApart(w: World, e: Event)
    requires Reachable(w) && Enabled(w, e) && e.Join?
    ensures var ps, qs := w.room.players, Next(w, e).room.players;
      && |qs| == |ps| + 1 && qs[0].color == |ps|
      && (ColoursDiffer(qs) <==> ColoursDiffer(ps) && !HasColour(ps, |ps|))
  {
    ReachableIsGood(w);
    JoinedKeeps(w, e.sock, e.username, e.faults, e.clock[0]);
    JoinedColours(w.room, e.sock, e.username, e.faults, e.clock[0]);
    OneMoreColour(w.room.players, Next(w, e).room.players);
  }

  // ----- which colours there are while a room waits

  /** Whoever joined later has the higher colour, the number of joins before. */
  ghost predicate Ranked(ps: seq<PlayerState>, count: int) {
    && (forall i, j :: 0 <= i < j < |ps| ==> ps[i].color > ps[j].color)
    && forall i :: 0 <= i < |ps| ==> 0 <= ps[i].color < count
  }

  ghost predicate RanksWhileWaiting(w: World) {
    w.room.state == WaitForStart ==> Ranked(w.room.players, w.room.clientCount)
  }

  lemma SameColours(ps: seq<PlayerState>, qs: seq<PlayerState>, count: int)
    requires Ranked(ps, count) && |qs| == |ps| && forall i :: 0 <= i < |ps| ==> qs[i].color == ps[i].color
    ensures Ranked(qs, count)
  {
  }

  lemma FewerColours(ps: seq<PlayerState>, qs: seq<PlayerState>, idx: seq<nat>, count: int)
    requires Ranked(ps, count) && |qs| == |idx|
    requires forall x :: 0 <= x < |idx| ==> idx[x] < |ps| && qs[x].color == ps[idx[x]].color
    requires forall x, y :: 0 <= x < y < |idx| ==> idx[x] < idx[y]
    ensures Ranked(qs, count)
  {
  }

  lemma PostRanks(w: World, now: Timestamp, armed: Timestamp)
    requires Core(w) && RanksWhileWaiting(w)
    ensures RanksWhileWaiting(Post(w, now, armed))
  {
    DisconnectedBombs(w.room, now);
    DisconnectedState(w.room, now);
    if Post(w, now, armed).room.state == WaitForStart {
      DisconnectRanks(w.room, now, w.room.clientCount);
    }
  }

  lemma DisconnectRanks(r: RoomState, now: Timestamp, count: int)
    requires Distinct(r.players) && Ranked(r.players, count)
    ensures Ranked(DisconnectPlayers(r, now).room.players, count)
  {
    var idx, qs := StayUpTo(r.players, Leavers(r, now), |r.players|), DisconnectPlayers(r, now).room.players;
    DisconnectKeepsOrder(r, now);
    if |idx| != 1 {
      assert forall i | 0 <= i < |idx| :: SameBody(r.players[idx[i]], qs[i]);
      FewerColours(r.players, qs, idx, count);
    }
  }

  lemma JoinRanks(w: World, e: Event)
    requires Inv(w) && RanksWhileWaiting(w) && Enabled(w, e) && e.Join?
    ensures RanksWhileWaiting(Next(w, e))
  {
    JoinedKeeps(w, e.sock, e.username, e.faults, e.clock[0]);
    JoinedColours(w.room, e.sock, e.username, e.faults, e.clock[0]);
    var ps, qs := w.room.players, Next(w, e).room.players;
    if Next(w, e).room.state == WaitForStart {
      assert |ps| == w.room.clientCount;
      forall i, j | 0 <= i < j < |qs|
        ensures qs[i].color > qs[j].color
      {
        assert qs[j].color == ps[j - 1].color && (i > 0 ==> qs[i].color == ps[i - 1].color);
      }
      forall i | 0 <= i < |qs|
        ensures 0 <= qs[i].color < w.room.clientCount + 1
      {
        assert i > 0 ==> qs[i].color == ps[i - 1].color;
      }
    }
  }

  lemma HearRanks(w: World, e: Event)
    requires Inv(w) && RanksWhileWaiting(w) && Enabled(w, e) && e.Hear?
    ensures RanksWhileWaiting(Next(w, e))
  {
    var k, clock := IndexOf(w.room.players, e.sock), e.clock;
    var heard := Heard(w, k, e.msg, clock[0], clock[1]);
    HeardKeeps(w, k, e.msg, clock[0], clock[1]);
    HandleMessageKeepsPeople(w.room, k, e.msg, clock[0]);
    if w.room.state == WaitForStart {
      SameColours(w.room.players, heard.room.players, w.room.clientCount);
    }
    PostKeeps(heard, clock[2], clock[3]);
    PostRanks(heard, clock[2], clock[3]);
    PostRanks(Post(heard, clock[2], clock[3]), clock[4], clock[5]);
  }

  lemma LoseRanks(w: World, e: Event)
    requires Inv(w) && RanksWhileWaiting(w) && Enabled(w, e) && e.Lose?
    ensures RanksWhileWaiting(Next(w, e))
  {
    var k := IndexOf(w.room.players, e.sock);
    var marked := Marked(w, k, e.clock[0]);
    MarkedKeeps(w, k, e.clock[0]);
    if w.room.state == WaitForStart {
      SameColours(w.room.players, marked.room.players, w.room.clientCount);
    }
    PostRanks(marked, e.clock[0], e.clock[1]);
  }

  lemma StepRanks(w: World, e: Event)
    requires Inv(w) && RanksWhileWaiting(w) && Enabled(w, e)
    ensures RanksWhileWaiting(Next(w, e))
  {
    match e
    case Join(_, _, _, _) => JoinRanks(w, e);
    case Hear(_, _, _) => HearRanks(w, e);
    case Lose(_, _) => LoseRanks(w, e);
    case Fire(_, _, _) => StepMovesForward(w, e);
  }

  lemma {:induction false} RunRanks(w: World, es: seq<Event>)
    requires Inv(w) && RanksWhileWaiting(w) && ValidRun(w, es)
    ensures RanksWhileWaiting(Run(w, es))
    decreases es
  {
    if es != [] {
      StepKeeps(w, es[0]);
      StepRanks(w, es[0]);
      RunRanks(Next(w, es[0]), es[1..]);
    }
  }

  lemma ReachableRanks(w: World)
    requires Reachable(w)
    ensures Inv(w) && RanksWhileWaiting(w)
  {
    var start, es :| ValidRun(NewWorld(start), es) && w == Run(NewWorld(start), es);
    ReachableIsGood(w);
    NewWorldIsGood(start);
    RunRanks(NewWorld(start), es);
  }

  /** While a room waits colours differ, and who joins and leaves it waiting gets as colour
      the number of joins before. */
  lemma WaitingColours(w: World, e: Event)
    requires Reachable(w) && w.room.state == WaitForStart
    ensures ColoursDiffer(w.room.players)
    ensures Enabled(w, e) && e.Join? && Next(w, e).room.state == WaitForStart ==>
      |Next(w, e).room.players| > 0 && Next(w, e).room.players[0].color == w.room.clientCount
  {
    ReachableRanks(w);
    if Enabled(w, e) && e.Join? && Next(w, e).room.state == WaitForStart {
      JoinKeepsColoursApart(w, e);
    }
  }

  /** As the game starts the colours differ if and only if four players start it or the one
      missing is the one who joined third. */
  lemma StartColours(w: World, e: Event)
    requires Reachable(w) && Enabled(w, e) && e.Join? && Next(w, e).room.state == Play
    ensures var qs := Next(w, e).room.players;
      ColoursDiffer(qs) <==> |qs| == 4 || !HasColour(w.room.players, 2)
  {
    ReachableRanks(w);
    JoinKeepsColoursApart(w, e);
    JoinedKeeps(w, e.sock, e.username, e.faults, e.clock[0]);
    assert w.room.clientCount == 3 && 2 <= |w.room.players| <= 3;
  }

  // ----- a start in which two players share a corner

  ghost predicate SharesCorner(w: World) {
    && w.room.state == Play && |w.room.players| == 3
    && w.room.players[0].color == w.room.players[1].color
    && w.room.players[0].guard.coords == w.room.players[1].guard.coords
  }

  /** Three joined, the first of them is gone, and the fourth gets the colour of the third. */
  lemma DanGetsCydsCorner(w: World, lives: seq<int>)
    requires Reachable(w) && |lives| == 3 == w.room.clientCount && w.room.state == WaitForStart
    requires Others(w.room, lives, 2, w.now)
    ensures Enabled(w, Dan(w)) && SharesCorner(Next(w, Dan(w)))
  {
    var ps := w.room.players;
    assert Cast(ps[0], 2, lives[0], w.now);
    DanMayJoin(w, lives, 2);
    DanBesideCyd(w.room, w.now);
  }

  lemma DanBesideCyd(r: RoomState, now: Timestamp)
    requires r.state == WaitForStart && |r.players| == 2 && r.clientCount == 3
    requires r.players[0].color == 2 && r.players[0].guard.coords == Spawn(2)
    ensures var x := JoinPlayer(r, 3, NAMES[3], {}, now);
      && x.state == Play && |x.players| == 3 && x.players[0].color == x.players[1].color
      && x.players[0].guard.coords == x.players[1].guard.coords
  {
    JoinSends(r, 3, NAMES[3], {}, now, 0);
    JoinSends(r, 3, NAMES[3], {}, now, 1);
  }

  lemma SharedCornerIsReached()
    ensures exists w, e :: Reachable(w) && Enabled(w, e) && e.Join? && SharesCorner(Next(w, e))
  {
    var w := Gather(3);
    var lives := Repeat(STARTER_LIVES, 3);
    SceneDrop(w, lives, 2);
    DanGetsCydsCorner(Next(w, Drop(w, 2)), lives);
  }
}
