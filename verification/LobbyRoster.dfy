/** Clients waiting in a lobby never forget anybody, and an agreeing roster is no longer
    than the room. */
module LobbyRoster {
  import opened Messages
  import opened RoomSpec
  import opened RoomFacts
  import opened RoomRun
  import opened RoomInvariants
  import opened RoomTheorems
  import opened Client
  import opened Mirror
  import opened MirrorRuns

  /** A waiting client lists everyone who ever joined, those who left included. */
  ghost predicate Lists(p: PlayerState, count: nat) {
    !p.marked ==>
      var c := ClientOf(p.link.log);
      c.phase == Halted || (c.phase == InLobby && |c.players| == count)
  }

  ghost predicate AllList(ps: seq<PlayerState>, count: nat) {
    forall i :: 0 <= i < |ps| ==> Lists(ps[i], count)
  }

  /** While the room waits. */
  ghost predicate Remembered(w: World) {
    w.room.state == WaitForStart ==> AllList(w.room.players, w.room.clientCount)
  }

  predicate IgnoredInLobby(m: ServerMsg) {
    m.OtherLeave? || m.OtherBombPlace? || m.Error?
  }

  lemma StillLists(p: PlayerState, m: ServerMsg, count: nat)
    requires Lists(p, count) && IgnoredInLobby(m)
    ensures Lists(Send(p, m), count)
  {
    if !Send(p, m).marked {
      Told(p, m);
    }
  }

  lemma TellStillLists(ps: seq<PlayerState>, k: int, m: ServerMsg, count: nat)
    requires AllList(ps, count) && IgnoredInLobby(m)
    ensures AllList(SendExcept(ps, k, m), count)
  {
    forall i | 0 <= i < |ps|
      ensures Lists(SendExcept(ps, k, m)[i], count)
    {
      StillLists(ps[i], m, count);
    }
  }

  lemma {:induction false} SweepStillLists(s: Sweep, i: nat, inPlay: bool, now: Timestamp, count: nat)
    requires AllList(s.players, count)
    ensures AllList(SweepFrom(s, i, inPlay, now).players, count)
    decreases |s.players| - i
  {
    if i < |s.players| {
      var p := s.players[i];
      var told := SendExcept(s.players, i, OtherLeave(p.username));
      TellStillLists(s.players, i, OtherLeave(p.username), count);
      TellStillLists(told, i, OtherBombPlace("Server", now, p.guard.coords), count);
      SweepStillLists(SweepStep(s, i, inPlay, now), i + 1, inPlay, now, count);
    }
  }

  lemma PostRemembers(w: World, now: Timestamp, armed: Timestamp)
    requires Remembered(w)
    ensures Remembered(Post(w, now, armed))
  {
    var x := Post(w, now, armed);
    if x.room.state == WaitForStart {
      var s := Sweep(w.room.players, [], []);
      var t := SweepFrom(s, 0, false, now);
      SweepStillLists(s, 0, false, now, w.room.clientCount);
      DisconnectedState(w.room, now);
      assert x.room.players == Keep(t.players, t.gone) && x.room.clientCount == w.room.clientCount;
      KeptStillList(t.players, t.gone, w.room.clientCount);
    }
  }

  lemma KeptStillList(ps: seq<PlayerState>, gone: seq<Sock>, count: nat)
    requires AllList(ps, count)
    ensures AllList(Keep(ps, gone), count)
  {
    KeepMembers(ps, gone);
    forall i | 0 <= i < |Keep(ps, gone)|
      ensures Lists(Keep(ps, gone)[i], count)
    {
      assert Keep(ps, gone)[i] in Keep(ps, gone);
    }
  }

  lemma HeardRemembers(w: World, k: nat, msg: ClientMsg, now: Timestamp, armed: Timestamp)
    requires Remembered(w) && k < |w.room.players|
    ensures Remembered(Heard(w, k, msg, now, armed))
  {
    if w.room.state == WaitForStart && msg != ILeave {
      StillLists(w.room.players[k], Error, w.room.clientCount);
    }
  }

  /** Those already waiting add the newcomer. */
  lemma OldTimerAdds(p: PlayerState, newcomer: Listed, count: nat)
    requires Lists(p, count)
    ensures Lists(Send(p, GameJoin(newcomer)), count + 1)
  {
    if !Send(p, GameJoin(newcomer)).marked {
      Told(p, GameJoin(newcomer));
    }
  }

  lemma OldTimerStarts(q: PlayerState, count: nat)
    requires Lists(q, count)
    ensures var p := Send(q, GameStart);
      !p.marked ==>
        var c := ClientOf(p.link.log);
        c.phase == Halted || (c.phase == Playing && |c.players| == count)
  {
    if !Send(q, GameStart).marked {
      Told(q, GameStart);
    }
  }

  lemma OldTimersCountOn(w: World, sock: Sock, username: string, faults: set<nat>, now: Timestamp, i: nat)
    requires Remembered(w) && w.room.state == WaitForStart && IsColor(|w.room.players|) && i < |w.room.players|
    ensures var x := Joined(w, sock, username, faults, now);
      var p := x.room.players[i + 1];
      !p.marked ==>
        var c := ClientOf(p.link.log);
        c.phase == Halted || (c.phase == PhaseOf(x.room.state) && |c.players| == x.room.clientCount)
  {
    var p, newcomer := w.room.players[i], Listed(username, |w.room.players|);
    var q := Send(p, GameJoin(newcomer));
    OldTimerIsSent(w.room, sock, username, faults, now, i);
    OldTimerAdds(p, newcomer, w.room.clientCount);
    OldTimerStarts(q, w.room.clientCount + 1);
  }

  lemma NewcomerLists(p: PlayerState, ps: seq<PlayerState>)
    requires p.link.log == [] && AllAtStart(ps)
    ensures Lists(Send(p, WelcomeToRoom(Listing(ps))), |ps|)
  {
    if !Send(p, WelcomeToRoom(Listing(ps))).marked {
      Told(p, WelcomeToRoom(Listing(ps)));
      WelcomeShowsRoom(ps);
    }
  }

  /** Until the fourth joins nobody can have left a room still waiting: two players
      never leave one behind. */
  lemma NobodyLeftYet(w: World)
    requires Counted(w) && Settled(w) && w.room.state == WaitForStart && w.room.clientCount + 1 < MAX_PLAYERS
    ensures w.room.clientCount == |w.room.players|
  {
  }

  lemma JoinedRemembers(w: World, sock: Sock, username: string, faults: set<nat>, now: Timestamp)
    requires Inv(w) && Waiting(w) && Remembered(w) && w.room.state == WaitForStart && IsColor(|w.room.players|)
    ensures Remembered(Joined(w, sock, username, faults, now))
  {
    var x := Joined(w, sock, username, faults, now);
    if x.room.state == WaitForStart {
      NobodyLeftYet(w);
      var p := NewPlayer(sock, username, |w.room.players|, faults, now);
      var ps := [p] + w.room.players;
      NewcomerLists(p, ps);
      assert x.room.players[0] == Send(p, WelcomeToRoom(Listing(ps)));
      forall i | 0 < i < |x.room.players|
        ensures Lists(x.room.players[i], x.room.clientCount)
      {
        OldTimersCountOn(w, sock, username, faults, now, i - 1);
      }
    }
  }

  lemma HeardStepRemembers(w: World, e: Event)
    requires Inv(w) && Remembered(w) && Enabled(w, e) && e.Hear?
    ensures Remembered(Next(w, e))
  {
    var k, clock := IndexOf(w.room.players, e.sock), e.clock;
    var heard := Heard(w, k, e.msg, clock[0], clock[1]);
    HeardKeeps(w, k, e.msg, clock[0], clock[1]);
    HeardRemembers(w, k, e.msg, clock[0], clock[1]);
    PostKeeps(heard, clock[2], clock[3]);
    PostRemembers(heard, clock[2], clock[3]);
    PostRemembers(Post(heard, clock[2], clock[3]), clock[4], clock[5]);
  }

  lemma FiredRemembers(w: World, j: nat, draw: nat, now: Timestamp)
    requires Remembered(w) && j < |w.timers| && DrawDefined(w.room, draw, now)
    ensures Remembered(Fired(w, j, draw, now))
  {
    if Explodes(w.room) {
      FiredPeople(w.room, draw, now);
    }
  }

  lemma StepRemembers(w: World, e: Event)
    requires Inv(w) && Waiting(w) && Remembered(w) && Enabled(w, e)
    ensures Remembered(Next(w, e))
  {
    match e
    case Join(sock, username, faults, clock) =>
      JoinedKeeps(w, sock, username, faults, clock[0]);
      JoinedRemembers(w, sock, username, faults, clock[0]);
    case Hear(_, _, _) => HeardStepRemembers(w, e);
    case Lose(sock, clock) =>
      var k := IndexOf(w.room.players, sock);
      MarkedKeeps(w, k, clock[0]);
      PostRemembers(Marked(w, k, clock[0]), clock[0], clock[1]);
    case Fire(timer, draw, clock) =>
      FiredKeeps(w, timer, draw, clock[0]);
      FiredRemembers(w, timer, draw, clock[0]);
      PostRemembers(Fired(w, timer, draw, clock[0]), clock[1], clock[2]);
  }

  lemma {:induction false} RunRemembers(w: World, es: seq<Event>)
    requires Inv(w) && Waiting(w) && Remembered(w) && ValidRun(w, es)
    ensures Remembered(Run(w, es)) && Waiting(Run(w, es))
    decreases es
  {
    if es != [] {
      StepKeeps(w, es[0]);
      StepWaits(w, es[0]);
      StepRemembers(w, es[0]);
      RunRemembers(Next(w, es[0]), es[1..]);
    }
  }

  lemma ReachableRemembers(w: World)
    requires Reachable(w)
    ensures Inv(w) && Waiting(w) && Remembered(w)
  {
    var start, es :| ValidRun(NewWorld(start), es) && w == Run(NewWorld(start), es);
    NewWorldIsGood(start);
    RunKeeps(NewWorld(start), es);
    RunRemembers(NewWorld(start), es);
  }

  // ----- counting names

  ghost function ShownNames(players: seq<Boomberman>): set<string> {
    set b | b in players :: b.name
  }

  lemma FirstNameDiffers(players: seq<Boomberman>)
    requires NamesDiffer(players) && players != []
    ensures NamesDiffer(players[1..])
    ensures players[0].name !in ShownNames(players[1..])
    ensures ShownNames(players) == {players[0].name} + ShownNames(players[1..])
  {
    forall b | b in players[1..]
      ensures b.name != players[0].name
    {
      var i :| 0 <= i < |players[1..]| && players[1..][i] == b;
      assert players[i + 1] == b;
    }
    assert players == [players[0]] + players[1..];
  }

  lemma {:induction false} ShownNamesCount(players: seq<Boomberman>)
    requires NamesDiffer(players)
    ensures |ShownNames(players)| == |players|
  {
    if players != [] {
      FirstNameDiffers(players);
      ShownNamesCount(players[1..]);
    }
  }

  ghost function Usernames(ps: seq<PlayerState>): set<string> {
    set p | p in ps :: p.username
  }

  lemma {:induction false} UsernamesCount(ps: seq<PlayerState>)
    ensures |Usernames(ps)| <= |ps|
  {
    if ps != [] {
      UsernamesCount(ps[1..]);
      assert Usernames(ps) == {ps[0].username} + Usernames(ps[1..]);
    }
  }

  /** An agreeing roster is no longer than the room. */
  lemma AgreeingRosterFits(players: seq<Boomberman>, ps: seq<PlayerState>, me: PlayerState)
    requires Agrees(players, ps, [], me.username) && me in ps
    ensures |players| <= |ps|
  {
    ShownNamesCount(players);
    UsernamesCount(ps);
    forall b | b in players
      ensures b.name in Usernames(ps)
    {
      if b.name == me.username {
        assert me in ps;
      } else {
        var i :| 0 <= i < |ps| && ps[i].livesRemaining > 0 && ps[i].sock !in [] && ShownAs(ps[i]) == b;
        assert ps[i] in ps;
      }
    }
    SubsetCount(ShownNames(players), Usernames(ps));
  }

  lemma {:induction false} SubsetCount(a: set<string>, b: set<string>)
    requires a <= b
    ensures |a| <= |b|
    decreases a
  {
    if a != {} {
      var x :| x in a;
      SubsetCount(a - {x}, b - {x});
    }
  }
}
