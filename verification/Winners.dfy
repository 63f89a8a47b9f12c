/** As a game ends its winner is the one the clients show. */
module Winners {
  import opened Messages
  import opened RoomSpec
  import opened RoomFacts
  import opened RoomRun
  import opened RoomInvariants
  import opened RoomTheorems
  import opened Steps
  import opened Announcements
  import opened Client
  import opened ClientLog

  // ----- in its game

  lemma {:induction false} StartsIfTold(log: seq<ServerMsg>)
    requires Starts(log) > 0
    ensures GameStart in log
  {
    if log[|log| - 1] != GameStart {
      StartsIfTold(log[..|log| - 1]);
    }
  }

  /** A client off the error screen is in its game as soon as the room is. */
  lemma InItsGame(w: World, p: PlayerState)
    requires Reachable(w) && w.room.state == Play && p in w.room.players
    requires !p.marked && ClientOf(p.link.log).phase != Halted
    ensures Plays(p.link.log)
  {
    var log := p.link.log;
    GameStartsOnce(w, p);
    StartsIfTold(log);
    PhaseOfLog(log);
    var i :| 0 <= i < |log| && log[i] == GameStart;
    assert Error !in log ==> Error !in log[..i];
  }

  // ----- what the disconnects send

  ghost predicate NoWinSince(log: seq<ServerMsg>, longer: seq<ServerMsg>) {
    log <= longer && forall j | |log| <= j < |longer| :: !longer[j].GameWon?
  }

  ghost predicate NoWinsSince(ps: seq<PlayerState>, qs: seq<PlayerState>) {
    |ps| == |qs| && forall i | 0 <= i < |ps| :: NoWinSince(ps[i].link.log, qs[i].link.log)
  }

  lemma NoWinsOn(ps: seq<PlayerState>, qs: seq<PlayerState>, us: seq<PlayerState>)
    requires NoWinsSince(ps, qs) && NoWinsSince(qs, us)
    ensures NoWinsSince(ps, us)
  {
    forall i | 0 <= i < |ps|
      ensures NoWinSince(ps[i].link.log, us[i].link.log)
    {
      assert NoWinSince(ps[i].link.log, qs[i].link.log) && NoWinSince(qs[i].link.log, us[i].link.log);
    }
  }

  lemma TellingNoWin(ps: seq<PlayerState>, k: int, m: ServerMsg)
    requires !m.GameWon?
    ensures NoWinsSince(ps, SendExcept(ps, k, m))
  {
  }

  lemma EvictTellsNoWin(s: Sweep, k: nat, inPlay: bool, now: Timestamp)
    requires k < |s.players|
    ensures NoWinsSince(s.players, Evict(s, k, inPlay, now).players)
  {
    var p := s.players[k];
    var told := SendExcept(s.players, k, OtherLeave(p.username));
    TellingNoWin(s.players, k, OtherLeave(p.username));
    TellingNoWin(told, k, OtherBombPlace("Server", now, p.guard.coords));
    NoWinsOn(s.players, told, SendExcept(told, k, OtherBombPlace("Server", now, p.guard.coords)));
  }

  lemma {:induction false} SweepTellsNoWin(s: Sweep, i: nat, inPlay: bool, now: Timestamp)
    ensures NoWinsSince(s.players, SweepFrom(s, i, inPlay, now).players)
    decreases |s.players| - i
  {
    if i < |s.players| {
      var u := SweepStep(s, i, inPlay, now);
      EvictTellsNoWin(s, i, inPlay, now);
      SweepTellsNoWin(u, i + 1, inPlay, now);
      NoWinsOn(s.players, u.players, SweepFrom(u, i + 1, inPlay, now).players);
    }
  }

  /** Everybody in the room, leavers too, once the disconnects have told all others of each
      leaver. */
  function LastSeen(r: RoomState, now: Timestamp): seq<PlayerState> {
    SweepFrom(Sweep(r.players, [], []), 0, r.state == Play, now).players
  }

  lemma LastSeenGrew(r: RoomState, now: Timestamp)
    ensures GrewInPlace(r.players, LastSeen(r, now)) && NoWinsSince(r.players, LastSeen(r, now))
  {
    SweepAnnounces(Sweep(r.players, [], []), 0, r.state == Play, now, [], iset{});
    SweepTellsNoWin(Sweep(r.players, [], []), 0, r.state == Play, now);
  }

  /** Nothing sent between `p` and `q`, the same player later, failed. */
  predicate GotAll(p: PlayerState, q: PlayerState) {
    forall c | c in p.link.faults :: !(p.link.attempts <= c < q.link.attempts)
  }

  // ----- by blast

  lemma BlastWinnerShown(r: RoomState, draw: nat, now: Timestamp, later: Timestamp, i: nat)
    requires Explodes(r) && DrawDefined(r, draw, now) && i < |r.players|
    requires NotifyExplosion(r, draw, now).winner.Some? && Plays(r.players[i].link.log)
    ensures var e := NotifyExplosion(r, draw, now);
      var qs := LastSeen(e.room, later);
      |qs| == |r.players| && Grew(r.players[i], qs[i])
      && (GotAll(r.players[i], qs[i]) ==> ClientOf(qs[i].link.log).winner == e.winner.value)
  {
    var e, after := NotifyExplosion(r, draw, now), Detonate(r, now).players;
    var p, qs := r.players[i], LastSeen(e.room, later);
    TheRightOneWins(r, draw, now);
    BlastGrows(r.players, 0, LitTiles(r.field, r.bombs[0]), now);
    ExplosionGrows(r, draw, now);
    LastSeenGrew(e.room, later);
    GrowsOn(r.players, e.room.players, qs);
    assert Grew(p, after[i]) && Grew(e.room.players[i], qs[i]);
    assert e.room.players[i].link.attempts == after[i].link.attempts + 1;
    if GotAll(p, qs[i]) {
      assert !Fails(after[i].link);
      assert NoWinSince(e.room.players[i].link.log, qs[i].link.log);
      WinIsShown(p.link.log, after[i].link.log, e.winner.value, qs[i].link.log);
    }
  }

  /** A client in its game hears of a win, and of nothing but other things since. */
  lemma WinIsShown(played: seq<ServerMsg>, log: seq<ServerMsg>, name: string, longer: seq<ServerMsg>)
    requires Plays(played) && played <= log && NoWinSince(log + [GameWon(name)], longer)
    ensures ClientOf(longer).winner == name
  {
    PlaysOn(played, log);
    var told := log + [GameWon(name)];
    assert longer[..|log|] == log && longer[|log|] == told[|log|];
    assert IsLastWin(longer, |log|);
    ShownWinner(longer);
  }

  // ----- by disconnects

  /** `q` is `p` at the end, and its client, if in its game and told everything, shows the
      winner. */
  ghost predicate OneLeft(p: PlayerState, q: PlayerState, winner: string) {
    Grew(p, q) && (Plays(p.link.log) && GotAll(p, q) ==> ClientOf(q.link.log).winner == winner)
  }

  lemma LastWordShown(p: PlayerState, last: PlayerState)
    requires Grew(p, last)
    ensures OneLeft(p, Send(last, GameWon(last.username)), last.username)
  {
    SendGrows(last, GameWon(last.username));
    if Plays(p.link.log) && !Fails(last.link) {
      WinIsShown(p.link.log, last.link.log, last.username, last.link.log + [GameWon(last.username)]);
    }
  }

  lemma FarewellToTheLast(r: RoomState, now: Timestamp)
    requires DisconnectPlayers(r, now).farewell.Some?
    ensures var d, t := DisconnectPlayers(r, now), SweepFrom(Sweep(r.players, [], []), 0, r.state == Play, now);
      var rest := Keep(t.players, t.gone);
      && |rest| == 1 && d.farewell == Some(Send(rest[0], GameWon(rest[0].username)))
      && d.winner == Some(rest[0].username) && d.room.players == []
  {
  }

  /** The one player left is told that it won, last of all. */
  lemma FarewellShown(r: RoomState, now: Timestamp)
    requires DisconnectPlayers(r, now).farewell.Some?
    ensures var d := DisconnectPlayers(r, now);
      && d.winner.Some? && d.room.players == []
      && exists j :: 0 <= j < |r.players| && OneLeft(r.players[j], d.farewell.value, d.winner.value)
  {
    var t := SweepFrom(Sweep(r.players, [], []), 0, r.state == Play, now);
    var last := Keep(t.players, t.gone)[0];
    FarewellToTheLast(r, now);
    LastSeenGrew(r, now);
    KeptGrew(r.players, t.players, t.gone);
    assert CameFrom(r.players, last);
    var j :| 0 <= j < |r.players| && Grew(r.players[j], last);
    LastWordShown(r.players[j], last);
  }

  lemma PostGrew(r: RoomState, now: Timestamp)
    ensures AllGrew(r.players, DisconnectPlayers(r, now).room.players)
  {
    var t := SweepFrom(Sweep(r.players, [], []), 0, r.state == Play, now);
    LastSeenGrew(r, now);
    KeptGrew(r.players, t.players, t.gone);
  }

  lemma AllGrewOn(ps: seq<PlayerState>, qs: seq<PlayerState>, us: seq<PlayerState>)
    requires AllGrew(ps, qs) && AllGrew(qs, us)
    ensures AllGrew(ps, us)
  {
    forall j | 0 <= j < |us|
      ensures CameFrom(ps, us[j])
    {
      assert CameFrom(qs, us[j]);
      var i :| 0 <= i < |qs| && Grew(qs[i], us[j]);
      assert CameFrom(ps, qs[i]);
    }
  }

  /** The event itself makes nobody forget. */
  lemma MiddleGrew(w: World, e: Event)
    requires Enabled(w, e) && !e.Join?
    ensures GrewInPlace(w.room.players, Middle(w, e).room.players)
  {
    match e
    case Hear(sock, msg, clock) => HeardGrows(w.room, IndexOf(w.room.players, sock), msg, clock[0]);
    case Lose(_, _) =>
    case Fire(_, draw, clock) => ExplosionGrows(w.room, draw, clock[0]);
  }

  /** A player of the room before the event is the one left by these disconnects. */
  lemma LeftFromBefore(ps: seq<PlayerState>, r: RoomState, now: Timestamp, p: PlayerState, q: PlayerState)
    requires Distinct(ps) && AllGrew(ps, r.players) && p in ps && p.sock == q.sock
    requires DisconnectPlayers(r, now).farewell == Some(q) && Plays(p.link.log) && GotAll(p, q)
    ensures DisconnectPlayers(r, now).winner == Some(ClientOf(q.link.log).winner)
  {
    var d := DisconnectPlayers(r, now);
    FarewellShown(r, now);
    var j :| 0 <= j < |r.players| && OneLeft(r.players[j], q, d.winner.value);
    assert CameFrom(ps, r.players[j]);
    var i :| 0 <= i < |ps| && Grew(ps[i], r.players[j]);
    assert ps[i] == p;
    PlaysOn(p.link.log, r.players[j].link.log);
  }

  // ----- the end of a game

  /** The winner is announced in this step, and `q` is somebody told so, after everything
      the step sends it: everybody if the game ends by blast, else the one left. */
  ghost predicate TheEndFor(w: World, e: Event, q: PlayerState)
    requires Enabled(w, e)
  {
    var mid := Middle(w, e);
    match e
    case Join(_, _, _, _) => false
    case Hear(_, _, clock) =>
      || DisconnectPlayers(mid.room, clock[2]).farewell == Some(q)
      || DisconnectPlayers(Post(mid, clock[2], clock[3]).room, clock[4]).farewell == Some(q)
    case Lose(_, clock) => DisconnectPlayers(mid.room, clock[0]).farewell == Some(q)
    case Fire(_, draw, clock) =>
      || (NotifyExplosion(w.room, draw, clock[0]).winner.Some? && q in LastSeen(mid.room, clock[1]))
      || DisconnectPlayers(mid.room, clock[1]).farewell == Some(q)
  }

  lemma AnnouncedOnce(x: World, name: string)
    requires Reachable(x) && name in x.winners
    ensures x.winners == [name]
  {
    ReachableIsGood(x);
  }

  lemma BlastEndShown(w: World, e: Event, p: PlayerState, q: PlayerState)
    requires Reachable(w) && w.room.state == Play && Enabled(w, e) && e.Fire?
    requires NotifyExplosion(w.room, e.draw, e.clock[0]).winner.Some?
    requires q in LastSeen(Middle(w, e).room, e.clock[1])
    requires p in w.room.players && p.sock == q.sock && Plays(p.link.log) && GotAll(p, q)
    ensures NotifyExplosion(w.room, e.draw, e.clock[0]).winner == Some(ClientOf(q.link.log).winner)
  {
    ReachableIsGood(w);
    var ps, r := w.room.players, Middle(w, e).room;
    MiddleGrew(w, e);
    LastSeenGrew(r, e.clock[1]);
    GrowsOn(ps, r.players, LastSeen(r, e.clock[1]));
    var i := WhoGrew(ps, LastSeen(r, e.clock[1]), p, q);
    BlastWinnerShown(w.room, e.draw, e.clock[0], e.clock[1], i);
  }

  lemma WhoGrew(ps: seq<PlayerState>, qs: seq<PlayerState>, p: PlayerState, q: PlayerState) returns (i: nat)
    requires Distinct(ps) && GrewInPlace(ps, qs) && p in ps && q in qs && p.sock == q.sock
    ensures i < |ps| && ps[i] == p && qs[i] == q
  {
    i :| 0 <= i < |qs| && qs[i] == q;
    assert Grew(ps[i], qs[i]);
  }

  lemma FiredEndShown(w: World, e: Event, p: PlayerState, q: PlayerState)
    requires Reachable(w) && w.room.state == Play && Enabled(w, e) && e.Fire? && TheEndFor(w, e, q)
    requires p in w.room.players && p.sock == q.sock && GotAll(p, q) && Plays(p.link.log)
    ensures ClientOf(q.link.log).winner in Next(w, e).winners
  {
    var mid := Middle(w, e);
    if DisconnectPlayers(mid.room, e.clock[1]).farewell == Some(q) {
      ReachableIsGood(w);
      MiddleGrew(w, e);
      GrewInPlaceGrew(w.room.players, mid.room.players);
      LeftFromBefore(w.room.players, mid.room, e.clock[1], p, q);
    } else {
      BlastEndShown(w, e, p, q);
      WinnersStay(mid, e.clock[1], e.clock[2]);
    }
  }

  lemma WinnersStay(w: World, now: Timestamp, armed: Timestamp)
    ensures var d := DisconnectPlayers(w.room, now);
      Post(w, now, armed).winners == w.winners + Winners(d.winner)
  {
  }

  lemma LostEndShown(w: World, e: Event, p: PlayerState, q: PlayerState)
    requires Inv(w) && Enabled(w, e) && e.Lose? && TheEndFor(w, e, q)
    requires p in w.room.players && p.sock == q.sock && GotAll(p, q) && Plays(p.link.log)
    ensures ClientOf(q.link.log).winner in Next(w, e).winners
  {
    var mid := Middle(w, e);
    MiddleGrew(w, e);
    GrewInPlaceGrew(w.room.players, mid.room.players);
    LeftFromBefore(w.room.players, mid.room, e.clock[0], p, q);
    WinnersStay(mid, e.clock[0], e.clock[1]);
  }

  /** In every run, by blast or by disconnects: who is told of the end, was in touch before
      this step and missed nothing sent in it shows the one winner there is. */
  lemma TheWinnerIsShown(w: World, e: Event, p: PlayerState, q: PlayerState)
    requires Reachable(w) && w.room.state == Play && Enabled(w, e) && TheEndFor(w, e, q)
    requires p in w.room.players && p.sock == q.sock && GotAll(p, q)
    requires !p.marked && ClientOf(p.link.log).phase != Halted
    ensures Next(w, e).winners == [ClientOf(q.link.log).winner]
  {
    ReachableIsGood(w);
    InItsGame(w, p);
    if e.Hear? {
      HeardEndShown(w, e, p, q);
    } else if e.Lose? {
      LostEndShown(w, e, p, q);
    } else {
      FiredEndShown(w, e, p, q);
    }
    ReachableStep(w, e);
    AnnouncedOnce(Next(w, e), ClientOf(q.link.log).winner);
  }

  lemma HeardEndShown(w: World, e: Event, p: PlayerState, q: PlayerState)
    requires Inv(w) && Enabled(w, e) && e.Hear? && TheEndFor(w, e, q)
    requires p in w.room.players && p.sock == q.sock && GotAll(p, q) && Plays(p.link.log)
    ensures ClientOf(q.link.log).winner in Next(w, e).winners
  {
    var ps, mid, c := w.room.players, Middle(w, e), e.clock;
    var once := Post(mid, c[2], c[3]);
    MiddleGrew(w, e);
    GrewInPlaceGrew(ps, mid.room.players);
    if DisconnectPlayers(mid.room, c[2]).farewell == Some(q) {
      LeftFromBefore(ps, mid.room, c[2], p, q);
    } else {
      PostGrew(mid.room, c[2]);
      AllGrewOn(ps, mid.room.players, once.room.players);
      LeftFromBefore(ps, once.room, c[4], p, q);
    }
  }

  // ----- and somebody is told

  /** Somebody of the room before the step. */
  ghost predicate SomeoneIsTold(w: World, e: Event)
    requires Enabled(w, e)
  {
    exists p, q: PlayerState :: p in w.room.players && p.sock == q.sock && TheEndFor(w, e, q)
  }

  lemma TellsSomeone(w: World, e: Event, r: RoomState, now: Timestamp)
    requires Enabled(w, e) && AllGrew(w.room.players, r.players) && DisconnectPlayers(r, now).winner.Some?
    requires forall q | DisconnectPlayers(r, now).farewell == Some(q) :: TheEndFor(w, e, q)
    ensures SomeoneIsTold(w, e)
  {
    WinnerIsLeft(r, now);
    FarewellShown(r, now);
    var ps, d := w.room.players, DisconnectPlayers(r, now);
    var j :| 0 <= j < |r.players| && OneLeft(r.players[j], d.farewell.value, d.winner.value);
    assert CameFrom(ps, r.players[j]);
    var i :| 0 <= i < |ps| && Grew(ps[i], r.players[j]);
    assert ps[i] in ps && TheEndFor(w, e, d.farewell.value);
  }

  lemma WinnerIsLeft(r: RoomState, now: Timestamp)
    ensures var d := DisconnectPlayers(r, now); d.winner.Some? <==> d.farewell.Some?
  {
  }

  lemma BlastEndTold(w: World, e: Event)
    requires Inv(w) && Enabled(w, e) && e.Fire? && w.room.state == Play
    requires NotifyExplosion(w.room, e.draw, e.clock[0]).winner.Some?
    ensures forall p | p in w.room.players :: exists q: PlayerState :: q.sock == p.sock && TheEndFor(w, e, q)
    ensures SomeoneIsTold(w, e)
  {
    var ps, r := w.room.players, Middle(w, e).room;
    MiddleGrew(w, e);
    LastSeenGrew(r, e.clock[1]);
    forall p | p in ps
      ensures exists q: PlayerState :: q.sock == p.sock && TheEndFor(w, e, q)
    {
      var i :| 0 <= i < |ps| && ps[i] == p;
      GrowsOn(ps, r.players, LastSeen(r, e.clock[1]));
      assert Grew(ps[i], LastSeen(r, e.clock[1])[i]);
      assert TheEndFor(w, e, LastSeen(r, e.clock[1])[i]);
    }
    assert ps[0] in ps;
  }

  lemma NobodyWonByBlast(w: World, e: Event)
    requires Finished(w) && w.room.state == Play && Enabled(w, e) && e.Fire?
    requires NotifyExplosion(w.room, e.draw, e.clock[0]).winner.None?
    ensures Middle(w, e).winners == []
  {
  }

  lemma FiredEndTold(w: World, e: Event)
    requires Inv(w) && Enabled(w, e) && e.Fire? && w.room.state == Play && Next(w, e).winners != []
    requires NotifyExplosion(w.room, e.draw, e.clock[0]).winner.None?
    ensures SomeoneIsTold(w, e)
  {
    var mid := Middle(w, e);
    MiddleGrew(w, e);
    GrewInPlaceGrew(w.room.players, mid.room.players);
    NobodyWonByBlast(w, e);
    WinnersStay(mid, e.clock[1], e.clock[2]);
    assert Winners(DisconnectPlayers(mid.room, e.clock[1]).winner) != [];
    TellsSomeone(w, e, Middle(w, e).room, e.clock[1]);
  }

  lemma LostEndTold(w: World, e: Event)
    requires Inv(w) && Enabled(w, e) && e.Lose? && w.room.state == Play && Next(w, e).winners != []
    ensures SomeoneIsTold(w, e)
  {
    MiddleGrew(w, e);
    GrewInPlaceGrew(w.room.players, Middle(w, e).room.players);
    WinnersStay(Middle(w, e), e.clock[0], e.clock[1]);
    TellsSomeone(w, e, Middle(w, e).room, e.clock[0]);
  }

  lemma HeardEndTold(w: World, e: Event)
    requires Inv(w) && Enabled(w, e) && e.Hear? && w.room.state == Play && Next(w, e).winners != []
    ensures SomeoneIsTold(w, e)
  {
    var ps, mid, c := w.room.players, Middle(w, e), e.clock;
    MiddleGrew(w, e);
    GrewInPlaceGrew(ps, mid.room.players);
    WinnersStay(mid, c[2], c[3]);
    WinnersStay(Post(mid, c[2], c[3]), c[4], c[5]);
    if DisconnectPlayers(mid.room, c[2]).winner.Some? {
      TellsSomeone(w, e, mid.room, c[2]);
    } else {
      PostGrew(mid.room, c[2]);
      AllGrewOn(ps, mid.room.players, Post(mid, c[2], c[3]).room.players);
      TellsSomeone(w, e, Post(mid, c[2], c[3]).room, c[4]);
    }
  }

  /** Whenever a winner is announced somebody is told, and everybody if it is by blast. */
  lemma NoSilentEnd(w: World, e: Event)
    requires Reachable(w) && w.room.state == Play && Enabled(w, e) && Next(w, e).winners != []
    ensures SomeoneIsTold(w, e)
    ensures e.Fire? && NotifyExplosion(w.room, e.draw, e.clock[0]).winner.Some? ==>
      forall p | p in w.room.players :: exists q: PlayerState :: q.sock == p.sock && TheEndFor(w, e, q)
  {
    ReachableIsGood(w);
    if e.Hear? {
      HeardEndTold(w, e);
    } else if e.Lose? {
      LostEndTold(w, e);
    } else if NotifyExplosion(w.room, e.draw, e.clock[0]).winner.Some? {
      BlastEndTold(w, e);
    } else {
      FiredEndTold(w, e);
    }
  }
}
