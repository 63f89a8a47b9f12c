/** What the clients are told besides the roster: every bomb, and the winner. */
module Announcements {
  import opened Grid
  import opened Blast
  import opened Messages
  import opened MoveGuard
  import opened RoomSpec
  import opened RoomFacts
  import opened RoomRun
  import opened RoomInvariants
  import opened RoomTheorems

  // ----- bombs

  /** The bomb a client puts on its field for a notice: the name decides its strength. */
  function ShownBomb(name: string, plantTime: Timestamp, at: Tile): Bomb {
    if name == "Server" then Bomb(at, 9, plantTime, true) else Bomb(at, 3, plantTime, false)
  }

  /** Everybody unmarked and not on its way out has been told of `b`, under `name`; of
      a planted bomb its planter, who bears that name, is not told. */
  ghost predicate Told(ps: seq<PlayerState>, gone: seq<Sock>, b: Bomb, name: string) {
    forall i | 0 <= i < |ps| && !ps[i].marked && ps[i].sock !in gone && (b.isAtomic || ps[i].username != name) ::
      OtherBombPlace(name, b.plantTime, b.pos) in ps[i].link.log
  }

  /** `b` is announced, under the server's name if it is atomic, under its planter's if it
      is not; `notes` are the notices of the bombs planted. */
  ghost predicate Announced(ps: seq<PlayerState>, gone: seq<Sock>, b: Bomb, notes: iset<ServerMsg>) {
    exists name: string :: Told(ps, gone, b, name) && Fitting(b, name, notes)
  }

  ghost predicate Fitting(b: Bomb, name: string, notes: iset<ServerMsg>) {
    if b.isAtomic then b.explosion == 9 && name == "Server"
    else b.explosion == 3 && OtherBombPlace(name, b.plantTime, b.pos) in notes
  }

  ghost predicate AllAnnounced(ps: seq<PlayerState>, gone: seq<Sock>, bombs: seq<Bomb>, notes: iset<ServerMsg>) {
    forall n | 0 <= n < |bombs| :: Announced(ps, gone, bombs[n], notes)
  }

  /** How often a client was told that the game starts. */
  function Starts(log: seq<ServerMsg>): nat {
    if log == [] then 0
    else Starts(log[..|log| - 1]) + if log[|log| - 1] == GameStart then 1 else 0
  }

  /** `q` is `p` some sends later, none of them the start of the game. */
  ghost predicate Grew(p: PlayerState, q: PlayerState) {
    && q.sock == p.sock && q.username == p.username && (p.marked ==> q.marked)
    && q.link.faults == p.link.faults && p.link.attempts <= q.link.attempts
    && p.link.log <= q.link.log && Starts(q.link.log) == Starts(p.link.log)
  }

  ghost predicate CameFrom(ps: seq<PlayerState>, q: PlayerState) {
    exists i :: 0 <= i < |ps| && Grew(ps[i], q)
  }

  /** Everyone in `qs` was in `ps`, some sends earlier. */
  ghost predicate AllGrew(ps: seq<PlayerState>, qs: seq<PlayerState>) {
    forall j | 0 <= j < |qs| :: CameFrom(ps, qs[j])
  }

  ghost predicate GrewInPlace(ps: seq<PlayerState>, qs: seq<PlayerState>) {
    |ps| == |qs| && forall i | 0 <= i < |ps| :: Grew(ps[i], qs[i])
  }

  lemma GrewInPlaceGrew(ps: seq<PlayerState>, qs: seq<PlayerState>)
    requires GrewInPlace(ps, qs)
    ensures AllGrew(ps, qs)
  {
    forall j | 0 <= j < |qs|
      ensures CameFrom(ps, qs[j])
    {
      assert Grew(ps[j], qs[j]);
    }
  }

  /** What was announced stays announced, and nobody told is on its way out unless it
      is on the new list. */
  lemma StaysAnnounced(ps: seq<PlayerState>, qs: seq<PlayerState>, before: seq<Sock>, gone: seq<Sock>,
          bombs: seq<Bomb>, notes: iset<ServerMsg>)
    requires AllAnnounced(ps, before, bombs, notes) && AllGrew(ps, qs)
    requires forall j | 0 <= j < |qs| && qs[j].sock in before :: qs[j].sock in gone
    ensures AllAnnounced(qs, gone, bombs, notes)
  {
    forall n | 0 <= n < |bombs|
      ensures Announced(qs, gone, bombs[n], notes)
    {
      var name :| Told(ps, before, bombs[n], name) && Fitting(bombs[n], name, notes);
      forall j | 0 <= j < |qs| && !qs[j].marked && qs[j].sock !in gone && (bombs[n].isAtomic || qs[j].username != name)
        ensures OtherBombPlace(name, bombs[n].plantTime, bombs[n].pos) in qs[j].link.log
      {
        assert CameFrom(ps, qs[j]);
        var i :| 0 <= i < |ps| && Grew(ps[i], qs[j]);
      }
      assert Told(qs, gone, bombs[n], name);
    }
  }

  lemma StartsSnoc(log: seq<ServerMsg>, m: ServerMsg)
    ensures Starts(log + [m]) == Starts(log) + if m == GameStart then 1 else 0
  {
    assert (log + [m])[..|log + [m]| - 1] == log;
  }

  lemma SendGrows(p: PlayerState, m: ServerMsg)
    requires m != GameStart
    ensures Grew(p, Send(p, m))
    ensures Send(p, m).marked || m in Send(p, m).link.log
  {
    StartsSnoc(p.link.log, m);
  }

  lemma TellingGrows(ps: seq<PlayerState>, k: int, m: ServerMsg)
    requires m != GameStart
    ensures GrewInPlace(ps, SendExcept(ps, k, m))
  {
    forall i | 0 <= i < |ps|
      ensures Grew(ps[i], SendExcept(ps, k, m)[i])
    {
      SendGrows(ps[i], m);
    }
  }

  lemma TellingTells(ps: seq<PlayerState>, k: nat, gone: seq<Sock>, b: Bomb, name: string)
    requires k < |ps| && if b.isAtomic then ps[k].sock in gone else name == ps[k].username
    ensures Told(SendExcept(ps, k, OtherBombPlace(name, b.plantTime, b.pos)), gone, b, name)
  {
    var m := OtherBombPlace(name, b.plantTime, b.pos);
    var qs := SendExcept(ps, k, m);
    forall i | 0 <= i < |qs| && !qs[i].marked && qs[i].sock !in gone && (b.isAtomic || qs[i].username != name)
      ensures m in qs[i].link.log
    {
      assert i != k && qs[i] == Send(ps[i], m);
      SendGrows(ps[i], m);
    }
  }

  /** A bomb planted by player `k`, or dropped as it goes, and told to the others. */
  lemma TellingAnnounces(ps: seq<PlayerState>, k: nat, gone: seq<Sock>, b: Bomb, name: string,
          bombs: seq<Bomb>, notes: iset<ServerMsg>)
    requires k < |ps| && AllAnnounced(ps, gone, bombs, notes) && Fitting(b, name, notes)
    requires if b.isAtomic then ps[k].sock in gone else name == ps[k].username
    ensures AllAnnounced(SendExcept(ps, k, OtherBombPlace(name, b.plantTime, b.pos)), gone, bombs + [b], notes)
  {
    var m := OtherBombPlace(name, b.plantTime, b.pos);
    TellingGrows(ps, k, m);
    GrewInPlaceGrew(ps, SendExcept(ps, k, m));
    StaysAnnounced(ps, SendExcept(ps, k, m), gone, gone, bombs, notes);
    TellingTells(ps, k, gone, b, name);
    OneMoreAnnounced(SendExcept(ps, k, m), gone, bombs, b, name, notes);
  }

  lemma OneMoreAnnounced(ps: seq<PlayerState>, gone: seq<Sock>, bombs: seq<Bomb>, b: Bomb, name: string,
          notes: iset<ServerMsg>)
    requires AllAnnounced(ps, gone, bombs, notes) && Told(ps, gone, b, name) && Fitting(b, name, notes)
    ensures AllAnnounced(ps, gone, bombs + [b], notes)
  {
    forall n | 0 <= n < |bombs + [b]|
      ensures Announced(ps, gone, (bombs + [b])[n], notes)
    {
      assert n < |bombs| ==> Announced(ps, gone, bombs[n], notes);
    }
  }

  ghost predicate Nobody(ps: seq<PlayerState>, name: string) {
    forall i | 0 <= i < |ps| :: ps[i].username != name
  }

  /** A message to one player, its movement state perhaps changed before. */
  lemma OneGrows(ps: seq<PlayerState>, k: nat, p: PlayerState, m: ServerMsg)
    requires k < |ps| && m != GameStart && Grew(ps[k], p)
    ensures GrewInPlace(ps, SendOne(ps[k := p], k, m))
  {
    SendGrows(p, m);
  }

  lemma HeardGrows(r: RoomState, k: nat, msg: ClientMsg, now: Timestamp)
    requires k < |r.players|
    ensures GrewInPlace(r.players, HandleMessage(r, k, msg, now).0.players)
  {
    var ps, x := r.players, HandleMessage(r, k, msg, now).0;
    if msg == ILeave {
      assert forall i | 0 <= i < |ps| :: Grew(ps[i], x.players[i]);
    } else if r.state == WaitForStart || ps[k].livesRemaining == 0 || msg.OtherType? {
      OneGrows(ps, k, ps[k], Error);
      assert ps[k := ps[k]] == ps && x.players == SendOne(ps, k, Error);
    } else if msg.IMove? {
      MoveGrows(r, k, msg.to, now);
    } else {
      TellingGrows(ps, k, OtherBombPlace(ps[k].username, now, msg.at));
    }
  }

  lemma MoveGrows(r: RoomState, k: nat, to: Tile, now: Timestamp)
    requires k < |r.players|
    ensures GrewInPlace(r.players, MoveTo(r, k, to, now).players)
  {
    var ps, p := r.players, r.players[k];
    var (guard, correction) := MoveCheck(p.guard, to, now);
    if At(r.field, to) != NOTHIN {
      OneGrows(ps, k, p, MovementCorrection(p.guard.coords));
      assert ps[k := p] == ps;
    } else if correction.Some? {
      OneGrows(ps, k, p.(guard := guard), MovementCorrection(correction.value));
    } else {
      var moved := ps[k := p.(guard := guard)];
      TellingGrows(moved, k, OtherMove(p.username, to));
      GrowsOn(ps, moved, SendExcept(moved, k, OtherMove(p.username, to)));
    }
  }

  /** The notice of a bomb planted. */
  function NoticeOf(r: RoomState, k: nat, msg: ClientMsg, now: Timestamp): ServerMsg
    requires k < |r.players| && HandleMessage(r, k, msg, now).1
  {
    OtherBombPlace(r.players[k].username, now, msg.at)
  }

  lemma HeardAnnounces(r: RoomState, k: nat, msg: ClientMsg, now: Timestamp, notes: iset<ServerMsg>)
    requires k < |r.players| && AllAnnounced(r.players, [], r.bombs, notes)
    requires HandleMessage(r, k, msg, now).1 ==> NoticeOf(r, k, msg, now) in notes
    ensures var x := HandleMessage(r, k, msg, now).0;
      AllAnnounced(x.players, [], x.bombs, notes) && AllGrew(r.players, x.players)
  {
    var (x, plants) := HandleMessage(r, k, msg, now);
    HeardGrows(r, k, msg, now);
    GrewInPlaceGrew(r.players, x.players);
    if plants {
      TellingAnnounces(r.players, k, [], Bomb(msg.at, 3, now, false), r.players[k].username, r.bombs, notes);
    } else {
      assert x.bombs == r.bombs;
      StaysAnnounced(r.players, x.players, [], [], r.bombs, notes);
    }
  }

  lemma HurtGrows(ps: seq<PlayerState>, i: nat, now: Timestamp)
    requires i < |ps|
    ensures GrewInPlace(ps, HurtAndTell(ps, i, now))
  {
    var m := GotHit(ps[i].username, ps[i].livesRemaining - 1, now);
    var hurt := ps[i := Hurt(ps[i], now)];
    forall j | 0 <= j < |ps|
      ensures Grew(ps[j], HurtAndTell(ps, i, now)[j])
    {
      SendGrows(hurt[j], m);
    }
  }

  lemma {:induction false} BlastGrows(ps: seq<PlayerState>, i: nat, lit: iset<Tile>, now: Timestamp)
    ensures GrewInPlace(ps, Blasted(ps, i, lit, now))
    decreases |ps| - i
  {
    if i < |ps| {
      var qs := if Hit(ps[i], lit, now) then HurtAndTell(ps, i, now) else ps;
      HurtGrows(ps, i, now);
      BlastGrows(qs, i + 1, lit, now);
      GrowsOn(ps, qs, Blasted(qs, i + 1, lit, now));
    }
  }

  lemma ExplosionGrows(r: RoomState, draw: nat, now: Timestamp)
    requires DrawDefined(r, draw, now)
    ensures GrewInPlace(r.players, NotifyExplosion(r, draw, now).room.players)
  {
    if Explodes(r) {
      var after, x := Detonate(r, now), NotifyExplosion(r, draw, now).room;
      BlastGrows(r.players, 0, LitTiles(r.field, r.bombs[0]), now);
      forall i | 0 <= i < |r.players|
        ensures Grew(r.players[i], x.players[i])
      {
        assert Grew(r.players[i], after.players[i]);
        SendGrows(after.players[i], GameWon(WinnerIn(r, draw, now)));
      }
    }
  }

  /** The name announced, if any. */
  ghost function WinnerIn(r: RoomState, draw: nat, now: Timestamp): string
    requires DrawDefined(r, draw, now)
  {
    var won := NotifyExplosion(r, draw, now).winner;
    if won.Some? then won.value else ""
  }

  lemma FiredAnnounces(r: RoomState, draw: nat, now: Timestamp, notes: iset<ServerMsg>)
    requires DrawDefined(r, draw, now) && AllAnnounced(r.players, [], r.bombs, notes)
    ensures var x := NotifyExplosion(r, draw, now).room;
      AllAnnounced(x.players, [], x.bombs, notes) && AllGrew(r.players, x.players)
  {
    var x := NotifyExplosion(r, draw, now).room;
    ExplosionGrows(r, draw, now);
    GrewInPlaceGrew(r.players, x.players);
    StaysAnnounced(r.players, x.players, [], [], r.bombs, notes);
    if Explodes(r) {
      TailAnnounced(x.players, r.bombs, notes);
      assert x.bombs == r.bombs[1..];
    }
  }

  lemma TailAnnounced(ps: seq<PlayerState>, bombs: seq<Bomb>, notes: iset<ServerMsg>)
    requires bombs != [] && AllAnnounced(ps, [], bombs, notes)
    ensures AllAnnounced(ps, [], bombs[1..], notes)
  {
    forall n | 0 <= n < |bombs[1..]|
      ensures Announced(ps, [], bombs[1..][n], notes)
    {
      assert Announced(ps, [], bombs[n + 1], notes);
    }
  }

  lemma GrowsOn(ps: seq<PlayerState>, qs: seq<PlayerState>, us: seq<PlayerState>)
    requires GrewInPlace(ps, qs) && GrewInPlace(qs, us)
    ensures GrewInPlace(ps, us)
  {
    forall i | 0 <= i < |ps|
      ensures Grew(ps[i], us[i])
    {
      assert Grew(ps[i], qs[i]) && Grew(qs[i], us[i]);
    }
  }

  /** The first notice of the first pass of the disconnects: player `i` leaves. */
  lemma LeaveAnnounces(ps: seq<PlayerState>, i: nat, before: seq<Sock>, bombs: seq<Bomb>, notes: iset<ServerMsg>)
    requires i < |ps| && AllAnnounced(ps, before, bombs, notes)
    ensures var told := SendExcept(ps, i, OtherLeave(ps[i].username));
      GrewInPlace(ps, told) && AllAnnounced(told, before + [ps[i].sock], bombs, notes)
  {
    var told := SendExcept(ps, i, OtherLeave(ps[i].username));
    TellingGrows(ps, i, OtherLeave(ps[i].username));
    GrewInPlaceGrew(ps, told);
    StaysAnnounced(ps, told, before, before + [ps[i].sock], bombs, notes);
  }

  /** ... and the second, if it was alive in play; `bombs` were queued before the pass. */
  lemma EvictAnnounces(s: Sweep, i: nat, inPlay: bool, now: Timestamp, bombs: seq<Bomb>, notes: iset<ServerMsg>)
    requires i < |s.players| && AllAnnounced(s.players, s.gone, bombs + s.dropped, notes)
    ensures var u := Evict(s, i, inPlay, now);
      AllAnnounced(u.players, u.gone, bombs + u.dropped, notes) && GrewInPlace(s.players, u.players)
  {
    var p, queued := s.players[i], bombs + s.dropped;
    var told := SendExcept(s.players, i, OtherLeave(p.username));
    LeaveAnnounces(s.players, i, s.gone, queued, notes);
    if DropsBomb(p, inPlay) {
      var b := Bomb(p.guard.coords, 9, now, true);
      DropAnnounces(told, i, s.gone + [p.sock], b, queued, notes);
      GrowsOn(s.players, told, SendExcept(told, i, OtherBombPlace("Server", now, p.guard.coords)));
      assert queued + [b] == bombs + (s.dropped + [b]);
    }
  }

  lemma DropAnnounces(ps: seq<PlayerState>, k: nat, gone: seq<Sock>, b: Bomb, bombs: seq<Bomb>, notes: iset<ServerMsg>)
    requires k < |ps| && ps[k].sock in gone && AllAnnounced(ps, gone, bombs, notes) && b.isAtomic && b.explosion == 9
    ensures var qs := SendExcept(ps, k, OtherBombPlace("Server", b.plantTime, b.pos));
      AllAnnounced(qs, gone, bombs + [b], notes) && GrewInPlace(ps, qs)
  {
    TellingAnnounces(ps, k, gone, b, "Server", bombs, notes);
    TellingGrows(ps, k, OtherBombPlace("Server", b.plantTime, b.pos));
  }

  lemma StepAnnounces(s: Sweep, i: nat, inPlay: bool, now: Timestamp, bombs: seq<Bomb>, notes: iset<ServerMsg>)
    requires i < |s.players| && AllAnnounced(s.players, s.gone, bombs + s.dropped, notes)
    ensures var u := SweepStep(s, i, inPlay, now);
      AllAnnounced(u.players, u.gone, bombs + u.dropped, notes) && GrewInPlace(s.players, u.players)
  {
    if s.players[i].marked {
      EvictAnnounces(s, i, inPlay, now, bombs, notes);
    }
  }

  lemma {:induction false} SweepAnnounces(s: Sweep, i: nat, inPlay: bool, now: Timestamp, bombs: seq<Bomb>,
          notes: iset<ServerMsg>)
    requires AllAnnounced(s.players, s.gone, bombs + s.dropped, notes)
    ensures var t := SweepFrom(s, i, inPlay, now);
      AllAnnounced(t.players, t.gone, bombs + t.dropped, notes) && GrewInPlace(s.players, t.players)
    decreases |s.players| - i
  {
    if i < |s.players| {
      var u := SweepStep(s, i, inPlay, now);
      StepAnnounces(s, i, inPlay, now, bombs, notes);
      SweepAnnounces(u, i + 1, inPlay, now, bombs, notes);
      GrowsOn(s.players, u.players, SweepFrom(u, i + 1, inPlay, now).players);
    }
  }

  lemma DisconnectAnnounces(r: RoomState, now: Timestamp, notes: iset<ServerMsg>)
    requires AllAnnounced(r.players, [], r.bombs, notes)
    ensures var x := DisconnectPlayers(r, now).room;
      AllAnnounced(x.players, [], x.bombs, notes) && AllGrew(r.players, x.players)
  {
    var s := Sweep(r.players, [], []);
    var t := SweepFrom(s, 0, r.state == Play, now);
    assert r.bombs + [] == r.bombs;
    SweepAnnounces(s, 0, r.state == Play, now, r.bombs, notes);
    var x := DisconnectPlayers(r, now).room;
    if x.players != [] {
      KeptGrew(r.players, t.players, t.gone);
      StaysAnnounced(t.players, x.players, t.gone, [], x.bombs, notes);
    }
  }

  lemma KeptGrew(ps: seq<PlayerState>, ts: seq<PlayerState>, gone: seq<Sock>)
    requires GrewInPlace(ps, ts)
    ensures AllGrew(ps, Keep(ts, gone)) && AllGrew(ts, Keep(ts, gone))
    ensures forall q | q in Keep(ts, gone) :: q.sock !in gone
  {
    var kept := Keep(ts, gone);
    KeepMembers(ts, gone);
    forall j | 0 <= j < |kept|
      ensures CameFrom(ps, kept[j]) && CameFrom(ts, kept[j])
    {
      assert kept[j] in kept;
      var i :| 0 <= i < |ts| && ts[i] == kept[j];
      assert Grew(ps[i], ts[i]) && Grew(ts[i], ts[i]);
    }
  }

  // ----- over runs

  /** Every unmarked client has been told of the start as often as there was one. */
  ghost predicate StartTold(ps: seq<PlayerState>, state: GameState) {
    forall i | 0 <= i < |ps| && !ps[i].marked :: Starts(ps[i].link.log) == if state == WaitForStart then 0 else 1
  }

  ghost predicate Informed(w: World, notes: iset<ServerMsg>) {
    AllAnnounced(w.room.players, [], w.room.bombs, notes) && StartTold(w.room.players, w.room.state)
  }

  /** What sends other than the start of the game keep. */
  lemma GrownStayInformed(ps: seq<PlayerState>, qs: seq<PlayerState>, state: GameState, after: GameState)
    requires AllGrew(ps, qs) && StartTold(ps, state)
    requires qs != [] ==> (state == WaitForStart <==> after == WaitForStart)
    ensures StartTold(qs, after)
  {
    forall j | 0 <= j < |qs|
      ensures !qs[j].marked ==> Starts(qs[j].link.log) == if after == WaitForStart then 0 else 1
    {
      assert CameFrom(ps, qs[j]);
      var i :| 0 <= i < |ps| && Grew(ps[i], qs[j]);
    }
  }

  lemma PostInforms(w: World, now: Timestamp, armed: Timestamp, notes: iset<ServerMsg>)
    requires Informed(w, notes)
    ensures Informed(Post(w, now, armed), notes)
  {
    var x := DisconnectPlayers(w.room, now).room;
    DisconnectAnnounces(w.room, now, notes);
    DisconnectedState(w.room, now);
    GrownStayInformed(w.room.players, x.players, w.room.state, x.state);
  }

  lemma HeardInforms(w: World, k: nat, msg: ClientMsg, now: Timestamp, armed: Timestamp, notes: iset<ServerMsg>)
    requires Informed(w, notes) && k < |w.room.players|
    requires HandleMessage(w.room, k, msg, now).1 ==> NoticeOf(w.room, k, msg, now) in notes
    ensures Informed(Heard(w, k, msg, now, armed), notes)
  {
    var x := HandleMessage(w.room, k, msg, now).0;
    HeardAnnounces(w.room, k, msg, now, notes);
    assert x.state == w.room.state;
    GrownStayInformed(w.room.players, x.players, w.room.state, x.state);
  }

  lemma MarkedInforms(w: World, k: nat, now: Timestamp, notes: iset<ServerMsg>)
    requires Informed(w, notes) && k < |w.room.players|
    ensures Informed(Marked(w, k, now), notes)
  {
    var qs := Marked(w, k, now).room.players;
    assert GrewInPlace(w.room.players, qs);
    GrewInPlaceGrew(w.room.players, qs);
    StaysAnnounced(w.room.players, qs, [], [], w.room.bombs, notes);
    GrownStayInformed(w.room.players, qs, w.room.state, w.room.state);
  }

  lemma FiredInforms(w: World, j: nat, draw: nat, now: Timestamp, notes: iset<ServerMsg>)
    requires Informed(w, notes) && j < |w.timers| && DrawDefined(w.room, draw, now)
    ensures Informed(Fired(w, j, draw, now), notes)
  {
    var x := NotifyExplosion(w.room, draw, now).room;
    FiredAnnounces(w.room, draw, now, notes);
    assert x.state == w.room.state || (w.room.state == Play && x.state == GameOver);
    GrownStayInformed(w.room.players, x.players, w.room.state, x.state);
  }

  lemma SendStarts(p: PlayerState, m: ServerMsg, n: nat)
    requires !p.marked ==> Starts(p.link.log) == n
    ensures !Send(p, m).marked ==> Starts(Send(p, m).link.log) == n + if m == GameStart then 1 else 0
  {
    StartsSnoc(p.link.log, m);
  }

  /** A join tells nobody of the start, unless it is the one that starts the game, and
      then everybody. */
  lemma JoinTellsStart(r: RoomState, sock: Sock, username: string, faults: set<nat>, now: Timestamp)
    requires r.state == WaitForStart && IsColor(|r.players|) && StartTold(r.players, WaitForStart)
    ensures var x := JoinPlayer(r, sock, username, faults, now); StartTold(x.players, x.state)
  {
    var x := JoinPlayer(r, sock, username, faults, now);
    var p := NewPlayer(sock, username, |r.players|, faults, now);
    JoinSends(r, sock, username, faults, now, 0);
    forall i | 0 <= i < |x.players| && !x.players[i].marked
      ensures Starts(x.players[i].link.log) == if x.state == WaitForStart then 0 else 1
    {
      var old' := if i == 0 then p else r.players[i - 1];
      JoinSends(r, sock, username, faults, now, i);
      SendStarts(old', JoinMessage(r, p, i), 0);
      SendStarts(Send(old', JoinMessage(r, p, i)), GameStart, 0);
    }
  }

  lemma JoinedNames(r: RoomState, sock: Sock, username: string, faults: set<nat>, now: Timestamp)
    requires r.state == WaitForStart && IsColor(|r.players|)
    ensures var qs := JoinPlayer(r, sock, username, faults, now).players;
      forall i | 0 <= i < |qs| :: qs[i].username == if i == 0 then username else r.players[i - 1].username
  {
    forall i | 0 <= i <= |r.players|
      ensures var qs := JoinPlayer(r, sock, username, faults, now).players;
        |qs| == |r.players| + 1 && qs[i].username == if i == 0 then username else r.players[i - 1].username
    {
      JoinSends(r, sock, username, faults, now, i);
    }
  }

  lemma JoinedInforms(w: World, e: Event, notes: iset<ServerMsg>)
    requires Inv(w) && Enabled(w, e) && e.Join? && Informed(w, notes)
    ensures Informed(Next(w, e), notes)
  {
    JoinedKeeps(w, e.sock, e.username, e.faults, e.clock[0]);
    JoinTellsStart(w.room, e.sock, e.username, e.faults, e.clock[0]);
    assert Next(w, e).room.bombs == [];
  }

  /** The step plants a bomb; `m` is the notice of it, under its planter's name. */
  ghost predicate Plants(w: World, e: Event, m: ServerMsg)
    requires Enabled(w, e)
  {
    && e.Hear?
    && var k := IndexOf(w.room.players, e.sock);
       HandleMessage(w.room, k, e.msg, e.clock[0]).1 && m == NoticeOf(w.room, k, e.msg, e.clock[0])
  }

  /** Some step of the run does. */
  ghost predicate Planted(w: World, es: seq<Event>, m: ServerMsg)
    requires ValidRun(w, es)
    decreases es
  {
    es != [] && (Plants(w, es[0], m) || Planted(Next(w, es[0]), es[1..], m))
  }

  lemma StepInforms(w: World, e: Event, notes: iset<ServerMsg>)
    requires Inv(w) && Enabled(w, e) && Informed(w, notes) && forall m | Plants(w, e, m) :: m in notes
    ensures Informed(Next(w, e), notes)
  {
    match e
    case Join(_, _, _, _) => JoinedInforms(w, e, notes);
    case Hear(sock, msg, clock) =>
      var k := IndexOf(w.room.players, sock);
      var heard := Heard(w, k, msg, clock[0], clock[1]);
      assert HandleMessage(w.room, k, msg, clock[0]).1 ==> Plants(w, e, NoticeOf(w.room, k, msg, clock[0]));
      HeardInforms(w, k, msg, clock[0], clock[1], notes);
      PostInforms(heard, clock[2], clock[3], notes);
      PostInforms(Post(heard, clock[2], clock[3]), clock[4], clock[5], notes);
    case Lose(sock, clock) =>
      MarkedInforms(w, IndexOf(w.room.players, sock), clock[0], notes);
      PostInforms(Marked(w, IndexOf(w.room.players, sock), clock[0]), clock[0], clock[1], notes);
    case Fire(timer, draw, clock) =>
      FiredInforms(w, timer, draw, clock[0], notes);
      PostInforms(Fired(w, timer, draw, clock[0]), clock[1], clock[2], notes);
  }

  lemma {:induction false} RunInforms(w: World, es: seq<Event>, notes: iset<ServerMsg>)
    requires Inv(w) && ValidRun(w, es) && Informed(w, notes) && forall m | Planted(w, es, m) :: m in notes
    ensures Informed(Run(w, es), notes)
    decreases es
  {
    if es != [] {
      assert forall m | Plants(w, es[0], m) :: Planted(w, es, m);
      assert forall m | Planted(Next(w, es[0]), es[1..], m) :: Planted(w, es, m);
      StepKeeps(w, es[0]);
      StepInforms(w, es[0], notes);
      RunInforms(Next(w, es[0]), es[1..], notes);
    }
  }

  // ----- nobody called "Server"

  predicate NoImpostor(es: seq<Event>) {
    forall e | e in es :: e.Join? ==> e.username != "Server"
  }

  lemma NobodyStays(w: World, e: Event, name: string)
    requires Reachable(w) && Enabled(w, e) && Nobody(w.room.players, name) && (e.Join? ==> e.username != name)
    ensures Nobody(Next(w, e).room.players, name)
  {
    var qs := Next(w, e).room.players;
    if e.Join? {
      ReachableIsGood(w);
      JoinedKeeps(w, e.sock, e.username, e.faults, e.clock[0]);
      JoinedNames(w.room, e.sock, e.username, e.faults, e.clock[0]);
    } else {
      forall i | 0 <= i < |qs|
        ensures qs[i].username != name
      {
        LivesNeverRise(w, e, qs[i]);
      }
    }
  }

  /** Whoever plants a bomb has joined under its name. */
  lemma {:induction false} PlanterJoined(w: World, es: seq<Event>, m: ServerMsg)
    requires Reachable(w) && ValidRun(w, es) && Planted(w, es, m)
    requires NoImpostor(es) && Nobody(w.room.players, "Server")
    ensures m.OtherBombPlace? && m.username != "Server"
    decreases es
  {
    if !Plants(w, es[0], m) {
      NobodyStays(w, es[0], "Server");
      ReachableStep(w, es[0]);
      PlanterJoined(Next(w, es[0]), es[1..], m);
    } else {
      var k := IndexOf(w.room.players, es[0].sock);
      assert m == NoticeOf(w.room, k, es[0].msg, es[0].clock[0]) && w.room.players[k].username != "Server";
    }
  }

  /** The bomb has been announced under that name, at the end of the run, to everybody
      unmarked, a planted one except to its planter, who bears the name. */
  ghost predicate AnnouncedAs(start: Timestamp, es: seq<Event>, b: Bomb, name: string)
    requires ValidRun(NewWorld(start), es)
  {
    && (forall p | p in Run(NewWorld(start), es).room.players && !p.marked && (b.isAtomic || p.username != name) ::
          OtherBombPlace(name, b.plantTime, b.pos) in p.link.log)
    && (if b.isAtomic then name == "Server"
        else Planted(NewWorld(start), es, OtherBombPlace(name, b.plantTime, b.pos)))
    && (ShownBomb(name, b.plantTime, b.pos) == b <==> b.isAtomic || name != "Server")
    && (NoImpostor(es) ==> ShownBomb(name, b.plantTime, b.pos) == b)
  }

  /** In every run every bomb still queued has been announced where it lies: an atomic
      one to everybody unmarked, under the name "Server", a planted one to everybody
      unmarked but its planter, under the name of the player who planted it there and then.
      It is shown as what it is unless that name is "Server", and so always if no player
      took that name. */
  lemma EveryBombIsAnnounced(start: Timestamp, es: seq<Event>, n: nat)
    requires ValidRun(NewWorld(start), es) && n < |Run(NewWorld(start), es).room.bombs|
    ensures exists name: string :: AnnouncedAs(start, es, Run(NewWorld(start), es).room.bombs[n], name)
  {
    var w := NewWorld(start);
    var notes := iset m | Planted(w, es, m);
    NewWorldIsGood(start);
    RunInforms(w, es, notes);
    var r := Run(w, es).room;
    var b := r.bombs[n];
    assert Announced(r.players, [], b, notes);
    var name :| Told(r.players, [], b, name) && Fitting(b, name, notes);
    forall p | p in r.players && !p.marked && (b.isAtomic || p.username != name)
      ensures OtherBombPlace(name, b.plantTime, b.pos) in p.link.log
    {
      var i :| 0 <= i < |r.players| && r.players[i] == p;
    }
    if NoImpostor(es) && !b.isAtomic {
      NewRoomIsReachable(start);
      PlanterJoined(w, es, OtherBombPlace(name, b.plantTime, b.pos));
    }
    assert AnnouncedAs(start, es, b, name);
  }

  /** GAME_START reaches every unmarked client of a room that has ever begun to play
      exactly once, and nobody in a room that has not. */
  lemma GameStartsOnce(w: World, p: PlayerState)
    requires Reachable(w) && p in w.room.players && !p.marked
    ensures Starts(p.link.log) == if w.room.state == WaitForStart then 0 else 1
  {
    var start, es :| ValidRun(NewWorld(start), es) && w == Run(NewWorld(start), es);
    NewWorldIsGood(start);
    RunInforms(NewWorld(start), es, iset m | Planted(NewWorld(start), es, m));
    var i :| 0 <= i < |w.room.players| && w.room.players[i] == p;
  }

  /** A planted bomb is announced under its planter's name. The server does let a player
      take its own, and that player's bombs are then shown as atomic ones; nobody
      else's are. */
  lemma PlainBombShownRight(r: RoomState, k: nat, at: Tile, now: Timestamp)
    requires r.state == Play && k < |r.players| && r.players[k].livesRemaining > 0
    ensures var x := HandleMessage(r, k, IPlaceBomb(at), now).0;
      && x.bombs == r.bombs + [Bomb(at, 3, now, false)]
      && forall i | 0 <= i < |r.players| && i != k && !x.players[i].marked ::
        x.players[i].link.log == r.players[i].link.log + [OtherBombPlace(r.players[k].username, now, at)]
    ensures ShownBomb(r.players[k].username, now, at) == Bomb(at, 3, now, false) <==> r.players[k].username != "Server"
    ensures CanJoin(NEW_ROOM, "Server")
  {
  }

  // ----- winners

  lemma {:induction false} AliveAscends(ps: seq<PlayerState>, n: nat)
    requires n <= |ps|
    ensures forall x | 0 <= x < |AliveUpTo(ps, n)| :: AliveUpTo(ps, n)[x] < n
    ensures forall x, y | 0 <= x < y < |AliveUpTo(ps, n)| :: AliveUpTo(ps, n)[x] < AliveUpTo(ps, n)[y]
  {
    if n > 0 {
      AliveAscends(ps, n - 1);
    }
  }

  ghost predicate AtMostOneAlive(ps: seq<PlayerState>) {
    forall i, j | 0 <= i < j < |ps| :: ps[i].livesRemaining <= 0 || ps[j].livesRemaining <= 0
  }

  lemma AliveCount(ps: seq<PlayerState>)
    ensures |Alive(ps)| <= 1 <==> AtMostOneAlive(ps)
  {
    var alive := Alive(ps);
    AliveAscends(ps, |ps|);
    if |alive| > 1 {
      assert alive[0] < alive[1] && ps[alive[0]].livesRemaining > 0 && ps[alive[1]].livesRemaining > 0;
    } else {
      forall i, j | 0 <= i < j < |ps|
        ensures ps[i].livesRemaining <= 0 || ps[j].livesRemaining <= 0
      {
        assert ps[i].livesRemaining > 0 ==> i in alive;
        assert ps[j].livesRemaining > 0 ==> j in alive;
      }
    }
  }

  /** An explosion ends the game if and only if it leaves one player alive at most. The
      winner was alive before it, and is alive after it if anybody is; everybody is
      marked, and everybody the network lets through is told, last of all, who won. */
  lemma TheRightOneWins(r: RoomState, draw: nat, now: Timestamp)
    requires Explodes(r) && DrawDefined(r, draw, now)
    ensures var e, after := NotifyExplosion(r, draw, now), Detonate(r, now).players;
      && (e.winner.Some? <==> AtMostOneAlive(after))
      && (e.winner.Some? <==> e.room.state == GameOver)
      && (e.winner.Some? ==>
            && (exists i ::
                  && 0 <= i < |r.players| && r.players[i].livesRemaining > 0
                  && r.players[i].username == e.winner.value
                  && (after[i].livesRemaining > 0 || forall j | 0 <= j < |after| :: after[j].livesRemaining <= 0))
            && forall i | 0 <= i < |after| :: var p := e.room.players[i];
              p.marked && (Fails(after[i].link) || p.link.log == after[i].link.log + [GameWon(e.winner.value)]))
  {
    var after := Detonate(r, now).players;
    var e := NotifyExplosion(r, draw, now);
    AliveCount(after);
    NobodyAlive(after);
    BlastedBodies(r.players, 0, LitTiles(r.field, r.bombs[0]), now);
    if e.winner.Some? {
      var i := if Alive(after) == [] then Alive(r.players)[draw] else Alive(after)[0];
      assert BlastedBody(r.players[i], after[i], LitTiles(r.field, r.bombs[0]), now);
      assert r.players[i].livesRemaining > 0 && r.players[i].username == e.winner.value;
    }
  }
}
