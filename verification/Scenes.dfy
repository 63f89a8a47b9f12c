/** Steps of a room in which no send fails: what runs to a given room are put together
    from. */
module Scenes {
  import opened Grid
  import opened Blast
  import opened Messages
  import opened RoomSpec
  import opened RoomFacts
  import opened Disconnects
  import opened Leaving
  import opened RoomRun
  import opened RoomTheorems
  import opened WaitingRoom

  const NAMES := ["Ann", "Bob", "Cyd", "Dan"]

  /** Every send to `p` gets through, and it was never told of an error. */
  predicate Faultless(p: PlayerState) {
    p.link.faults == {} && !p.marked && Error !in p.link.log
  }

  /** Player number `n` to join, standing where it began. */
  ghost predicate Cast(p: PlayerState, n: nat, lives: int, now: Timestamp)
    requires n < |NAMES|
  {
    && p.sock == n && p.username == NAMES[n] && p.color == n && p.livesRemaining == lives
    && p.guard.coords == Spawn(n)
    && Faultless(p) && p.immunityEnd <= now + IMMUNITY_TIME_MILLIS
  }

  /** Those present are the first to have joined, newest first, with these lives. */
  ghost predicate Scene(w: World, lives: seq<int>) {
    var n := w.room.clientCount;
    && |w.room.players| == |lives| <= n <= |NAMES|
    && w.room.state == (if n == MAX_PLAYERS then Play else WaitForStart)
    && forall i | 0 <= i < |lives| :: Cast(w.room.players[i], n - 1 - i, lives[i], w.now)
  }

  lemma FaultlessSend(p: PlayerState, m: ServerMsg)
    requires Faultless(p) && m != Error
    ensures SameBody(p, Send(p, m)) && Faultless(Send(p, m))
  {
  }

  lemma SceneIsQuiet(w: World, lives: seq<int>)
    requires Scene(w, lives)
    ensures Unmarked(w.room.players) && Distinct(w.room.players)
  {
    var ps := w.room.players;
    forall i, j | 0 <= i < j < |ps|
      ensures ps[i].sock != ps[j].sock && ps[i].username != ps[j].username
    {
      assert ps[i].username[0] != ps[j].username[0];
    }
  }

  // ----- joins

  function Enter(w: World): Event
    requires |w.room.players| < |NAMES|
  {
    Join(|w.room.players|, NAMES[|w.room.players|], {}, [w.now])
  }

  lemma EnterIsEnabled(w: World, lives: seq<int>)
    requires Scene(w, lives) && w.room.clientCount == |lives| < MAX_PLAYERS
    ensures Enabled(w, Enter(w))
  {
    var ps := w.room.players;
    forall i | 0 <= i < |ps|
      ensures ps[i].sock != |ps| && ps[i].username != NAMES[|ps|]
    {
      assert ps[i].username[0] != NAMES[|ps|][0];
    }
  }

  lemma JoinCast(r: RoomState, lives: seq<int>, now: Timestamp, i: nat)
    requires r.state == WaitForStart && |r.players| == |lives| < |NAMES| && i <= |lives|
    requires forall j | 0 <= j < |lives| :: Cast(r.players[j], |lives| - 1 - j, lives[j], now)
    ensures var n := |lives|;
      Cast(JoinPlayer(r, n, NAMES[n], {}, now).players[i], n - i, ([STARTER_LIVES] + lives)[i], now)
  {
    var n := |lives|;
    var p := NewPlayer(n, NAMES[n], n, {}, now);
    var before := if i == 0 then p else r.players[i - 1];
    var m := JoinMessage(r, p, i);
    assert Cast(before, n - i, ([STARTER_LIVES] + lives)[i], now);
    JoinSends(r, n, NAMES[n], {}, now, i);
    FaultlessSend(before, m);
    FaultlessSend(Send(before, m), GameStart);
  }

  /** The next player joins. */
  lemma SceneJoin(w: World, lives: seq<int>)
    requires Reachable(w) && Scene(w, lives) && w.room.clientCount == |lives| < MAX_PLAYERS
    ensures Enabled(w, Enter(w)) && Reachable(Next(w, Enter(w)))
    ensures var x := Next(w, Enter(w));
      && Scene(x, [STARTER_LIVES] + lives) && x.room.clientCount == w.room.clientCount + 1
      && x.room.bombs == w.room.bombs && x.timers == w.timers && x.now == w.now
  {
    EnterIsEnabled(w, lives);
    ReachableStep(w, Enter(w));
    assert Next(w, Enter(w)) == Joined(w, |lives|, NAMES[|lives|], {}, w.now);
    JoinedScene(w, lives);
  }

  lemma JoinedScene(w: World, lives: seq<int>)
    requires Scene(w, lives) && w.room.clientCount == |lives| < MAX_PLAYERS
    ensures Scene(Joined(w, |lives|, NAMES[|lives|], {}, w.now), [STARTER_LIVES] + lives)
  {
    forall i | 0 <= i <= |lives|
      ensures Cast(Joined(w, |lives|, NAMES[|lives|], {}, w.now).room.players[i], |lives| - i,
                   ([STARTER_LIVES] + lives)[i], w.now)
    {
      JoinCast(w.room, lives, w.now, i);
    }
  }

  // ----- quiet disconnects

  /** Disconnects that concern nobody. */
  lemma QuietPost(w: World, now: Timestamp, armed: Timestamp)
    requires Unmarked(w.room.players) && |w.room.players| >= 2
    ensures Post(w, now, armed) == w.(now := armed)
  {
    QuietDisconnect(w.room, now);
  }

  /** `n` players join a new room. */
  lemma {:induction false} Gather(n: nat) returns (w: World)
    requires n <= MAX_PLAYERS
    ensures Reachable(w) && Scene(w, Repeat(STARTER_LIVES, n)) && w.room.clientCount == n
    ensures w.room.bombs == [] && w.timers == []
  {
    if n == 0 {
      NewRoomIsReachable(0);
      return NewWorld(0);
    }
    var v := Gather(n - 1);
    SceneJoin(v, Repeat(STARTER_LIVES, n - 1));
    w := Next(v, Enter(v));
    assert [STARTER_LIVES] + Repeat(STARTER_LIVES, n - 1) == Repeat(STARTER_LIVES, n);
  }

  // ----- a bomb is planted, and goes off

  /** Six, or three, readings of a clock that stands still. */
  function Still(now: Timestamp, n: nat): (clock: seq<Timestamp>)
    ensures |clock| == n && forall i :: 0 <= i < n ==> clock[i] == now
  {
    Repeat(now, n)
  }

  function Plant(w: World, at: Tile): Event {
    Hear(0, IPlaceBomb(at), Still(w.now, 6))
  }

  lemma FirstToJoin(w: World, lives: seq<int>)
    requires Scene(w, lives) && |lives| == w.room.clientCount == MAX_PLAYERS
    ensures Present(w.room.players, 0) && IndexOf(w.room.players, 0) == MAX_PLAYERS - 1
  {
    SceneIsQuiet(w, lives);
    assert Cast(w.room.players[MAX_PLAYERS - 1], 0, lives[MAX_PLAYERS - 1], w.now);
    IndexOfOwn(w.room.players, MAX_PLAYERS - 1);
  }

  lemma PlantIsEnabled(w: World, lives: seq<int>, at: Tile)
    requires Scene(w, lives) && |lives| == w.room.clientCount == MAX_PLAYERS && Inside(at)
    ensures Enabled(w, Plant(w, at))
  {
    FirstToJoin(w, lives);
  }

  lemma HeardPlant(w: World, lives: seq<int>, at: Tile)
    requires Scene(w, lives) && |lives| == w.room.clientCount == MAX_PLAYERS && lives[3] > 0
    requires w.room.bombs == [] && w.timers == []
    ensures var x := Heard(w, 3, IPlaceBomb(at), w.now, w.now);
      && Scene(x, lives) && x.room.clientCount == MAX_PLAYERS
      && x.room.bombs == [Bomb(at, 3, w.now, false)] && x.timers == [w.now] && x.now == w.now
  {
    var x, m := Heard(w, 3, IPlaceBomb(at), w.now, w.now), OtherBombPlace(w.room.players[3].username, w.now, at);
    assert Cast(w.room.players[3], 0, lives[3], w.now);
    forall i | 0 <= i < |lives|
      ensures Cast(x.room.players[i], |lives| - 1 - i, lives[i], w.now)
    {
      assert Cast(w.room.players[i], |lives| - 1 - i, lives[i], w.now);
      FaultlessSend(w.room.players[i], m);
    }
  }

  /** Ann plants a bomb wherever she likes: the server does not ask where she stands. */
  lemma ScenePlant(w: World, lives: seq<int>, at: Tile)
    requires Reachable(w) && Scene(w, lives) && |lives| == w.room.clientCount == MAX_PLAYERS && lives[3] > 0
    requires Inside(at) && w.room.bombs == [] && w.timers == []
    ensures Enabled(w, Plant(w, at)) && Reachable(Next(w, Plant(w, at)))
    ensures var x := Next(w, Plant(w, at));
      && Scene(x, lives) && x.room.clientCount == MAX_PLAYERS
      && x.room.bombs == [Bomb(at, 3, w.now, false)] && x.timers == [w.now] && x.now == w.now
  {
    FirstToJoin(w, lives);
    PlantIsEnabled(w, lives, at);
    ReachableStep(w, Plant(w, at));
    var heard := Heard(w, 3, IPlaceBomb(at), w.now, w.now);
    HeardPlant(w, lives, at);
    SceneIsQuiet(heard, lives);
    QuietPost(heard, w.now, w.now);
  }

  function GoOff(w: World, now: Timestamp): Event {
    Fire(0, 0, Still(now, 3))
  }

  /** A blast told to players whose sends get through marks nobody. */
  lemma {:induction false} FaultlessBlast(ps: seq<PlayerState>, i: nat, lit: iset<Tile>, now: Timestamp)
    requires forall j :: 0 <= j < |ps| ==> Faultless(ps[j])
    ensures forall j :: 0 <= j < |ps| ==> Faultless(Blasted(ps, i, lit, now)[j])
    decreases |ps| - i
  {
    if i < |ps| {
      var qs := if Hit(ps[i], lit, now) then HurtAndTell(ps, i, now) else ps;
      forall j | 0 <= j < |ps|
        ensures Faultless(qs[j])
      {
        FaultlessSend(ps[i := Hurt(ps[i], now)][j], GotHit(ps[i].username, ps[i].livesRemaining - 1, now));
      }
      FaultlessBlast(qs, i + 1, lit, now);
    }
  }

  /** A planted bomb in one corner lights no other corner. */
  lemma CornersAreFarApart(g: Cells, color: int, other: int, plantTime: int)
    requires IsColor(color) && IsColor(other)
    ensures Lit(g, Bomb(Spawn(color), 3, plantTime, false), Spawn(other)) <==> color == other
  {
  }

  /** Player `v` is hit by a bomb planted in its corner, and nobody else. */
  lemma BlastCast(w: World, lives: seq<int>, v: nat, now: Timestamp)
    requires Scene(w, lives) && |lives| == w.room.clientCount == MAX_PLAYERS && v < |lives| && lives[v] > 0
    requires w.room.bombs == [Bomb(Spawn(3 - v), 3, w.now, false)] && now >= w.now + FUSE_MILLIS
    ensures forall i | 0 <= i < |lives| ::
      Cast(Detonate(w.room, now).players[i], 3 - i, lives[v := lives[v] - 1][i], now)
  {
    var ps, lit := w.room.players, LitTiles(w.room.field, w.room.bombs[0]);
    assert forall i | 0 <= i < |lives| :: Cast(ps[i], 3 - i, lives[i], w.now);
    FaultlessBlast(ps, 0, lit, now);
    BlastedBodies(ps, 0, lit, now);
    forall i | 0 <= i < |lives|
      ensures Cast(Detonate(w.room, now).players[i], 3 - i, lives[v := lives[v] - 1][i], now)
    {
      CornersAreFarApart(w.room.field, 3 - v, 3 - i, w.now);
      assert Hit(ps[i], lit, now) <==> i == v;
      assert BlastedBody(ps[i], Detonate(w.room, now).players[i], lit, now);
    }
  }

  lemma TwoAlive(ps: seq<PlayerState>, i: nat, j: nat)
    requires i < j < |ps| && ps[i].livesRemaining > 0 && ps[j].livesRemaining > 0
    ensures |Alive(ps)| >= 2
  {
    var alive := Alive(ps);
    assert i in alive && j in alive;
  }

  /** Player `v`, not the first to have joined, can be hit and the game still goes on. */
  ghost predicate CanBeHit(lives: seq<int>, v: nat) {
    && |lives| == MAX_PLAYERS && v < 3 && lives[v] > 0 && lives[3] > 0
    && exists i: nat :: i < 3 && lives[i] > if i == v then 1 else 0
  }

  lemma FiredOn(w: World, now: Timestamp)
    requires Explodes(w.room) && |w.timers| == 1 && |Alive(Detonate(w.room, now).players)| >= 2
    ensures DrawDefined(w.room, 0, now)
    ensures Fired(w, 0, 0, now).room == Detonate(w.room, now) && Fired(w, 0, 0, now).timers == []
    ensures Fired(w, 0, 0, now).now == now
  {
  }

  lemma SceneFires(w: World, lives: seq<int>, v: nat, now: Timestamp)
    requires Scene(w, lives) && |lives| == w.room.clientCount == MAX_PLAYERS && now >= w.now + FUSE_MILLIS
    requires CanBeHit(lives, v)
    requires w.room.bombs == [Bomb(Spawn(3 - v), 3, w.now, false)] && |w.timers| == 1
    ensures DrawDefined(w.room, 0, now)
    ensures var x := Fired(w, 0, 0, now);
      && Scene(x, lives[v := lives[v] - 1]) && x.room.clientCount == MAX_PLAYERS
      && x.room.bombs == [] && x.timers == [] && x.now == now
  {
    var after := Detonate(w.room, now);
    BlastCast(w, lives, v, now);
    var i: nat :| i < 3 && lives[i] > if i == v then 1 else 0;
    assert Cast(after.players[i], 3 - i, lives[v := lives[v] - 1][i], now) && Cast(after.players[3], 0, lives[3], now);
    TwoAlive(after.players, i, 3);
    FiredOn(w, now);
  }

  /** That bomb goes off, as soon as it may. */
  lemma SceneBlast(w: World, lives: seq<int>, v: nat)
    requires Reachable(w) && Scene(w, lives) && |lives| == w.room.clientCount == MAX_PLAYERS
    requires CanBeHit(lives, v)
    requires w.room.bombs == [Bomb(Spawn(3 - v), 3, w.now, false)] && w.timers == [w.now]
    ensures var e := GoOff(w, w.now + FUSE_MILLIS); Enabled(w, e) && Reachable(Next(w, e))
    ensures var x := Next(w, GoOff(w, w.now + FUSE_MILLIS));
      && Scene(x, lives[v := lives[v] - 1]) && x.room.clientCount == MAX_PLAYERS
      && x.room.bombs == [] && x.timers == []
  {
    var now := w.now + FUSE_MILLIS;
    SceneFires(w, lives, v, now);
    ReachableStep(w, GoOff(w, now));
    var x := Fired(w, 0, 0, now);
    SceneIsQuiet(x, lives[v := lives[v] - 1]);
    QuietPost(x, now, now);
  }

  // ----- a connection is lost

  lemma FaultlessSends(p: PlayerState, m: ServerMsg, m': ServerMsg)
    requires Faultless(p) && m != Error && m' != Error
    ensures SameBody(p, Send(p, m)) && Faultless(Send(p, m))
    ensures SameBody(p, Send(Send(p, m), m')) && Faultless(Send(Send(p, m), m'))
  {
  }

  lemma FaultlessEvict(s: Sweep, k: nat, inPlay: bool, now: Timestamp)
    requires k < |s.players| && forall i :: 0 <= i < |s.players| && i != k ==> Faultless(s.players[i])
    ensures var u := Evict(s, k, inPlay, now);
      forall i | 0 <= i < |u.players| && i != k :: SameBody(s.players[i], u.players[i]) && Faultless(u.players[i])
  {
    var u := Evict(s, k, inPlay, now);
    forall i | 0 <= i < |u.players| && i != k
      ensures SameBody(s.players[i], u.players[i]) && Faultless(u.players[i])
    {
      FaultlessSends(s.players[i], OtherLeave(s.players[k].username),
                     OtherBombPlace("Server", now, s.players[k].guard.coords));
    }
  }

  lemma SweepTakesOne(s: Sweep, k: nat, inPlay: bool, now: Timestamp)
    requires k < |s.players| && s.players[k].marked
    requires forall i :: 0 <= i < |s.players| && i != k ==> Faultless(s.players[i])
    ensures SweepFrom(s, 0, inPlay, now) == Evict(s, k, inPlay, now)
  {
    var u := Evict(s, k, inPlay, now);
    FaultlessEvict(s, k, inPlay, now);
    SweepSkips(s, 0, k, inPlay, now);
    assert SweepFrom(s, k, inPlay, now) == SweepFrom(u, k + 1, inPlay, now);
    SweepSkips(u, k + 1, |s.players|, inPlay, now);
  }

  /** Player `k`, marked, goes alone, the others being told. */
  lemma OneGoes(r: RoomState, k: nat, now: Timestamp)
    requires Distinct(r.players) && |r.players| >= 3 && k < |r.players| && r.players[k].marked
    requires forall i :: 0 <= i < |r.players| && i != k ==> Faultless(r.players[i])
    ensures var u := Evict(Sweep(r.players, [], []), k, r.state == Play, now);
      DisconnectPlayers(r, now) ==
      Disconnection(r.(players := Without(u.players, k), bombs := r.bombs + u.dropped),
                    u.dropped, [r.players[k].sock], None, None)
  {
    var s, inPlay := Sweep(r.players, [], []), r.state == Play;
    var u := Evict(s, k, inPlay, now);
    SweepTakesOne(s, k, inPlay, now);
    EvictedDiffer(s, k, inPlay, now);
    assert u.gone == [u.players[k].sock];
    KeepWithout(u.players, k);
  }

  lemma SameCast(p: PlayerState, q: PlayerState, n: nat, lives: int, now: Timestamp)
    requires n < |NAMES| && Cast(p, n, lives, now) && SameBody(p, q) && Faultless(q)
    ensures Cast(q, n, lives, now)
  {
  }

  /** The players but for number `k`, who has gone. */
  ghost predicate Others(r: RoomState, lives: seq<int>, k: nat, now: Timestamp)
    requires k < |lives|
  {
    && |r.players| == |lives| - 1 && |lives| <= r.clientCount <= |NAMES|
    && forall i | 0 <= i < |lives| && i != k ::
      Cast(r.players[if i < k then i else i - 1], r.clientCount - 1 - i, lives[i], now)
  }

  lemma CastGoes(r: RoomState, lives: seq<int>, k: nat, now: Timestamp)
    requires Distinct(r.players) && k < |r.players| && r.players[k].marked
    requires 3 <= |r.players| == |lives| <= r.clientCount <= |NAMES|
    requires forall i | 0 <= i < |lives| && i != k :: Cast(r.players[i], r.clientCount - 1 - i, lives[i], now)
    ensures var x := DisconnectPlayers(r, now).room;
      x.state == r.state && x.clientCount == r.clientCount && Others(x, lives, k, now)
  {
    var s, inPlay := Sweep(r.players, [], []), r.state == Play;
    OneGoes(r, k, now);
    FaultlessEvict(s, k, inPlay, now);
    OthersCast(r.players, Evict(s, k, inPlay, now).players, lives, k, now, DisconnectPlayers(r, now).room);
  }

  lemma OthersCast(ps: seq<PlayerState>, us: seq<PlayerState>, lives: seq<int>, k: nat, now: Timestamp, x: RoomState)
    requires k < |ps| == |us| == |lives| <= x.clientCount <= |NAMES| && x.players == Without(us, k)
    requires forall i | 0 <= i < |lives| && i != k :: Cast(ps[i], x.clientCount - 1 - i, lives[i], now)
    requires forall i | 0 <= i < |us| && i != k :: SameBody(ps[i], us[i]) && Faultless(us[i])
    ensures Others(x, lives, k, now)
  {
    forall i | 0 <= i < |lives| && i != k
      ensures Cast(x.players[if i < k then i else i - 1], x.clientCount - 1 - i, lives[i], now)
    {
      WithoutAt(us, k, i);
      SameCast(ps[i], us[i], x.clientCount - 1 - i, lives[i], now);
    }
  }

  /** An atomic bomb is left where it stood if it was alive in the game. */
  lemma BombStays(r: RoomState, k: nat, now: Timestamp)
    requires Distinct(r.players) && |r.players| >= 3 && k < |r.players| && r.players[k].marked
    requires forall i :: 0 <= i < |r.players| && i != k ==> Faultless(r.players[i])
    requires DropsBomb(r.players[k], r.state == Play)
    ensures var d := DisconnectPlayers(r, now);
      d.dropped == [Bomb(r.players[k].guard.coords, 9, now, true)] && d.room.bombs == r.bombs + d.dropped
  {
    OneGoes(r, k, now);
  }

  function Drop(w: World, k: nat): Event
    requires k < |w.room.players|
  {
    Lose(w.room.players[k].sock, Still(w.now, 2))
  }

  lemma DropIsEnabled(w: World, lives: seq<int>, k: nat)
    requires Scene(w, lives) && k < |lives| && w.room.state != GameOver
    ensures Enabled(w, Drop(w, k)) && IndexOf(w.room.players, w.room.players[k].sock) == k
  {
    SceneIsQuiet(w, lives);
    IndexOfOwn(w.room.players, k);
  }

  lemma DroppedRoom(w: World, k: nat)
    requires k < |w.room.players| && Enabled(w, Drop(w, k)) && k == IndexOf(w.room.players, w.room.players[k].sock)
    ensures var x, d := Next(w, Drop(w, k)), DisconnectPlayers(Marked(w, k, w.now).room, w.now);
      x.room == d.room && x.now == w.now && x.timers == w.timers + Repeat(w.now, |d.dropped|)
  {
  }

  lemma MarkedScene(w: World, lives: seq<int>, k: nat)
    requires Scene(w, lives) && k < |lives|
    ensures var r := Marked(w, k, w.now).room;
      && Distinct(r.players) && r.players[k].marked && r.players[k].livesRemaining == lives[k]
      && r.players[k].guard.coords == Spawn(r.clientCount - 1 - k)
      && forall i | 0 <= i < |lives| && i != k :: Cast(r.players[i], r.clientCount - 1 - i, lives[i], w.now)
  {
    SceneIsQuiet(w, lives);
    assert Cast(w.room.players[k], w.room.clientCount - 1 - k, lives[k], w.now);
  }

  lemma MarkedGoes(w: World, lives: seq<int>, k: nat)
    requires Scene(w, lives) && k < |lives| && |lives| >= 3
    ensures var d := DisconnectPlayers(Marked(w, k, w.now).room, w.now);
      && d.room.state == w.room.state && d.room.clientCount == w.room.clientCount
      && Others(d.room, lives, k, w.now)
      && (w.room.state == Play && lives[k] != 0 ==>
            && d.dropped == [Bomb(Spawn(w.room.clientCount - 1 - k), 9, w.now, true)]
            && d.room.bombs == w.room.bombs + d.dropped)
  {
    MarkedScene(w, lives, k);
    CastGoes(Marked(w, k, w.now).room, lives, k, w.now);
    if w.room.state == Play && lives[k] != 0 {
      BombStays(Marked(w, k, w.now).room, k, w.now);
    }
  }

  /** The connection to player `k` is lost, and the others go on. */
  lemma SceneDrop(w: World, lives: seq<int>, k: nat)
    requires Reachable(w) && Scene(w, lives) && k < |lives| && |lives| >= 3
    ensures Enabled(w, Drop(w, k)) && Reachable(Next(w, Drop(w, k)))
    ensures var x := Next(w, Drop(w, k));
      && x.room.state == w.room.state && x.room.clientCount == w.room.clientCount && x.now == w.now
      && Others(x.room, lives, k, w.now)
      && (w.room.state == Play && lives[k] != 0 ==>
            && x.room.bombs == w.room.bombs + [Bomb(Spawn(w.room.clientCount - 1 - k), 9, w.now, true)]
            && x.timers == w.timers + [w.now])
  {
    DropIsEnabled(w, lives, k);
    ReachableStep(w, Drop(w, k));
    DroppedRoom(w, k);
    MarkedGoes(w, lives, k);
  }

  /** The fourth to join, whoever is there. */
  function Dan(w: World): Event {
    Join(3, NAMES[3], {}, [w.now])
  }

  lemma DanMayJoin(w: World, lives: seq<int>, k: nat)
    requires |lives| == 3 == w.room.clientCount && k < 3 && w.room.state == WaitForStart
    requires Others(w.room, lives, k, w.now)
    ensures Enabled(w, Dan(w))
  {
    forall i | 0 <= i < |w.room.players|
      ensures w.room.players[i].sock != 3 && w.room.players[i].username != NAMES[3]
    {
      var j := if i < k then i else i + 1;
      assert Cast(w.room.players[if j < k then j else j - 1], 2 - j, lives[j], w.now);
      assert w.room.players[i].username[0] != NAMES[3][0];
    }
  }
}
