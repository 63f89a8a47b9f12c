/** The room's guarantees, over every run from a new room. */
module RoomTheorems {
  import opened Grid
  import opened Messages
  import opened MoveGuard
  import opened RoomSpec
  import opened RoomFacts
  import opened RoomRun
  import opened RoomInvariants

  lemma NewWorldIsGood(now: Timestamp)
    ensures Inv(NewWorld(now))
  {
  }

  lemma StepKeeps(w: World, e: Event)
    requires Inv(w) && Enabled(w, e)
    ensures Inv(Next(w, e))
  {
    match e
    case Join(sock, username, faults, clock) =>
      JoinedKeeps(w, sock, username, faults, clock[0]);
    case Hear(sock, msg, clock) =>
      var k := IndexOf(w.room.players, sock);
      HeardKeeps(w, k, msg, clock[0], clock[1]);
      var heard := Heard(w, k, msg, clock[0], clock[1]);
      PostKeeps(heard, clock[2], clock[3]);
      PostKeeps(Post(heard, clock[2], clock[3]), clock[4], clock[5]);
    case Lose(sock, clock) =>
      var k := IndexOf(w.room.players, sock);
      MarkedKeeps(w, k, clock[0]);
      PostKeeps(Marked(w, k, clock[0]), clock[0], clock[1]);
    case Fire(timer, draw, clock) =>
      FiredKeeps(w, timer, draw, clock[0]);
      PostKeeps(Fired(w, timer, draw, clock[0]), clock[1], clock[2]);
  }

  lemma {:induction false} RunKeeps(w: World, es: seq<Event>)
    requires Inv(w) && ValidRun(w, es)
    ensures Inv(Run(w, es))
    decreases es
  {
    if es != [] {
      StepKeeps(w, es[0]);
      RunKeeps(Next(w, es[0]), es[1..]);
    }
  }

  ghost predicate Reachable(w: World) {
    exists start, es :: ValidRun(NewWorld(start), es) && w == Run(NewWorld(start), es)
  }

  lemma ReachableIsGood(w: World)
    requires Reachable(w)
    ensures Inv(w)
  {
    var start, es :| ValidRun(NewWorld(start), es) && w == Run(NewWorld(start), es);
    NewWorldIsGood(start);
    RunKeeps(NewWorld(start), es);
  }

  lemma {:induction false} RunSnoc(w: World, es: seq<Event>, e: Event)
    requires ValidRun(w, es) && Enabled(Run(w, es), e)
    ensures ValidRun(w, es + [e]) && Run(w, es + [e]) == Next(Run(w, es), e)
    decreases es
  {
    if es == [] {
      assert [e][1..] == [];
      assert ValidRun(Next(w, e), []);
    } else {
      assert (es + [e])[0] == es[0] && (es + [e])[1..] == es[1..] + [e];
      RunSnoc(Next(w, es[0]), es[1..], e);
    }
  }

  lemma ReachableStep(w: World, e: Event)
    requires Reachable(w) && Enabled(w, e)
    ensures Reachable(Next(w, e))
  {
    var start, es :| ValidRun(NewWorld(start), es) && w == Run(NewWorld(start), es);
    RunSnoc(NewWorld(start), es, e);
  }

  lemma NewRoomIsReachable(now: Timestamp)
    ensures Reachable(NewWorld(now))
  {
    assert ValidRun(NewWorld(now), []) && Run(NewWorld(now), []) == NewWorld(now);
  }

  // ----- joining

  /** Present plus removed make four at most; names stay real and distinct; a join
      always finds a colour, and play begins exactly with the fourth. */
  lemma JoinAccounting(w: World)
    requires Reachable(w)
    ensures w.room.clientCount == |w.room.players| + w.removed <= 4
    ensures Named(w.room.players)
    ensures w.room.state == Play ==> w.room.clientCount == 4
    ensures w.room.state == WaitForStart ==> w.room.clientCount < 4 && IsColor(|w.room.players|)
  {
    ReachableIsGood(w);
  }

  /** `GAME_START` goes out with the fourth join and with no other. */
  lemma GameStartsWithTheFourth(w: World, e: Event, i: nat)
    requires Reachable(w) && Enabled(w, e) && e.Join?
    requires i < |Next(w, e).room.players|
    requires !Next(w, e).room.players[i].marked
    ensures var log := Next(w, e).room.players[i].link.log;
      && log != []
      && (log[|log| - 1] == GameStart <==> Next(w, e).room.clientCount == 4)
      && (log[|log| - 1] == GameStart <==> Next(w, e).room.state == Play)
  {
    ReachableIsGood(w);
    JoinTells(w.room, e.sock, e.username, e.faults, e.clock[0], i);
  }

  /** The last message a joining room sends to player `i`. */
  lemma JoinTells(r: RoomState, sock: Sock, username: string, faults: set<nat>, now: Timestamp, i: nat)
    requires r.state == WaitForStart && IsColor(|r.players|) && i < |JoinPlayer(r, sock, username, faults, now).players|
    requires !JoinPlayer(r, sock, username, faults, now).players[i].marked
    ensures var x := JoinPlayer(r, sock, username, faults, now);
      var log := x.players[i].link.log;
      && log != []
      && (log[|log| - 1] == GameStart <==> x.clientCount == 4)
      && (x.state == Play <==> x.clientCount == 4)
  {
    JoinSends(r, sock, username, faults, now, i);
  }

  // ----- bombs and timers

  /** A timer that goes off in play always finds a bomb, the oldest planted and not
      yet exploded, and that bomb's fuse has burnt for at least three seconds. */
  lemma NoBombExplodesEarlyInAnyRun(w: World, e: Event)
    requires Reachable(w) && Enabled(w, e) && e.Fire? && w.room.state == Play
    ensures Explodes(w.room) && w.popped < |w.planted|
    ensures w.room.bombs[0].plantTime == w.planted[w.popped]
    ensures w.room.bombs[0].plantTime + 3000 <= e.clock[0]
    ensures Next(w, e).popped == w.popped + 1
  {
    ReachableIsGood(w);
    NoBombExplodesEarly(w, e.timer, e.clock[0]);
  }

  /** It may go off as soon as three seconds have passed since it was armed. */
  lemma DueTimerCanGoOff(w: World, timer: nat, draw: nat, clock: seq<Timestamp>)
    requires Reachable(w) && timer < |w.timers| && ClockRuns(w.now, Fire(timer, draw, clock))
    requires w.room.state == Play ==> draw < |Alive(w.room.players)|
    ensures Enabled(w, Fire(timer, draw, clock)) <==> w.timers[timer] + 3000 <= clock[0]
  {
  }

  /** In play every queued bomb has its timer; bombs planted are exploded or queued. */
  lemma BombsAndTimersBalance(w: World)
    requires Reachable(w)
    ensures w.room.state == Play ==> |w.timers| == |w.room.bombs|
    ensures w.room.state == WaitForStart ==> w.timers == [] && w.room.bombs == []
    ensures |w.planted| == w.popped + |w.room.bombs|
  {
    ReachableIsGood(w);
  }

  // ----- the field

  /** Border and hard walls never change, cells only go from soft wall to open ground,
      everyone stands on open ground strictly inside, and any bomb that can go off
      meets the conditions under which a blast stays on the field. */
  lemma OpenGround(w: World)
    requires Reachable(w)
    ensures Clears(INITIAL, w.room.field) && Walled(w.room.field)
    ensures forall p | p in w.room.players :: At(w.room.field, p.guard.coords) == NOTHIN && Inside(p.guard.coords)
    ensures forall b | b in w.room.bombs :: Inside(b.pos)
  {
    ReachableIsGood(w);
    FieldIsWalled(w.room.field);
    forall p | p in w.room.players
      ensures At(w.room.field, p.guard.coords) == NOTHIN && Inside(p.guard.coords)
    {
      var i :| 0 <= i < |w.room.players| && w.room.players[i] == p;
      OpenIsInside(w.room.field, p.guard.coords);
    }
  }

  /** A speed correction names a tile that is still open ground, and a move that is
      corrected leaves the player where the server has it. */
  lemma CorrectionsNameOpenGround(w: World, k: nat, to: Tile, now: Timestamp)
    requires Reachable(w) && k < |w.room.players| && PLAYER_SUS_TRESHHOLD_MILLIS <= now
    ensures var p := w.room.players[k];
      var (guard, correction) := MoveCheck(p.guard, to, now);
      correction.Some? ==> At(w.room.field, correction.value) == NOTHIN && guard.coords == p.guard.coords
    ensures MoveTo(w.room, k, to, now).players[k].guard.coords in {to, w.room.players[k].guard.coords}
  {
    ReachableIsGood(w);
    assert OnOpenGround(w.room.players[k].guard, w.room.field);
  }

  // ----- lives

  /** Nobody is hit more than three times, hits on one player are at least 500 ms
      apart, so a fatal third one comes at least a second after the first; whoever is
      present has three lives less those hits. */
  lemma HitSpacing(w: World, sock: Sock)
    requires Reachable(w)
    ensures var times := TimesOf(w.hits, sock);
      && |times| <= 3
      && (forall i | 0 < i < |times| :: times[i] - times[i - 1] >= 500)
      && (|times| == 3 ==> times[2] - times[0] >= 1000)
      && forall p | p in w.room.players && p.sock == sock :: p.livesRemaining == 3 - |times|
  {
    ReachableIsGood(w);
    var times := TimesOf(w.hits, sock);
    assert WellApart(times);
    if |times| == 3 {
      assert times[1] - times[0] >= 500 && times[2] - times[1] >= 500;
    }
  }

  /** `q` is one of `ps` later on: same person, marks kept, at most `cost` lives fewer. */
  ghost predicate Descends(q: PlayerState, ps: seq<PlayerState>, cost: nat) {
    exists i :: 0 <= i < |ps| && SamePerson(ps[i], q) && ps[i].livesRemaining <= q.livesRemaining + cost
  }

  lemma DisconnectDescends(r: RoomState, now: Timestamp, ps: seq<PlayerState>, cost: nat)
    requires Distinct(r.players) && forall i :: 0 <= i < |r.players| ==> Descends(r.players[i], ps, cost)
    ensures forall q | q in DisconnectPlayers(r, now).room.players :: Descends(q, ps, cost)
  {
    DisconnectedPeople(r, now);
    forall q | q in DisconnectPlayers(r, now).room.players
      ensures Descends(q, ps, cost)
    {
      var j :| 0 <= j < |r.players| && SameBody(r.players[j], q) && !r.players[j].marked;
      var i :| 0 <= i < |ps| && SamePerson(ps[i], r.players[j]) &&
        ps[i].livesRemaining <= r.players[j].livesRemaining + cost;
      assert SamePerson(ps[i], q);
    }
  }

  lemma HeardDescends(w: World, k: nat, msg: ClientMsg, now: Timestamp, i: nat)
    requires k < |w.room.players| && i < |w.room.players|
    ensures Descends(HandleMessage(w.room, k, msg, now).0.players[i], w.room.players, 0)
  {
    HandleMessageKeepsPeople(w.room, k, msg, now);
    assert SamePerson(w.room.players[i], HandleMessage(w.room, k, msg, now).0.players[i]);
  }

  lemma FiredDescends(r: RoomState, draw: nat, now: Timestamp, i: nat)
    requires DrawDefined(r, draw, now) && i < |r.players|
    ensures |NotifyExplosion(r, draw, now).room.players| == |r.players|
    ensures Descends(NotifyExplosion(r, draw, now).room.players[i], r.players, 1)
  {
    if Explodes(r) {
      FiredPeople(r, draw, now);
      var q := NotifyExplosion(r, draw, now).room.players[i];
      assert BlastedBody(r.players[i], q, LitTiles(r.field, r.bombs[0]), now);
    }
    assert SamePerson(r.players[i], NotifyExplosion(r, draw, now).room.players[i]);
  }

  lemma TwicePostDescends(heard: World, clock: seq<Timestamp>, ps: seq<PlayerState>)
    requires |clock| == 6 && Core(heard) && heard.now <= clock[2] <= clock[3]
    requires forall i :: 0 <= i < |heard.room.players| ==> Descends(heard.room.players[i], ps, 0)
    ensures forall q | q in Post(Post(heard, clock[2], clock[3]), clock[4], clock[5]).room.players :: Descends(q, ps, 0)
  {
    DisconnectDescends(heard.room, clock[2], ps, 0);
    PostKeeps(heard, clock[2], clock[3]);
    var once := Post(heard, clock[2], clock[3]).room;
    assert forall i | 0 <= i < |once.players| :: once.players[i] in once.players;
    DisconnectDescends(once, clock[4], ps, 0);
  }

  lemma HeardStepDescends(w: World, e: Event, q: PlayerState)
    requires Inv(w) && Enabled(w, e) && e.Hear? && q in Next(w, e).room.players
    ensures Descends(q, w.room.players, 0)
  {
    var ps, clock := w.room.players, e.clock;
    var k := IndexOf(ps, e.sock);
    var heard := Heard(w, k, e.msg, clock[0], clock[1]);
    HeardKeeps(w, k, e.msg, clock[0], clock[1]);
    assert |heard.room.players| == |ps|;
    forall i | 0 <= i < |ps|
      ensures Descends(heard.room.players[i], ps, 0)
    {
      HeardDescends(w, k, e.msg, clock[0], i);
    }
    TwicePostDescends(heard, clock, ps);
  }

  lemma FiredStepDescends(w: World, e: Event, q: PlayerState)
    requires Inv(w) && Enabled(w, e) && e.Fire? && q in Next(w, e).room.players
    ensures Descends(q, w.room.players, 1)
  {
    var fired := Fired(w, e.timer, e.draw, e.clock[0]);
    FiredKeeps(w, e.timer, e.draw, e.clock[0]);
    forall i | 0 <= i < |fired.room.players|
      ensures Descends(fired.room.players[i], w.room.players, 1)
    {
      FiredKeepsLength(w, e.timer, e.draw, e.clock[0]);
      FiredDescends(w.room, e.draw, e.clock[0], i);
    }
    DisconnectDescends(fired.room, e.clock[1], w.room.players, 1);
  }

  lemma FiredKeepsLength(w: World, j: nat, draw: nat, now: Timestamp)
    requires j < |w.timers| && DrawDefined(w.room, draw, now)
    ensures |Fired(w, j, draw, now).room.players| == |w.room.players|
  {
    if Explodes(w.room) {
      FiredPeople(w.room, draw, now);
    }
  }

  lemma LostStepDescends(w: World, e: Event, q: PlayerState)
    requires Inv(w) && Enabled(w, e) && e.Lose? && q in Next(w, e).room.players
    ensures Descends(q, w.room.players, 0)
  {
    var ps := w.room.players;
    var marked := Marked(w, IndexOf(ps, e.sock), e.clock[0]);
    assert forall i | 0 <= i < |ps| :: SamePerson(ps[i], marked.room.players[i]);
    DisconnectDescends(marked.room, e.clock[0], ps, 0);
  }

  /** Lives never rise, and only an explosion takes one, and only one. */
  lemma LivesNeverRise(w: World, e: Event, q: PlayerState)
    requires Reachable(w) && Enabled(w, e) && !e.Join? && q in Next(w, e).room.players
    ensures Descends(q, w.room.players, if e.Fire? then 1 else 0)
  {
    ReachableIsGood(w);
    match e
    case Hear(_, _, _) => HeardStepDescends(w, e, q);
    case Fire(_, _, _) => FiredStepDescends(w, e, q);
    case Lose(_, _) => LostStepDescends(w, e, q);
  }

  // ----- the life of a room

  function Rank(s: GameState): nat {
    match s
    case WaitForStart => 0
    case Play => 1
    case WaitForEnd => 2
    case GameOver => 3
  }

  ghost predicate Forward(w: World, x: World) {
    Rank(w.room.state) <= Rank(x.room.state) && w.winners <= x.winners
  }

  lemma PostMovesForward(w: World, now: Timestamp, armed: Timestamp)
    ensures Forward(w, Post(w, now, armed))
  {
  }

  lemma FiredMovesForward(w: World, j: nat, draw: nat, now: Timestamp)
    requires j < |w.timers| && DrawDefined(w.room, draw, now)
    ensures Forward(w, Fired(w, j, draw, now))
  {
    var e := NotifyExplosion(w.room, draw, now);
    assert w.winners <= w.winners + Winners(e.winner);
    assert e.room.state == if e.winner.Some? then GameOver else w.room.state;
  }

  lemma StepMovesForward(w: World, e: Event)
    requires Inv(w) && Enabled(w, e)
    ensures Forward(w, Next(w, e))
  {
    match e
    case Join(_, _, _, _) =>
    case Hear(sock, msg, clock) =>
      var k := IndexOf(w.room.players, sock);
      var heard := Heard(w, k, msg, clock[0], clock[1]);
      HeardKeeps(w, k, msg, clock[0], clock[1]);
      PostMovesForward(heard, clock[2], clock[3]);
      PostMovesForward(Post(heard, clock[2], clock[3]), clock[4], clock[5]);
    case Lose(sock, clock) =>
      PostMovesForward(Marked(w, IndexOf(w.room.players, sock), clock[0]), clock[0], clock[1]);
    case Fire(timer, draw, clock) =>
      FiredMovesForward(w, timer, draw, clock[0]);
      PostMovesForward(Fired(w, timer, draw, clock[0]), clock[1], clock[2]);
  }

  lemma {:induction false} RunMovesForward(w: World, es: seq<Event>)
    requires Inv(w) && ValidRun(w, es)
    ensures Forward(w, Run(w, es))
    decreases es
  {
    if es != [] {
      StepMovesForward(w, es[0]);
      StepKeeps(w, es[0]);
      RunMovesForward(Next(w, es[0]), es[1..]);
    }
  }

  /** The state only moves forward, at most one winner is ever announced, a finished
      room is empty, and it stays finished. */
  lemma RoomLifecycle(w: World, es: seq<Event>)
    requires Reachable(w) && ValidRun(w, es)
    ensures var v := Run(w, es);
      && Rank(w.room.state) <= Rank(v.room.state)
      && w.winners <= v.winners
      && |v.winners| <= 1
      && v.room.state != WaitForEnd
      && (v.room.state == GameOver ==> v.room.players == [])
      && (v.winners != [] ==> v.room.state == GameOver)
      && (w.room.state == GameOver ==> v.room.state == GameOver)
  {
    ReachableIsGood(w);
    RunMovesForward(w, es);
    RunKeeps(w, es);
  }

  // ----- where the room does something else than announced

  /** After a blast nobody survives, the draw for a winner has somebody to pick if and
      only if somebody was alive before it; and the largest number the inclusive bound
      of the draw allows, their count, never picks anybody. */
  lemma DrawNeedsSomebodyAlive(r: RoomState, now: Timestamp)
    requires Explodes(r) && Alive(Detonate(r, now).players) == []
    ensures (exists draw: nat :: DrawDefined(r, draw, now)) <==> Alive(r.players) != []
    ensures forall draw: nat | draw <= |Alive(r.players)| ::
      (DrawDefined(r, draw, now) <==> draw != |Alive(r.players)|)
  {
    if Alive(r.players) != [] {
      assert DrawDefined(r, 0, now);
    }
  }

  lemma NobodyAlive(ps: seq<PlayerState>)
    ensures Alive(ps) == [] <==> forall i :: 0 <= i < |ps| ==> ps[i].livesRemaining <= 0
  {
    if Alive(ps) != [] {
      assert ps[Alive(ps)[0]].livesRemaining > 0;
    }
  }

  /** In the waiting room a leave marks the newest player: the one who asked to leave
      goes if and only if that is them. */
  lemma LeavingTheLobby(r: RoomState, k: nat, now: Timestamp)
    requires r.state == WaitForStart && k < |r.players| && !r.players[k].marked
    ensures HandleMessage(r, k, ILeave, now).0.players[k].marked <==> k == 0
    ensures HandleMessage(r, k, ILeave, now).0.players[0].marked
  {
  }
}
