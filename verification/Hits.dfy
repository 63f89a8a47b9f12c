/** When a player is hit: told from the blast, its lives and its earlier hits. */
module Hits {
  import opened Blast
  import opened Messages
  import opened RoomSpec
  import opened RoomFacts
  import opened RoomRun
  import opened RoomInvariants
  import opened RoomTheorems
  import opened Steps

  /** Somebody never hit is not immune, its first moment aside. */
  ghost predicate FreshIsExposed(w: World) {
    forall i | 0 <= i < |w.room.players| && TimesOf(w.hits, w.room.players[i].sock) == [] ::
      w.room.players[i].immunityEnd <= w.now
  }

  // ----- over runs

  lemma PostExposes(w: World, now: Timestamp, armed: Timestamp)
    requires Core(w) && FreshIsExposed(w) && w.now <= now <= armed
    ensures FreshIsExposed(Post(w, now, armed))
  {
    var ps, qs := w.room.players, Post(w, now, armed).room.players;
    forall i | 0 <= i < |qs| && TimesOf(w.hits, qs[i].sock) == []
      ensures qs[i].immunityEnd <= armed
    {
      assert qs[i] in qs;
      PostStays(w, now, armed, qs[i]);
      var j :| 0 <= j < |ps| && SameBody(ps[j], qs[i]) && !ps[j].marked;
      assert TimesOf(w.hits, ps[j].sock) == [];
    }
  }

  lemma JoinExposes(w: World, e: Event)
    requires Inv(w) && Enabled(w, e) && e.Join? && FreshIsExposed(w)
    ensures FreshIsExposed(Next(w, e))
  {
    JoinedKeeps(w, e.sock, e.username, e.faults, e.clock[0]);
    JoinedPeople(w.room, e.sock, e.username, e.faults, e.clock[0]);
    var ps, qs := w.room.players, Next(w, e).room.players;
    forall i | 0 <= i < |qs| && TimesOf(w.hits, qs[i].sock) == []
      ensures qs[i].immunityEnd <= e.clock[0]
    {
      if i > 0 {
        assert qs[1..][i - 1] == qs[i] && SameBody(ps[i - 1], qs[i]);
        assert TimesOf(w.hits, ps[i - 1].sock) == [];
      }
    }
  }

  lemma HeardExposes(w: World, k: nat, msg: ClientMsg, now: Timestamp, armed: Timestamp)
    requires FreshIsExposed(w) && k < |w.room.players| && w.now <= now <= armed
    ensures FreshIsExposed(Heard(w, k, msg, now, armed))
  {
    HandleMessageKeepsPeople(w.room, k, msg, now);
    var ps, qs := w.room.players, Heard(w, k, msg, now, armed).room.players;
    forall i | 0 <= i < |qs| && TimesOf(w.hits, qs[i].sock) == []
      ensures qs[i].immunityEnd <= armed
    {
      assert qs[i].immunityEnd == ps[i].immunityEnd && TimesOf(w.hits, ps[i].sock) == [];
    }
  }

  lemma MarkedExposes(w: World, k: nat, now: Timestamp)
    requires FreshIsExposed(w) && k < |w.room.players| && w.now <= now
    ensures FreshIsExposed(Marked(w, k, now))
  {
    var ps, qs := w.room.players, Marked(w, k, now).room.players;
    assert forall i | 0 <= i < |qs| :: qs[i].immunityEnd == ps[i].immunityEnd && qs[i].sock == ps[i].sock;
  }

  /** The hits of one player after an explosion. */
  lemma FiredHits(w: World, j: nat, draw: nat, now: Timestamp, i: nat)
    requires Core(w) && j < |w.timers| && Explodes(w.room) && DrawDefined(w.room, draw, now)
    requires i < |w.room.players|
    ensures var x, p := Fired(w, j, draw, now), w.room.players[i];
      var lit := LitTiles(w.room.field, w.room.bombs[0]);
      && |x.room.players| == |w.room.players| && BlastedBody(p, x.room.players[i], lit, now)
      && TimesOf(x.hits, p.sock) == TimesOf(w.hits, p.sock) + if Hit(p, lit, now) then [now] else []
  {
    var lit := LitTiles(w.room.field, w.room.bombs[0]);
    FiredPeople(w.room, draw, now);
    TimesOfAppend(w.hits, NewHits(w.room.players, lit, now), w.room.players[i].sock);
    NewHitsOf(w.room.players, lit, now, w.room.players[i].sock);
  }

  lemma FiredExposes(w: World, j: nat, draw: nat, now: Timestamp)
    requires Core(w) && FreshIsExposed(w) && j < |w.timers| && w.now <= now && DrawDefined(w.room, draw, now)
    ensures FreshIsExposed(Fired(w, j, draw, now))
  {
    if Explodes(w.room) {
      var ps, qs := w.room.players, Fired(w, j, draw, now).room.players;
      FiredPeople(w.room, draw, now);
      forall i | 0 <= i < |qs| && TimesOf(Fired(w, j, draw, now).hits, qs[i].sock) == []
        ensures qs[i].immunityEnd <= now
      {
        FiredHits(w, j, draw, now, i);
        assert TimesOf(w.hits, ps[i].sock) == [];
      }
    }
  }

  lemma StepExposes(w: World, e: Event)
    requires Inv(w) && Enabled(w, e) && FreshIsExposed(w)
    ensures FreshIsExposed(Next(w, e))
  {
    var mid := Middle(w, e);
    MiddleIsCore(w, e);
    match e
    case Join(_, _, _, _) => JoinExposes(w, e);
    case Hear(sock, msg, clock) =>
      HeardExposes(w, IndexOf(w.room.players, sock), msg, clock[0], clock[1]);
      PostKeeps(mid, clock[2], clock[3]);
      PostExposes(mid, clock[2], clock[3]);
      PostExposes(Post(mid, clock[2], clock[3]), clock[4], clock[5]);
    case Lose(sock, clock) =>
      MarkedExposes(w, IndexOf(w.room.players, sock), clock[0]);
      PostExposes(mid, clock[0], clock[1]);
    case Fire(timer, draw, clock) =>
      FiredExposes(w, timer, draw, clock[0]);
      PostExposes(mid, clock[1], clock[2]);
  }

  lemma {:induction false} RunExposes(w: World, es: seq<Event>)
    requires Inv(w) && ValidRun(w, es) && FreshIsExposed(w)
    ensures FreshIsExposed(Run(w, es))
    decreases es
  {
    if es != [] {
      StepKeeps(w, es[0]);
      StepExposes(w, es[0]);
      RunExposes(Next(w, es[0]), es[1..]);
    }
  }

  lemma ReachableExposes(w: World)
    requires Reachable(w)
    ensures Inv(w) && FreshIsExposed(w)
  {
    var start, es :| ValidRun(NewWorld(start), es) && w == Run(NewWorld(start), es);
    ReachableIsGood(w);
    NewWorldIsGood(start);
    RunExposes(NewWorld(start), es);
  }

  // ----- who is hit

  /** The blast that comes next costs player `i` a life: the bomb lights its tile, it has a
      life left, and it was last hit half a second ago at least, or never. */
  ghost predicate LosesALife(w: World, i: nat, now: Timestamp)
    requires i < |w.room.players| && w.room.bombs != []
  {
    var p := w.room.players[i];
    var times := TimesOf(w.hits, p.sock);
    && Lit(w.room.field, w.room.bombs[0], p.guard.coords)
    && p.livesRemaining >= 1
    && (times != [] ==> now - times[|times| - 1] >= 500)
  }

  lemma HitMeansLosing(w: World, i: nat, now: Timestamp)
    requires Core(w) && FreshIsExposed(w) && i < |w.room.players| && w.room.bombs != [] && w.now <= now
    ensures Hit(w.room.players[i], LitTiles(w.room.field, w.room.bombs[0]), now) <==> LosesALife(w, i, now)
  {
    var p := w.room.players[i];
    assert Accounted(p, TimesOf(w.hits, p.sock));
  }

  /** In every run an explosion costs exactly those players a life, one, and that moment is
      their last hit from then on. */
  lemma WhoIsHit(w: World, e: Event, i: nat)
    requires Reachable(w) && Enabled(w, e) && e.Fire? && w.room.state == Play && i < |w.room.players|
    ensures w.room.bombs != []
    ensures var x, p, now := Fired(w, e.timer, e.draw, e.clock[0]), w.room.players[i], e.clock[0];
      && |x.room.players| == |w.room.players| && x.room.players[i].sock == p.sock
      && x.room.players[i].livesRemaining == p.livesRemaining - (if LosesALife(w, i, now) then 1 else 0)
      && TimesOf(x.hits, p.sock) == TimesOf(w.hits, p.sock) + if LosesALife(w, i, now) then [now] else []
  {
    ReachableExposes(w);
    NoBombExplodesEarly(w, e.timer, e.clock[0]);
    FiredHits(w, e.timer, e.draw, e.clock[0], i);
    HitMeansLosing(w, i, e.clock[0]);
  }

  /** And so is everybody still there once the step is over. */
  lemma WhoWasHit(w: World, e: Event, i: nat, q: PlayerState)
    requires Reachable(w) && Enabled(w, e) && e.Fire? && w.room.state == Play && i < |w.room.players|
    requires q in Next(w, e).room.players && q.sock == w.room.players[i].sock
    ensures w.room.bombs != []
    ensures q.livesRemaining == w.room.players[i].livesRemaining - if LosesALife(w, i, e.clock[0]) then 1 else 0
  {
    ReachableIsGood(w);
    WhoIsHit(w, e, i);
    WhoStays(w, e, q);
    MiddleIsCore(w, e);
    StayedAs(Middle(w, e).room.players, i, q);
  }

  /** Nothing but an explosion takes a life. */
  lemma OnlyBlastsHurt(w: World, e: Event, i: nat, q: PlayerState)
    requires Reachable(w) && Enabled(w, e) && (e.Hear? || e.Lose?) && i < |w.room.players|
    requires q in Next(w, e).room.players && q.sock == w.room.players[i].sock
    ensures q.livesRemaining == w.room.players[i].livesRemaining
  {
    ReachableIsGood(w);
    WhoStays(w, e, q);
    MiddleIsCore(w, e);
    MiddleKeepsLives(w, e, i);
    StayedAs(Middle(w, e).room.players, i, q);
  }

  lemma MiddleKeepsLives(w: World, e: Event, i: nat)
    requires Enabled(w, e) && (e.Hear? || e.Lose?) && i < |w.room.players|
    ensures var p, mid := w.room.players[i], Middle(w, e).room.players;
      |mid| == |w.room.players| && mid[i].sock == p.sock && mid[i].livesRemaining == p.livesRemaining
  {
    if e.Hear? {
      HandleMessageKeepsPeople(w.room, IndexOf(w.room.players, e.sock), e.msg, e.clock[0]);
    }
  }
}
