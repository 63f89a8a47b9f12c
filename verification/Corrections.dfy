/** Where corrections send players: every one ever sent named ground that was, and is,
    open. */
module Corrections {
  import opened Grid
  import opened Messages
  import opened MoveGuard
  import opened RoomSpec
  import opened RoomFacts
  import opened RoomRun
  import opened RoomInvariants
  import opened RoomTheorems
  import opened Steps

  predicate Open(m: ServerMsg, field: Cells) {
    m.MovementCorrection? ==> At(field, m.to) == NOTHIN
  }

  ghost predicate LogOpen(p: PlayerState, field: Cells) {
    forall m | m in p.link.log :: Open(m, field)
  }

  ghost predicate LogsOpen(ps: seq<PlayerState>, field: Cells) {
    forall i | 0 <= i < |ps| :: LogOpen(ps[i], field)
  }

  // ----- sends

  lemma SendStaysOpen(p: PlayerState, m: ServerMsg, field: Cells)
    requires LogOpen(p, field) && Open(m, field)
    ensures LogOpen(Send(p, m), field)
  {
  }

  lemma TellingStaysOpen(ps: seq<PlayerState>, k: int, m: ServerMsg, field: Cells)
    requires LogsOpen(ps, field) && Open(m, field)
    ensures LogsOpen(SendExcept(ps, k, m), field)
  {
    forall i | 0 <= i < |ps|
      ensures LogOpen(SendExcept(ps, k, m)[i], field)
    {
      SendStaysOpen(ps[i], m, field);
    }
  }

  lemma BroadcastStaysOpen(ps: seq<PlayerState>, m: ServerMsg, field: Cells)
    requires LogsOpen(ps, field) && Open(m, field)
    ensures LogsOpen(Broadcast(ps, m), field)
  {
    forall i | 0 <= i < |ps|
      ensures LogOpen(Broadcast(ps, m)[i], field)
    {
      SendStaysOpen(ps[i], m, field);
    }
  }

  /** One player changed, its log aside, and sent a message. */
  lemma OneStaysOpen(ps: seq<PlayerState>, k: nat, p: PlayerState, m: ServerMsg, field: Cells)
    requires k < |ps| && LogsOpen(ps, field) && p.link == ps[k].link && Open(m, field)
    ensures LogsOpen(SendOne(ps[k := p], k, m), field)
  {
    SendStaysOpen(p, m, field);
  }

  /** Open ground stays open. */
  lemma OpenStays(ps: seq<PlayerState>, before: Cells, after: Cells)
    requires LogsOpen(ps, before) && Clears(before, after)
    ensures LogsOpen(ps, after)
  {
    forall i, m | 0 <= i < |ps| && m in ps[i].link.log
      ensures Open(m, after)
    {
      assert LogOpen(ps[i], before) && Open(m, before);
    }
  }

  lemma SameLogsOpen(ps: seq<PlayerState>, qs: seq<PlayerState>, field: Cells)
    requires LogsOpen(ps, field) && |qs| == |ps| && forall i | 0 <= i < |ps| :: qs[i].link == ps[i].link
    ensures LogsOpen(qs, field)
  {
    forall i | 0 <= i < |qs|
      ensures LogOpen(qs[i], field)
    {
      assert LogOpen(ps[i], field);
    }
  }

  // ----- operations of a room

  /** A move is corrected to where the player stands, or to where it was five moves ago. */
  lemma MoveStaysOpen(r: RoomState, k: nat, to: Tile, now: Timestamp)
    requires k < |r.players| && Grounded(r) && 50 <= now && LogsOpen(r.players, r.field)
    ensures LogsOpen(MoveTo(r, k, to, now).players, r.field)
  {
    var p := r.players[k];
    var (guard, correction) := MoveCheck(p.guard, to, now);
    assert OnOpenGround(p.guard, r.field);
    if At(r.field, to) != NOTHIN {
      OneStaysOpen(r.players, k, p, MovementCorrection(p.guard.coords), r.field);
      assert r.players[k := p] == r.players;
    } else if correction.Some? {
      OneStaysOpen(r.players, k, p.(guard := guard), MovementCorrection(correction.value), r.field);
    } else {
      var moved := r.players[k := p.(guard := guard)];
      assert forall i | 0 <= i < |moved| :: moved[i].link == r.players[i].link;
      SameLogsOpen(r.players, moved, r.field);
      TellingStaysOpen(moved, k, OtherMove(p.username, to), r.field);
    }
  }

  lemma HeardStaysOpen(r: RoomState, k: nat, msg: ClientMsg, now: Timestamp)
    requires k < |r.players| && Grounded(r) && 50 <= now && LogsOpen(r.players, r.field)
    ensures LogsOpen(HandleMessage(r, k, msg, now).0.players, r.field)
  {
    var ps, qs := r.players, HandleMessage(r, k, msg, now).0.players;
    if msg == ILeave {
      assert forall i | 0 <= i < |qs| :: qs[i].link == ps[i].link;
      SameLogsOpen(ps, qs, r.field);
    } else if r.state == WaitForStart || ps[k].livesRemaining == 0 || msg.OtherType? {
      OneStaysOpen(ps, k, ps[k], Error, r.field);
      assert ps[k := ps[k]] == ps && qs == SendOne(ps, k, Error);
    } else if msg.IMove? {
      MoveStaysOpen(r, k, msg.to, now);
    } else {
      TellingStaysOpen(ps, k, OtherBombPlace(ps[k].username, now, msg.at), r.field);
    }
  }

  lemma HurtStaysOpen(ps: seq<PlayerState>, i: nat, now: Timestamp, field: Cells)
    requires i < |ps| && LogsOpen(ps, field)
    ensures LogsOpen(HurtAndTell(ps, i, now), field)
  {
    var hurt := ps[i := Hurt(ps[i], now)];
    assert forall j | 0 <= j < |ps| :: hurt[j].link == ps[j].link;
    SameLogsOpen(ps, hurt, field);
    BroadcastStaysOpen(hurt, GotHit(ps[i].username, ps[i].livesRemaining - 1, now), field);
  }

  lemma {:induction false} BlastStaysOpen(ps: seq<PlayerState>, i: nat, lit: iset<Tile>, now: Timestamp, field: Cells)
    requires LogsOpen(ps, field)
    ensures LogsOpen(Blasted(ps, i, lit, now), field)
    decreases |ps| - i
  {
    if i < |ps| {
      HurtStaysOpen(ps, i, now, field);
      BlastStaysOpen(if Hit(ps[i], lit, now) then HurtAndTell(ps, i, now) else ps, i + 1, lit, now, field);
    }
  }

  lemma FiredStaysOpen(r: RoomState, draw: nat, now: Timestamp)
    requires DrawDefined(r, draw, now) && LogsOpen(r.players, r.field)
    ensures var x := NotifyExplosion(r, draw, now).room; LogsOpen(x.players, x.field)
  {
    if Explodes(r) {
      var after, e := Detonate(r, now), NotifyExplosion(r, draw, now);
      BlastStaysOpen(r.players, 0, LitTiles(r.field, r.bombs[0]), now, r.field);
      OpenStays(after.players, r.field, after.field);
      if e.winner.Some? {
        WinStaysOpen(after, e.winner.value);
      }
    }
  }

  lemma WinStaysOpen(r: RoomState, winner: string)
    requires LogsOpen(r.players, r.field)
    ensures LogsOpen(Win(r, winner).players, r.field)
  {
    var told := Broadcast(r.players, GameWon(winner));
    BroadcastStaysOpen(r.players, GameWon(winner), r.field);
    SameLogsOpen(told, MarkAll(told), r.field);
  }

  lemma EvictStaysOpen(s: Sweep, k: nat, inPlay: bool, now: Timestamp, field: Cells)
    requires k < |s.players| && LogsOpen(s.players, field)
    ensures LogsOpen(Evict(s, k, inPlay, now).players, field)
  {
    var p := s.players[k];
    TellingStaysOpen(s.players, k, OtherLeave(p.username), field);
    TellingStaysOpen(SendExcept(s.players, k, OtherLeave(p.username)), k,
                     OtherBombPlace("Server", now, p.guard.coords), field);
  }

  lemma {:induction false} SweepStaysOpen(s: Sweep, i: nat, inPlay: bool, now: Timestamp, field: Cells)
    requires LogsOpen(s.players, field)
    ensures LogsOpen(SweepFrom(s, i, inPlay, now).players, field)
    decreases |s.players| - i
  {
    if i < |s.players| {
      EvictStaysOpen(s, i, inPlay, now, field);
      SweepStaysOpen(SweepStep(s, i, inPlay, now), i + 1, inPlay, now, field);
    }
  }

  lemma DisconnectStaysOpen(r: RoomState, now: Timestamp)
    requires LogsOpen(r.players, r.field)
    ensures var x := DisconnectPlayers(r, now).room; LogsOpen(x.players, x.field)
  {
    var t := SweepFrom(Sweep(r.players, [], []), 0, r.state == Play, now);
    SweepStaysOpen(Sweep(r.players, [], []), 0, r.state == Play, now, r.field);
    KeptStaysOpen(t.players, t.gone, r.field);
  }

  lemma KeptStaysOpen(ps: seq<PlayerState>, gone: seq<Sock>, field: Cells)
    requires LogsOpen(ps, field)
    ensures LogsOpen(Keep(ps, gone), field)
  {
    var kept := Keep(ps, gone);
    KeepMembers(ps, gone);
    forall i | 0 <= i < |kept|
      ensures LogOpen(kept[i], field)
    {
      assert kept[i] in kept;
      var j :| 0 <= j < |ps| && ps[j] == kept[i];
    }
  }

  lemma JoinStaysOpen(r: RoomState, sock: Sock, username: string, faults: set<nat>, now: Timestamp)
    requires r.state == WaitForStart && IsColor(|r.players|) && LogsOpen(r.players, r.field)
    ensures LogsOpen(JoinPlayer(r, sock, username, faults, now).players, r.field)
  {
    var p := NewPlayer(sock, username, |r.players|, faults, now);
    var qs := JoinPlayer(r, sock, username, faults, now).players;
    JoinSends(r, sock, username, faults, now, 0);
    forall i | 0 <= i < |qs|
      ensures LogOpen(qs[i], r.field)
    {
      var old' := if i == 0 then p else r.players[i - 1];
      JoinSends(r, sock, username, faults, now, i);
      SendStaysOpen(old', JoinMessage(r, p, i), r.field);
      SendStaysOpen(Send(old', JoinMessage(r, p, i)), GameStart, r.field);
    }
  }

  // ----- runs

  ghost predicate AllOpen(w: World) {
    LogsOpen(w.room.players, w.room.field)
  }

  lemma PostStaysOpen(w: World, now: Timestamp, armed: Timestamp)
    requires AllOpen(w)
    ensures AllOpen(Post(w, now, armed))
  {
    DisconnectStaysOpen(w.room, now);
  }

  lemma MiddleStaysOpen(w: World, e: Event)
    requires Inv(w) && Enabled(w, e) && 50 <= w.now && AllOpen(w)
    ensures AllOpen(Middle(w, e))
  {
    match e
    case Join(_, _, _, _) => JoinedStaysOpen(w, e);
    case Hear(sock, msg, clock) => HeardAllOpen(w, IndexOf(w.room.players, sock), msg, clock[0], clock[1]);
    case Lose(sock, clock) => MarkedStaysOpen(w, IndexOf(w.room.players, sock), clock[0]);
    case Fire(_, draw, clock) => FiredStaysOpen(w.room, draw, clock[0]);
  }

  lemma HeardAllOpen(w: World, k: nat, msg: ClientMsg, now: Timestamp, armed: Timestamp)
    requires k < |w.room.players| && Grounded(w.room) && 50 <= now && AllOpen(w)
    ensures AllOpen(Heard(w, k, msg, now, armed))
  {
    HeardStaysOpen(w.room, k, msg, now);
    assert Heard(w, k, msg, now, armed).room.field == w.room.field;
  }

  lemma MarkedStaysOpen(w: World, k: nat, now: Timestamp)
    requires k < |w.room.players| && AllOpen(w)
    ensures AllOpen(Marked(w, k, now))
  {
    var ps, marked := w.room.players, Marked(w, k, now).room.players;
    assert forall i | 0 <= i < |ps| :: marked[i].link == ps[i].link;
    SameLogsOpen(ps, marked, w.room.field);
  }

  lemma JoinedStaysOpen(w: World, e: Event)
    requires Inv(w) && Enabled(w, e) && e.Join? && AllOpen(w)
    ensures AllOpen(Next(w, e))
  {
    JoinedKeeps(w, e.sock, e.username, e.faults, e.clock[0]);
    JoinStaysOpen(w.room, e.sock, e.username, e.faults, e.clock[0]);
  }

  lemma HeardStepStaysOpen(mid: World, clock: seq<Timestamp>)
    requires AllOpen(mid) && |clock| == 6
    ensures AllOpen(Post(Post(mid, clock[2], clock[3]), clock[4], clock[5]))
  {
    PostStaysOpen(mid, clock[2], clock[3]);
    PostStaysOpen(Post(mid, clock[2], clock[3]), clock[4], clock[5]);
  }

  lemma StepStaysOpen(w: World, e: Event)
    requires Inv(w) && Enabled(w, e) && 50 <= w.now && AllOpen(w)
    ensures AllOpen(Next(w, e))
  {
    MiddleStaysOpen(w, e);
    match e
    case Join(_, _, _, _) =>
    case Hear(_, _, clock) => HeardStepStaysOpen(Middle(w, e), clock);
    case Lose(_, clock) => PostStaysOpen(Middle(w, e), clock[0], clock[1]);
    case Fire(_, _, clock) => PostStaysOpen(Middle(w, e), clock[1], clock[2]);
  }

  lemma TimePasses(w: World, e: Event)
    requires Enabled(w, e)
    ensures w.now <= Next(w, e).now
  {
  }

  lemma {:induction false} RunStaysOpen(w: World, es: seq<Event>)
    requires Inv(w) && ValidRun(w, es) && 50 <= w.now && AllOpen(w)
    ensures AllOpen(Run(w, es)) && 50 <= Run(w, es).now
    decreases es
  {
    if es != [] {
      StepStaysOpen(w, es[0]);
      TimePasses(w, es[0]);
      StepKeeps(w, es[0]);
      RunStaysOpen(Next(w, es[0]), es[1..]);
    }
  }

  lemma InOpenLog(w: World, p: PlayerState, to: Tile)
    requires AllOpen(w) && p in w.room.players && MovementCorrection(to) in p.link.log
    ensures At(w.room.field, to) == NOTHIN
  {
    var i :| 0 <= i < |w.room.players| && w.room.players[i] == p;
    assert LogOpen(w.room.players[i], w.room.field);
    assert Open(MovementCorrection(to), w.room.field);
  }

  /** In every run every correction a player was ever sent names open ground, ... */
  lemma EveryCorrectionIsOpenGround(start: Timestamp, es: seq<Event>, p: PlayerState, to: Tile)
    requires 50 <= start && ValidRun(NewWorld(start), es)
    requires p in Run(NewWorld(start), es).room.players && MovementCorrection(to) in p.link.log
    ensures At(Run(NewWorld(start), es).room.field, to) == NOTHIN
  {
    NewWorldIsGood(start);
    RunStaysOpen(NewWorld(start), es);
    InOpenLog(Run(NewWorld(start), es), p, to);
  }

  /** ... and did when it was sent, before the disconnects: whoever they remove had only
      such corrections too. */
  lemma EveryCorrectionWasOpenGround(start: Timestamp, es: seq<Event>, e: Event, p: PlayerState, to: Tile)
    requires 50 <= start && ValidRun(NewWorld(start), es) && Enabled(Run(NewWorld(start), es), e)
    requires p in Middle(Run(NewWorld(start), es), e).room.players && MovementCorrection(to) in p.link.log
    ensures At(Middle(Run(NewWorld(start), es), e).room.field, to) == NOTHIN
  {
    var x := Run(NewWorld(start), es);
    NewWorldIsGood(start);
    RunKeeps(NewWorld(start), es);
    RunStaysOpen(NewWorld(start), es);
    MiddleStaysOpen(x, e);
    InOpenLog(Middle(x, e), p, to);
  }
}
