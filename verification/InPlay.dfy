/** What a message does to a game: who is told off, who leaves, and nothing else. */
module InPlay {
  import opened Grid
  import opened Blast
  import opened Messages
  import opened MoveGuard
  import opened RoomSpec
  import opened RoomFacts
  import opened Disconnects
  import opened Leaving
  import opened RoomRun
  import opened RoomTheorems
  import opened WaitingRoom
  import opened Scenes
  import opened Steps

  // ----- told off

  /** Anything but a leave from a dead player, or before the start, and anything unknown. */
  predicate OutOfOrder(r: RoomState, k: nat, msg: ClientMsg)
    requires k < |r.players|
  {
    msg != ILeave && (r.state == WaitForStart || r.players[k].livesRemaining == 0 || msg.OtherType?)
  }

  /** Sent one message more. */
  function Heeding(p: PlayerState, m: ServerMsg): PlayerState {
    if p.link.attempts in p.link.faults
    then p.(marked := true, link := Link(p.link.faults, p.link.attempts + 1, p.link.log))
    else p.(link := Link(p.link.faults, p.link.attempts + 1, p.link.log + [m]))
  }

  /** Its author is told so, no timer is wanted, and nothing else changes. */
  lemma ToldOff(r: RoomState, k: nat, msg: ClientMsg, now: Timestamp)
    requires k < |r.players| && OutOfOrder(r, k, msg)
    ensures HandleMessage(r, k, msg, now) == (r.(players := r.players[k := Heeding(r.players[k], Error)]), false)
  {
  }

  /** In every run: bombs, timers, field and everybody else are as before, if the author
      could be told and nobody was marked. */
  lemma NothingButTheError(w: World, e: Event)
    requires Reachable(w) && w.room.state == Play && Enabled(w, e) && e.Hear?
    requires Unmarked(w.room.players)
    requires var k := IndexOf(w.room.players, e.sock);
      OutOfOrder(w.room, k, e.msg) && w.room.players[k].link.attempts !in w.room.players[k].link.faults
    ensures var k := IndexOf(w.room.players, e.sock);
      Next(w, e) ==
      w.(room := w.room.(players := w.room.players[k := Heeding(w.room.players[k], Error)]), now := e.clock[5])
  {
    var k, c := IndexOf(w.room.players, e.sock), e.clock;
    ReachableIsGood(w);
    ToldOff(w.room, k, e.msg, c[0]);
    var heard := Heard(w, k, e.msg, c[0], c[1]);
    QuietPost(heard, c[2], c[3]);
    QuietPost(heard.(now := c[3]), c[4], c[5]);
  }

  // ----- a move, a bomb

  /** Player `k` may move and plant. */
  ghost predicate MayAct(r: RoomState, k: nat) {
    k < |r.players| && r.state != WaitForStart && r.players[k].livesRemaining != 0
  }

  /** To a wall, or off its row and column, it is told where it stands. */
  lemma TurnedBack(r: RoomState, k: nat, to: Tile, now: Timestamp)
    requires MayAct(r, k)
    requires At(r.field, to) != NOTHIN || !InLine(r.players[k].guard.coords, to)
    ensures var p := r.players[k];
      HandleMessage(r, k, IMove(to), now) ==
      (r.(players := r.players[k := Heeding(p, MovementCorrection(p.guard.coords))]), false)
  {
    var p := r.players[k];
    if !InLine(p.guard.coords, to) {
      OutOfLine(p.guard, to, now);
    }
    assert r.players[k := p] == r.players;
  }

  /** Too fast, it is told where it stood four recorded moves before, and the room still
      has it where it stands; its steps are counted afresh. */
  lemma TooFast(r: RoomState, k: nat, to: Tile, now: Timestamp)
    requires MayAct(r, k) && At(r.field, to) == NOTHIN && InLine(r.players[k].guard.coords, to)
    requires var g := r.players[k].guard; g.step >= 5 && now - g.moveHistory[(g.step - 3) % 5].ts < 50
    ensures var p := r.players[k];
      var back := p.guard.moveHistory[(p.guard.step - 3) % 5].coords;
      HandleMessage(r, k, IMove(to), now) ==
      (r.(players := r.players[k := Heeding(p.(guard := p.guard.(step := 0)), MovementCorrection(back))]), false)
  {
    var p := r.players[k];
    var slowed := p.(guard := p.guard.(step := 0));
    LineOfMoves(p.guard, to, now);
    SentInPlace(r.players, k, slowed, MovementCorrection(p.guard.moveHistory[(p.guard.step - 3) % 5].coords));
  }

  lemma SentInPlace(ps: seq<PlayerState>, k: nat, p: PlayerState, m: ServerMsg)
    requires k < |ps|
    ensures SendOne(ps[k := p], k, m) == ps[k := Heeding(p, m)]
  {
  }

  /** Otherwise it stands where it asked to, and all others are told. */
  lemma MovesOn(r: RoomState, k: nat, to: Tile, now: Timestamp, i: nat)
    requires MayAct(r, k) && At(r.field, to) == NOTHIN && InLine(r.players[k].guard.coords, to)
    requires var g := r.players[k].guard; g.step < 5 || now - g.moveHistory[(g.step - 3) % 5].ts >= 50
    requires i < |r.players|
    ensures var p, x := r.players[k], HandleMessage(r, k, IMove(to), now).0;
      && x == r.(players := x.players) && |x.players| == |r.players| && x.players[k].guard.coords == to
      && x.players[i] ==
         if i == k then p.(guard := x.players[k].guard) else Heeding(r.players[i], OtherMove(p.username, to))
  {
    LineOfMoves(r.players[k].guard, to, now);
  }

  /** A bomb that reaches two tiles far is queued, its timer is wanted, and all others are told. */
  lemma Plants(r: RoomState, k: nat, at: Tile, now: Timestamp, i: nat)
    requires MayAct(r, k) && i < |r.players|
    ensures var (x, plants) := HandleMessage(r, k, IPlaceBomb(at), now);
      && plants && x == r.(players := x.players, bombs := r.bombs + [Bomb(at, 3, now, false)])
      && |x.players| == |r.players|
      && x.players[i] ==
         if i == k then r.players[i] else Heeding(r.players[i], OtherBombPlace(r.players[k].username, now, at))
  {
  }

  // ----- a leave

  /** Who asks to leave a game is no longer in the room after the step, in every run. */
  lemma TheLeaverIsGone(w: World, e: Event)
    requires Reachable(w) && w.room.state == Play && Enabled(w, e) && e.Hear? && e.msg == ILeave
    ensures !Present(Next(w, e).room.players, e.sock)
  {
    ReachableIsGood(w);
    MiddleIsCore(w, e);
    var k, mid, qs := IndexOf(w.room.players, e.sock), Middle(w, e).room.players, Next(w, e).room.players;
    assert mid[k].marked && mid[k].sock == e.sock;
    forall i | 0 <= i < |qs|
      ensures qs[i].sock != e.sock
    {
      WhoStays(w, e, qs[i]);
      if qs[i].sock == e.sock {
        StayedAs(mid, k, qs[i]);
      }
    }
  }

  /** Leaving while others wait marks nobody but the newest, as leaving a game marks nobody
      but its author. */
  lemma LeaveMarks(r: RoomState, k: nat, now: Timestamp)
    requires k < |r.players|
    ensures var goes := if r.state == WaitForStart then 0 else k;
      HandleMessage(r, k, ILeave, now) ==
      (r.(players := r.players[goes := r.players[goes].(marked := true)]), false)
  {
  }

  /** What the others are sent about player `p`, at `now`: that it left, and the bomb where it
      stood if it was alive in the game. */
  function FarewellTo(p: PlayerState, inPlay: bool, now: Timestamp): (ms: seq<ServerMsg>)
    ensures 1 <= |ms| <= 2
  {
    [OtherLeave(p.username)] +
      if inPlay && p.livesRemaining > 0 then [OtherBombPlace("Server", now, p.guard.coords)] else []
  }

  function Sent(p: PlayerState, ms: seq<ServerMsg>): PlayerState {
    p.(link := Link(p.link.faults, p.link.attempts + |ms|, p.link.log + ms))
  }

  lemma GetsBoth(p: PlayerState, m: ServerMsg, m': ServerMsg)
    requires !p.marked && !Misses(p.link, 2)
    ensures Send(p, m) == Sent(p, [m]) && Send(Send(p, m), m') == Sent(p, [m, m'])
  {
    assert !Fails(p.link);
    assert p.link.attempts + 1 !in p.link.faults;
    assert p.link.log + [m] + [m'] == p.link.log + [m, m'];
  }

  /** Player `k` goes, and the others, who are to stay, get to hear of it. */
  ghost predicate AloneGoes(ps: seq<PlayerState>, k: nat) {
    && k < |ps| && Distinct(ps) && ps[k].livesRemaining >= 0
    && forall i :: 0 <= i < |ps| && i != k ==> !ps[i].marked && !Misses(ps[i].link, 2)
  }

  lemma EvictTells(s: Sweep, k: nat, inPlay: bool, now: Timestamp)
    requires AloneGoes(s.players, k)
    ensures var u := Evict(s, k, inPlay, now);
      forall i | 0 <= i < |u.players| && i != k ::
        u.players[i] == Sent(s.players[i], FarewellTo(s.players[k], inPlay, now))
  {
    var u, p := Evict(s, k, inPlay, now), s.players[k];
    forall i | 0 <= i < |u.players| && i != k
      ensures u.players[i] == Sent(s.players[i], FarewellTo(p, inPlay, now))
    {
      GetsBoth(s.players[i], OtherLeave(p.username), OtherBombPlace("Server", now, p.guard.coords));
    }
  }

  lemma SweepEvictsOne(r: RoomState, k: nat, now: Timestamp)
    requires AloneGoes(r.players, k) && r.players[k].marked
    ensures var s, inPlay := Sweep(r.players, [], []), r.state == Play;
      SweepFrom(s, 0, inPlay, now) == Evict(s, k, inPlay, now)
  {
    var s, inPlay := Sweep(r.players, [], []), r.state == Play;
    var u := Evict(s, k, inPlay, now);
    EvictTells(s, k, inPlay, now);
    SweepSkips(s, 0, k, inPlay, now);
    assert SweepFrom(s, k, inPlay, now) == SweepFrom(u, k + 1, inPlay, now);
    SweepSkips(u, k + 1, |r.players|, inPlay, now);
  }

  /** The bomb it leaves. */
  function LegacyOf(p: PlayerState, inPlay: bool, now: Timestamp): seq<Bomb> {
    if inPlay && p.livesRemaining > 0 then [Bomb(p.guard.coords, 9, now, true)] else []
  }

  /** Of three or more, the marked one goes and the others are told. */
  lemma OneOfMany(r: RoomState, k: nat, now: Timestamp)
    requires AloneGoes(r.players, k) && r.players[k].marked && |r.players| >= 3
    ensures var d, p := DisconnectPlayers(r, now), r.players[k];
      && d.dropped == LegacyOf(p, r.state == Play, now) && d.winner == None
      && d.room == r.(players := d.room.players, bombs := r.bombs + d.dropped)
      && |d.room.players| == |r.players| - 1
      && forall i | 0 <= i < |r.players| && i != k ::
        d.room.players[if i < k then i else i - 1] == Sent(r.players[i], FarewellTo(p, r.state == Play, now))
  {
    var s, inPlay := Sweep(r.players, [], []), r.state == Play;
    var u := Evict(s, k, inPlay, now);
    SweepEvictsOne(r, k, now);
    EvictTells(s, k, inPlay, now);
    EvictedDiffer(s, k, inPlay, now);
    assert u.gone == [u.players[k].sock];
    KeepWithout(u.players, k);
    var d := DisconnectPlayers(r, now);
    assert d.room.players == Without(u.players, k);
    forall i | 0 <= i < |r.players| && i != k
      ensures d.room.players[if i < k then i else i - 1] == u.players[i]
    {
      WithoutAt(u.players, k, i);
    }
  }

  /** The disconnects in which player `k` goes alone. */
  lemma PostOfOne(h: World, k: nat, now: Timestamp, armed: Timestamp)
    requires h.room.state == Play && AloneGoes(h.room.players, k) && h.room.players[k].marked
    requires |h.room.players| >= 3
    ensures var x, ps := Post(h, now, armed), h.room.players;
      var legacy := LegacyOf(ps[k], true, now);
      && x.room == h.room.(players := x.room.players, bombs := h.room.bombs + legacy)
      && x.timers == h.timers + Repeat(armed, |legacy|) && x.winners == h.winners
      && Unmarked(x.room.players) && OthersTold(ps, k, now, x.room.players)
  {
    OneOfMany(h.room, k, now);
    StillUnmarked(h.room.players, k, Post(h, now, armed).room.players);
    assert h.winners + [] == h.winners;
  }

  /** `qs` are the others of `ps`, in order, told that `k` has gone, and nothing more. */
  ghost predicate OthersTold(ps: seq<PlayerState>, k: nat, now: Timestamp, qs: seq<PlayerState>)
    requires k < |ps|
  {
    && |qs| == |ps| - 1
    && forall i | 0 <= i < |ps| && i != k ::
      qs[if i < k then i else i - 1] == Sent(ps[i], FarewellTo(ps[k], true, now))
  }

  lemma ToldTheSame(ps: seq<PlayerState>, k: nat, now: Timestamp, qs: seq<PlayerState>)
    requires k < |ps| && OthersTold(ps[k := ps[k].(marked := true)], k, now, qs)
    ensures OthersTold(ps, k, now, qs)
  {
    var marked := ps[k := ps[k].(marked := true)];
    forall i | 0 <= i < |ps| && i != k
      ensures qs[if i < k then i else i - 1] == Sent(ps[i], FarewellTo(ps[k], true, now))
    {
      assert marked[i] == ps[i];
    }
  }

  /** In every run of three or more players, who asks to leave goes, alone if the others can
      be told. They stay in order, with the notice in their logs and, if the leaver was
      alive, an atomic bomb and its timer where it stood. */
  lemma OnlyTheLeaverGoes(w: World, e: Event)
    requires Reachable(w) && w.room.state == Play && Enabled(w, e) && e.Hear? && e.msg == ILeave
    requires AloneGoes(w.room.players, IndexOf(w.room.players, e.sock)) && |w.room.players| >= 3
    ensures var ps, k, x := w.room.players, IndexOf(w.room.players, e.sock), Next(w, e);
      var legacy := LegacyOf(ps[k], true, e.clock[2]);
      && x.room == w.room.(players := x.room.players, bombs := w.room.bombs + legacy)
      && x.timers == w.timers + Repeat(e.clock[3], |legacy|) && x.winners == w.winners
      && OthersTold(ps, k, e.clock[2], x.room.players)
  {
    var ps, k, c := w.room.players, IndexOf(w.room.players, e.sock), e.clock;
    LeaveMarks(w.room, k, c[0]);
    var heard := Heard(w, k, ILeave, c[0], c[1]);
    PostOfOne(heard, k, c[2], c[3]);
    ToldTheSame(ps, k, c[2], Post(heard, c[2], c[3]).room.players);
    QuietPost(Post(heard, c[2], c[3]), c[4], c[5]);
  }

  lemma StillUnmarked(ps: seq<PlayerState>, k: nat, qs: seq<PlayerState>)
    requires AloneGoes(ps, k) && |qs| == |ps| - 1
    requires forall i | 0 <= i < |ps| && i != k :: qs[if i < k then i else i - 1].marked == ps[i].marked
    ensures Unmarked(qs)
  {
    forall j | 0 <= j < |qs|
      ensures !qs[j].marked
    {
      var i := if j < k then j else j + 1;
      assert qs[if i < k then i else i - 1].marked == ps[i].marked;
    }
  }

  lemma TwiceOver(h: World, name: string, clock: seq<Timestamp>)
    requires |clock| == 6 && h.winners == []
    requires var d := DisconnectPlayers(h.room, clock[2]);
      d.winner == Some(name) && d.room.players == [] && d.room.state == GameOver
    ensures var x := Post(Post(h, clock[2], clock[3]), clock[4], clock[5]);
      x.room.state == GameOver && x.room.players == [] && x.winners == [name]
  {
    OverStaysOver(Post(h, clock[2], clock[3]).room, clock[4]);
  }

  /** Of two, the other wins. */
  lemma TheOtherWins(w: World, e: Event, i: nat)
    requires Reachable(w) && w.room.state == Play && Enabled(w, e) && e.Hear? && e.msg == ILeave
    requires AloneGoes(w.room.players, IndexOf(w.room.players, e.sock)) && |w.room.players| == 2
    requires i < 2 && i != IndexOf(w.room.players, e.sock)
    ensures var x := Next(w, e);
      x.room.state == GameOver && x.room.players == [] && x.winners == [w.room.players[i].username]
  {
    var k, c := IndexOf(w.room.players, e.sock), e.clock;
    ReachableIsGood(w);
    LeaveMarks(w.room, k, c[0]);
    var heard := Heard(w, k, ILeave, c[0], c[1]);
    OneOfTwo(heard.room, k, i, c[2]);
    TwiceOver(heard, w.room.players[i].username, c);
  }

  lemma OneOfTwo(r: RoomState, k: nat, i: nat, now: Timestamp)
    requires AloneGoes(r.players, k) && r.players[k].marked && |r.players| == 2 && i < 2 && i != k
    ensures var d := DisconnectPlayers(r, now);
      d.winner == Some(r.players[i].username) && d.room.players == [] && d.room.state == GameOver
  {
    var n := NoticesBefore(r.players, i, r.state == Play);
    FewNotices(r.players, i, r.state == Play);
    MissesFewer(r.players[i].link, n, 2);
    assert OnlyStays(r, i);
    TheLoneWin(r, i, now);
    DisconnectKeepsOrder(r, now);
  }
}
