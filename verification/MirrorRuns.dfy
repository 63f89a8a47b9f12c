/** Agreement of the clients' rosters is kept by every step of a room. */
module MirrorRuns {
  import opened Grid
  import opened Messages
  import opened MoveGuard
  import opened RoomSpec
  import opened RoomFacts
  import opened RoomRun
  import opened RoomInvariants
  import opened RoomTheorems
  import opened Client
  import opened Mirror

  // ----- one client

  /** What a client that is still unmarked after a send has now processed. */
  lemma Told(p: PlayerState, m: ServerMsg)
    requires !Send(p, m).marked
    ensures var log := Send(p, m).link.log;
      && !p.marked && log == p.link.log + [m]
      && ClientOf(log) == Handle(ClientOf(p.link.log), m)
    ensures CorrectionsHitSelf(p.link.log, p.username)
      && (m.MovementCorrection? && ClientOf(p.link.log).phase == Playing ==>
        OwnEntryFirst(ClientOf(p.link.log), p.username))
      ==> CorrectionsHitSelf(Send(p, m).link.log, p.username)
  {
    var log := p.link.log + [m];
    ClientOfAppend(p.link.log, m);
    assert forall n | 0 <= n < |p.link.log| :: log[..n] == p.link.log[..n] && log[n] == p.link.log[n];
    assert log[..|p.link.log|] == p.link.log;
  }

  ghost predicate OwnEntryFirst(c: ClientState, me: string) {
    c.players != [] && c.players[0].name == me
  }

  ghost predicate SameStanding(ps: seq<PlayerState>, gone: seq<Sock>, qs: seq<PlayerState>, gone': seq<Sock>,
          me: string) {
    forall e: Boomberman | e.name != me :: Standing(ps, gone, e) <==> Standing(qs, gone', e)
  }

  /** A player nothing was sent to, while nothing changed for the others. */
  lemma UntouchedMirrors(p: PlayerState, q: PlayerState, ps: seq<PlayerState>, qs: seq<PlayerState>, gone: seq<Sock>,
          phase: Phase)
    requires Mirrors(p, ps, gone, phase) && SameStanding(ps, gone, qs, gone, p.username)
    requires q.link == p.link && q.username == p.username && q.livesRemaining == p.livesRemaining
    requires p.marked ==> q.marked
    ensures Mirrors(q, qs, gone, phase)
  {
  }

  predicate Neutral(m: ServerMsg) {
    m.Error? || m.OtherBombPlace? || m.GameWon?
  }

  /** A player sent something that does not concern the roster. */
  lemma NeutralMirrors(p: PlayerState, m: ServerMsg, ps: seq<PlayerState>, qs: seq<PlayerState>, gone: seq<Sock>)
    requires Neutral(m) && Mirrors(p, ps, gone, Playing) && SameStanding(ps, gone, qs, gone, p.username)
    ensures Mirrors(Send(p, m), qs, gone, Playing)
  {
    if !Send(p, m).marked {
      Told(p, m);
    }
  }

  lemma CorrectedMirrors(p: PlayerState, to: Tile, ps: seq<PlayerState>, qs: seq<PlayerState>)
    requires Mirrors(p, ps, [], Playing) && SameStanding(ps, [], qs, [], p.username) && p.livesRemaining > 0
    ensures Mirrors(Send(p, MovementCorrection(to)), qs, [], Playing)
  {
    var m := MovementCorrection(to);
    if !Send(p, m).marked {
      Told(p, m);
      var c := ClientOf(p.link.log);
      if c.phase == Playing {
        AgreesAfterCorrection(c, ps, [], p.username, to);
      }
    }
  }

  // ----- messages

  lemma TellOthersNeutral(ps: seq<PlayerState>, who: iset<Sock>, k: int, m: ServerMsg, gone: seq<Sock>)
    requires Neutral(m) && AllMirror(ps, who, gone, Playing)
    ensures AllMirror(SendExcept(ps, k, m), who, gone, Playing)
  {
    var qs := SendExcept(ps, k, m);
    StandingSame(ps, qs, gone);
    forall i | 0 <= i < |qs| && qs[i].sock in who
      ensures Mirrors(qs[i], qs, gone, Playing)
    {
      if i == k {
        UntouchedMirrors(ps[i], qs[i], ps, qs, gone, Playing);
      } else {
        NeutralMirrors(ps[i], m, ps, qs, gone);
      }
    }
  }

  /** Player `k` alone is touched, and its position is what it was. */
  lemma TouchOne(ps: seq<PlayerState>, who: iset<Sock>, k: nat, q: PlayerState, phase: Phase)
    requires AllMirror(ps, who, [], phase) && k < |ps|
    requires q.sock == ps[k].sock && q.username == ps[k].username
    requires q.livesRemaining == ps[k].livesRemaining && q.guard.coords == ps[k].guard.coords
    requires q.sock in who ==> forall qs | SameStanding(ps, [], qs, [], q.username) :: Mirrors(q, qs, [], phase)
    ensures AllMirror(ps[k := q], who, [], phase)
  {
    var qs := ps[k := q];
    StandingSame(ps, qs, []);
    forall i | 0 <= i < |qs| && qs[i].sock in who
      ensures Mirrors(qs[i], qs, [], phase)
    {
      if i != k {
        UntouchedMirrors(ps[i], qs[i], ps, qs, [], phase);
      }
    }
  }

  lemma MoveAcceptedMirrors(ps: seq<PlayerState>, who: iset<Sock>, k: nat, guard: Guard)
    requires Named(ps) && k < |ps| && ps[k].livesRemaining > 0 && AllMirror(ps, who, [], Playing)
    ensures var moved := ps[k := ps[k].(guard := guard)];
      AllMirror(SendExcept(moved, k, OtherMove(ps[k].username, guard.coords)), who, [], Playing)
  {
    var mid := ps[k := ps[k].(guard := guard)];
    var m := OtherMove(ps[k].username, guard.coords);
    var qs := SendExcept(mid, k, m);
    StandingSame(mid, qs, []);
    StandingAfter(ps, k, ps[k].(guard := guard), []);
    forall i | 0 <= i < |qs| && qs[i].sock in who
      ensures Mirrors(qs[i], qs, [], Playing)
    {
      if i == k {
        UntouchedMirrors(ps[i], qs[i], ps, qs, [], Playing);
      } else if !qs[i].marked {
        Told(ps[i], m);
        var c := ClientOf(ps[i].link.log);
        if c.phase == Playing {
          AgreesAfterMove(c, ps, k, guard, ps[i].username);
        }
      }
    }
  }

  lemma MoveMirrors(r: RoomState, who: iset<Sock>, k: nat, to: Tile, now: Timestamp)
    requires Named(r.players) && k < |r.players| && r.players[k].livesRemaining > 0
    requires AllMirror(r.players, who, [], Playing)
    ensures AllMirror(MoveTo(r, k, to, now).players, who, [], Playing)
  {
    var ps, p := r.players, r.players[k];
    if At(r.field, to) != NOTHIN {
      CorrectOne(ps, who, k, p.guard, p.guard.coords);
      assert ps[k := p.(guard := p.guard)] == ps;
    } else {
      var (guard, correction) := MoveCheck(p.guard, to, now);
      match correction
      case Some(back) => CorrectOne(ps, who, k, guard, back);
      case None => MoveAcceptedMirrors(ps, who, k, guard);
    }
  }

  lemma CorrectOne(ps: seq<PlayerState>, who: iset<Sock>, k: nat, guard: Guard, to: Tile)
    requires k < |ps| && ps[k].livesRemaining > 0 && AllMirror(ps, who, [], Playing)
    requires guard.coords == ps[k].guard.coords
    ensures AllMirror(SendOne(ps[k := ps[k].(guard := guard)], k, MovementCorrection(to)), who, [], Playing)
  {
    var p := ps[k].(guard := guard);
    var q := Send(p, MovementCorrection(to));
    forall qs | SameStanding(ps, [], qs, [], q.username) && q.sock in who
      ensures Mirrors(q, qs, [], Playing)
    {
      UntouchedMirrors(ps[k], p, ps, ps, [], Playing);
      CorrectedMirrors(p, to, ps, qs);
    }
    TouchOne(ps, who, k, q, Playing);
    assert SendOne(ps[k := p], k, MovementCorrection(to)) == ps[k := q];
  }

  lemma ErrorToOne(ps: seq<PlayerState>, who: iset<Sock>, k: nat, phase: Phase)
    requires AllMirror(ps, who, [], phase) && k < |ps| && phase != Halted
    ensures AllMirror(SendOne(ps, k, Error), who, [], phase)
  {
    var q := Send(ps[k], Error);
    forall qs | SameStanding(ps, [], qs, [], q.username) && q.sock in who
      ensures Mirrors(q, qs, [], phase)
    {
      if phase == Playing {
        NeutralMirrors(ps[k], Error, ps, qs, []);
      } else if !q.marked {
        Told(ps[k], Error);
      }
    }
    TouchOne(ps, who, k, q, phase);
  }

  lemma MarkOne(ps: seq<PlayerState>, who: iset<Sock>, k: nat, phase: Phase)
    requires AllMirror(ps, who, [], phase) && k < |ps|
    ensures AllMirror(ps[k := ps[k].(marked := true)], who, [], phase)
  {
    TouchOne(ps, who, k, ps[k].(marked := true), phase);
  }

  function PhaseOf(s: GameState): Phase {
    if s == WaitForStart then InLobby else Playing
  }

  lemma HeardMirrors(r: RoomState, who: iset<Sock>, k: nat, msg: ClientMsg, now: Timestamp)
    requires Named(r.players) && k < |r.players| && 0 <= r.players[k].livesRemaining
    requires AllMirror(r.players, who, [], PhaseOf(r.state))
    ensures AllMirror(HandleMessage(r, k, msg, now).0.players, who, [], PhaseOf(r.state))
  {
    if r.state == WaitForStart {
      if msg == ILeave {
        MarkOne(r.players, who, 0, InLobby);
      } else {
        ErrorToOne(r.players, who, k, InLobby);
      }
    } else if r.players[k].livesRemaining == 0 && msg != ILeave {
      ErrorToOne(r.players, who, k, Playing);
    } else {
      match msg
      case IPlaceBomb(at) => TellOthersNeutral(r.players, who, k, OtherBombPlace(r.players[k].username, now, at), []);
      case IMove(to) => MoveMirrors(r, who, k, to, now);
      case ILeave => MarkOne(r.players, who, k, Playing);
      case OtherType => ErrorToOne(r.players, who, k, Playing);
    }
  }

  // ----- explosions

  lemma HurtMirrors(ps: seq<PlayerState>, who: iset<Sock>, k: nat, now: Timestamp)
    requires Distinct(ps) && k < |ps| && ps[k].livesRemaining > 0 && AllMirror(ps, who, [], Playing)
    ensures AllMirror(HurtAndTell(ps, k, now), who, [], Playing)
  {
    var qs := HurtAndTell(ps, k, now);
    StandingSame(ps[k := Hurt(ps[k], now)], qs, []);
    forall i | 0 <= i < |qs| && qs[i].sock in who
      ensures Mirrors(qs[i], qs, [], Playing)
    {
      if !qs[i].marked {
        OneHearsOfHit(ps, k, i, now);
      }
    }
  }

  lemma OneHearsOfHit(ps: seq<PlayerState>, k: nat, i: nat, now: Timestamp)
    requires Distinct(ps) && k < |ps| && ps[k].livesRemaining > 0 && i < |ps| && Mirrors(ps[i], ps, [], Playing)
    requires !HurtAndTell(ps, k, now)[i].marked
    ensures Mirrors(HurtAndTell(ps, k, now)[i], ps[k := Hurt(ps[k], now)], [], Playing)
  {
    var m := GotHit(ps[k].username, ps[k].livesRemaining - 1, now);
    Told(ps[k := Hurt(ps[k], now)][i], m);
    var c := ClientOf(ps[i].link.log);
    if c.phase == Playing {
      if i == k {
        AgreesAfterOwnHit(c, ps, k, now);
      } else {
        AgreesAfterHit(c, ps, k, ps[i].username, now);
      }
    }
  }

  lemma HurtDistinct(ps: seq<PlayerState>, i: nat, now: Timestamp)
    requires Distinct(ps) && i < |ps|
    ensures Distinct(HurtAndTell(ps, i, now))
  {
    var qs := HurtAndTell(ps, i, now);
    assert forall j | 0 <= j < |ps| :: qs[j].sock == ps[j].sock && qs[j].username == ps[j].username;
  }

  lemma {:induction false} BlastedMirrors(ps: seq<PlayerState>, who: iset<Sock>, i: nat, lit: iset<Tile>,
          now: Timestamp)
    requires Distinct(ps) && AllMirror(ps, who, [], Playing)
    ensures AllMirror(Blasted(ps, i, lit, now), who, [], Playing)
    decreases |ps| - i
  {
    if i < |ps| {
      if Hit(ps[i], lit, now) {
        HurtMirrors(ps, who, i, now);
        HurtDistinct(ps, i, now);
        BlastedMirrors(HurtAndTell(ps, i, now), who, i + 1, lit, now);
      } else {
        BlastedMirrors(ps, who, i + 1, lit, now);
      }
    }
  }

  lemma FiredMirrors(r: RoomState, who: iset<Sock>, draw: nat, now: Timestamp)
    requires Distinct(r.players) && DrawDefined(r, draw, now) && AllMirror(r.players, who, [], PhaseOf(r.state))
    ensures var x := NotifyExplosion(r, draw, now).room;
      AllMirror(x.players, who, [], PhaseOf(x.state))
  {
    if Explodes(r) {
      BlastedMirrors(r.players, who, 0, LitTiles(r.field, r.bombs[0]), now);
      var e := NotifyExplosion(r, draw, now);
      FiredPeople(r, draw, now);
      if e.winner == None {
        assert e.room.players == Detonate(r, now).players;
      }
    }
  }

  // ----- disconnects

  lemma LeaveMirrors(ps: seq<PlayerState>, who: iset<Sock>, k: nat, gone: seq<Sock>)
    requires Distinct(ps) && k < |ps| && ps[k].marked && AllMirror(ps, who, gone, Playing)
    ensures AllMirror(SendExcept(ps, k, OtherLeave(ps[k].username)), who, gone + [ps[k].sock], Playing)
  {
    var m := OtherLeave(ps[k].username);
    var qs := SendExcept(ps, k, m);
    StandingSame(ps, qs, gone + [ps[k].sock]);
    forall i | 0 <= i < |qs| && qs[i].sock in who
      ensures Mirrors(qs[i], qs, gone + [ps[k].sock], Playing)
    {
      if i != k && !qs[i].marked {
        Told(ps[i], m);
        var c := ClientOf(ps[i].link.log);
        if c.phase == Playing {
          AgreesAfterLeave(c, ps, k, gone, ps[i].username);
        }
      }
    }
  }

  lemma StepLeaveMirrors(s: Sweep, who: iset<Sock>, i: nat, inPlay: bool, now: Timestamp)
    requires i < |s.players| && Distinct(s.players) && AllMirror(s.players, who, s.gone, Playing)
    ensures var u := SweepStep(s, i, inPlay, now);
      Distinct(u.players) && AllMirror(u.players, who, u.gone, Playing)
  {
    var p := s.players[i];
    if p.marked {
      var told, gone := SendExcept(s.players, i, OtherLeave(p.username)), s.gone + [p.sock];
      LeaveMirrors(s.players, who, i, s.gone);
      assert AllMirror(told, who, gone, Playing);
      TellOthersNeutral(told, who, i, OtherBombPlace("Server", now, p.guard.coords), gone);
    }
  }

  lemma {:induction false} SweepMirrors(s: Sweep, who: iset<Sock>, i: nat, inPlay: bool, now: Timestamp)
    requires Distinct(s.players) && AllMirror(s.players, who, s.gone, Playing)
    ensures var t := SweepFrom(s, i, inPlay, now);
      AllMirror(t.players, who, t.gone, Playing)
    decreases |s.players| - i
  {
    if i < |s.players| {
      StepLeaveMirrors(s, who, i, inPlay, now);
      SweepMirrors(SweepStep(s, i, inPlay, now), who, i + 1, inPlay, now);
    }
  }

  lemma KeepMirrors(ps: seq<PlayerState>, who: iset<Sock>, gone: seq<Sock>)
    requires AllMirror(ps, who, gone, Playing)
    ensures AllMirror(Keep(ps, gone), who, [], Playing)
  {
    var qs := Keep(ps, gone);
    KeepMembers(ps, gone);
    forall e
      ensures Standing(ps, gone, e) <==> Standing(qs, [], e)
    {
      if Standing(ps, gone, e) {
        var i :| 0 <= i < |ps| && ps[i].livesRemaining > 0 && ps[i].sock !in gone && ShownAs(ps[i]) == e;
        assert ps[i] in qs;
        var j :| 0 <= j < |qs| && qs[j] == ps[i];
        assert ShownAs(qs[j]) == e;
      }
      if Standing(qs, [], e) {
        var j :| 0 <= j < |qs| && qs[j].livesRemaining > 0 && qs[j].sock !in [] && ShownAs(qs[j]) == e;
        assert qs[j] in qs;
        var i :| 0 <= i < |ps| && ps[i] == qs[j];
        assert ShownAs(ps[i]) == e;
      }
    }
    forall j | 0 <= j < |qs| && qs[j].sock in who
      ensures Mirrors(qs[j], qs, [], Playing)
    {
      assert qs[j] in qs;
      var i :| 0 <= i < |ps| && ps[i] == qs[j];
      assert Mirrors(ps[i], ps, gone, Playing);
    }
  }

  lemma DisconnectMirrors(r: RoomState, who: iset<Sock>, now: Timestamp)
    requires Distinct(r.players) && r.state != WaitForStart && AllMirror(r.players, who, [], Playing)
    ensures AllMirror(DisconnectPlayers(r, now).room.players, who, [], Playing)
  {
    var s := Sweep(r.players, [], []);
    var t := SweepFrom(s, 0, r.state == Play, now);
    SweepMirrors(s, who, 0, r.state == Play, now);
    KeepMirrors(t.players, who, t.gone);
  }

  // ----- the lobby

  /** As players start: in the corner of their colour, with all lives. */
  ghost predicate AtStart(p: PlayerState) {
    IsColor(p.color) && p.guard.coords == Spawn(p.color) && p.livesRemaining == STARTER_LIVES
  }

  ghost predicate AllAtStart(ps: seq<PlayerState>) {
    forall i :: 0 <= i < |ps| ==> AtStart(ps[i])
  }

  /** The welcome list is shown as the room it lists: both sides know the same corners. */
  lemma {:induction false} WelcomeShowsRoom(ps: seq<PlayerState>)
    requires AllAtStart(ps)
    ensures var c := AddPlayers(FRESH, Listing(ps));
      && c.phase == InLobby && |c.players| == |ps|
      && forall i :: 0 <= i < |ps| ==> c.players[i] == ShownAs(ps[i])
    decreases |ps|
  {
    if ps != [] {
      var n := |ps| - 1;
      WelcomeShowsRoom(ps[..n]);
      assert Listing(ps)[..n] == Listing(ps[..n]);
    }
  }

  lemma NewcomerMirrors(p: PlayerState, ps: seq<PlayerState>, qs: seq<PlayerState>)
    requires ps != [] && Distinct(ps) && AllAtStart(ps) && p == ps[0] && p.link.log == []
    requires SameStanding(ps, [], qs, [], p.username)
    ensures Mirrors(Send(p, WelcomeToRoom(Listing(ps))), qs, [], InLobby)
  {
    var m := WelcomeToRoom(Listing(ps));
    if !Send(p, m).marked {
      Told(p, m);
      WelcomeShowsRoom(ps);
      var c := AddPlayers(FRESH, Listing(ps));
      forall e
        ensures e in c.players <==> Standing(ps, [], e)
      {
        if e in c.players {
          var i :| 0 <= i < |c.players| && c.players[i] == e;
          assert ShownAs(ps[i]) == e;
        }
        if Standing(ps, [], e) {
          var i :| 0 <= i < |ps| && ps[i].livesRemaining > 0 && ps[i].sock !in [] && ShownAs(ps[i]) == e;
          assert c.players[i] == e;
        }
      }
    }
  }

  lemma StandingWithNewcomer(p: PlayerState, ps: seq<PlayerState>)
    requires p.livesRemaining > 0
    ensures forall e :: Standing([p] + ps, [], e) <==> e == ShownAs(p) || Standing(ps, [], e)
  {
    var qs := [p] + ps;
    forall e
      ensures Standing(qs, [], e) <==> e == ShownAs(p) || Standing(ps, [], e)
    {
      assert qs[0] == p;
      if Standing(ps, [], e) {
        var i :| 0 <= i < |ps| && ps[i].livesRemaining > 0 && ps[i].sock !in [] && ShownAs(ps[i]) == e;
        assert qs[i + 1] == ps[i];
      }
      if Standing(qs, [], e) {
        var i :| 0 <= i < |qs| && qs[i].livesRemaining > 0 && qs[i].sock !in [] && ShownAs(qs[i]) == e;
        assert i > 0 ==> qs[i] == ps[i - 1];
      }
    }
  }

  lemma OldTimerMirrors(q: PlayerState, p: PlayerState, ps: seq<PlayerState>, qs: seq<PlayerState>)
    requires q in ps && q.livesRemaining > 0 && AtStart(p) && !HasName(ps, p.username)
    requires Mirrors(q, ps, [], InLobby)
    requires SameStanding([p] + ps, [], qs, [], q.username)
    ensures Mirrors(Send(q, GameJoin(Listed(p.username, p.color))), qs, [], InLobby)
  {
    var m := GameJoin(Listed(p.username, p.color));
    if !Send(q, m).marked {
      Told(q, m);
      var c := ClientOf(q.link.log);
      StandingWithNewcomer(p, ps);
      if c.phase == InLobby {
        forall e | e in c.players
          ensures e.name != p.username
        {
          if e.name != q.username {
            var i :| 0 <= i < |ps| && ps[i].livesRemaining > 0 && ps[i].sock !in [] && ShownAs(ps[i]) == e;
          }
        }
        assert Handle(c, m).players == c.players + [ShownAs(p)];
      }
    }
  }

  lemma GameStartMirrors(ps: seq<PlayerState>, who: iset<Sock>)
    requires AllMirror(ps, who, [], InLobby)
    ensures AllMirror(Broadcast(ps, GameStart), who, [], Playing)
  {
    var qs := Broadcast(ps, GameStart);
    StandingSame(ps, qs, []);
    forall i | 0 <= i < |qs| && qs[i].sock in who
      ensures Mirrors(qs[i], qs, [], Playing)
    {
      if !qs[i].marked {
        Told(ps[i], GameStart);
        assert Mirrors(ps[i], ps, [], InLobby);
      }
    }
  }

  lemma IntroducedSends(p: PlayerState, ps: seq<PlayerState>)
    ensures var told := Introduced(p, ps);
      && told[0] == Send(p, WelcomeToRoom(Listing([p] + ps)))
      && forall i | 0 < i < |told| :: told[i] == Send(ps[i - 1], GameJoin(Listed(p.username, p.color)))
    ensures forall e :: Standing([p] + ps, [], e) <==> Standing(Introduced(p, ps), [], e)
  {
    StandingSame([p] + ps, Introduced(p, ps), []);
  }

  lemma WelcomedMirrors(p: PlayerState, ps: seq<PlayerState>)
    requires Distinct([p] + ps) && AtStart(p) && AllAtStart(ps) && p.link.log == []
    ensures var told := Introduced(p, ps); Mirrors(told[0], told, [], InLobby)
  {
    var all := [p] + ps;
    IntroducedSends(p, ps);
    assert forall i | 0 <= i < |all| :: all[i] == if i == 0 then p else ps[i - 1];
    NewcomerMirrors(p, all, Introduced(p, ps));
  }

  lemma OldTimerStaysMirror(p: PlayerState, ps: seq<PlayerState>, i: nat)
    requires i < |ps| && AtStart(p) && AtStart(ps[i]) && !HasName(ps, p.username)
    requires Mirrors(ps[i], ps, [], InLobby)
    ensures var told := Introduced(p, ps); Mirrors(told[i + 1], told, [], InLobby)
  {
    IntroducedSends(p, ps);
    assert ps[i] in ps;
    OldTimerMirrors(ps[i], p, ps, Introduced(p, ps));
  }

  lemma OldTimerSock(p: PlayerState, ps: seq<PlayerState>, i: nat)
    requires i < |ps|
    ensures Introduced(p, ps)[i + 1].sock == ps[i].sock
  {
    IntroducedSends(p, ps);
    assert Introduced(p, ps)[i + 1] == Send(ps[i], GameJoin(Listed(p.username, p.color)));
  }

  lemma OldTimerInMirror(p: PlayerState, ps: seq<PlayerState>, who: iset<Sock>, i: nat)
    requires i < |ps| && AtStart(p) && AllAtStart(ps) && !HasName(ps, p.username) && AllMirror(ps, who, [], InLobby)
    requires Introduced(p, ps)[i + 1].sock in who
    ensures var told := Introduced(p, ps); Mirrors(told[i + 1], told, [], InLobby)
  {
    OldTimerSock(p, ps, i);
    OldTimerStaysMirror(p, ps, i);
  }

  lemma IntroducedMirrors(p: PlayerState, ps: seq<PlayerState>, who: iset<Sock>)
    requires Distinct([p] + ps) && !HasName(ps, p.username) && AtStart(p) && AllAtStart(ps)
    requires p.link.log == [] && AllMirror(ps, who, [], InLobby)
    ensures AllMirror(Introduced(p, ps), who, [], InLobby)
  {
    var told := Introduced(p, ps);
    WelcomedMirrors(p, ps);
    forall i | 0 < i < |told| && told[i].sock in who
      ensures Mirrors(told[i], told, [], InLobby)
    {
      OldTimerInMirror(p, ps, who, i - 1);
    }
  }

  lemma JoinedMirrors(r: RoomState, who: iset<Sock>, sock: Sock, username: string, faults: set<nat>, now: Timestamp)
    requires r.state == WaitForStart && IsColor(|r.players|) && CanJoin(r, username) && !Present(r.players, sock)
    requires Distinct(r.players) && AllAtStart(r.players) && AllMirror(r.players, who, [], InLobby)
    ensures var x := JoinPlayer(r, sock, username, faults, now);
      AllMirror(x.players, who, [], PhaseOf(x.state))
  {
    var p := NewPlayer(sock, username, |r.players|, faults, now);
    assert Distinct([p] + r.players);
    IntroducedMirrors(p, r.players, who);
    GameStartMirrors(Introduced(p, r.players), who);
  }

  /** A pass of disconnects that leaves everybody in place sent nothing. */
  lemma {:induction false} NobodyLeft(s: Sweep, i: nat, inPlay: bool, now: Timestamp)
    requires forall j | i <= j < |s.players| :: s.players[j].sock !in SweepFrom(s, i, inPlay, now).gone
    ensures SweepFrom(s, i, inPlay, now).players == s.players
    decreases |s.players| - i
  {
    if i < |s.players| {
      SweepGone(s, i, inPlay, now);
      NobodyLeft(s, i + 1, inPlay, now);
    }
  }

  lemma {:induction false} KeepsAll(ps: seq<PlayerState>, gone: seq<Sock>)
    requires |Keep(ps, gone)| == |ps|
    ensures Keep(ps, gone) == ps && forall i | 0 <= i < |ps| :: ps[i].sock !in gone
  {
    if ps != [] {
      KeepsAll(ps[1..], gone);
    }
  }

  lemma LobbyDisconnect(r: RoomState, now: Timestamp)
    requires r.players != [] && |DisconnectPlayers(r, now).room.players| == |r.players|
    ensures DisconnectPlayers(r, now).room.players == r.players
  {
    var s := Sweep(r.players, [], []);
    var t := SweepFrom(s, 0, r.state == Play, now);
    KeepsAll(t.players, t.gone);
    SweepKeeps(s, 0, r.state == Play, now);
    assert forall j | 0 <= j < |r.players| :: SameBody(r.players[j], t.players[j]);
    NobodyLeft(s, 0, r.state == Play, now);
  }

  // ----- while the room waits

  ghost const EVERYONE: iset<Sock> := iset x: Sock | true

  /** While the room waits everybody stands in its corner and, as long as nobody has
      been removed, every unmarked client agrees. */
  ghost predicate Waiting(w: World) {
    w.room.state == WaitForStart ==>
      AllAtStart(w.room.players) && (w.removedEarly == 0 ==> AllMirror(w.room.players, EVERYONE, [], InLobby))
  }

  lemma PostWaits(w: World, now: Timestamp, armed: Timestamp)
    requires Core(w) && Waiting(w)
    ensures Waiting(Post(w, now, armed))
  {
    var x := Post(w, now, armed);
    DisconnectedPeople(w.room, now);
    if x.room.state == WaitForStart {
      if x.removedEarly == 0 && w.room.players != [] {
        LobbyDisconnect(w.room, now);
      }
      forall i | 0 <= i < |x.room.players|
        ensures AtStart(x.room.players[i])
      {
        assert x.room.players[i] in x.room.players;
      }
    }
  }

  lemma HeardStaysAtStart(r: RoomState, k: nat, msg: ClientMsg, now: Timestamp)
    requires k < |r.players| && r.state == WaitForStart && AllAtStart(r.players)
    ensures AllAtStart(HandleMessage(r, k, msg, now).0.players)
  {
    var qs := HandleMessage(r, k, msg, now).0.players;
    assert forall i | 0 <= i < |qs| :: SameBody(r.players[i], qs[i]);
  }

  lemma HeardWaits(w: World, k: nat, msg: ClientMsg, now: Timestamp, armed: Timestamp)
    requires Inv(w) && Waiting(w) && k < |w.room.players|
    ensures Waiting(Heard(w, k, msg, now, armed))
  {
    var x := HandleMessage(w.room, k, msg, now).0;
    assert Heard(w, k, msg, now, armed).room == x && x.state == w.room.state;
    if w.room.state == WaitForStart {
      HeardStaysAtStart(w.room, k, msg, now);
      if w.removedEarly == 0 {
        assert Accounted(w.room.players[k], TimesOf(w.hits, w.room.players[k].sock));
        HeardMirrors(w.room, EVERYONE, k, msg, now);
      }
    }
  }

  lemma JoinedAtStart(r: RoomState, sock: Sock, username: string, faults: set<nat>, now: Timestamp)
    requires r.state == WaitForStart && IsColor(|r.players|) && AllAtStart(r.players)
    ensures AllAtStart(JoinPlayer(r, sock, username, faults, now).players)
  {
    var ps, qs := r.players, JoinPlayer(r, sock, username, faults, now).players;
    JoinedPeople(r, sock, username, faults, now);
    assert forall i | 0 <= i < |ps| :: SameBody(ps[i], qs[1..][i]) && qs[i + 1] == qs[1..][i];
  }

  lemma JoinedWaits(w: World, e: Event)
    requires Inv(w) && Waiting(w) && Enabled(w, e) && e.Join?
    ensures Waiting(Next(w, e))
  {
    JoinedKeeps(w, e.sock, e.username, e.faults, e.clock[0]);
    JoinedAtStart(w.room, e.sock, e.username, e.faults, e.clock[0]);
    if w.removedEarly == 0 {
      JoinedMirrors(w.room, EVERYONE, e.sock, e.username, e.faults, e.clock[0]);
    }
  }

  lemma HeardTwiceWaits(w: World, e: Event)
    requires Inv(w) && Waiting(w) && Enabled(w, e) && e.Hear?
    ensures Waiting(Next(w, e))
  {
    var k, clock := IndexOf(w.room.players, e.sock), e.clock;
    var heard := Heard(w, k, e.msg, clock[0], clock[1]);
    HeardKeeps(w, k, e.msg, clock[0], clock[1]);
    HeardWaits(w, k, e.msg, clock[0], clock[1]);
    PostKeeps(heard, clock[2], clock[3]);
    PostWaits(heard, clock[2], clock[3]);
    PostWaits(Post(heard, clock[2], clock[3]), clock[4], clock[5]);
  }

  lemma LostWaits(w: World, e: Event)
    requires Inv(w) && Waiting(w) && Enabled(w, e) && e.Lose?
    ensures Waiting(Next(w, e))
  {
    var k := IndexOf(w.room.players, e.sock);
    MarkedKeeps(w, k, e.clock[0]);
    if w.room.state == WaitForStart && w.removedEarly == 0 {
      MarkOne(w.room.players, EVERYONE, k, InLobby);
    }
    PostWaits(Marked(w, k, e.clock[0]), e.clock[0], e.clock[1]);
  }

  /** No timer is armed yet, so none fires. */
  lemma StepWaits(w: World, e: Event)
    requires Inv(w) && Waiting(w) && Enabled(w, e)
    ensures Waiting(Next(w, e))
  {
    match e
    case Join(_, _, _, _) => JoinedWaits(w, e);
    case Hear(_, _, _) => HeardTwiceWaits(w, e);
    case Lose(_, _) => LostWaits(w, e);
    case Fire(_, _, _) => StepMovesForward(w, e);
  }

  lemma {:induction false} RunWaits(w: World, es: seq<Event>)
    requires Inv(w) && Waiting(w) && ValidRun(w, es)
    ensures Waiting(Run(w, es))
    decreases es
  {
    if es != [] {
      StepKeeps(w, es[0]);
      StepWaits(w, es[0]);
      RunWaits(Next(w, es[0]), es[1..]);
    }
  }

  // ----- the game

  /** The clients on the sockets `who`, if unmarked, agree with a game. */
  ghost predicate Following(w: World, who: iset<Sock>) {
    AllMirror(w.room.players, who, [], Playing)
  }

  /** Who agrees as the game starts: everybody if nobody left before, else the one whose
      welcome list is the room. */
  ghost function Starters(w: World, e: Event): iset<Sock>
    requires e.Join?
  {
    if w.removedEarly == 0 then EVERYONE else iset{e.sock}
  }

  lemma StartFollows(w: World, e: Event)
    requires Inv(w) && Waiting(w) && Enabled(w, e) && e.Join? && Next(w, e).room.state == Play
    ensures Following(Next(w, e), Starters(w, e))
    ensures w.removedEarly == 0 <==> |Next(w, e).room.players| == MAX_PLAYERS
  {
    JoinedKeeps(w, e.sock, e.username, e.faults, e.clock[0]);
    JoinedMirrors(w.room, Starters(w, e), e.sock, e.username, e.faults, e.clock[0]);
  }

  lemma PostFollows(w: World, now: Timestamp, armed: Timestamp, who: iset<Sock>)
    requires Core(w) && w.room.state != WaitForStart && Following(w, who)
    ensures Following(Post(w, now, armed), who) && Post(w, now, armed).room.state != WaitForStart
  {
    DisconnectMirrors(w.room, who, now);
    DisconnectedState(w.room, now);
  }

  lemma HeardFollows(w: World, e: Event, who: iset<Sock>)
    requires Inv(w) && w.room.state != WaitForStart && Following(w, who) && Enabled(w, e) && e.Hear?
    ensures Following(Next(w, e), who)
  {
    var k, clock := IndexOf(w.room.players, e.sock), e.clock;
    var heard := Heard(w, k, e.msg, clock[0], clock[1]);
    assert Accounted(w.room.players[k], TimesOf(w.hits, w.room.players[k].sock));
    HeardKeeps(w, k, e.msg, clock[0], clock[1]);
    HeardMirrors(w.room, who, k, e.msg, clock[0]);
    PostKeeps(heard, clock[2], clock[3]);
    PostFollows(heard, clock[2], clock[3], who);
    PostFollows(Post(heard, clock[2], clock[3]), clock[4], clock[5], who);
  }

  lemma FiredFollows(w: World, e: Event, who: iset<Sock>)
    requires Inv(w) && w.room.state != WaitForStart && Following(w, who) && Enabled(w, e) && e.Fire?
    ensures Following(Next(w, e), who)
  {
    FiredKeeps(w, e.timer, e.draw, e.clock[0]);
    FiredMirrors(w.room, who, e.draw, e.clock[0]);
    FiredMovesForward(w, e.timer, e.draw, e.clock[0]);
    PostFollows(Fired(w, e.timer, e.draw, e.clock[0]), e.clock[1], e.clock[2], who);
  }

  lemma LostFollows(w: World, e: Event, who: iset<Sock>)
    requires Inv(w) && w.room.state != WaitForStart && Following(w, who) && Enabled(w, e) && e.Lose?
    ensures Following(Next(w, e), who)
  {
    var k := IndexOf(w.room.players, e.sock);
    MarkedKeeps(w, k, e.clock[0]);
    MarkOne(w.room.players, who, k, Playing);
    PostFollows(Marked(w, k, e.clock[0]), e.clock[0], e.clock[1], who);
  }

  lemma StepFollows(w: World, e: Event, who: iset<Sock>)
    requires Inv(w) && w.room.state != WaitForStart && Following(w, who) && Enabled(w, e)
    ensures Following(Next(w, e), who) && Next(w, e).room.state != WaitForStart
  {
    StepMovesForward(w, e);
    match e
    case Hear(_, _, _) => HeardFollows(w, e, who);
    case Lose(_, _) => LostFollows(w, e, who);
    case Fire(_, _, _) => FiredFollows(w, e, who);
  }

  lemma {:induction false} RunFollows(w: World, es: seq<Event>, who: iset<Sock>)
    requires Inv(w) && w.room.state != WaitForStart && Following(w, who) && ValidRun(w, es)
    ensures Following(Run(w, es), who)
    decreases es
  {
    if es != [] {
      StepKeeps(w, es[0]);
      StepFollows(w, es[0], who);
      RunFollows(Next(w, es[0]), es[1..], who);
    }
  }
}
