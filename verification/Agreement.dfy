/** Mirror agreement: which clients agree with the room as the game starts, and that
    those go on agreeing. */
module Agreement {
  import opened Messages
  import opened RoomSpec
  import opened RoomRun
  import opened RoomInvariants
  import opened RoomTheorems
  import opened Client
  import opened Mirror
  import opened MirrorRuns
  import opened LobbyRoster

  /** A roster as long as the room has ever been agrees only with a room nobody left. */
  lemma LongRosterFits(ps: seq<PlayerState>, i: nat)
    requires i < |ps| && |ps| < |ClientOf(ps[i].link.log).players|
    ensures !Agrees(ClientOf(ps[i].link.log).players, ps, [], ps[i].username)
  {
    var c := ClientOf(ps[i].link.log);
    if Agrees(c.players, ps, [], ps[i].username) {
      AgreeingRosterFits(c.players, ps, ps[i]);
    }
  }

  lemma NewcomerComesFirst(w: World, e: Event)
    requires Inv(w) && Enabled(w, e) && e.Join?
    ensures |Next(w, e).room.players| > 0 && Next(w, e).room.players[0].sock == e.sock
  {
    JoinedKeeps(w, e.sock, e.username, e.faults, e.clock[0]);
  }

  lemma StarterMirrors(w: World, e: Event, i: nat)
    requires Inv(w) && Waiting(w) && Enabled(w, e) && e.Join? && Next(w, e).room.state == Play
    requires i < |Next(w, e).room.players| && (i == 0 || |Next(w, e).room.players| == 4)
    ensures var ps := Next(w, e).room.players; ps[i].sock in Starters(w, e) && Mirrors(ps[i], ps, [], Playing)
  {
    StartFollows(w, e);
    NewcomerComesFirst(w, e);
  }

  lemma ShortRoomIsOutnumbered(w: World, e: Event, i: nat)
    requires Inv(w) && Remembered(w) && Enabled(w, e) && e.Join? && Next(w, e).room.state == Play
    requires 0 < i < |Next(w, e).room.players| != 4 && !Next(w, e).room.players[i].marked
    requires ClientOf(Next(w, e).room.players[i].link.log).phase != Halted
    ensures var ps := Next(w, e).room.players; |ps| < |ClientOf(ps[i].link.log).players|
  {
    JoinedKeeps(w, e.sock, e.username, e.faults, e.clock[0]);
    OldTimersCountOn(w, e.sock, e.username, e.faults, e.clock[0], i - 1);
  }

  /** Connected, and not stuck on the error screen. */
  ghost predicate InTouch(p: PlayerState) {
    !p.marked && ClientOf(p.link.log).phase != Halted
  }

  /** Player `i` of a room is in touch and agrees with it. */
  ghost predicate AgreesNow(w: World, i: nat)
    requires i < |w.room.players|
  {
    var p := w.room.players[i];
    && InTouch(p)
    && Agrees(ClientOf(p.link.log).players, w.room.players, [], p.username)
  }

  /** As the game starts the last to join agrees with the room however many left before,
      and those who had been waiting agree if and only if nobody left, that is, if four
      players start. */
  lemma AgreementAtGameStart(w: World, e: Event, i: nat)
    requires Reachable(w) && Enabled(w, e) && e.Join? && Next(w, e).room.state == Play
    requires i < |Next(w, e).room.players| && InTouch(Next(w, e).room.players[i])
    ensures AgreesNow(Next(w, e), i) <==> i == 0 || |Next(w, e).room.players| == 4
  {
    ReachableRemembers(w);
    if i == 0 || |Next(w, e).room.players| == 4 {
      StarterMirrors(w, e, i);
    } else {
      ShortRoomIsOutnumbered(w, e, i);
      LongRosterFits(Next(w, e).room.players, i);
    }
  }

  /** Who agreed as the game started agrees from then on. */
  lemma StartersFollowOn(w: World, e: Event, i: nat, es: seq<Event>)
    requires Reachable(w) && Enabled(w, e) && e.Join? && Next(w, e).room.state == Play
    requires i < |Next(w, e).room.players| && AgreesNow(Next(w, e), i) && ValidRun(Next(w, e), es)
    ensures Next(w, e).room.players[i].sock in Starters(w, e) && Following(Run(Next(w, e), es), Starters(w, e))
  {
    ReachableRemembers(w);
    AgreementAtGameStart(w, e, i);
    StarterMirrors(w, e, i);
    StartFollows(w, e);
    StepKeeps(w, e);
    RunFollows(Next(w, e), es, Starters(w, e));
  }

  lemma FollowersAgree(w: World, who: iset<Sock>, p: PlayerState)
    requires Following(w, who) && p in w.room.players && p.sock in who && InTouch(p)
    ensures var c := ClientOf(p.link.log);
      && c.phase == Playing && Agrees(c.players, w.room.players, [], p.username)
      && OwnFirst(c.players, p) && CorrectionsHitSelf(p.link.log, p.username)
  {
    var j :| 0 <= j < |w.room.players| && w.room.players[j] == p;
    assert Mirrors(w.room.players[j], w.room.players, [], Playing);
  }

  /** Mirror agreement. Over every run in play from the start of the game, a client that
      agreed as the game started (the last to join always, the others if and only if
      four players started) and that is unmarked, not stuck on the error screen and has
      processed its messages in order, shows of the others exactly the players still
      alive, each where the server has it and with the lives the server gives it; its
      own entry comes first, with its own lives, as long as it lives; and every correction
      it was ever sent landed on its own entry. */
  lemma MirrorAgreement(w: World, e: Event, i: nat, es: seq<Event>, j: nat)
    requires Reachable(w) && Enabled(w, e) && e.Join? && Next(w, e).room.state == Play
    requires i < |Next(w, e).room.players| && AgreesNow(Next(w, e), i)
    requires ValidRun(Next(w, e), es) && Run(Next(w, e), es).room.state == Play
    requires j < |Run(Next(w, e), es).room.players|
    requires var p := Run(Next(w, e), es).room.players[j]; p.sock == Next(w, e).room.players[i].sock && InTouch(p)
    ensures var v := Run(Next(w, e), es);
      var p := v.room.players[j];
      var c := ClientOf(p.link.log);
      && c.phase == Playing
      && Agrees(c.players, v.room.players, [], p.username)
      && OwnFirst(c.players, p)
      && CorrectionsHitSelf(p.link.log, p.username)
  {
    StartersFollowOn(w, e, i, es);
    FollowersAgree(Run(Next(w, e), es), Starters(w, e), Run(Next(w, e), es).room.players[j]);
  }
}
