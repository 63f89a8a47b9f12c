/** The clients' rosters agree with the server's room. */
module Mirror {
  import opened Grid
  import opened Messages
  import opened MoveGuard
  import opened RoomSpec
  import opened RoomFacts
  import opened Client

  // ----- agreement

  function ShownAs(p: PlayerState): Boomberman {
    Boomberman(p.username, p.guard.coords, p.livesRemaining)
  }

  /** `e` is how some player alive in the room, and not on its way out, should be shown. */
  ghost predicate Standing(ps: seq<PlayerState>, gone: seq<Sock>, e: Boomberman) {
    exists i :: 0 <= i < |ps| && ps[i].livesRemaining > 0 && ps[i].sock !in gone && ShownAs(ps[i]) == e
  }

  ghost predicate NamesDiffer(players: seq<Boomberman>) {
    forall i, j :: 0 <= i < j < |players| ==> players[i].name != players[j].name
  }

  /** Apart from its own entry a client shows exactly the players still alive, where
      the server has them and with the lives the server gives them. */
  ghost predicate Agrees(players: seq<Boomberman>, ps: seq<PlayerState>, gone: seq<Sock>, me: string) {
    NamesDiffer(players) && forall e: Boomberman | e.name != me :: e in players <==> Standing(ps, gone, e)
  }

  /** Its own entry comes first and has the lives the server gives it. */
  ghost predicate OwnFirst(players: seq<Boomberman>, me: PlayerState) {
    me.livesRemaining > 0 ==>
      players != [] && players[0].name == me.username && players[0].health == me.livesRemaining
  }

  /** An entry of the client's own, if it comes first, stays as it is. */
  ghost predicate OwnKept(players: seq<Boomberman>, qs: seq<Boomberman>, me: string) {
    players != [] && players[0].name == me ==> qs != [] && qs[0] == players[0]
  }

  /** Whenever a correction was processed in the game, entry 0 was the client's own. */
  ghost predicate CorrectionsHitSelf(log: seq<ServerMsg>, me: string) {
    forall n :: 0 <= n < |log| && log[n].MovementCorrection? && ClientOf(log[..n]).phase == Playing ==>
      ClientOf(log[..n]).players != [] && ClientOf(log[..n]).players[0].name == me
  }

  /** What an unmarked player's client, if not stuck on the error screen, has made of
      everything sent to it. */
  ghost predicate Mirrors(p: PlayerState, ps: seq<PlayerState>, gone: seq<Sock>, phase: Phase) {
    !p.marked ==>
      && CorrectionsHitSelf(p.link.log, p.username)
      && var c := ClientOf(p.link.log);
         c.phase != Halted ==>
           && c.phase == phase
           && Agrees(c.players, ps, gone, p.username)
           && OwnFirst(c.players, p)
  }

  /** ... for the clients on the sockets `who`. */
  ghost predicate AllMirror(ps: seq<PlayerState>, who: iset<Sock>, gone: seq<Sock>, phase: Phase) {
    forall i :: 0 <= i < |ps| && ps[i].sock in who ==> Mirrors(ps[i], ps, gone, phase)
  }

  // ----- what a message does to a roster

  /** `qs` is `players` with the entry of that name, if any, replaced by `e`. */
  ghost predicate ReplacedBy(players: seq<Boomberman>, qs: seq<Boomberman>, username: string, e: Boomberman) {
    && e.name == username
    && (forall x :: x in qs <==> x == e || (x in players && x.name != username))
    && |qs| == |players| && forall i :: 0 <= i < |qs| ==> qs[i].name == players[i].name
  }

  ghost predicate RemovedFrom(players: seq<Boomberman>, qs: seq<Boomberman>, username: string) {
    && (forall x :: x in qs <==> x in players && x.name != username)
    && NamesDiffer(qs)
    && (players != [] && players[0].name != username ==> qs != [] && qs[0] == players[0])
  }

  lemma FindsTheOne(players: seq<Boomberman>, e: Boomberman)
    requires NamesDiffer(players) && e in players
    ensures var i := FindPlayer(players, e.name); i < |players| && players[i] == e
  {
    var j :| 0 <= j < |players| && players[j] == e;
  }

  lemma ReplaceOne(players: seq<Boomberman>, i: nat, e: Boomberman)
    requires NamesDiffer(players) && i < |players| && e.name == players[i].name
    ensures ReplacedBy(players, players[i := e], e.name, e)
  {
    var qs := players[i := e];
    assert qs[i] == e;
    forall x
      ensures x in qs <==> x == e || (x in players && x.name != e.name)
    {
      if x in players && x.name != e.name {
        var j :| 0 <= j < |players| && players[j] == x;
        assert qs[j] == x;
      }
    }
  }

  lemma EraseOne(players: seq<Boomberman>, i: nat)
    requires NamesDiffer(players) && i < |players|
    ensures RemovedFrom(players, Erase(players, i), players[i].name)
  {
    var qs := Erase(players, i);
    forall x
      ensures x in qs <==> x in players && x.name != players[i].name
    {
      if x in players && x.name != players[i].name {
        var j :| 0 <= j < |players| && players[j] == x;
        assert qs[if j < i then j else j - 1] == x;
      }
      if x in qs {
        var j :| 0 <= j < |qs| && qs[j] == x;
        assert x == players[if j < i then j else j + 1];
      }
    }
  }

  // ----- the room changes one player and tells everybody else

  /** Standing depends on bodies only. */
  lemma StandingSame(ps: seq<PlayerState>, qs: seq<PlayerState>, gone: seq<Sock>)
    requires |ps| == |qs|
    requires forall i :: 0 <= i < |ps| ==>
      && qs[i].sock == ps[i].sock && qs[i].username == ps[i].username
      && qs[i].livesRemaining == ps[i].livesRemaining && qs[i].guard.coords == ps[i].guard.coords
    ensures forall e :: Standing(ps, gone, e) <==> Standing(qs, gone, e)
  {
    forall e
      ensures Standing(ps, gone, e) <==> Standing(qs, gone, e)
    {
      if Standing(ps, gone, e) {
        var i :| 0 <= i < |ps| && ps[i].livesRemaining > 0 && ps[i].sock !in gone && ShownAs(ps[i]) == e;
        assert ShownAs(qs[i]) == e;
      }
      if Standing(qs, gone, e) {
        var i :| 0 <= i < |qs| && qs[i].livesRemaining > 0 && qs[i].sock !in gone && ShownAs(qs[i]) == e;
        assert ShownAs(ps[i]) == e;
      }
    }
  }

  /** The room with player `k` replaced: only entries of its name are affected. */
  lemma StandingAfter(ps: seq<PlayerState>, k: nat, p: PlayerState, gone: seq<Sock>)
    requires Distinct(ps) && k < |ps| && p.username == ps[k].username && p.sock == ps[k].sock
    ensures forall e :: Standing(ps[k := p], gone, e) <==>
      if e.name == p.username then p.livesRemaining > 0 && p.sock !in gone && e == ShownAs(p) else Standing(ps, gone, e)
  {
    var qs := ps[k := p];
    forall e
      ensures Standing(qs, gone, e) <==>
        if e.name == p.username then p.livesRemaining > 0 && p.sock !in gone &&
          e == ShownAs(p) else Standing(ps, gone, e)
    {
      if Standing(qs, gone, e) {
        var i :| 0 <= i < |qs| && qs[i].livesRemaining > 0 && qs[i].sock !in gone && ShownAs(qs[i]) == e;
        assert i != k ==> qs[i] == ps[i] && ps[i].username != p.username;
      }
      if e.name != p.username && Standing(ps, gone, e) {
        var i :| 0 <= i < |ps| && ps[i].livesRemaining > 0 && ps[i].sock !in gone && ShownAs(ps[i]) == e;
        assert qs[i] == ps[i];
      }
      if e == ShownAs(p) && p.livesRemaining > 0 && p.sock !in gone {
        assert qs[k] == p;
      }
    }
  }

  /** A player on its way out is not standing any more. */
  lemma StandingWithout(ps: seq<PlayerState>, k: nat, gone: seq<Sock>)
    requires Distinct(ps) && k < |ps|
    ensures forall e :: Standing(ps, gone + [ps[k].sock], e) <==> Standing(ps, gone, e) && e.name != ps[k].username
  {
    forall e
      ensures Standing(ps, gone + [ps[k].sock], e) <==> Standing(ps, gone, e) && e.name != ps[k].username
    {
      if Standing(ps, gone + [ps[k].sock], e) {
        var i :| 0 <= i < |ps| && ps[i].livesRemaining > 0 && ps[i].sock !in gone + [ps[k].sock] && ShownAs(ps[i]) == e;
        assert i != k;
      }
      if Standing(ps, gone, e) && e.name != ps[k].username {
        var i :| 0 <= i < |ps| && ps[i].livesRemaining > 0 && ps[i].sock !in gone && ShownAs(ps[i]) == e;
        assert i != k;
      }
    }
  }

  // ----- clients keep up

  /** Somebody else moved. */
  lemma AgreesAfterMove(c: ClientState, ps: seq<PlayerState>, k: nat, guard: Guard, me: string)
    requires Distinct(ps) && k < |ps| && ps[k].livesRemaining > 0 && ps[k].username != me && ps[k].username != ""
    requires Agrees(c.players, ps, [], me)
    ensures var d := HandleInGame(c, OtherMove(ps[k].username, guard.coords));
      && Agrees(d.players, ps[k := ps[k].(guard := guard)], [], me)
      && OwnKept(c.players, d.players, me)
  {
    var e := ShownAs(ps[k]);
    assert Standing(ps, [], e);
    FindsTheOne(c.players, e);
    var i := FindPlayer(c.players, e.name);
    ReplaceOne(c.players, i, e.(pos := guard.coords));
    StandingAfter(ps, k, ps[k].(guard := guard), []);
  }

  /** Somebody, perhaps the client itself, was hit. */
  lemma AgreesAfterHit(c: ClientState, ps: seq<PlayerState>, k: nat, me: string, now: Timestamp)
    requires Distinct(ps) && k < |ps| && ps[k].livesRemaining > 0 && ps[k].username != me
    requires Agrees(c.players, ps, [], me)
    ensures var d := HandleInGame(c, GotHit(ps[k].username, ps[k].livesRemaining - 1, now));
      && Agrees(d.players, ps[k := Hurt(ps[k], now)], [], me)
      && OwnKept(c.players, d.players, me)
  {
    var e := ShownAs(ps[k]);
    assert Standing(ps, [], e);
    FindsTheOne(c.players, e);
    var i := FindPlayer(c.players, e.name);
    if ps[k].livesRemaining == 1 {
      EraseOne(c.players, i);
    } else {
      ReplaceOne(c.players, i, e.(health := e.health - 1));
    }
    StandingAfter(ps, k, Hurt(ps[k], now), []);
  }

  lemma AgreesAfterOwnHit(c: ClientState, ps: seq<PlayerState>, k: nat, now: Timestamp)
    requires Distinct(ps) && k < |ps| && ps[k].livesRemaining > 0
    requires Agrees(c.players, ps, [], ps[k].username) && OwnFirst(c.players, ps[k])
    ensures var d := HandleInGame(c, GotHit(ps[k].username, ps[k].livesRemaining - 1, now));
      && Agrees(d.players, ps[k := Hurt(ps[k], now)], [], ps[k].username)
      && OwnFirst(d.players, Hurt(ps[k], now))
  {
    assert FindPlayer(c.players, ps[k].username) == 0;
    if ps[k].livesRemaining == 1 {
      EraseOne(c.players, 0);
    } else {
      ReplaceOne(c.players, 0, c.players[0].(health := c.players[0].health - 1));
    }
    StandingAfter(ps, k, Hurt(ps[k], now), []);
  }

  /** Somebody else is leaving. */
  lemma AgreesAfterLeave(c: ClientState, ps: seq<PlayerState>, k: nat, gone: seq<Sock>, me: string)
    requires Distinct(ps) && k < |ps| && ps[k].username != me
    requires Agrees(c.players, ps, gone, me)
    ensures var d := HandleInGame(c, OtherLeave(ps[k].username));
      && Agrees(d.players, ps, gone + [ps[k].sock], me)
      && OwnKept(c.players, d.players, me)
  {
    var i := FindPlayer(c.players, ps[k].username);
    if i < |c.players| {
      EraseOne(c.players, i);
    }
    StandingWithout(ps, k, gone);
  }

  /** The client itself is corrected: its own entry comes first. */
  lemma AgreesAfterCorrection(c: ClientState, ps: seq<PlayerState>, gone: seq<Sock>, me: string, to: Tile)
    requires Agrees(c.players, ps, gone, me) && c.players != [] && c.players[0].name == me
    ensures var d := HandleInGame(c, MovementCorrection(to));
      Agrees(d.players, ps, gone, me) && d.players != [] && d.players[0] == c.players[0].(pos := to)
  {
    ReplaceOne(c.players, 0, c.players[0].(pos := to));
  }
}
