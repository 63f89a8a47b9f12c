/** What the room's operations do to its player list. */
module RoomFacts {
  import opened Grid
  import opened Blast
  import opened Messages
  import opened RoomSpec

  /** `q` is `p` after some sends: only the mark, never taken back, and the link differ. */
  ghost predicate SameBody(p: PlayerState, q: PlayerState) {
    q == p.(marked := q.marked, link := q.link) && (p.marked ==> q.marked)
  }

  ghost predicate Kept(ps: seq<PlayerState>, qs: seq<PlayerState>) {
    |qs| == |ps| && forall i :: 0 <= i < |ps| ==> SameBody(ps[i], qs[i])
  }

  /** `q` is the same person as `p`, however it fared since. */
  ghost predicate SamePerson(p: PlayerState, q: PlayerState) {
    && q.sock == p.sock && q.username == p.username && q.color == p.color
    && q.livesRemaining <= p.livesRemaining
    && (p.marked ==> q.marked)
  }

  ghost predicate SamePeople(ps: seq<PlayerState>, qs: seq<PlayerState>) {
    |qs| == |ps| && forall i :: 0 <= i < |ps| ==> SamePerson(ps[i], qs[i])
  }

  /** Sockets and usernames tell players apart. */
  ghost predicate Distinct(ps: seq<PlayerState>) {
    forall i, j :: 0 <= i < j < |ps| ==> ps[i].sock != ps[j].sock && ps[i].username != ps[j].username
  }

  predicate Present(ps: seq<PlayerState>, sock: Sock) {
    exists i :: 0 <= i < |ps| && ps[i].sock == sock
  }

  function IndexOf(ps: seq<PlayerState>, sock: Sock): (k: nat)
    requires Present(ps, sock)
    ensures k < |ps| && ps[k].sock == sock
  {
    if ps[0].sock == sock then 0
    else
      assert Present(ps[1..], sock) by {
        var i :| 0 <= i < |ps| && ps[i].sock == sock;
        assert ps[1..][i - 1] == ps[i];
      }
      1 + IndexOf(ps[1..], sock)
  }

  /** What a join sends to the player who is number `i` after it. */
  ghost function JoinMessage(r: RoomState, p: PlayerState, i: nat): ServerMsg {
    if i == 0 then WelcomeToRoom(Listing([p] + r.players)) else GameJoin(Listed(p.username, p.color))
  }

  lemma SentExcept(ps: seq<PlayerState>, k: int, m: ServerMsg, j: nat)
    requires j < |ps|
    ensures SendExcept(ps, k, m)[j] == if j == k then ps[j] else Send(ps[j], m)
  {
  }

  lemma SentToAll(ps: seq<PlayerState>, m: ServerMsg, j: nat)
    requires j < |ps|
    ensures Broadcast(ps, m)[j] == Send(ps[j], m)
  {
  }

  /** A join tells everybody else, and everybody of the start if it is time. */
  lemma JoinedAt(r: RoomState, sock: Sock, username: string, faults: set<nat>, now: Timestamp, i: nat)
    requires r.state == WaitForStart && IsColor(|r.players|) && i <= |r.players|
    ensures var told := Introduced(NewPlayer(sock, username, |r.players|, faults, now), r.players);
      var x := JoinPlayer(r, sock, username, faults, now);
      && |x.players| == |r.players| + 1 && x.clientCount == r.clientCount + 1
      && (x.state == Play <==> x.clientCount == MAX_PLAYERS)
      && x.players[i] == if x.state == Play then Send(told[i], GameStart) else told[i]
  {
    SentToAll(Introduced(NewPlayer(sock, username, |r.players|, faults, now), r.players), GameStart, i);
  }

  lemma SentToOne(ps: seq<PlayerState>, k: nat, m: ServerMsg, j: nat)
    requires k < |ps| && j < |ps|
    ensures SendOne(ps, k, m)[j] == if j == k then Send(ps[j], m) else ps[j]
  {
  }

  lemma IntroducedAt(p: PlayerState, ps: seq<PlayerState>, i: nat)
    requires i <= |ps|
    ensures Introduced(p, ps)[i] ==
      if i == 0 then Send(p, WelcomeToRoom(Listing([p] + ps)))
      else Send(ps[i - 1], GameJoin(Listed(p.username, p.color)))
  {
    var all := [p] + ps;
    var welcome := WelcomeToRoom(Listing(all));
    SentToOne(all, 0, welcome, i);
    SentExcept(SendOne(all, 0, welcome), 0, GameJoin(Listed(p.username, p.color)), i);
    assert all[i] == if i == 0 then p else ps[i - 1];
  }

  lemma JoinSends(r: RoomState, sock: Sock, username: string, faults: set<nat>, now: Timestamp, i: nat)
    requires r.state == WaitForStart && IsColor(|r.players|) && i <= |r.players|
    ensures var p := NewPlayer(sock, username, |r.players|, faults, now);
      var x := JoinPlayer(r, sock, username, faults, now);
      var q := Send(if i == 0 then p else r.players[i - 1], JoinMessage(r, p, i));
      && |x.players| == |r.players| + 1
      && (x.state == Play <==> x.clientCount == MAX_PLAYERS)
      && x.players[i] == if x.state == Play then Send(q, GameStart) else q
  {
    var p := NewPlayer(sock, username, |r.players|, faults, now);
    JoinedAt(r, sock, username, faults, now, i);
    IntroducedAt(p, r.players, i);
  }

  /** What it sends to player `i`, who was there before. */
  lemma OldTimerIsSent(r: RoomState, sock: Sock, username: string, faults: set<nat>, now: Timestamp, i: nat)
    requires r.state == WaitForStart && IsColor(|r.players|) && i < |r.players|
    ensures var x := JoinPlayer(r, sock, username, faults, now);
      var q := Send(r.players[i], GameJoin(Listed(username, |r.players|)));
      && |x.players| == |r.players| + 1 && x.clientCount == r.clientCount + 1
      && (x.state == Play <==> x.clientCount == MAX_PLAYERS)
      && x.players[i + 1] == if x.state == Play then Send(q, GameStart) else q
  {
    JoinedAt(r, sock, username, faults, now, i + 1);
    IntroducedAt(NewPlayer(sock, username, |r.players|, faults, now), r.players, i + 1);
  }

  lemma HandleMessageKeepsPeople(r: RoomState, k: nat, msg: ClientMsg, now: Timestamp)
    requires k < |r.players|
    ensures var qs := HandleMessage(r, k, msg, now).0.players;
      && SamePeople(r.players, qs)
      && forall i | 0 <= i < |qs| ::
        qs[i] == r.players[i].(marked := qs[i].marked, link := qs[i].link, guard := qs[i].guard)
  {
    if msg.IMove? {
      MoveKeepsPeople(r, k, msg.to, now);
    }
  }

  lemma MoveKeepsPeople(r: RoomState, k: nat, to: Tile, now: Timestamp)
    requires k < |r.players|
    ensures var qs := MoveTo(r, k, to, now).players;
      && SamePeople(r.players, qs)
      && forall i | 0 <= i < |qs| ::
        qs[i] == r.players[i].(marked := qs[i].marked, link := qs[i].link, guard := qs[i].guard)
  {
  }

  // ----- explosions

  /** The outcome for one player, sends aside. */
  ghost predicate BlastedBody(p: PlayerState, q: PlayerState, lit: iset<Tile>, now: Timestamp) {
    SameBody(if Hit(p, lit, now) then Hurt(p, now) else p, q)
  }

  lemma {:induction false} BlastedBodies(ps: seq<PlayerState>, i: nat, lit: iset<Tile>, now: Timestamp)
    ensures var qs := Blasted(ps, i, lit, now);
      && (forall j | 0 <= j < |ps| && j < i :: SameBody(ps[j], qs[j]))
      && (forall j | i <= j < |ps| :: BlastedBody(ps[j], qs[j], lit, now))
    decreases |ps| - i
  {
    if i < |ps| {
      var hurt := if Hit(ps[i], lit, now) then HurtAndTell(ps, i, now) else ps;
      var qs := Blasted(ps, i, lit, now);
      HurtBodies(ps, i, now);
      BlastedBodies(hurt, i + 1, lit, now);
      assert SameBody(hurt[i], qs[i]);
      forall j | 0 <= j < |ps| && j != i
        ensures if j < i then SameBody(ps[j], qs[j]) else BlastedBody(ps[j], qs[j], lit, now)
      {
        assert SameBody(ps[j], hurt[j]);
        assert j < i ==> SameBody(hurt[j], qs[j]);
      }
    }
  }

  lemma HurtBodies(ps: seq<PlayerState>, i: nat, now: Timestamp)
    requires i < |ps|
    ensures forall j | 0 <= j < |ps| ::
      SameBody(if j == i then Hurt(ps[i], now) else ps[j], HurtAndTell(ps, i, now)[j])
  {
  }

  // ----- disconnects

  lemma {:induction false} KeepMembers(ps: seq<PlayerState>, gone: seq<Sock>)
    ensures forall p :: p in Keep(ps, gone) <==> p in ps && p.sock !in gone
  {
    if ps != [] {
      KeepMembers(ps[1..], gone);
      assert ps == [ps[0]] + ps[1..];
    }
  }

  lemma {:induction false} KeepDistinct(ps: seq<PlayerState>, gone: seq<Sock>)
    requires Distinct(ps)
    ensures Distinct(Keep(ps, gone))
  {
    if ps != [] {
      var rest := Keep(ps[1..], gone);
      KeepDistinct(ps[1..], gone);
      KeepMembers(ps[1..], gone);
      forall q | q in rest
        ensures q.sock != ps[0].sock && q.username != ps[0].username
      {
        assert q in ps[1..];
        var j :| 0 <= j < |ps[1..]| && ps[1..][j] == q;
        assert ps[j + 1] == q;
      }
    }
  }

  ghost function Socks(ps: seq<PlayerState>): set<Sock> {
    set p | p in ps :: p.sock
  }

  ghost predicate NoRepeats(s: seq<Sock>) {
    forall i, j :: 0 <= i < j < |s| ==> s[i] != s[j]
  }

  // The first pass of `DisconnectPlayers`, from player `i` on.

  function SweepStep(s: Sweep, i: nat, inPlay: bool, now: Timestamp): Sweep
    requires i < |s.players|
  {
    if s.players[i].marked then Evict(s, i, inPlay, now) else s
  }

  lemma {:induction false} SweepKeeps(s: Sweep, i: nat, inPlay: bool, now: Timestamp)
    ensures Kept(s.players, SweepFrom(s, i, inPlay, now).players)
    decreases |s.players| - i
  {
    if i < |s.players| {
      SweepKeeps(SweepStep(s, i, inPlay, now), i + 1, inPlay, now);
    }
  }

  /** Who goes: everyone marked beforehand, and only players marked by the end. */
  lemma {:induction false} SweepGone(s: Sweep, i: nat, inPlay: bool, now: Timestamp)
    ensures var t := SweepFrom(s, i, inPlay, now);
      && (forall x | x in t.gone ::
            x in s.gone || exists j :: i <= j < |t.players| && t.players[j].sock == x && t.players[j].marked)
      && (forall x | x in s.gone :: x in t.gone)
      && (forall j | i <= j < |s.players| && s.players[j].marked :: s.players[j].sock in t.gone)
    decreases |s.players| - i
  {
    if i < |s.players| {
      var u := SweepStep(s, i, inPlay, now);
      var t := SweepFrom(u, i + 1, inPlay, now);
      SweepGone(u, i + 1, inPlay, now);
      SweepKeeps(u, i + 1, inPlay, now);
      assert SameBody(u.players[i], t.players[i]) && u.players[i] == s.players[i];
      assert s.players[i].marked ==> u.gone == s.gone + [s.players[i].sock];
      forall j | i <= j < |s.players| && s.players[j].marked
        ensures s.players[j].sock in t.gone
      {
        if i < j {
          assert u.players[j].marked && u.players[j].sock == s.players[j].sock;
        } else {
          assert s.players[i].sock in u.gone;
        }
      }
    }
  }

  lemma {:induction false} SweepNoRepeats(s: Sweep, i: nat, inPlay: bool, now: Timestamp)
    requires Distinct(s.players) && NoRepeats(s.gone)
    requires forall j | i <= j < |s.players| :: s.players[j].sock !in s.gone
    ensures NoRepeats(SweepFrom(s, i, inPlay, now).gone)
    decreases |s.players| - i
  {
    if i < |s.players| {
      SweepNoRepeats(SweepStep(s, i, inPlay, now), i + 1, inPlay, now);
    }
  }

  /** What is dropped: atomic bombs where players of the room stand, in play only. */
  lemma {:induction false} SweepDropped(s: Sweep, i: nat, inPlay: bool, now: Timestamp)
    ensures var t := SweepFrom(s, i, inPlay, now);
      && (forall b | b in t.dropped :: b in s.dropped || (inPlay
            && exists j :: i <= j < |s.players| && b == Bomb(s.players[j].guard.coords, 9, now, true)))
      && (!inPlay ==> t.dropped == s.dropped)
    decreases |s.players| - i
  {
    if i < |s.players| {
      var u := SweepStep(s, i, inPlay, now);
      SweepDropped(u, i + 1, inPlay, now);
      assert forall j | 0 <= j < |s.players| :: u.players[j].guard == s.players[j].guard;
      assert forall b | b in u.dropped ::
        b in s.dropped || (inPlay && b == Bomb(s.players[i].guard.coords, 9, now, true));
    }
  }
}
