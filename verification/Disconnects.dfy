/** What one call of `DisconnectPlayers` amounts to. */
module Disconnects {
  import opened Blast
  import opened Messages
  import opened RoomSpec
  import opened RoomFacts

  /** Player `j` carries a mark when the pass, now at player `i`, gets to it: it was
      marked before, or a notice about an earlier leaver failed to reach it. */
  predicate MarkedAtVisit(s: Sweep, i: nat, j: nat, inPlay: bool, now: Timestamp)
    requires i <= j < |s.players|
    decreases j - i
  {
    if i == j then s.players[j].marked else MarkedAtVisit(SweepStep(s, i, inPlay, now), i + 1, j, inPlay, now)
  }

  /** The pass takes exactly the players marked when visited. */
  lemma {:induction false} SweepTakesTheMarked(s: Sweep, i: nat, j: nat, inPlay: bool, now: Timestamp)
    requires Distinct(s.players) && i <= j < |s.players| && s.players[j].sock !in s.gone
    ensures s.players[j].sock in SweepFrom(s, i, inPlay, now).gone <==> MarkedAtVisit(s, i, j, inPlay, now)
    decreases j - i
  {
    var u := SweepStep(s, i, inPlay, now);
    StepFacts(s, i, inPlay, now);
    if i < j {
      assert s.players[i].sock != s.players[j].sock;
      SweepTakesTheMarked(u, i + 1, j, inPlay, now);
    } else if s.players[i].marked {
      SweepGone(u, i + 1, inPlay, now);
      assert s.players[i].sock in u.gone;
    } else {
      NotTakenLater(u, i + 1, s.players[i].sock, inPlay, now);
    }
  }

  lemma StepFacts(s: Sweep, i: nat, inPlay: bool, now: Timestamp)
    requires Distinct(s.players) && i < |s.players|
    ensures var u := SweepStep(s, i, inPlay, now);
      && Kept(s.players, u.players) && Distinct(u.players)
      && u.gone == s.gone + if s.players[i].marked then [s.players[i].sock] else []
  {
  }

  lemma NotTakenLater(s: Sweep, i: nat, sock: Sock, inPlay: bool, now: Timestamp)
    requires sock !in s.gone && forall k | i <= k < |s.players| :: s.players[k].sock != sock
    ensures sock !in SweepFrom(s, i, inPlay, now).gone
  {
    var t := SweepFrom(s, i, inPlay, now);
    SweepGone(s, i, inPlay, now);
    SweepKeeps(s, i, inPlay, now);
    assert forall k | i <= k < |t.players| :: SameBody(s.players[k], t.players[k]);
  }

  function Debt(p: PlayerState, inPlay: bool, now: Timestamp): seq<Bomb> {
    if DropsBomb(p, inPlay) then [Bomb(p.guard.coords, 9, now, true)] else []
  }

  /** The atomic bombs owed for the players `gone`, in the order they go. */
  function Debts(ps: seq<PlayerState>, gone: seq<Sock>, inPlay: bool, now: Timestamp): seq<Bomb>
    decreases |gone|
  {
    if gone == [] then []
    else
      var n := |gone| - 1;
      Debts(ps, gone[..n], inPlay, now) +
      if Present(ps, gone[n]) then Debt(ps[IndexOf(ps, gone[n])], inPlay, now) else []
  }

  lemma IndexOfOwn(ps: seq<PlayerState>, i: nat)
    requires Distinct(ps) && i < |ps|
    ensures Present(ps, ps[i].sock) && IndexOf(ps, ps[i].sock) == i
  {
  }

  lemma StepPaysDebt(ps: seq<PlayerState>, s: Sweep, i: nat, inPlay: bool, now: Timestamp)
    requires Distinct(ps) && Kept(ps, s.players) && i < |ps|
    requires s.dropped == Debts(ps, s.gone, inPlay, now)
    ensures var u := SweepStep(s, i, inPlay, now);
      Kept(ps, u.players) && u.dropped == Debts(ps, u.gone, inPlay, now)
  {
    var u := SweepStep(s, i, inPlay, now);
    assert SameBody(ps[i], s.players[i]);
    IndexOfOwn(ps, i);
    if s.players[i].marked {
      assert u.gone == s.gone + [ps[i].sock] && u.gone[..|u.gone| - 1] == s.gone;
      assert u.dropped == s.dropped + Debt(ps[i], inPlay, now);
    }
  }

  lemma {:induction false} SweepPaysDebts(ps: seq<PlayerState>, s: Sweep, i: nat, inPlay: bool, now: Timestamp)
    requires Distinct(ps) && Kept(ps, s.players)
    requires s.dropped == Debts(ps, s.gone, inPlay, now)
    ensures var t := SweepFrom(s, i, inPlay, now);
      t.dropped == Debts(ps, t.gone, inPlay, now)
    decreases |s.players| - i
  {
    if i < |s.players| {
      StepPaysDebt(ps, s, i, inPlay, now);
      SweepPaysDebts(ps, SweepStep(s, i, inPlay, now), i + 1, inPlay, now);
    }
  }

  /** The indices among the first `n` whose player stays. */
  ghost function StayUpTo(ps: seq<PlayerState>, gone: seq<Sock>, n: nat): (idx: seq<nat>)
    requires n <= |ps|
    ensures forall x :: 0 <= x < |idx| ==> idx[x] < n
    ensures forall x, y :: 0 <= x < y < |idx| ==> idx[x] < idx[y]
  {
    if n == 0 then []
    else StayUpTo(ps, gone, n - 1) + if ps[n - 1].sock in gone then [] else [n - 1]
  }

  lemma {:induction false} KeepAppend(ps: seq<PlayerState>, q: PlayerState, gone: seq<Sock>)
    ensures Keep(ps + [q], gone) == Keep(ps, gone) + if q.sock in gone then [] else [q]
  {
    if ps == [] {
      assert Keep([q], gone) == (if q.sock in gone then [] else [q]) + Keep([], gone);
    } else {
      assert (ps + [q])[1..] == ps[1..] + [q];
      KeepAppend(ps[1..], q, gone);
    }
  }

  lemma {:induction false} KeepIsInOrder(ps: seq<PlayerState>, gone: seq<Sock>, n: nat)
    requires n <= |ps|
    ensures var idx, kept := StayUpTo(ps, gone, n), Keep(ps[..n], gone);
      |idx| == |kept| && forall x :: 0 <= x < |idx| ==> kept[x] == ps[idx[x]]
  {
    if n > 0 {
      KeepIsInOrder(ps, gone, n - 1);
      assert ps[..n] == ps[..n - 1] + [ps[n - 1]];
      KeepAppend(ps[..n - 1], ps[n - 1], gone);
    }
  }

  /** The leavers, as the first pass finds them. */
  ghost function Leavers(r: RoomState, now: Timestamp): seq<Sock> {
    SweepFrom(Sweep(r.players, [], []), 0, r.state == Play, now).gone
  }

  /** The two-pass erase is a stable filter. It takes exactly the players marked when
      visited and drops one atomic bomb for each of them that was alive in play. */
  lemma DisconnectTakesTheMarked(r: RoomState, now: Timestamp)
    requires Distinct(r.players)
    ensures forall j | 0 <= j < |r.players| ::
      (r.players[j].sock in Leavers(r, now) <==> MarkedAtVisit(Sweep(r.players, [], []), 0, j, r.state == Play, now))
    ensures DisconnectPlayers(r, now).dropped == Debts(r.players, Leavers(r, now), r.state == Play, now)
  {
    var s := Sweep(r.players, [], []);
    forall j | 0 <= j < |r.players|
      ensures r.players[j].sock in Leavers(r, now) <==> MarkedAtVisit(s, 0, j, r.state == Play, now)
    {
      SweepTakesTheMarked(s, 0, j, r.state == Play, now);
    }
    SweepPaysDebts(r.players, s, 0, r.state == Play, now);
  }

  /** The last message got through to `p`, or `p` is marked for having missed it. */
  predicate HeardLast(p: PlayerState, m: ServerMsg) {
    p.marked || (p.link.log != [] && p.link.log[|p.link.log| - 1] == m)
  }

  /** It keeps the others in order, unless a single one is left, who wins, is told so and
      goes too. */
  lemma DisconnectKeepsOrder(r: RoomState, now: Timestamp)
    requires Distinct(r.players)
    ensures var d := DisconnectPlayers(r, now);
      var gone := Leavers(r, now);
      var idx := StayUpTo(r.players, gone, |r.players|);
      if |idx| == 1
      then d.winner == Some(r.players[idx[0]].username) && d.sockets == gone + [r.players[idx[0]].sock]
           && d.room.players == [] && d.room.state == GameOver && d.farewell.Some?
           && SameBody(r.players[idx[0]], d.farewell.value) && HeardLast(d.farewell.value, GameWon(d.winner.value))
      else d.winner == None && d.farewell == None && d.sockets == gone && |d.room.players| == |idx|
           && forall x :: 0 <= x < |idx| ==> SameBody(r.players[idx[x]], d.room.players[x])
  {
    var t := SweepFrom(Sweep(r.players, [], []), 0, r.state == Play, now);
    SweepKeeps(Sweep(r.players, [], []), 0, r.state == Play, now);
    RestInOrder(r.players, t.players, t.gone);
    var d := DisconnectPlayers(r, now);
    var rest := Keep(t.players, t.gone);
    assert d.sockets == if |rest| == 1 then t.gone + [rest[0].sock] else t.gone;
    assert d.room.players == if |rest| == 1 then [] else rest;
    assert d.winner == if |rest| == 1 then Some(rest[0].username) else None;
  }

  lemma RestInOrder(ps: seq<PlayerState>, qs: seq<PlayerState>, gone: seq<Sock>)
    requires Kept(ps, qs)
    ensures var idx, rest := StayUpTo(ps, gone, |ps|), Keep(qs, gone);
      |rest| == |idx| && forall x :: 0 <= x < |idx| ==> SameBody(ps[idx[x]], rest[x])
  {
    KeepIsInOrder(qs, gone, |qs|);
    StaySameBodies(ps, qs, gone, |ps|);
    assert qs[..|qs|] == qs;
    var idx := StayUpTo(ps, gone, |ps|);
    assert forall x | 0 <= x < |idx| :: SameBody(ps[idx[x]], qs[idx[x]]);
  }

  lemma {:induction false} StaySameBodies(ps: seq<PlayerState>, qs: seq<PlayerState>, gone: seq<Sock>, n: nat)
    requires Kept(ps, qs) && n <= |ps|
    ensures StayUpTo(ps, gone, n) == StayUpTo(qs, gone, n)
  {
    if n > 0 {
      StaySameBodies(ps, qs, gone, n - 1);
    }
  }

  lemma GoneOrKept(ps: seq<PlayerState>, gone: seq<Sock>)
    requires forall x | x in gone :: x in Socks(ps)
    ensures (set x | x in gone) == Socks(ps) - Socks(Keep(ps, gone))
    ensures Socks(Keep(ps, gone)) <= Socks(ps)
  {
    KeepMembers(ps, gone);
    var kept := Keep(ps, gone);
    forall x
      ensures x in gone <==> x in Socks(ps) && x !in Socks(kept)
    {
      if x in Socks(ps) && x !in gone {
        var p :| p in ps && p.sock == x;
        assert p in kept;
      }
    }
  }

  lemma LeaversWereThere(r: RoomState, now: Timestamp)
    requires Distinct(r.players)
    ensures NoRepeats(Leavers(r, now))
    ensures forall x | x in Leavers(r, now) :: x in Socks(r.players)
  {
    var s := Sweep(r.players, [], []);
    SweepGone(s, 0, r.state == Play, now);
    SweepNoRepeats(s, 0, r.state == Play, now);
    SweepKeeps(s, 0, r.state == Play, now);
    SocksSame(r.players, SweepFrom(s, 0, r.state == Play, now).players);
  }

  /** The sockets handed back are those no longer in the room, once each. */
  lemma SocketsAccountedFor(r: RoomState, now: Timestamp)
    requires Distinct(r.players)
    ensures var d := DisconnectPlayers(r, now);
      && NoRepeats(d.sockets)
      && (set x | x in d.sockets) == Socks(r.players) - Socks(d.room.players)
      && Socks(d.room.players) <= Socks(r.players)
  {
    var s := Sweep(r.players, [], []);
    var t := SweepFrom(s, 0, r.state == Play, now);
    var rest := Keep(t.players, t.gone);
    LeaversWereThere(r, now);
    SweepKeeps(s, 0, r.state == Play, now);
    SocksSame(r.players, t.players);
    GoneOrKept(t.players, t.gone);
    assert forall p | p in rest :: p.sock in Socks(rest);
    if |rest| == 1 {
      OneSockMore(t.gone, rest);
    }
  }

  lemma OneSockMore(gone: seq<Sock>, rest: seq<PlayerState>)
    requires |rest| == 1
    ensures Socks(rest) == {rest[0].sock}
    ensures (set x | x in gone + [rest[0].sock]) == (set x | x in gone) + Socks(rest)
  {
    assert rest == [rest[0]];
  }

  lemma SocksSame(ps: seq<PlayerState>, qs: seq<PlayerState>)
    requires |ps| == |qs| && forall i :: 0 <= i < |ps| ==> ps[i].sock == qs[i].sock
    ensures Socks(ps) == Socks(qs)
  {
    forall x
      ensures x in Socks(ps) <==> x in Socks(qs)
    {
      if x in Socks(ps) {
        var p :| p in ps && p.sock == x;
        var i :| 0 <= i < |ps| && ps[i] == p;
        assert qs[i] in qs;
      }
      if x in Socks(qs) {
        var q :| q in qs && q.sock == x;
        var i :| 0 <= i < |qs| && qs[i] == q;
        assert ps[i] in ps;
      }
    }
  }
}
