/** Who goes in the disconnects, told from the room before them: the marked, and whoever
    misses a notice about somebody before it in the list. */
module Leaving {
  import opened Messages
  import opened RoomSpec
  import opened RoomFacts
  import opened Disconnects

  /** What the others are sent about a leaver: that it left, and the bomb it dropped. */
  function Notices(p: PlayerState, inPlay: bool): nat {
    if DropsBomb(p, inPlay) then 2 else 1
  }

  /** One of the next `n` sends fails. */
  predicate Misses(link: Link, n: nat) {
    exists c :: c in link.faults && link.attempts <= c < link.attempts + n
  }

  /** Player `j` is among the leavers. */
  predicate Goes(ps: seq<PlayerState>, j: nat, inPlay: bool)
    requires j < |ps|
    decreases j, 1
  {
    ps[j].marked || Misses(ps[j].link, NoticesBefore(ps, j, inPlay))
  }

  /** How many notices the leavers among the first `n` send everybody behind them. */
  function NoticesBefore(ps: seq<PlayerState>, n: nat, inPlay: bool): nat
    requires n <= |ps|
    decreases n, 0
  {
    if n == 0 then 0
    else NoticesBefore(ps, n - 1, inPlay) + if Goes(ps, n - 1, inPlay) then Notices(ps[n - 1], inPlay) else 0
  }

  /** `q` is `p` after `n` sends. */
  ghost predicate SentTo(p: PlayerState, q: PlayerState, n: nat) {
    && SameBody(p, q) && q.link.faults == p.link.faults && q.link.attempts == p.link.attempts + n
    && (q.marked <==> p.marked || Misses(p.link, n))
  }

  lemma OneMoreSend(p: PlayerState, q: PlayerState, n: nat, m: ServerMsg)
    requires SentTo(p, q, n)
    ensures SentTo(p, Send(q, m), n + 1)
  {
    if q.link.attempts in p.link.faults {
      assert Misses(p.link, n + 1);
    }
  }

  /** The first pass of the disconnects, on its way, now at player `i`. */
  ghost predicate Swept(ps: seq<PlayerState>, s: Sweep, i: nat, inPlay: bool)
    requires i <= |ps|
  {
    && |s.players| == |ps|
    && forall j | i <= j < |ps| :: SentTo(ps[j], s.players[j], NoticesBefore(ps, i, inPlay))
  }

  lemma SweptOn(ps: seq<PlayerState>, s: Sweep, i: nat, inPlay: bool, now: Timestamp)
    requires i < |ps| && Swept(ps, s, i, inPlay)
    ensures s.players[i].marked <==> Goes(ps, i, inPlay)
    ensures Swept(ps, SweepStep(s, i, inPlay, now), i + 1, inPlay)
  {
    var n, u := NoticesBefore(ps, i, inPlay), SweepStep(s, i, inPlay, now);
    assert SentTo(ps[i], s.players[i], n);
    if s.players[i].marked {
      forall j | i < j < |ps|
        ensures SentTo(ps[j], u.players[j], n + Notices(ps[i], inPlay))
      {
        var left, bomb := OtherLeave(s.players[i].username),
          OtherBombPlace("Server", now, s.players[i].guard.coords);
        OneMoreSend(ps[j], s.players[j], n, left);
        OneMoreSend(ps[j], Send(s.players[j], left), n + 1, bomb);
      }
    }
  }

  lemma {:induction false} MarkedIfGoes(ps: seq<PlayerState>, s: Sweep, i: nat, j: nat, inPlay: bool, now: Timestamp)
    requires i <= j < |ps| && Swept(ps, s, i, inPlay)
    ensures MarkedAtVisit(s, i, j, inPlay, now) <==> Goes(ps, j, inPlay)
    decreases j - i
  {
    SweptOn(ps, s, i, inPlay, now);
    if i < j {
      MarkedIfGoes(ps, SweepStep(s, i, inPlay, now), i + 1, j, inPlay, now);
    }
  }

  /** Player `j` of the room leaves it in the disconnects. */
  predicate Leaves(r: RoomState, j: nat)
    requires j < |r.players|
  {
    Goes(r.players, j, r.state == Play)
  }

  /** Who leaves can be told beforehand. */
  lemma WhoLeaves(r: RoomState, now: Timestamp)
    requires Distinct(r.players)
    ensures forall j | 0 <= j < |r.players| :: r.players[j].sock in Leavers(r, now) <==> Leaves(r, j)
  {
    DisconnectTakesTheMarked(r, now);
    forall j | 0 <= j < |r.players|
      ensures r.players[j].sock in Leavers(r, now) <==> Leaves(r, j)
    {
      MarkedIfGoes(r.players, Sweep(r.players, [], []), 0, j, r.state == Play, now);
    }
  }

  // ----- when nothing fails

  /** Everybody's next sends get through, as many as all the others could cause. */
  predicate Calm(ps: seq<PlayerState>) {
    forall i | 0 <= i < |ps| :: !Misses(ps[i].link, 2 * |ps|)
  }

  lemma {:induction false} FewNotices(ps: seq<PlayerState>, n: nat, inPlay: bool)
    requires n <= |ps|
    ensures NoticesBefore(ps, n, inPlay) <= 2 * n
  {
    if n > 0 {
      FewNotices(ps, n - 1, inPlay);
    }
  }

  lemma MissesFewer(link: Link, n: nat, m: nat)
    requires !Misses(link, m) && n <= m
    ensures !Misses(link, n)
  {
  }

  lemma MissesMore(link: Link, n: nat, m: nat)
    requires Misses(link, n) && n <= m
    ensures Misses(link, m)
  {
  }

  /** Then exactly the marked leave. */
  lemma CalmLeaves(r: RoomState)
    requires Calm(r.players)
    ensures forall j | 0 <= j < |r.players| :: Leaves(r, j) <==> r.players[j].marked
  {
    forall j | 0 <= j < |r.players|
      ensures Leaves(r, j) <==> r.players[j].marked
    {
      var n := NoticesBefore(r.players, j, r.state == Play);
      FewNotices(r.players, j, r.state == Play);
      if Misses(r.players[j].link, n) {
        MissesMore(r.players[j].link, n, 2 * |r.players|);
      }
    }
  }

  // ----- what is left

  /** The indices of those who stay, in order. */
  ghost function Stayers(r: RoomState, now: Timestamp): (idx: seq<nat>)
    requires Distinct(r.players)
    ensures forall i: nat :: i in idx <==> i < |r.players| && !Leaves(r, i)
    ensures forall x, y :: 0 <= x < y < |idx| ==> idx[x] < idx[y]
  {
    WhoLeaves(r, now);
    StayersAre(r.players, Leavers(r, now), |r.players|);
    StayUpTo(r.players, Leavers(r, now), |r.players|)
  }

  lemma {:induction false} StayersAre(ps: seq<PlayerState>, gone: seq<Sock>, n: nat)
    requires n <= |ps|
    ensures forall i: nat :: i in StayUpTo(ps, gone, n) <==> i < n && i < |ps| && ps[i].sock !in gone
  {
    if n > 0 {
      StayersAre(ps, gone, n - 1);
    }
  }

  ghost predicate TwoStay(r: RoomState) {
    exists i, j :: 0 <= i < j < |r.players| && !Leaves(r, i) && !Leaves(r, j)
  }

  ghost predicate OnlyStays(r: RoomState, i: nat) {
    i < |r.players| && forall j | 0 <= j < |r.players| :: Leaves(r, j) <==> j != i
  }

  lemma TwoStayers(r: RoomState, now: Timestamp)
    requires Distinct(r.players)
    ensures |Stayers(r, now)| >= 2 <==> TwoStay(r)
  {
    var idx := Stayers(r, now);
    if |idx| >= 2 {
      assert idx[0] in idx && idx[1] in idx;
    }
    if TwoStay(r) {
      var i, j :| 0 <= i < j < |r.players| && !Leaves(r, i) && !Leaves(r, j);
      assert i in idx && j in idx;
    }
  }

  lemma OneStayer(r: RoomState, now: Timestamp)
    requires Distinct(r.players) && |Stayers(r, now)| == 1
    ensures OnlyStays(r, Stayers(r, now)[0])
  {
    var idx := Stayers(r, now);
    forall j | 0 <= j < |r.players|
      ensures Leaves(r, j) <==> j != idx[0]
    {
      assert j in idx <==> j == idx[0];
    }
  }

  lemma LoneStayer(r: RoomState, i: nat, now: Timestamp)
    requires Distinct(r.players) && OnlyStays(r, i)
    ensures Stayers(r, now) == [i]
  {
    var idx := Stayers(r, now);
    assert i in idx;
    var x :| 0 <= x < |idx| && idx[x] == i;
    assert idx[0] in idx && idx[|idx| - 1] in idx;
    assert x == 0 == |idx| - 1;
  }

  /** The disconnects leave a room going if and only if two players stay. */
  lemma GoesOnWithTwo(r: RoomState, now: Timestamp)
    requires Distinct(r.players)
    ensures DisconnectPlayers(r, now).room.state == if TwoStay(r) then r.state else GameOver
  {
    TwoStayers(r, now);
    DisconnectKeepsOrder(r, now);
  }

  /** There is a winner by disconnect if and only if somebody stays alone, ... */
  lemma WinnerByDisconnect(r: RoomState, now: Timestamp)
    requires Distinct(r.players)
    ensures DisconnectPlayers(r, now).winner.Some? <==> exists i: nat :: OnlyStays(r, i)
  {
    DisconnectKeepsOrder(r, now);
    if |Stayers(r, now)| == 1 {
      OneStayer(r, now);
    }
    if i: nat :| OnlyStays(r, i) {
      LoneStayer(r, i, now);
    }
  }

  /** ... who wins with the lives it had: the winner is alive if and only if the only one
      to stay is. */
  lemma TheLoneWin(r: RoomState, i: nat, now: Timestamp)
    requires Distinct(r.players) && OnlyStays(r, i)
    ensures var d := DisconnectPlayers(r, now);
      && d.winner == Some(r.players[i].username) && d.farewell.Some?
      && d.farewell.value.livesRemaining == r.players[i].livesRemaining
  {
    DisconnectKeepsOrder(r, now);
    LoneStayer(r, i, now);
  }

  /** With nothing failing, on marks alone: whoever is unmarked alone wins. */
  lemma CalmWinner(r: RoomState, i: nat, now: Timestamp)
    requires Distinct(r.players) && Calm(r.players) && i < |r.players|
    requires forall j | 0 <= j < |r.players| :: r.players[j].marked <==> j != i
    ensures var d := DisconnectPlayers(r, now);
      && d.winner == Some(r.players[i].username) && d.farewell.Some?
      && d.farewell.value.livesRemaining == r.players[i].livesRemaining
  {
    CalmLeaves(r);
    TheLoneWin(r, i, now);
  }

  // ----- one player taken out

  function Without(ps: seq<PlayerState>, k: nat): (qs: seq<PlayerState>)
    requires k < |ps|
    ensures |qs| == |ps| - 1
  {
    ps[..k] + ps[k + 1..]
  }

  lemma WithoutAt(ps: seq<PlayerState>, k: nat, i: nat)
    requires k < |ps| && i < |ps| && i != k
    ensures Without(ps, k)[if i < k then i else i - 1] == ps[i]
  {
  }

  lemma {:induction false} KeepWithout(ps: seq<PlayerState>, k: nat)
    requires Distinct(ps) && k < |ps|
    ensures Keep(ps, [ps[k].sock]) == Without(ps, k)
  {
    if k == 0 {
      KeepOthers(ps[1..], ps[0].sock);
    } else {
      KeepWithout(ps[1..], k - 1);
      assert ps[..k] + ps[k + 1..] == [ps[0]] + (ps[1..][..k - 1] + ps[1..][k..]);
    }
  }

  lemma {:induction false} KeepOthers(ps: seq<PlayerState>, sock: Sock)
    requires forall i :: 0 <= i < |ps| ==> ps[i].sock != sock
    ensures Keep(ps, [sock]) == ps
  {
    if ps != [] {
      KeepOthers(ps[1..], sock);
    }
  }

  lemma EvictedDiffer(s: Sweep, k: nat, inPlay: bool, now: Timestamp)
    requires k < |s.players| && Distinct(s.players)
    ensures var u := Evict(s, k, inPlay, now);
      Distinct(u.players) && u.gone == s.gone + [u.players[k].sock]
  {
  }
}
