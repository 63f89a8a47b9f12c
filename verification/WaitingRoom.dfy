/** What a message does to a room that still waits: it may end it. */
module WaitingRoom {
  import opened Messages
  import opened RoomSpec
  import opened RoomFacts
  import opened RoomRun
  import opened RoomInvariants
  import opened RoomTheorems
  import opened Leaving

  // ----- disconnects that concern nobody, one, or all but one

  /** The first pass walks past the unmarked. */
  lemma {:induction false} SweepSkips(s: Sweep, i: nat, k: nat, inPlay: bool, now: Timestamp)
    requires i <= k <= |s.players| && forall j | i <= j < k :: !s.players[j].marked
    ensures SweepFrom(s, i, inPlay, now) == SweepFrom(s, k, inPlay, now)
    decreases k - i
  {
    if i < k {
      SweepSkips(s, i + 1, k, inPlay, now);
    }
  }

  lemma {:induction false} KeepNone(ps: seq<PlayerState>)
    ensures Keep(ps, []) == ps
  {
    if ps != [] {
      KeepNone(ps[1..]);
    }
  }

  ghost predicate Unmarked(ps: seq<PlayerState>) {
    forall i :: 0 <= i < |ps| ==> !ps[i].marked
  }

  /** With nobody marked the disconnects leave a room of two or more as it was. */
  lemma QuietDisconnect(r: RoomState, now: Timestamp)
    requires Unmarked(r.players) && |r.players| >= 2
    ensures DisconnectPlayers(r, now) == Disconnection(r, [], [], None, None)
  {
    SweepSkips(Sweep(r.players, [], []), 0, |r.players|, r.state == Play, now);
    KeepNone(r.players);
    assert r.bombs + [] == r.bombs;
  }

  ghost predicate AtMostOneUnmarked(ps: seq<PlayerState>) {
    forall i, j :: 0 <= i < j < |ps| ==> ps[i].marked || ps[j].marked
  }

  /** With one unmarked player at most they end the room. */
  lemma FewStay(r: RoomState, now: Timestamp)
    requires Distinct(r.players) && AtMostOneUnmarked(r.players)
    ensures var d := DisconnectPlayers(r, now); d.room.players == [] && d.room.state == GameOver
  {
    DisconnectedPeople(r, now);
    var qs := DisconnectPlayers(r, now).room.players;
    if |qs| >= 2 {
      TwoCameFromTwo(r.players, qs);
    }
  }

  lemma TwoCameFromTwo(ps: seq<PlayerState>, qs: seq<PlayerState>)
    requires Distinct(qs) && |qs| >= 2
    requires forall q | q in qs :: exists i :: 0 <= i < |ps| && SameBody(ps[i], q) && !ps[i].marked
    ensures !AtMostOneUnmarked(ps)
  {
    assert qs[0] in qs && qs[1] in qs && qs[0].sock != qs[1].sock;
    var i :| 0 <= i < |ps| && SameBody(ps[i], qs[0]) && !ps[i].marked;
    var j :| 0 <= j < |ps| && SameBody(ps[j], qs[1]) && !ps[j].marked;
    assert ps[i].sock != ps[j].sock;
  }

  /** One player marked, and nobody fails to hear of its leaving. */
  ghost predicate OneLeaver(ps: seq<PlayerState>, k: nat) {
    && k < |ps| && ps[k].marked
    && forall i :: 0 <= i < |ps| && i != k ==> !ps[i].marked && !Fails(ps[i].link)
  }

  /** Only that player goes, the others stay unmarked. */
  lemma OnlyOneLeaves(r: RoomState, k: nat, now: Timestamp)
    requires Distinct(r.players) && OneLeaver(r.players, k) && |r.players| >= 3 && r.state != Play
    ensures var x := DisconnectPlayers(r, now).room;
      x.state == r.state && |x.players| >= 2 && Unmarked(x.players)
  {
    var u := Evict(Sweep(r.players, [], []), k, false, now);
    OneLeaverSweep(r, k, now);
    var rest := Keep(u.players, u.gone);
    KeepMembers(u.players, u.gone);
    forall i | 0 <= i < |rest|
      ensures !rest[i].marked
    {
      assert rest[i] in rest;
      var j :| 0 <= j < |u.players| && u.players[j] == rest[i];
    }
    OthersRemain(u.players, k, rest);
  }

  lemma OneLeaverSweep(r: RoomState, k: nat, now: Timestamp)
    requires OneLeaver(r.players, k)
    ensures var s := Sweep(r.players, [], []);
      var u := Evict(s, k, false, now);
      && SweepFrom(s, 0, false, now) == u && u.gone == [r.players[k].sock] && u.dropped == []
      && Kept(r.players, u.players) && forall i | 0 <= i < |u.players| && i != k :: !u.players[i].marked
  {
    var s := Sweep(r.players, [], []);
    var u := Evict(s, k, false, now);
    SweepSkips(s, 0, k, false, now);
    assert SweepFrom(s, k, false, now) == SweepFrom(u, k + 1, false, now);
    SweepSkips(u, k + 1, |r.players|, false, now);
  }

  lemma OthersRemain(ps: seq<PlayerState>, k: nat, rest: seq<PlayerState>)
    requires Distinct(ps) && |ps| >= 3 && k < |ps|
    requires forall p :: p in rest <==> p in ps && p.sock !in [ps[k].sock]
    ensures |rest| >= 2
  {
    var i, j := if k == 0 then 1 else 0, if k == 2 then 1 else 2;
    assert ps[i] in ps && ps[j] in ps && ps[i].sock != ps[k].sock && ps[j].sock != ps[k].sock;
    assert ps[i] in rest && ps[j] in rest && ps[i].sock != ps[j].sock;
  }

  /** Whoever fails to hear of somebody's leaving ends up marked. */
  lemma {:induction false} MissingTheNotice(s: Sweep, i: nat, j: nat, k: nat, inPlay: bool, now: Timestamp)
    requires i <= k < |s.players| && s.players[k].marked && j < |s.players| && j != k
    requires Fails(s.players[j].link) || s.players[j].marked
    ensures SweepFrom(s, i, inPlay, now).players[j].marked
    decreases |s.players| - i
  {
    var u := SweepStep(s, i, inPlay, now);
    if s.players[i].marked && i != j {
      assert u.players[j].marked;
    }
    if u.players[j].marked {
      SweepKeeps(u, i + 1, inPlay, now);
      assert SameBody(u.players[j], SweepFrom(u, i + 1, inPlay, now).players[j]);
    } else {
      assert u == s && i < k;
      MissingTheNotice(u, i + 1, j, k, inPlay, now);
    }
  }

  // ----- which rooms outlive a message

  /** The message makes player `i` leave: it was marked already, or it is the newest and
      somebody asked to leave, or it is the author of anything else and cannot be told
      off. */
  predicate WillGo(ps: seq<PlayerState>, k: nat, msg: ClientMsg, i: nat)
    requires k < |ps| && i < |ps|
  {
    ps[i].marked || if msg == ILeave then i == 0 else i == k && Fails(ps[k].link)
  }

  /** The send that comes next to player `i`, after the message, fails. */
  predicate WillMiss(ps: seq<PlayerState>, k: nat, msg: ClientMsg, i: nat)
    requires k < |ps| && i < |ps|
  {
    if msg != ILeave && i == k then ps[k].link.attempts + 1 in ps[k].link.faults else Fails(ps[i].link)
  }

  /** At least two stay and, if somebody goes, all who stay get to hear of it. */
  ghost predicate Outlives(ps: seq<PlayerState>, k: nat, msg: ClientMsg)
    requires k < |ps|
  {
    && (exists i, j :: 0 <= i < j < |ps| && !WillGo(ps, k, msg, i) && !WillGo(ps, k, msg, j))
    && ((exists i :: 0 <= i < |ps| && WillGo(ps, k, msg, i)) ==>
          forall i :: 0 <= i < |ps| && !WillGo(ps, k, msg, i) ==> !WillMiss(ps, k, msg, i))
  }

  lemma HeardWaiting(r: RoomState, k: nat, msg: ClientMsg, now: Timestamp)
    requires r.state == WaitForStart && k < |r.players|
    ensures var x := HandleMessage(r, k, msg, now).0;
      && x.state == WaitForStart && |x.players| == |r.players|
      && forall i | 0 <= i < |r.players| ::
        && x.players[i].sock == r.players[i].sock && x.players[i].username == r.players[i].username
        && (x.players[i].marked <==> WillGo(r.players, k, msg, i))
        && (Fails(x.players[i].link) <==> WillMiss(r.players, k, msg, i))
  {
  }

  /** Two passes of disconnects over a waiting room of three at most. */
  ghost function Twice(r: RoomState, now: Timestamp, later: Timestamp): RoomState {
    DisconnectPlayers(DisconnectPlayers(r, now).room, later).room
  }

  lemma OverStaysOver(r: RoomState, now: Timestamp)
    requires r.players == []
    ensures var d := DisconnectPlayers(r, now); d.room.players == [] && d.room.state == GameOver && d.winner == None
  {
  }

  lemma OneGoesQuietly(r: RoomState, k: nat, now: Timestamp, later: Timestamp)
    requires Distinct(r.players) && |r.players| == 3 && r.state == WaitForStart && OneLeaver(r.players, k)
    ensures Twice(r, now, later).state == WaitForStart
  {
    OnlyOneLeaves(r, k, now);
    QuietDisconnect(DisconnectPlayers(r, now).room, later);
  }

  /** One leaves, another misses the notice and is marked, and the third is alone. */
  lemma MissedNoticeEndsIt(r: RoomState, j: nat, k: nat, now: Timestamp, later: Timestamp)
    requires Distinct(r.players) && |r.players| <= 3 && r.state == WaitForStart
    requires k < |r.players| && r.players[k].marked && j < |r.players| && j != k && Fails(r.players[j].link)
    ensures Twice(r, now, later).state == GameOver
  {
    var s := Sweep(r.players, [], []);
    var t := SweepFrom(s, 0, false, now);
    MissingTheNotice(s, 0, j, k, false, now);
    SweepKeeps(s, 0, false, now);
    SweptPeople(r, now);
    KeepMembers(t.players, t.gone);
    var d := DisconnectPlayers(r, now).room;
    if d.players == [] {
      OverStaysOver(d, later);
    } else {
      assert d.players == Keep(t.players, t.gone);
      OneOfTwoIsMarked(r.players, t.players, d.players, j, k);
      FewStay(d, later);
    }
  }

  lemma OneOfTwoIsMarked(ps: seq<PlayerState>, ts: seq<PlayerState>, qs: seq<PlayerState>, j: nat, k: nat)
    requires Distinct(ps) && Kept(ps, ts) && |ps| <= 3 && Distinct(qs)
    requires j < |ps| && k < |ps| && j != k && ts[j].marked && ps[k].marked
    requires forall q | q in qs :: q in ts
    requires forall q | q in qs :: exists i :: 0 <= i < |ps| && SameBody(ps[i], q) && !ps[i].marked
    ensures AtMostOneUnmarked(qs)
  {
    forall a, b | 0 <= a < b < |qs|
      ensures qs[a].marked || qs[b].marked
    {
      assert qs[a] in qs && qs[b] in qs;
      var x, y := PlaceOf(ps, ts, qs[a]), PlaceOf(ps, ts, qs[b]);
      assert x != k && y != k && x != y;
    }
  }

  ghost function PlaceOf(ps: seq<PlayerState>, ts: seq<PlayerState>, q: PlayerState): (x: nat)
    requires Distinct(ps) && Kept(ps, ts) && q in ts
    requires exists i :: 0 <= i < |ps| && SameBody(ps[i], q) && !ps[i].marked
    ensures x < |ps| && q == ts[x] && !ps[x].marked && ps[x].sock == q.sock
  {
    var x :| 0 <= x < |ps| && SameBody(ps[x], q) && !ps[x].marked;
    var u :| 0 <= u < |ts| && ts[u] == q;
    assert SameBody(ps[u], ts[u]);
    x
  }

  lemma TwicePostIsTwice(w: World, clock: seq<Timestamp>)
    requires |clock| == 6
    ensures Post(Post(w, clock[2], clock[3]), clock[4], clock[5]).room == Twice(w.room, clock[2], clock[4])
  {
  }

  /** What decides it, in terms of the room after the message. */
  lemma TwiceWaiting(r: RoomState, now: Timestamp, later: Timestamp)
    requires Distinct(r.players) && |r.players| <= 3 && r.state == WaitForStart
    ensures Twice(r, now, later).state == WaitForStart <==>
      && !AtMostOneUnmarked(r.players)
      && (!Unmarked(r.players) ==>
            forall i :: 0 <= i < |r.players| && !r.players[i].marked ==> !Fails(r.players[i].link))
  {
    var ps := r.players;
    if AtMostOneUnmarked(ps) {
      FewStay(r, now);
      OverStaysOver(DisconnectPlayers(r, now).room, later);
    } else if Unmarked(ps) {
      QuietDisconnect(r, now);
      QuietDisconnect(r, later);
    } else {
      var k :| 0 <= k < |ps| && ps[k].marked;
      if j :| 0 <= j < |ps| && !ps[j].marked && Fails(ps[j].link) {
        MissedNoticeEndsIt(r, j, k, now, later);
      } else {
        OneGoesQuietly(r, k, now, later);
      }
    }
  }

  /** A room that waits outlives a message if and only if at least two players stay and,
      should anybody go, none of those misses the notice. Otherwise it is over. */
  lemma WhoOutlivesAMessage(w: World, e: Event)
    requires Reachable(w) && w.room.state == WaitForStart && Enabled(w, e) && e.Hear?
    ensures Next(w, e).room.state == WaitForStart <==> Outlives(w.room.players, IndexOf(w.room.players, e.sock), e.msg)
    ensures Next(w, e).room.state in {WaitForStart, GameOver}
  {
    ReachableIsGood(w);
    StepKeeps(w, e);
    var ps, k := w.room.players, IndexOf(w.room.players, e.sock);
    var heard := Heard(w, k, e.msg, e.clock[0], e.clock[1]);
    HeardWaiting(w.room, k, e.msg, e.clock[0]);
    HeardKeeps(w, k, e.msg, e.clock[0], e.clock[1]);
    TwicePostIsTwice(heard, e.clock);
    TwiceWaiting(heard.room, e.clock[2], e.clock[4]);
    OutlivesMeans(ps, k, e.msg, heard.room.players);
    DisconnectedState(heard.room, e.clock[2]);
    DisconnectedState(DisconnectPlayers(heard.room, e.clock[2]).room, e.clock[4]);
  }

  lemma OutlivesMeans(ps: seq<PlayerState>, k: nat, msg: ClientMsg, qs: seq<PlayerState>)
    requires k < |ps| == |qs|
    requires forall i | 0 <= i < |ps| ::
      && (qs[i].marked <==> WillGo(ps, k, msg, i)) && (Fails(qs[i].link) <==> WillMiss(ps, k, msg, i))
    ensures Outlives(ps, k, msg) <==>
      && !AtMostOneUnmarked(qs)
      && (!Unmarked(qs) ==> forall i :: 0 <= i < |qs| && !qs[i].marked ==> !Fails(qs[i].link))
  {
  }

  /** A player waiting alone ends the room with any message. It is declared the winner
      unless it asked to leave or could not be sent the error. */
  lemma WaitingAlone(w: World, e: Event)
    requires Reachable(w) && w.room.state == WaitForStart && |w.room.players| == 1 && Enabled(w, e) && e.Hear?
    ensures var x, p := Next(w, e), w.room.players[0];
      && x.room.state == GameOver && x.room.players == []
      && x.winners == if e.msg == ILeave || Fails(p.link) then [] else [p.username]
  {
    ReachableIsGood(w);
    var p := w.room.players[0];
    var heard := Heard(w, 0, e.msg, e.clock[0], e.clock[1]);
    HeardWaiting(w.room, 0, e.msg, e.clock[0]);
    assert IndexOf(w.room.players, e.sock) == 0;
    LoneDisconnect(heard.room, e.clock[2]);
    OverStaysOver(DisconnectPlayers(heard.room, e.clock[2]).room, e.clock[4]);
  }

  /** A room that waits outlives a lost connection if and only if two players stay: who
      neither lost theirs, nor is marked, nor misses the notice about somebody who leaves
      before them in the list. Otherwise it is over. */
  lemma WhoOutlivesALoss(w: World, e: Event)
    requires Reachable(w) && w.room.state == WaitForStart && Enabled(w, e) && e.Lose?
    ensures var lost := Marked(w, IndexOf(w.room.players, e.sock), e.clock[0]).room;
      Next(w, e).room.state == if TwoStay(lost) then WaitForStart else GameOver
  {
    ReachableIsGood(w);
    GoesOnWithTwo(Marked(w, IndexOf(w.room.players, e.sock), e.clock[0]).room, e.clock[0]);
  }

  lemma LoneDisconnect(r: RoomState, now: Timestamp)
    requires |r.players| == 1
    ensures var d := DisconnectPlayers(r, now);
      && d.room.players == [] && d.room.state == GameOver
      && d.winner == if r.players[0].marked then None else Some(r.players[0].username)
  {
    var s := Sweep(r.players, [], []);
    var u := SweepStep(s, 0, r.state == Play, now);
    assert SweepFrom(s, 0, r.state == Play, now) == SweepFrom(u, 1, r.state == Play, now) == u;
    assert Keep(u.players, u.gone) ==
      (if u.players[0].sock in u.gone then [] else [u.players[0]]) + Keep(u.players[1..], u.gone);
    assert u.players[0] == r.players[0];
  }
}
