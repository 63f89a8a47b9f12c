/** What holds of a room after every step of every run. */
module RoomInvariants {
  import opened Grid
  import opened Blast
  import opened Messages
  import opened MoveGuard
  import opened RoomSpec
  import opened RoomFacts
  import opened RoomRun

  // ----- the invariants

  /** Names are real and tell players apart; colours have a starting corner. */
  ghost predicate Named(ps: seq<PlayerState>) {
    Distinct(ps) && forall i :: 0 <= i < |ps| ==> ps[i].username != "" && IsColor(ps[i].color)
  }

  /** Everyone who ever joined is present or removed, and there are at most four;
      play begins with the fourth. */
  ghost predicate Counted(w: World) {
    && w.room.clientCount == |w.room.players| + w.removed
    && w.room.clientCount <= MAX_PLAYERS
    && (w.room.state == WaitForStart ==> w.room.clientCount < MAX_PLAYERS && w.removedEarly == w.removed)
    && (w.room.state == Play ==> w.room.clientCount == MAX_PLAYERS)
  }

  /** A winner is announced at most once, and only as the game ends. */
  ghost predicate Finished(w: World) {
    && w.room.state != WaitForEnd
    && (w.room.state == GameOver ==> forall i :: 0 <= i < |w.room.players| ==> w.room.players[i].marked)
    && |w.winners| <= 1
    && (w.room.state != GameOver ==> w.winners == [])
  }

  ghost predicate Sorted(s: seq<Timestamp>, top: Timestamp) {
    && (forall i, j :: 0 <= i <= j < |s| ==> s[i] <= s[j])
    && forall i :: 0 <= i < |s| ==> s[i] <= top
  }

  /** Bombs planted are exploded or queued, in planting order. Until the game is over
      every queued bomb has a timer, and timer `i` was armed after bomb `i` was planted
      unless that bomb is due already. */
  ghost predicate Fused(w: World) {
    && |w.planted| == w.popped + |w.room.bombs|
    && (forall i :: 0 <= i < |w.room.bombs| ==> w.room.bombs[i].plantTime == w.planted[w.popped + i])
    && Sorted(w.planted, w.now) && Sorted(w.timers, w.now)
    && (w.room.state == WaitForStart ==> w.room.bombs == [])
    && (w.room.state != GameOver ==>
          && |w.timers| == |w.room.bombs|
          && forall i :: 0 <= i < |w.timers| ==>
            w.room.bombs[i].plantTime <= w.timers[i] || w.room.bombs[i].plantTime + FUSE_MILLIS <= w.now)
  }

  /** Player and ring stand on open ground. */
  ghost predicate OnOpenGround(g: Guard, field: Cells) {
    && At(field, g.coords) == NOTHIN
    && forall i :: 0 <= i < HISTORY ==> g.moveHistory[i] == BLANK || At(field, g.moveHistory[i].coords) == NOTHIN
  }

  /** The field is the initial one with some soft walls opened; bombs and players are
      strictly inside it. */
  ghost predicate Grounded(r: RoomState) {
    && Clears(INITIAL, r.field)
    && (forall i :: 0 <= i < |r.bombs| ==> Inside(r.bombs[i].pos))
    && forall i :: 0 <= i < |r.players| ==> OnOpenGround(r.players[i].guard, r.field)
  }

  ghost function TimesOf(hits: seq<HitRecord>, sock: Sock): seq<Timestamp> {
    if hits == [] then []
    else TimesOf(hits[..|hits| - 1], sock) +
         if hits[|hits| - 1].sock == sock then [hits[|hits| - 1].at] else []
  }

  ghost predicate WellApart(times: seq<Timestamp>) {
    |times| <= STARTER_LIVES && forall i :: 0 < i < |times| ==> times[i] - times[i - 1] >= IMMUNITY_TIME_MILLIS
  }

  /** A player's lives tell how often it was hit, and its immunity runs from the last hit. */
  ghost predicate Accounted(p: PlayerState, times: seq<Timestamp>) {
    && 0 <= p.livesRemaining <= STARTER_LIVES
    && |times| == STARTER_LIVES - p.livesRemaining
    && (times != [] ==> p.immunityEnd == times[|times| - 1] + IMMUNITY_TIME_MILLIS)
  }

  ghost predicate Vital(w: World) {
    && (forall sock :: WellApart(TimesOf(w.hits, sock)))
    && (forall i :: 0 <= i < |w.room.players| ==>
          Accounted(w.room.players[i], TimesOf(w.hits, w.room.players[i].sock)))
    && (w.room.state == WaitForStart ==> w.hits == [])
  }

  ghost predicate Core(w: World) {
    Named(w.room.players) && Counted(w) && Finished(w) && Fused(w) && Grounded(w.room) && Vital(w)
  }

  /** Between steps: a finished room is empty, and a room that has seen two players
      and is not finished still holds two. */
  ghost predicate Settled(w: World) {
    && (w.room.state == GameOver ==> w.room.players == [])
    && (w.room.state != GameOver ==> |w.room.players| >= if w.room.clientCount < 2 then w.room.clientCount else 2)
  }

  ghost predicate Inv(w: World) {
    Core(w) && Settled(w)
  }

  lemma OpenIsInside(field: Cells, t: Tile)
    requires Clears(INITIAL, field) && At(field, t) == NOTHIN
    ensures Inside(t)
  {
    InitialIsWalled();
  }

  lemma FieldIsWalled(field: Cells)
    requires Clears(INITIAL, field)
    ensures Walled(field)
  {
    InitialIsWalled();
  }

  // ----- joining

  lemma SpawnIsOpen(color: int)
    requires IsColor(color)
    ensures At(INITIAL, Spawn(color)) == NOTHIN
  {
  }

  /** The list after a join: the newcomer, then everybody as before, sends aside. */
  lemma JoinedPeople(r: RoomState, sock: Sock, username: string, faults: set<nat>, now: Timestamp)
    requires r.state == WaitForStart && IsColor(|r.players|)
    ensures var qs := JoinPlayer(r, sock, username, faults, now).players;
      && |qs| == |r.players| + 1
      && SameBody(NewPlayer(sock, username, |r.players|, faults, now), qs[0])
      && Kept(r.players, qs[1..])
  {
    JoinSends(r, sock, username, faults, now, 0);
    forall i | 0 < i <= |r.players|
      ensures SameBody(r.players[i - 1], JoinPlayer(r, sock, username, faults, now).players[i])
    {
      JoinSends(r, sock, username, faults, now, i);
    }
  }

  lemma JoinedKeepsNames(w: World, x: World, sock: Sock, username: string, faults: set<nat>, now: Timestamp)
    requires Named(w.room.players) && IsColor(|w.room.players|)
    requires w.room.state == WaitForStart && CanJoin(w.room, username) && !Present(w.room.players, sock)
    requires x == Joined(w, sock, username, faults, now)
    ensures Named(x.room.players)
  {
    JoinedPeople(w.room, sock, username, faults, now);
    var ps, qs := w.room.players, x.room.players;
    forall i, j | 0 <= i < j < |qs|
      ensures qs[i].sock != qs[j].sock && qs[i].username != qs[j].username
    {
      assert SameBody(ps[j - 1], qs[1..][j - 1]);
      assert i > 0 ==> SameBody(ps[i - 1], qs[1..][i - 1]);
    }
    assert forall i | 0 <= i < |ps| :: SameBody(ps[i], qs[1..][i]) && qs[i + 1] == qs[1..][i];
  }

  lemma JoinedKeepsGround(r: RoomState, sock: Sock, username: string, faults: set<nat>, now: Timestamp)
    requires r.state == WaitForStart && IsColor(|r.players|) && Grounded(r)
    ensures Grounded(JoinPlayer(r, sock, username, faults, now))
  {
    JoinedPeople(r, sock, username, faults, now);
    var qs := JoinPlayer(r, sock, username, faults, now).players;
    SpawnIsOpen(|r.players|);
    var t := Spawn(|r.players|);
    assert At(r.field, t) == At(INITIAL, t);
    forall i | 0 <= i < |qs|
      ensures OnOpenGround(qs[i].guard, r.field)
    {
      if i > 0 {
        assert qs[1..][i - 1] == qs[i] && SameBody(r.players[i - 1], qs[i]);
        assert OnOpenGround(r.players[i - 1].guard, r.field);
      }
    }
  }

  lemma JoinedKeepsVital(w: World, sock: Sock, username: string, faults: set<nat>, now: Timestamp)
    requires Vital(w) && w.room.state == WaitForStart && IsColor(|w.room.players|)
    ensures Vital(Joined(w, sock, username, faults, now))
  {
    JoinedPeople(w.room, sock, username, faults, now);
    var ps, qs := w.room.players, Joined(w, sock, username, faults, now).room.players;
    assert forall i | 0 <= i < |ps| :: SameBody(ps[i], qs[1..][i]) && qs[i + 1] == qs[1..][i];
  }

  lemma JoinedKeeps(w: World, sock: Sock, username: string, faults: set<nat>, now: Timestamp)
    requires Inv(w) && w.now <= now
    requires w.room.state == WaitForStart && CanJoin(w.room, username) && !Present(w.room.players, sock)
    ensures IsColor(|w.room.players|) && Inv(Joined(w, sock, username, faults, now))
  {
    var x := Joined(w, sock, username, faults, now);
    JoinedKeepsNames(w, x, sock, username, faults, now);
    JoinedKeepsGround(w.room, sock, username, faults, now);
    JoinedKeepsVital(w, sock, username, faults, now);
  }

  // ----- messages

  /** Only marks, links and positions differ. */
  ghost predicate SameButPlaces(ps: seq<PlayerState>, qs: seq<PlayerState>) {
    && |qs| == |ps|
    && forall i :: 0 <= i < |ps| ==>
      qs[i] == ps[i].(marked := qs[i].marked, link := qs[i].link, guard := qs[i].guard)
  }

  lemma MoveKeepsGround(r: RoomState, k: nat, to: Tile, now: Timestamp)
    requires k < |r.players| && Grounded(r)
    ensures Grounded(MoveTo(r, k, to, now))
  {
    var qs := MoveTo(r, k, to, now).players;
    assert OnOpenGround(r.players[k].guard, r.field);
    assert forall i | 0 <= i < |qs| && i != k :: qs[i].guard == r.players[i].guard;
  }

  lemma HeardKeepsGround(r: RoomState, k: nat, msg: ClientMsg, now: Timestamp)
    requires k < |r.players| && InRange(msg) && Grounded(r)
    ensures Grounded(HandleMessage(r, k, msg, now).0)
  {
    if msg.IMove? {
      MoveKeepsGround(r, k, msg.to, now);
    }
    if r.state == WaitForStart || !msg.IMove? || r.players[k].livesRemaining == 0 {
      var qs := HandleMessage(r, k, msg, now).0.players;
      assert forall i | 0 <= i < |qs| :: qs[i].guard == r.players[i].guard;
    }
  }

  lemma VitalKept(w: World, x: World)
    requires Vital(w) && SameButPlaces(w.room.players, x.room.players)
    requires x.hits == w.hits && x.room.state == w.room.state
    ensures Vital(x)
  {
    forall i | 0 <= i < |x.room.players|
      ensures Accounted(x.room.players[i], TimesOf(x.hits, x.room.players[i].sock))
    {
      assert Accounted(w.room.players[i], TimesOf(w.hits, w.room.players[i].sock));
    }
  }

  lemma SortedSnoc(s: seq<Timestamp>, top: Timestamp, x: Timestamp, later: Timestamp)
    requires Sorted(s, top) && top <= x <= later
    ensures Sorted(s + [x], later) && Sorted(s, later)
  {
  }

  lemma SortedWithout(s: seq<Timestamp>, j: nat, top: Timestamp, later: Timestamp)
    requires Sorted(s, top) && j < |s| && top <= later
    ensures Sorted(s[..j] + s[j + 1..], later) && Sorted(s, later)
  {
  }

  lemma HeardKeepsFuses(w: World, k: nat, msg: ClientMsg, now: Timestamp, armed: Timestamp)
    requires Fused(w) && k < |w.room.players| && w.now <= now <= armed && w.room.state != GameOver
    ensures Fused(Heard(w, k, msg, now, armed))
  {
    var x := Heard(w, k, msg, now, armed);
    SortedSnoc(w.planted, w.now, now, armed);
    SortedSnoc(w.timers, w.now, armed, armed);
    if HandleMessage(w.room, k, msg, now).1 {
      assert x.room.bombs == w.room.bombs + [Bomb(msg.at, 3, now, false)];
    } else {
      assert x.room.bombs == w.room.bombs;
    }
  }

  lemma HeardKeeps(w: World, k: nat, msg: ClientMsg, now: Timestamp, armed: Timestamp)
    requires Inv(w) && k < |w.room.players| && w.now <= now <= armed && InRange(msg)
    requires w.room.state != GameOver
    ensures Core(Heard(w, k, msg, now, armed))
    ensures Heard(w, k, msg, now, armed).room.state == w.room.state
  {
    var x := Heard(w, k, msg, now, armed);
    HandleMessageKeepsPeople(w.room, k, msg, now);
    SameNames(w.room.players, x.room.players);
    HeardKeepsGround(w.room, k, msg, now);
    VitalKept(w, x);
    HeardKeepsFuses(w, k, msg, now, armed);
  }

  lemma MarkedKeeps(w: World, k: nat, now: Timestamp)
    requires Inv(w) && k < |w.room.players| && w.now <= now
    ensures Core(Marked(w, k, now))
  {
    var x := Marked(w, k, now);
    SameNames(w.room.players, x.room.players);
    MarkedKeepsGround(w.room, k);
    VitalKept(w, x);
    MarkedKeepsFuses(w, k, now);
  }

  lemma MarkedKeepsGround(r: RoomState, k: nat)
    requires Grounded(r) && k < |r.players|
    ensures Grounded(r.(players := r.players[k := r.players[k].(marked := true)]))
  {
  }

  lemma MarkedKeepsFuses(w: World, k: nat, now: Timestamp)
    requires Fused(w) && k < |w.room.players| && w.now <= now
    ensures Fused(Marked(w, k, now))
  {
  }

  // ----- explosions

  /** The k-th bomb popped is the k-th planted, and `k` timers delivered, in whatever
      order, mean `k` bombs that old: no bomb explodes before its fuse has burnt. */
  lemma NoBombExplodesEarly(w: World, j: nat, now: Timestamp)
    requires Fused(w) && j < |w.timers| && w.now <= now && w.timers[j] + FUSE_MILLIS <= now
    ensures w.room.state != GameOver ==> w.room.bombs != []
    ensures w.room.state != GameOver ==>
      && w.room.bombs[0].plantTime == w.planted[w.popped]
      && w.room.bombs[0].plantTime + FUSE_MILLIS <= now
  {
    if w.room.state != GameOver {
      assert w.planted[w.popped] <= w.planted[w.popped + j];
    }
  }

  /** `x` is `w` once timer `j` has popped the front bomb. */
  lemma PopKeepsFuses(w: World, x: World, j: nat, now: Timestamp)
    requires Fused(w) && w.room.state == Play && w.room.bombs != []
    requires j < |w.timers| && w.now <= now && w.timers[j] + FUSE_MILLIS <= now
    requires x.planted == w.planted && x.timers == w.timers[..j] + w.timers[j + 1..] && x.now == now
    requires x.popped == w.popped + 1 && x.room.bombs == w.room.bombs[1..] && x.room.state != WaitForStart
    ensures Fused(x)
  {
    SortedWithout(w.timers, j, w.now, now);
    forall i | 0 <= i < |x.timers|
      ensures x.room.bombs[i].plantTime <= x.timers[i] || x.room.bombs[i].plantTime + FUSE_MILLIS <= now
    {
      TimersStayAligned(w, j, i, now);
    }
  }

  lemma FiredKeepsFuses(w: World, j: nat, draw: nat, now: Timestamp)
    requires Fused(w) && w.room.state != WaitForEnd
    requires j < |w.timers| && w.now <= now && w.timers[j] + FUSE_MILLIS <= now
    requires DrawDefined(w.room, draw, now)
    ensures Fused(Fired(w, j, draw, now))
  {
    var x := Fired(w, j, draw, now);
    if Explodes(w.room) {
      FiredPeople(w.room, draw, now);
      PopKeepsFuses(w, x, j, now);
    } else {
      assert x.room == w.room;
      SortedWithout(w.timers, j, w.now, now);
    }
  }

  /** Once timer `j` is due every bomb up to number `j` is, so closing the gap keeps
      timers and bombs in step. */
  lemma TimersStayAligned(w: World, j: nat, i: nat, now: Timestamp)
    requires Fused(w) && w.room.state == Play && j < |w.timers| && i + 1 < |w.timers|
    requires w.now <= now && w.timers[j] + FUSE_MILLIS <= now
    ensures var b, timer := w.room.bombs[i + 1].plantTime, if i < j then w.timers[i] else w.timers[i + 1];
      b <= timer || b + FUSE_MILLIS <= now
  {
    if i < j {
      assert w.planted[w.popped + (i + 1)] <= w.planted[w.popped + j];
    }
  }

  /** One blast costs each player at most one life. */
  lemma {:induction false} NewHitsOf(ps: seq<PlayerState>, lit: iset<Tile>, now: Timestamp, sock: Sock)
    requires Distinct(ps)
    ensures forall i | 0 <= i < |ps| && ps[i].sock == sock ::
      TimesOf(NewHits(ps, lit, now), sock) == if Hit(ps[i], lit, now) then [now] else []
    ensures !Present(ps, sock) ==> TimesOf(NewHits(ps, lit, now), sock) == []
  {
    if ps != [] {
      var first := if Hit(ps[0], lit, now) then [HitRecord(ps[0].sock, now)] else [];
      var rest := NewHits(ps[1..], lit, now);
      NewHitsOf(ps[1..], lit, now, sock);
      TimesOfAppend(first, rest, sock);
      assert forall i | 0 < i < |ps| :: ps[i] == ps[1..][i - 1];
      assert TimesOf(first, sock) == if Hit(ps[0], lit, now) && ps[0].sock == sock then [now] else [];
      if ps[0].sock == sock || !Present(ps, sock) {
        NotBehind(ps, sock);
      }
    }
  }

  lemma NotBehind(ps: seq<PlayerState>, sock: Sock)
    requires Distinct(ps) && ps != [] && (ps[0].sock == sock || !Present(ps, sock))
    ensures !Present(ps[1..], sock)
  {
    assert forall i | 0 <= i < |ps[1..]| :: ps[1..][i] == ps[i + 1];
  }

  lemma {:induction false} TimesOfAppend(a: seq<HitRecord>, b: seq<HitRecord>, sock: Sock)
    ensures TimesOf(a + b, sock) == TimesOf(a, sock) + TimesOf(b, sock)
  {
    if b == [] {
      assert a + b == a;
    } else {
      assert (a + b)[..|a + b| - 1] == a + b[..|b| - 1];
      TimesOfAppend(a, b[..|b| - 1], sock);
    }
  }

  /** The list after a blast and, if it ends the game, the announcement. */
  lemma FiredPeople(r: RoomState, draw: nat, now: Timestamp)
    requires Explodes(r) && DrawDefined(r, draw, now)
    ensures var e := NotifyExplosion(r, draw, now);
      var qs := e.room.players;
      && |qs| == |r.players|
      && (forall i | 0 <= i < |qs| :: BlastedBody(r.players[i], qs[i], LitTiles(r.field, r.bombs[0]), now))
      && (e.winner.Some? ==> forall i | 0 <= i < |qs| :: qs[i].marked)
      && e.room.clientCount == r.clientCount
      && e.room.bombs == r.bombs[1..]
      && e.room.field == After(r.field, r.bombs[0]) && Clears(r.field, e.room.field)
      && e.room.state == if e.winner.Some? then GameOver else r.state
  {
    BlastedBodies(r.players, 0, LitTiles(r.field, r.bombs[0]), now);
  }

  lemma BlastKeepsGround(r: RoomState, x: RoomState)
    requires Grounded(r) && Clears(r.field, x.field) && r.bombs != [] && x.bombs == r.bombs[1..]
    requires |x.players| == |r.players| && forall i :: 0 <= i < |r.players| ==> x.players[i].guard == r.players[i].guard
    ensures Grounded(x)
  {
    ClearsTransitive(INITIAL, r.field, x.field);
    forall i | 0 <= i < |x.players|
      ensures OnOpenGround(x.players[i].guard, x.field)
    {
      GroundStaysOpen(r.players[i].guard, r.field, x.field);
    }
  }

  lemma GroundStaysOpen(g: Guard, before: Cells, after: Cells)
    requires OnOpenGround(g, before) && Clears(before, after)
    ensures OnOpenGround(g, after)
  {
    forall t | At(before, t) == NOTHIN
      ensures At(after, t) == NOTHIN
    {
    }
  }

  lemma AccountedAfterBlast(p: PlayerState, q: PlayerState, times: seq<Timestamp>, lit: iset<Tile>, now: Timestamp)
    requires Accounted(p, times) && WellApart(times) && BlastedBody(p, q, lit, now)
    ensures var after := times + if Hit(p, lit, now) then [now] else [];
      Accounted(q, after) && WellApart(after)
  {
  }

  lemma HitsAfterBlast(w: World, x: World, sock: Sock, lit: iset<Tile>, now: Timestamp)
    requires Vital(w) && Distinct(w.room.players) && |x.room.players| == |w.room.players|
    requires x.hits == w.hits + NewHits(w.room.players, lit, now)
    requires forall i | 0 <= i < |w.room.players| :: BlastedBody(w.room.players[i], x.room.players[i], lit, now)
    ensures WellApart(TimesOf(x.hits, sock))
    ensures forall i | 0 <= i < |x.room.players| && x.room.players[i].sock == sock ::
      Accounted(x.room.players[i], TimesOf(x.hits, sock))
  {
    var ps, qs := w.room.players, x.room.players;
    var before, more := TimesOf(w.hits, sock), TimesOf(NewHits(ps, lit, now), sock);
    TimesOfAppend(w.hits, NewHits(ps, lit, now), sock);
    NewHitsOf(ps, lit, now, sock);
    forall i | 0 <= i < |qs| && qs[i].sock == sock
      ensures Accounted(qs[i], before + more) && WellApart(before + more)
    {
      assert BlastedBody(ps[i], qs[i], lit, now) && ps[i].sock == sock;
      assert more == if Hit(ps[i], lit, now) then [now] else [];
      assert Accounted(ps[i], before);
      AccountedAfterBlast(ps[i], qs[i], before, lit, now);
    }
    if Present(ps, sock) {
      var i := IndexOf(ps, sock);
      assert BlastedBody(ps[i], qs[i], lit, now);
    } else {
      assert before + [] == before;
    }
  }

  lemma FiredKeepsVital(w: World, j: nat, draw: nat, now: Timestamp)
    requires Vital(w) && Distinct(w.room.players)
    requires j < |w.timers| && Explodes(w.room) && DrawDefined(w.room, draw, now)
    ensures Vital(Fired(w, j, draw, now))
  {
    var x := Fired(w, j, draw, now);
    FiredPeople(w.room, draw, now);
    forall sock
      ensures WellApart(TimesOf(x.hits, sock))
      ensures forall i | 0 <= i < |x.room.players| && x.room.players[i].sock == sock ::
        Accounted(x.room.players[i], TimesOf(x.hits, sock))
    {
      HitsAfterBlast(w, x, sock, LitTiles(w.room.field, w.room.bombs[0]), now);
    }
  }

  lemma SameNames(ps: seq<PlayerState>, qs: seq<PlayerState>)
    requires Named(ps) && |qs| == |ps|
    requires forall i :: 0 <= i < |ps| ==>
      qs[i].sock == ps[i].sock && qs[i].username == ps[i].username && qs[i].color == ps[i].color
    ensures Named(qs)
  {
  }

  lemma BlastKeepsPeople(r: RoomState, x: RoomState, now: Timestamp)
    requires Named(r.players) && Grounded(r) && r.bombs != [] && x.bombs == r.bombs[1..] && Clears(r.field, x.field)
    requires |x.players| == |r.players|
    requires forall i | 0 <= i < |x.players| ::
        BlastedBody(r.players[i], x.players[i], LitTiles(r.field, r.bombs[0]), now)
    ensures Named(x.players) && Grounded(x)
  {
    SameNames(r.players, x.players);
    BlastKeepsGround(r, x);
  }

  lemma FiredKeepsCounts(w: World, j: nat, draw: nat, now: Timestamp)
    requires Inv(w) && j < |w.timers| && DrawDefined(w.room, draw, now)
    ensures Counted(Fired(w, j, draw, now)) && Finished(Fired(w, j, draw, now))
  {
    if Explodes(w.room) {
      FiredPeople(w.room, draw, now);
    }
  }

  lemma FiredKeeps(w: World, j: nat, draw: nat, now: Timestamp)
    requires Inv(w) && j < |w.timers| && w.now <= now && w.timers[j] + FUSE_MILLIS <= now
    requires DrawDefined(w.room, draw, now)
    ensures Core(Fired(w, j, draw, now))
  {
    FiredKeepsFuses(w, j, draw, now);
    FiredKeepsCounts(w, j, draw, now);
    if Explodes(w.room) {
      FiredPeople(w.room, draw, now);
      BlastKeepsPeople(w.room, Fired(w, j, draw, now).room, now);
      FiredKeepsVital(w, j, draw, now);
    } else {
      assert Fired(w, j, draw, now).room == w.room && Fired(w, j, draw, now).hits == w.hits;
    }
  }

  // ----- disconnects

  /** Who is left after the erase, sends aside. */
  lemma SweptPeople(r: RoomState, now: Timestamp)
    requires Distinct(r.players)
    ensures var t := SweepFrom(Sweep(r.players, [], []), 0, r.state == Play, now);
      var rest := Keep(t.players, t.gone);
      && Distinct(rest)
      && forall q | q in rest :: exists i :: 0 <= i < |r.players| && SameBody(r.players[i], q) && !r.players[i].marked
  {
    var s := Sweep(r.players, [], []);
    var t := SweepFrom(s, 0, r.state == Play, now);
    SweepKeeps(s, 0, r.state == Play, now);
    SweepGone(s, 0, r.state == Play, now);
    var rest := Keep(t.players, t.gone);
    KeepDistinct(t.players, t.gone);
    KeepMembers(t.players, t.gone);
    forall q | q in rest
      ensures exists i :: 0 <= i < |r.players| && SameBody(r.players[i], q) && !r.players[i].marked
    {
      var i :| 0 <= i < |t.players| && t.players[i] == q;
      assert SameBody(r.players[i], q);
    }
  }

  lemma DisconnectedState(r: RoomState, now: Timestamp)
    ensures var d := DisconnectPlayers(r, now);
      && (d.room.players == [] || |d.room.players| >= 2)
      && (d.room.state == if d.room.players == [] then GameOver else r.state)
  {
  }

  /** Who is left after `DisconnectPlayers`, sends aside, in the old order. */
  lemma DisconnectedPeople(r: RoomState, now: Timestamp)
    requires Distinct(r.players)
    ensures var d := DisconnectPlayers(r, now);
      && Distinct(d.room.players)
      && (forall q | q in d.room.players ::
            exists i :: 0 <= i < |r.players| && SameBody(r.players[i], q) && !r.players[i].marked)
      && (d.room.players == [] || |d.room.players| >= 2)
      && (d.room.state == if d.room.players == [] then GameOver else r.state)
      && ((forall i | 0 <= i < |r.players| :: r.players[i].marked) ==> d.winner == None && d.room.players == [])
  {
    SweptPeople(r, now);
    DisconnectedState(r, now);
    var t := SweepFrom(Sweep(r.players, [], []), 0, r.state == Play, now);
    var rest := Keep(t.players, t.gone);
    var d := DisconnectPlayers(r, now);
    assert d.room.players == if |rest| == 1 then [] else rest;
    assert |rest| > 0 ==> rest[0] in rest;
  }

  /** The atomic bombs stand where players stood: strictly inside the field. */
  lemma DisconnectedBombs(r: RoomState, now: Timestamp)
    requires Grounded(r)
    ensures var d := DisconnectPlayers(r, now);
      && d.room.bombs == r.bombs + d.dropped
      && (forall i | 0 <= i < |d.dropped| ::
            d.dropped[i].plantTime == now && d.dropped[i].isAtomic && Inside(d.dropped[i].pos))
      && (r.state != Play ==> d.dropped == [])
      && d.room.field == r.field && d.room.clientCount == r.clientCount
  {
    var s := Sweep(r.players, [], []);
    SweepDropped(s, 0, r.state == Play, now);
    var d := DisconnectPlayers(r, now);
    forall i | 0 <= i < |d.dropped|
      ensures d.dropped[i].plantTime == now && d.dropped[i].isAtomic && Inside(d.dropped[i].pos)
    {
      assert d.dropped[i] in d.dropped;
      var j :| 0 <= j < |r.players| && d.dropped[i] == Bomb(r.players[j].guard.coords, 9, now, true);
      assert OnOpenGround(r.players[j].guard, r.field);
      OpenIsInside(r.field, r.players[j].guard.coords);
    }
  }

  lemma PostKeepsFuses(w: World, now: Timestamp, armed: Timestamp)
    requires Core(w) && w.now <= now <= armed
    ensures Fused(Post(w, now, armed))
  {
    var n := |DisconnectPlayers(w.room, now).dropped|;
    DisconnectedBombs(w.room, now);
    DisconnectedState(w.room, now);
    SortedMore(w.planted, w.now, now, n, armed);
    SortedMore(w.timers, w.now, armed, n, armed);
    assert w.room.state == WaitForStart ==> Post(w, now, armed).room.bombs == w.room.bombs;
  }

  lemma SortedMore(s: seq<Timestamp>, top: Timestamp, x: Timestamp, n: nat, later: Timestamp)
    requires Sorted(s, top) && top <= x <= later
    ensures Sorted(s + Repeat(x, n), later)
  {
  }

  lemma PostKeepsPeople(w: World, now: Timestamp, armed: Timestamp)
    requires Core(w) && w.now <= now <= armed
    ensures var x := Post(w, now, armed);
      Named(x.room.players) && Grounded(x.room) && Vital(x)
  {
    var x := Post(w, now, armed);
    var ps, qs := w.room.players, x.room.players;
    DisconnectedBombs(w.room, now);
    DisconnectedPeople(w.room, now);
    forall i | 0 <= i < |qs|
      ensures qs[i].username != "" && IsColor(qs[i].color)
      ensures OnOpenGround(qs[i].guard, x.room.field)
      ensures Accounted(qs[i], TimesOf(x.hits, qs[i].sock))
    {
      assert qs[i] in qs;
      var j :| 0 <= j < |ps| && SameBody(ps[j], qs[i]) && !ps[j].marked;
      StaysWell(w, j, qs[i]);
    }
  }

  lemma StaysWell(w: World, j: nat, q: PlayerState)
    requires Named(w.room.players) && Grounded(w.room) && Vital(w)
    requires j < |w.room.players| && SameBody(w.room.players[j], q)
    ensures q.username != "" && IsColor(q.color)
    ensures OnOpenGround(q.guard, w.room.field) && Accounted(q, TimesOf(w.hits, q.sock))
  {
  }

  /** `handleRoomPostEvent` keeps every invariant and leaves the room settled. */
  lemma PostKeeps(w: World, now: Timestamp, armed: Timestamp)
    requires Core(w) && w.now <= now <= armed
    ensures Inv(Post(w, now, armed))
  {
    PostKeepsFuses(w, now, armed);
    PostKeepsPeople(w, now, armed);
    DisconnectedPeople(w.room, now);
    DisconnectedBombs(w.room, now);
    var qs := Post(w, now, armed).room.players;
    assert forall i | 0 <= i < |qs| :: qs[i] in qs;
  }
}
