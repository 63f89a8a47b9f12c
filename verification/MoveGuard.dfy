/** The rate limiter on movement: a ring of the last five recorded moves. */
module MoveGuard {
  import opened Grid
  import opened Messages

  const HISTORY := 5
  const PLAYER_SUS_TRESHHOLD_MILLIS := 50

  datatype MovementEntry = MovementEntry(ts: Timestamp, coords: Tile)

  const BLANK := MovementEntry(0, Tile(0, 0))

  type Ring = s: seq<MovementEntry> | |s| == HISTORY witness [BLANK, BLANK, BLANK, BLANK, BLANK]

  /** The movement part of a player. */
  datatype Guard = Guard(coords: Tile, moveHistory: Ring, step: nat)

  function NewGuard(spawn: Tile): Guard {
    Guard(spawn, [BLANK, BLANK, BLANK, BLANK, BLANK], 0)
  }

  /** Requests turned down before they count as a step: off the field, or diagonal. */
  predicate Refused(g: Guard, to: Tile) {
    to.x < 0 || to.y < 0 || (to.x != g.coords.x && to.y != g.coords.y)
  }

  /** The slot compared at step `step`, five slots back in the ring and one forward. */
  function OldestSlot(step: nat): nat {
    if step % HISTORY == HISTORY - 1 then 0 else step % HISTORY + 1
  }

  /** `MoveCheckSus`: the new movement state and the tile to throw the player back to. */
  function MoveCheck(g: Guard, to: Tile, now: Timestamp): (r: (Guard, Option<Tile>))
    ensures r.1.Some? ==> r.0.coords == g.coords && r.0.moveHistory == g.moveHistory
    ensures r.1.None? ==> r.0.coords == to
  {
    if Refused(g, to) then (g, Some(g.coords))
    else if g.step + 1 < 6 then (g.(coords := to, step := g.step + 1), None)
    else
      var step := g.step + 1;
      var oldest := g.moveHistory[OldestSlot(step)];
      if now - oldest.ts < PLAYER_SUS_TRESHHOLD_MILLIS then (g.(step := 0), Some(oldest.coords))
      else (Guard(to, g.moveHistory[step % HISTORY := MovementEntry(now, to)], step), None)
  }

  /** On the field's side of its edges at zero, and on the player's row or column. */
  predicate InLine(from: Tile, to: Tile) {
    to.x >= 0 && to.y >= 0 && (to.x == from.x || to.y == from.y)
  }

  // ----- runs

  datatype Request = Request(to: Tile, now: Timestamp)

  /** Clock readings never decrease. */
  predicate Ordered(since: Timestamp, rs: seq<Request>)
    decreases rs
  {
    rs == [] || (since <= rs[0].now && Ordered(rs[0].now, rs[1..]))
  }

  function GuardAfter(g: Guard, rs: seq<Request>): (h: Guard)
    decreases rs
  {
    if rs == [] then g else GuardAfter(MoveCheck(g, rs[0].to, rs[0].now).0, rs[1..])
  }

  /** A speed correction resets the step counter; nothing else turns a counted
      request down. */
  predicate SpeedCorrected(g: Guard, r: Request)
  {
    InLine(g.coords, r.to) && MoveCheck(g, r.to, r.now).1.Some?
  }

  predicate NoSpeedCorrection(g: Guard, rs: seq<Request>)
    decreases rs
  {
    rs == [] || (!SpeedCorrected(g, rs[0]) && NoSpeedCorrection(MoveCheck(g, rs[0].to, rs[0].now).0, rs[1..]))
  }

  /** The time entered in the ring by a request, if any. */
  function Entered(g: Guard, r: Request): seq<Timestamp> {
    var next := MoveCheck(g, r.to, r.now);
    if next.1.None? && next.0.step >= 6 then [r.now] else []
  }

  /** The times of the moves entered in the ring over a run. */
  function Recorded(g: Guard, rs: seq<Request>): seq<Timestamp>
    decreases rs
  {
    if rs == [] then [] else Entered(g, rs[0]) + Recorded(MoveCheck(g, rs[0].to, rs[0].now).0, rs[1..])
  }

  /** In the middle of a stretch: `past` are the times recorded since step 0, and the
      ring holds the last five of them, move number i in slot (6 + i) mod 5. */
  ghost predicate RingHolds(g: Guard, past: seq<Timestamp>) {
    && |past| == (if g.step < 6 then 0 else g.step - 5)
    && forall i | 0 <= i < |past| && |past| - HISTORY <= i :: g.moveHistory[(6 + i) % HISTORY].ts == past[i]
  }

  /** Times never run backwards and any move is at least 50 ms after the fourth before it. */
  ghost predicate Spaced(times: seq<Timestamp>) {
    && (forall i, j :: 0 <= i <= j < |times| ==> times[i] <= times[j])
    && forall i :: 0 <= i && i + 4 < |times| ==> times[i + 4] - times[i] >= PLAYER_SUS_TRESHHOLD_MILLIS
  }

  /** One uncorrected request keeps the ring in step and the recorded times spaced. */
  lemma RingStep(g: Guard, past: seq<Timestamp>, r: Request)
    requires RingHolds(g, past) && Spaced(past) && (past != [] ==> past[|past| - 1] <= r.now)
    requires !SpeedCorrected(g, r)
    ensures RingHolds(MoveCheck(g, r.to, r.now).0, past + Entered(g, r)) && Spaced(past + Entered(g, r))
  {
    var next := MoveCheck(g, r.to, r.now);
    if next.1.None? && next.0.step >= 6 {
      var n := |past|;
      var times := past + [r.now];
      if n >= 4 {
        FourBefore(6 + n);
        assert g.moveHistory[(6 + (n - 4)) % HISTORY].ts == past[n - 4];
      }
      SpacedSnoc(past, r.now);
      forall i | 0 <= i < |times| && |times| - HISTORY <= i
        ensures next.0.moveHistory[(6 + i) % HISTORY].ts == times[i]
      {
        if i < n {
          SlotsDiffer(6 + i, 6 + n);
        }
      }
    } else {
      assert past + [] == past;
    }
  }

  lemma SpacedSnoc(past: seq<Timestamp>, now: Timestamp)
    requires Spaced(past) && (past != [] ==> past[|past| - 1] <= now)
    requires |past| >= 4 ==> now - past[|past| - 4] >= PLAYER_SUS_TRESHHOLD_MILLIS
    ensures Spaced(past + [now])
  {
  }

  lemma FourBefore(step: nat)
    requires step >= 4
    ensures OldestSlot(step) == (step - 4) % HISTORY
  {
  }

  lemma SlotsDiffer(i: nat, j: nat)
    requires i < j < i + HISTORY
    ensures i % HISTORY != j % HISTORY
  {
  }

  lemma LastEntered(g: Guard, past: seq<Timestamp>, r: Request, since: Timestamp)
    requires (past != [] ==> past[|past| - 1] <= since) && since <= r.now
    ensures var times := past + Entered(g, r); times != [] ==> times[|times| - 1] <= r.now
  {
  }

  lemma RecordedSplits(g: Guard, past: seq<Timestamp>, rs: seq<Request>)
    requires rs != []
    ensures past + Recorded(g, rs)
         == past + Entered(g, rs[0]) + Recorded(MoveCheck(g, rs[0].to, rs[0].now).0, rs[1..])
  {
  }

  lemma {:induction false} StretchSpaced(g: Guard, past: seq<Timestamp>, rs: seq<Request>, since: Timestamp)
    requires RingHolds(g, past) && Spaced(past) && (past != [] ==> past[|past| - 1] <= since)
    requires Ordered(since, rs) && NoSpeedCorrection(g, rs)
    ensures Spaced(past + Recorded(g, rs))
    decreases rs
  {
    if rs == [] {
      assert past + [] == past;
    } else {
      var next, times := MoveCheck(g, rs[0].to, rs[0].now).0, past + Entered(g, rs[0]);
      RingStep(g, past, rs[0]);
      LastEntered(g, past, rs[0], since);
      StretchSpaced(next, times, rs[1..], rs[0].now);
      RecordedSplits(g, past, rs);
    }
  }

  /** 50 * floor((n - 1) / 4) ms. */
  function LeastSpan(n: nat): int
    requires 1 <= n
  {
    50 * ((n - 1) / 4)
  }

  lemma {:induction false} SpacedSpan(times: seq<Timestamp>, first: nat, n: nat)
    requires Spaced(times) && 1 <= n && first + n <= |times|
    ensures times[first + n - 1] - times[first] >= LeastSpan(n)
    decreases n
  {
    if n > 4 {
      SpacedSpan(times, first + 4, n - 4);
      assert first + 4 + (n - 4) - 1 == first + n - 1;
      assert (n - 1) / 4 == (n - 4 - 1) / 4 + 1;
      assert LeastSpan(n) == LeastSpan(n - 4) + PLAYER_SUS_TRESHHOLD_MILLIS;
      assert times[first + 4] - times[first] >= PLAYER_SUS_TRESHHOLD_MILLIS;
    }
  }

  /** The limit: between two speed corrections, any `n` consecutive moves in the ring
      span at least 50 * floor((n - 1) / 4) ms, whatever the ring held before. */
  lemma RateLimit(g: Guard, rs: seq<Request>, since: Timestamp, first: nat, n: nat)
    requires g.step == 0
    requires Ordered(since, rs) && NoSpeedCorrection(g, rs)
    requires 1 <= n && first + n <= |Recorded(g, rs)|
    ensures var times := Recorded(g, rs);
      times[first + n - 1] - times[first] >= LeastSpan(n)
  {
    StretchSpaced(g, [], rs, since);
    assert [] + Recorded(g, rs) == Recorded(g, rs);
    SpacedSpan(Recorded(g, rs), first, n);
  }

  // ----- what the limit leaves out

  /** A request out of line is thrown back to where the player stands, and nothing changes. */
  lemma OutOfLine(g: Guard, to: Tile, now: Timestamp)
    requires !InLine(g.coords, to)
    ensures MoveCheck(g, to, now) == (g, Some(g.coords))
  {
  }

  /** A request in line counts as a step. The first five are accepted and leave the ring
      alone; from the sixth on it is compared with the move recorded four before, and either
      thrown back there, the count starting again, or accepted and recorded. */
  lemma LineOfMoves(g: Guard, to: Tile, now: Timestamp)
    requires InLine(g.coords, to)
    ensures var n := g.step + 1;
      MoveCheck(g, to, now) ==
      if n <= 5 then (Guard(to, g.moveHistory, n), None)
      else if now - g.moveHistory[(n - 4) % 5].ts < 50
      then (Guard(g.coords, g.moveHistory, 0), Some(g.moveHistory[(n - 4) % 5].coords))
      else (Guard(to, g.moveHistory[n % 5 := MovementEntry(now, to)], n), None)
  {
    if g.step >= 5 {
      FourBefore(g.step + 1);
    }
  }

  /** Exactly when a request is let through. */
  lemma LetThroughExactly(g: Guard, r: Request)
    ensures MoveCheck(g, r.to, r.now).1.None? <==>
      InLine(g.coords, r.to) && (g.step < 5 || r.now - g.moveHistory[(g.step - 3) % 5].ts >= 50)
  {
    if InLine(g.coords, r.to) {
      LineOfMoves(g, r.to, r.now);
    } else {
      OutOfLine(g, r.to, r.now);
    }
  }

  lemma {:induction false} StepsCount(g: Guard, rs: seq<Request>)
    ensures GuardAfter(g, rs).step <= g.step + |rs|
    decreases rs
  {
    if rs != [] {
      StepsCount(MoveCheck(g, rs[0].to, rs[0].now).0, rs[1..]);
    }
  }

  /** The limit covers recorded moves only: the first five steps after a correction are
      let through at any time, whatever the ring holds. */
  lemma FirstFiveMovesAreFree(g: Guard, rs: seq<Request>, r: Request)
    requires g.step + |rs| < 5 && InLine(GuardAfter(g, rs).coords, r.to)
    ensures MoveCheck(GuardAfter(g, rs), r.to, r.now).1.None?
  {
    StepsCount(g, rs);
    LetThroughExactly(GuardAfter(g, rs), r);
  }

  predicate AllInLine(g: Guard, rs: seq<Request>)
    decreases rs
  {
    rs == [] || (InLine(g.coords, rs[0].to) && AllInLine(MoveCheck(g, rs[0].to, rs[0].now).0, rs[1..]))
  }

  /** How many requests of a run are let through. */
  function LetThrough(g: Guard, rs: seq<Request>): nat
    decreases rs
  {
    if rs == [] then 0
    else
      var next := MoveCheck(g, rs[0].to, rs[0].now);
      (if next.1.None? then 1 else 0) + LetThrough(next.0, rs[1..])
  }

  /** A correction takes back the count of steps and nothing else, so it comes once in
      six requests at most, however fast they come. */
  lemma {:induction false} OneInSixIsCorrected(g: Guard, rs: seq<Request>)
    requires AllInLine(g, rs)
    ensures 6 * (|rs| - LetThrough(g, rs)) <= |rs| + if g.step < 5 then g.step else 5
    decreases rs
  {
    if rs != [] {
      OneInSixIsCorrected(MoveCheck(g, rs[0].to, rs[0].now).0, rs[1..]);
    }
  }

  lemma {:induction false} OwnColumnIsInLine(g: Guard, rs: seq<Request>)
    requires g.coords.x >= 0 && forall i :: 0 <= i < |rs| ==> rs[i].to.x == g.coords.x && rs[i].to.y >= 0
    ensures AllInLine(g, rs)
    decreases rs
  {
    if rs != [] {
      var next := MoveCheck(g, rs[0].to, rs[0].now).0;
      assert forall i | 0 <= i < |rs[1..]| :: rs[1..][i] == rs[i + 1];
      OwnColumnIsInLine(next, rs[1..]);
    }
  }

  /** Up and down its own column, `n` times over, all at one instant. */
  function Bounce(at: Tile, now: Timestamp, n: nat): (rs: seq<Request>)
    ensures |rs| == 2 * n && forall i :: 0 <= i < |rs| ==> rs[i].now == now
  {
    seq(2 * n, i => Request(Tile(at.x, at.y + if i % 2 == 0 then 1 else 0), now))
  }

  /** So there is no bound on the moves a player gets through at one instant. */
  lemma NoLimitAcrossCorrections(g: Guard, now: Timestamp, n: nat)
    requires g.coords.x >= 0 && g.coords.y >= 0
    ensures LetThrough(g, Bounce(g.coords, now, n)) >= n
  {
    OwnColumnIsInLine(g, Bounce(g.coords, now, n));
    OneInSixIsCorrected(g, Bounce(g.coords, now, n));
  }

  // ----- where corrections send a player

  /** The tiles a run has accepted. */
  ghost function Accepted(g: Guard, rs: seq<Request>): set<Tile>
    decreases rs
  {
    if rs == [] then {}
    else
      var next := MoveCheck(g, rs[0].to, rs[0].now);
      (if next.1.None? then {rs[0].to} else {}) + Accepted(next.0, rs[1..])
  }

  /** Every used slot of the ring, and the player, is on a tile of `seen`. */
  ghost predicate RingWithin(g: Guard, seen: set<Tile>) {
    && g.coords in seen
    && forall i | 0 <= i < HISTORY :: g.moveHistory[i] == BLANK || g.moveHistory[i].coords in seen
  }

  lemma RingWithinStep(g: Guard, seen: set<Tile>, r: Request)
    requires RingWithin(g, seen) && r.now >= PLAYER_SUS_TRESHHOLD_MILLIS
    ensures var next := MoveCheck(g, r.to, r.now);
      && RingWithin(next.0, seen + if next.1.None? then {r.to} else {})
      && (next.1.Some? ==> next.1.value in seen)
  {
  }

  /** A correction always names the tile the player is on or one they were accepted
      on earlier: never the blank entry the ring starts with. */
  lemma {:induction false} CorrectionsAreRealPlaces(g: Guard, seen: set<Tile>, rs: seq<Request>, r: Request,
          since: Timestamp)
    requires RingWithin(g, seen) && PLAYER_SUS_TRESHHOLD_MILLIS <= since && Ordered(since, rs + [r])
    ensures var last := MoveCheck(GuardAfter(g, rs), r.to, r.now).1;
      last.Some? ==> last.value in seen + Accepted(g, rs)
    decreases rs
  {
    if rs == [] {
      assert r == ([] + [r])[0];
      RingWithinStep(g, seen, r);
    } else {
      assert (rs + [r])[0] == rs[0] && (rs + [r])[1..] == rs[1..] + [r];
      RingWithinStep(g, seen, rs[0]);
      var next := MoveCheck(g, rs[0].to, rs[0].now);
      CorrectionsAreRealPlaces(next.0, seen + if next.1.None? then {rs[0].to} else {}, rs[1..], r, rs[0].now);
    }
  }
}
