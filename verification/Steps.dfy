/** A step of a room before its disconnects, and what they leave of it. */
module Steps {
  import opened Grid
  import opened Messages
  import opened MoveGuard
  import opened RoomSpec
  import opened RoomFacts
  import opened RoomRun
  import opened RoomInvariants
  import opened RoomTheorems

  /** The room once the event itself is dealt with. */
  ghost function Middle(w: World, e: Event): World
    requires Enabled(w, e)
  {
    match e
    case Join(sock, username, faults, clock) => Next(w, e)
    case Hear(sock, msg, clock) => Heard(w, IndexOf(w.room.players, sock), msg, clock[0], clock[1])
    case Lose(sock, clock) => Marked(w, IndexOf(w.room.players, sock), clock[0])
    case Fire(timer, draw, clock) => Fired(w, timer, draw, clock[0])
  }

  lemma MiddleIsCore(w: World, e: Event)
    requires Inv(w) && Enabled(w, e)
    ensures Core(Middle(w, e))
  {
    match e
    case Join(sock, username, faults, clock) => JoinedKeeps(w, sock, username, faults, clock[0]);
    case Hear(sock, msg, clock) => HeardKeeps(w, IndexOf(w.room.players, sock), msg, clock[0], clock[1]);
    case Lose(sock, clock) => MarkedKeeps(w, IndexOf(w.room.players, sock), clock[0]);
    case Fire(timer, draw, clock) => FiredKeeps(w, timer, draw, clock[0]);
  }

  /** `q` is one of the unmarked of `ps`, some sends later. */
  ghost predicate StayedOn(ps: seq<PlayerState>, q: PlayerState) {
    exists i :: 0 <= i < |ps| && SameBody(ps[i], q) && !ps[i].marked
  }

  lemma PostStays(w: World, now: Timestamp, armed: Timestamp, q: PlayerState)
    requires Core(w) && q in Post(w, now, armed).room.players
    ensures StayedOn(w.room.players, q)
  {
    DisconnectedPeople(w.room, now);
  }

  lemma StayedTwice(ps: seq<PlayerState>, p: PlayerState, q: PlayerState)
    requires StayedOn(ps, p) && SameBody(p, q)
    ensures StayedOn(ps, q)
  {
    var i :| 0 <= i < |ps| && SameBody(ps[i], p) && !ps[i].marked;
    assert SameBody(ps[i], q);
  }

  /** Its socket tells which. */
  lemma StayedAs(ps: seq<PlayerState>, i: nat, q: PlayerState)
    requires StayedOn(ps, q) && Distinct(ps) && i < |ps| && ps[i].sock == q.sock
    ensures SameBody(ps[i], q) && !ps[i].marked
  {
    var j :| 0 <= j < |ps| && SameBody(ps[j], q) && !ps[j].marked;
    assert ps[j].sock == ps[i].sock;
  }

  /** Whoever is there after a step, joins aside, was there and unmarked before its
      disconnects, and only sends happened to it since. */
  lemma WhoStays(w: World, e: Event, q: PlayerState)
    requires Inv(w) && Enabled(w, e) && !e.Join? && q in Next(w, e).room.players
    ensures StayedOn(Middle(w, e).room.players, q)
  {
    var mid := Middle(w, e);
    MiddleIsCore(w, e);
    match e
    case Hear(_, _, clock) =>
      var once := Post(mid, clock[2], clock[3]);
      PostKeeps(mid, clock[2], clock[3]);
      PostStays(once, clock[4], clock[5], q);
      var i :| 0 <= i < |once.room.players| && SameBody(once.room.players[i], q) && !once.room.players[i].marked;
      PostStays(mid, clock[2], clock[3], once.room.players[i]);
      StayedTwice(mid.room.players, once.room.players[i], q);
    case Lose(_, clock) => PostStays(mid, clock[0], clock[1], q);
    case Fire(_, _, clock) => PostStays(mid, clock[1], clock[2], q);
  }

  // ----- where players stand

  /** A message moves nobody but its author, and that only if it asks to move, along its
      row or its column, to open ground. */
  lemma HeardGuards(r: RoomState, k: nat, msg: ClientMsg, now: Timestamp, i: nat)
    requires k < |r.players| && i < |r.players|
    ensures var p, q := r.players[i].guard, HandleMessage(r, k, msg, now).0.players[i].guard;
      || q.coords == p.coords
      || (i == k && msg.IMove? && q.coords == msg.to && InLine(p.coords, msg.to) && At(r.field, msg.to) == NOTHIN)
  {
    if msg.IMove? {
      LetThroughExactly(r.players[k].guard, Request(msg.to, now));
    }
  }

  lemma MiddleGuards(w: World, e: Event, i: nat)
    requires Enabled(w, e) && !e.Join? && i < |w.room.players|
    ensures |Middle(w, e).room.players| == |w.room.players|
    ensures var p, q := w.room.players[i], Middle(w, e).room.players[i];
      && q.sock == p.sock
      && (q.guard.coords == p.guard.coords
          || (&& e.Hear? && e.sock == p.sock && e.msg.IMove? && q.guard.coords == e.msg.to
              && InLine(p.guard.coords, e.msg.to) && At(w.room.field, e.msg.to) == NOTHIN))
  {
    match e
    case Hear(sock, msg, clock) =>
      HandleMessageKeepsPeople(w.room, IndexOf(w.room.players, sock), msg, clock[0]);
      HeardGuards(w.room, IndexOf(w.room.players, sock), msg, clock[0], i);
    case Lose(_, _) =>
    case Fire(_, draw, clock) =>
      if Explodes(w.room) {
        FiredPeople(w.room, draw, clock[0]);
      }
  }

  /** In every run a step takes a player's tile along its row or its column only, to open
      ground, and only at its own request. */
  lemma StraightOrNotAtAll(w: World, e: Event, i: nat, q: PlayerState)
    requires Reachable(w) && Enabled(w, e) && !e.Join? && i < |w.room.players|
    requires q in Next(w, e).room.players && q.sock == w.room.players[i].sock
    ensures var p := w.room.players[i];
      || q.guard.coords == p.guard.coords
      || (&& e.Hear? && e.sock == p.sock && e.msg.IMove? && q.guard.coords == e.msg.to
          && (e.msg.to.x == p.guard.coords.x || e.msg.to.y == p.guard.coords.y)
          && At(w.room.field, e.msg.to) == NOTHIN)
  {
    ReachableIsGood(w);
    MiddleIsCore(w, e);
    MiddleGuards(w, e, i);
    WhoStays(w, e, q);
    StayedAs(Middle(w, e).room.players, i, q);
  }
}
