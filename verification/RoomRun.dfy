/** Runs of one room together with its bomb timers: what every step keeps. */
module RoomRun {
  import opened Grid
  import opened Blast
  import opened Messages
  import opened RoomSpec
  import opened RoomFacts

  datatype HitRecord = HitRecord(sock: Sock, at: Timestamp)

  /** A room, its armed timers in the order they were armed, and what has happened
      so far: bombs planted and popped, players removed (and removed before the game
      began), winners announced, hits taken. */
  datatype World = World(
    room: RoomState,
    timers: seq<Timestamp>,
    now: Timestamp,
    planted: seq<Timestamp>,
    popped: nat,
    removed: nat,
    removedEarly: nat,
    winners: seq<string>,
    hits: seq<HitRecord>)

  function NewWorld(now: Timestamp): World {
    World(NEW_ROOM, [], now, [], 0, 0, 0, [], [])
  }

  // ----- the parts of a step

  function Joined(w: World, sock: Sock, username: string, faults: set<nat>, now: Timestamp): World
    requires w.room.state == WaitForStart && IsColor(|w.room.players|)
  {
    w.(room := JoinPlayer(w.room, sock, username, faults, now), now := now)
  }

  /** A message handled, and its bomb timer armed at `armed`. */
  function Heard(w: World, k: nat, msg: ClientMsg, now: Timestamp, armed: Timestamp): World
    requires k < |w.room.players|
  {
    var (room, plants) := HandleMessage(w.room, k, msg, now);
    if plants then w.(room := room, timers := w.timers + [armed], planted := w.planted + [now], now := armed)
    else w.(room := room, now := armed)
  }

  function Marked(w: World, k: nat, now: Timestamp): World
    requires k < |w.room.players|
  {
    w.(room := w.room.(players := w.room.players[k := w.room.players[k].(marked := true)]), now := now)
  }

  ghost function NewHits(ps: seq<PlayerState>, lit: iset<Tile>, now: Timestamp): seq<HitRecord> {
    if ps == [] then []
    else (if Hit(ps[0], lit, now) then [HitRecord(ps[0].sock, now)] else []) + NewHits(ps[1..], lit, now)
  }

  function Winners(won: Option<string>): seq<string> {
    if won.Some? then [won.value] else []
  }

  /** Timer number `j` goes off. */
  ghost function Fired(w: World, j: nat, draw: nat, now: Timestamp): World
    requires j < |w.timers| && DrawDefined(w.room, draw, now)
  {
    var e := NotifyExplosion(w.room, draw, now);
    var x := w.(room := e.room, timers := w.timers[..j] + w.timers[j + 1..],
                winners := w.winners + Winners(e.winner), now := now);
    if Explodes(w.room)
    then x.(popped := w.popped + 1,
            hits := w.hits + NewHits(w.room.players, LitTiles(w.room.field, w.room.bombs[0]), now))
    else x
  }

  function Repeat<T>(x: T, n: nat): (s: seq<T>)
    ensures |s| == n && forall i :: 0 <= i < n ==> s[i] == x
  {
    seq(n, _ => x)
  }

  /** `handleRoomPostEvent`: disconnects, then one timer per atomic bomb dropped. */
  function Post(w: World, now: Timestamp, armed: Timestamp): World {
    var d := DisconnectPlayers(w.room, now);
    w.(room := d.room,
       timers := w.timers + Repeat(armed, |d.dropped|),
       planted := w.planted + Repeat(now, |d.dropped|),
       removed := w.removed + (|w.room.players| - |d.room.players|),
       removedEarly := w.removedEarly + if w.room.state == WaitForStart then |w.room.players| - |d.room.players| else 0,
       winners := w.winners + Winners(d.winner),
       now := armed)
  }

  // ----- steps and runs

  /** One section under the server's lock; `clock` are its readings of the clock. */
  datatype Event =
    | Join(sock: Sock, username: string, faults: set<nat>, clock: seq<Timestamp>)
    | Hear(sock: Sock, msg: ClientMsg, clock: seq<Timestamp>)
    | Lose(sock: Sock, clock: seq<Timestamp>)
    | Fire(timer: nat, draw: nat, clock: seq<Timestamp>)

  function Readings(e: Event): nat {
    match e
    case Join(_, _, _, _) => 1
    case Hear(_, _, _) => 6
    case Lose(_, _) => 2
    case Fire(_, _, _) => 3
  }

  predicate ClockRuns(since: Timestamp, e: Event) {
    && |e.clock| == Readings(e)
    && since <= e.clock[0]
    && forall i :: 0 < i < |e.clock| ==> e.clock[i - 1] <= e.clock[i]
  }

  /** Requested coordinates are in range: `getSquareState` does not look. */
  predicate InRange(msg: ClientMsg) {
    && (msg.IMove? ==> InGrid(msg.to))
    && (msg.IPlaceBomb? ==> Inside(msg.at))
  }

  /** `runRooms` reads from players that are neither marked nor in a finished room. */
  predicate Listens(w: World, sock: Sock) {
    && Present(w.room.players, sock)
    && !w.room.players[IndexOf(w.room.players, sock)].marked
    && w.room.state != GameOver
  }

  ghost predicate Enabled(w: World, e: Event) {
    && ClockRuns(w.now, e)
    && match e
       case Join(sock, username, _, _) =>
         CanJoin(w.room, username) && w.room.state == WaitForStart && !Present(w.room.players, sock)
       case Hear(sock, msg, _) => Listens(w, sock) && InRange(msg)
       case Lose(sock, _) => Listens(w, sock)
       case Fire(timer, draw, clock) =>
         timer < |w.timers| && w.timers[timer] + FUSE_MILLIS <= clock[0] && DrawDefined(w.room, draw, clock[0])
  }

  /** A room message is followed by the disconnects twice over. A join that found no
      colour would throw; no reachable room gets there. */
  ghost function Next(w: World, e: Event): World
    requires Enabled(w, e)
  {
    match e
    case Join(sock, username, faults, clock) =>
      if IsColor(|w.room.players|) then Joined(w, sock, username, faults, clock[0]) else w
    case Hear(sock, msg, clock) =>
      var heard := Heard(w, IndexOf(w.room.players, sock), msg, clock[0], clock[1]);
      Post(Post(heard, clock[2], clock[3]), clock[4], clock[5])
    case Lose(sock, clock) =>
      Post(Marked(w, IndexOf(w.room.players, sock), clock[0]), clock[0], clock[1])
    case Fire(timer, draw, clock) => Post(Fired(w, timer, draw, clock[0]), clock[1], clock[2])
  }

  ghost predicate ValidRun(w: World, es: seq<Event>)
    decreases es
  {
    es == [] || (Enabled(w, es[0]) && ValidRun(Next(w, es[0]), es[1..]))
  }

  ghost function Run(w: World, es: seq<Event>): World
    requires ValidRun(w, es)
    decreases es
  {
    if es == [] then w else Run(Next(w, es[0]), es[1..])
  }
}
