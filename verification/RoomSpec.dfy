/** One game room as a value: the effect of each of its operations, sends included. */
module RoomSpec {
  import opened Grid
  import opened Blast
  import opened Messages
  import opened MoveGuard

  const MAX_PLAYERS := 4
  const STARTER_LIVES := 3
  const IMMUNITY_TIME_MILLIS := 500

  datatype PlayerState = PlayerState(
    sock: Sock,
    username: string,
    color: int,
    livesRemaining: int,
    immunityEnd: Timestamp,
    marked: bool,
    guard: Guard,
    link: Link)

  datatype GameState = WaitForStart | Play | WaitForEnd | GameOver

  datatype RoomState = RoomState(
    players: seq<PlayerState>,
    bombs: seq<Bomb>,
    state: GameState,
    clientCount: nat,
    field: Cells)

  const NEW_ROOM := RoomState([], [], WaitForStart, 0, INITIAL)

  // ----- sends

  function Send(p: PlayerState, m: ServerMsg): PlayerState {
    p.(marked := p.marked || Fails(p.link), link := Attempt(p.link, m))
  }

  function Broadcast(ps: seq<PlayerState>, m: ServerMsg): (qs: seq<PlayerState>)
    ensures |qs| == |ps|
  {
    seq(|ps|, i requires 0 <= i < |ps| => Send(ps[i], m))
  }

  function SendExcept(ps: seq<PlayerState>, k: int, m: ServerMsg): (qs: seq<PlayerState>)
    ensures |qs| == |ps|
  {
    seq(|ps|, i requires 0 <= i < |ps| => if i == k then ps[i] else Send(ps[i], m))
  }

  function SendOne(ps: seq<PlayerState>, k: nat, m: ServerMsg): (qs: seq<PlayerState>)
    requires k < |ps|
    ensures |qs| == |ps|
  {
    ps[k := Send(ps[k], m)]
  }

  // ----- joining

  predicate HasName(ps: seq<PlayerState>, username: string) {
    exists i :: 0 <= i < |ps| && ps[i].username == username
  }

  /** `CanJoin` gives no reason for rejection. */
  predicate CanJoin(r: RoomState, username: string) {
    username != "" && !HasName(r.players, username) && r.clientCount != MAX_PLAYERS
  }

  predicate IsColor(color: int) {
    0 <= color <= 3
  }

  /** The corner a colour starts in; the constructor throws for any other colour. */
  function Spawn(color: int): Tile
    requires IsColor(color)
  {
    match color
    case 0 => Tile(1, 1)
    case 1 => Tile(15, 1)
    case 2 => Tile(1, 9)
    case 3 => Tile(15, 9)
  }

  function NewPlayer(sock: Sock, username: string, color: int, faults: set<nat>, now: Timestamp): PlayerState
    requires IsColor(color)
  {
    PlayerState(sock, username, color, STARTER_LIVES, now, false, NewGuard(Spawn(color)), Link(faults, 0, []))
  }

  function Listing(ps: seq<PlayerState>): (l: seq<Listed>)
    ensures |l| == |ps|
  {
    seq(|ps|, i requires 0 <= i < |ps| => Listed(ps[i].username, ps[i].color))
  }

  /** The room once a newcomer and the others have been told of each other. */
  function Introduced(p: PlayerState, ps: seq<PlayerState>): (told: seq<PlayerState>)
    ensures |told| == |ps| + 1
  {
    var all := [p] + ps;
    SendExcept(SendOne(all, 0, WelcomeToRoom(Listing(all))), 0, GameJoin(Listed(p.username, p.color)))
  }

  /** `JoinPlayer` while the room waits; the newcomer goes to the front. */
  function JoinPlayer(r: RoomState, sock: Sock, username: string, faults: set<nat>, now: Timestamp): RoomState
    requires r.state == WaitForStart && IsColor(|r.players|)
  {
    var told := Introduced(NewPlayer(sock, username, |r.players|, faults, now), r.players);
    var count := r.clientCount + 1;
    if count == MAX_PLAYERS
    then r.(players := Broadcast(told, GameStart), clientCount := count, state := Play)
    else r.(players := told, clientCount := count)
  }

  // ----- messages from players

  function MoveTo(r: RoomState, k: nat, to: Tile, now: Timestamp): RoomState
    requires k < |r.players|
  {
    var author := r.players[k];
    if At(r.field, to) != NOTHIN then
      r.(players := SendOne(r.players, k, MovementCorrection(author.guard.coords)))
    else
      var (guard, correction) := MoveCheck(author.guard, to, now);
      var ps := r.players[k := author.(guard := guard)];
      match correction
      case Some(back) => r.(players := SendOne(ps, k, MovementCorrection(back)))
      case None => r.(players := SendExcept(ps, k, OtherMove(author.username, to)))
  }

  /** `HandleMessage`: the new state, and whether a bomb timer is wanted. */
  function HandleMessage(r: RoomState, k: nat, msg: ClientMsg, now: Timestamp): (RoomState, bool)
    requires k < |r.players|
  {
    var author := r.players[k];
    if r.state == WaitForStart then
      if msg != ILeave then (r.(players := SendOne(r.players, k, Error)), false)
      else (r.(players := r.players[0 := r.players[0].(marked := true)]), false)
    else if author.livesRemaining == 0 && msg != ILeave then
      (r.(players := SendOne(r.players, k, Error)), false)
    else match msg
      case IPlaceBomb(at) =>
        (r.(bombs := r.bombs + [Bomb(at, 3, now, false)],
            players := SendExcept(r.players, k, OtherBombPlace(author.username, now, at))), true)
      case IMove(to) => (MoveTo(r, k, to, now), false)
      case ILeave => (r.(players := r.players[k := author.(marked := true)]), false)
      case OtherType => (r.(players := SendOne(r.players, k, Error)), false)
  }

  // ----- explosions

  /** The indices of the players still alive, in order, among the first `n`. */
  function AliveUpTo(ps: seq<PlayerState>, n: nat): (alive: seq<nat>)
    requires n <= |ps|
  {
    if n == 0 then []
    else AliveUpTo(ps, n - 1) + if ps[n - 1].livesRemaining > 0 then [n - 1] else []
  }

  lemma {:induction false} AliveUpToMembers(ps: seq<PlayerState>, n: nat)
    requires n <= |ps|
    ensures forall i | i in AliveUpTo(ps, n) :: i < n && ps[i].livesRemaining > 0
    ensures forall i | 0 <= i < n && ps[i].livesRemaining > 0 :: i in AliveUpTo(ps, n)
  {
    if n > 0 {
      AliveUpToMembers(ps, n - 1);
    }
  }

  function Alive(ps: seq<PlayerState>): (alive: seq<nat>)
    ensures forall j :: 0 <= j < |alive| ==> alive[j] < |ps| && ps[alive[j]].livesRemaining > 0
    ensures forall i :: 0 <= i < |ps| && ps[i].livesRemaining > 0 ==> i in alive
  {
    AliveUpToMembers(ps, |ps|);
    assert forall j :: 0 <= j < |AliveUpTo(ps, |ps|)| ==> AliveUpTo(ps, |ps|)[j] in AliveUpTo(ps, |ps|);
    AliveUpTo(ps, |ps|)
  }

  ghost predicate Hit(p: PlayerState, lit: iset<Tile>, now: Timestamp) {
    p.guard.coords in lit && p.livesRemaining > 0 && p.immunityEnd <= now
  }

  function Hurt(p: PlayerState, now: Timestamp): PlayerState {
    p.(immunityEnd := now + IMMUNITY_TIME_MILLIS, livesRemaining := p.livesRemaining - 1)
  }

  /** Player `i` is hit and everybody, `i` included, is told. */
  function HurtAndTell(ps: seq<PlayerState>, i: nat, now: Timestamp): (qs: seq<PlayerState>)
    requires i < |ps|
    ensures |qs| == |ps|
  {
    Broadcast(ps[i := Hurt(ps[i], now)], GotHit(ps[i].username, ps[i].livesRemaining - 1, now))
  }

  /** The players from `i` on are checked in turn. */
  ghost function Blasted(ps: seq<PlayerState>, i: nat, lit: iset<Tile>, now: Timestamp): (qs: seq<PlayerState>)
    ensures |qs| == |ps|
    decreases |ps| - i
  {
    if i >= |ps| then ps
    else Blasted(if Hit(ps[i], lit, now) then HurtAndTell(ps, i, now) else ps, i + 1, lit, now)
  }

  function MarkAll(ps: seq<PlayerState>): (qs: seq<PlayerState>)
    ensures |qs| == |ps|
  {
    seq(|ps|, i requires 0 <= i < |ps| => ps[i].(marked := true))
  }

  /** The winner is announced, everyone is marked, the game is over. */
  function Win(r: RoomState, winner: string): RoomState {
    r.(players := MarkAll(Broadcast(r.players, GameWon(winner))), state := GameOver)
  }

  ghost function LitTiles(g: Cells, b: Bomb): iset<Tile> {
    iset t | Lit(g, b, t)
  }

  /** The room after its front bomb has gone off, before anyone has won. */
  ghost function Detonate(r: RoomState, now: Timestamp): RoomState
    requires r.bombs != []
  {
    r.(bombs := r.bombs[1..],
       field := After(r.field, r.bombs[0]),
       players := Blasted(r.players, 0, LitTiles(r.field, r.bombs[0]), now))
  }

  /** A timer event finds something to explode. */
  predicate Explodes(r: RoomState) {
    r.state == Play && r.bombs != []
  }

  /** The draw between the dead picks one of those alive before the blast. With
      nobody alive before it there is no such pick. */
  ghost predicate DrawDefined(r: RoomState, draw: nat, now: Timestamp) {
    Explodes(r) && Alive(Detonate(r, now).players) == [] ==> draw < |Alive(r.players)|
  }

  datatype Explosion = Explosion(room: RoomState, winner: Option<string>)

  /** Who has won once the blast is over; `aliveBefore` are those who were alive
      before it. */
  function WinnerOf(ps: seq<PlayerState>, aliveBefore: seq<nat>, draw: nat): Option<string>
    requires Alive(ps) == [] ==> draw < |aliveBefore| && aliveBefore[draw] < |ps|
  {
    var alive := Alive(ps);
    if |alive| == 0 then Some(ps[aliveBefore[draw]].username)
    else if |alive| == 1 then Some(ps[alive[0]].username)
    else None
  }

  function Conclude(after: RoomState, winner: Option<string>): Explosion {
    Explosion(if winner.Some? then Win(after, winner.value) else after, winner)
  }

  ghost function NotifyExplosion(r: RoomState, draw: nat, now: Timestamp): Explosion
    requires DrawDefined(r, draw, now)
  {
    if !Explodes(r) then Explosion(r, None)
    else
      var after := Detonate(r, now);
      Conclude(after, WinnerOf(after.players, Alive(r.players), draw))
  }

  // ----- disconnects

  datatype Sweep = Sweep(players: seq<PlayerState>, gone: seq<Sock>, dropped: seq<Bomb>)

  predicate DropsBomb(p: PlayerState, inPlay: bool) {
    inPlay && p.livesRemaining != 0
  }

  /** Player `k` is leaving: the others are told, and told of the atomic bomb dropped
      where it stood if it was alive in the game. */
  function Evict(s: Sweep, k: nat, inPlay: bool, now: Timestamp): (t: Sweep)
    requires k < |s.players|
    ensures |t.players| == |s.players|
  {
    var p := s.players[k];
    var told := SendExcept(s.players, k, OtherLeave(p.username));
    if DropsBomb(p, inPlay)
    then Sweep(SendExcept(told, k, OtherBombPlace("Server", now, p.guard.coords)), s.gone + [p.sock],
               s.dropped + [Bomb(p.guard.coords, 9, now, true)])
    else Sweep(told, s.gone + [p.sock], s.dropped)
  }

  /** The first pass of `DisconnectPlayers` from player `i` on. */
  function SweepFrom(s: Sweep, i: nat, inPlay: bool, now: Timestamp): (t: Sweep)
    ensures |t.players| == |s.players|
    decreases |s.players| - i
  {
    if i >= |s.players| then s
    else SweepFrom(if s.players[i].marked then Evict(s, i, inPlay, now) else s, i + 1, inPlay, now)
  }

  /** The players whose socket is not among `gone`, in order. */
  function Keep(ps: seq<PlayerState>, gone: seq<Sock>): (kept: seq<PlayerState>)
    ensures |kept| <= |ps|
  {
    if ps == [] then []
    else (if ps[0].sock in gone then [] else [ps[0]]) + Keep(ps[1..], gone)
  }

  datatype Disconnection = Disconnection(
    room: RoomState,
    dropped: seq<Bomb>,
    sockets: seq<Sock>,
    winner: Option<string>,
    farewell: Option<PlayerState>)

  /** The room `r` once the sockets `gone` have left it: a single player left wins, is
      told so and goes too, and a room without players is over. */
  function CloseIfOver(r: RoomState, dropped: seq<Bomb>, gone: seq<Sock>): Disconnection {
    if |r.players| == 0 then Disconnection(r.(state := GameOver), dropped, gone, None, None)
    else if |r.players| == 1 then
      var last := r.players[0];
      Disconnection(r.(players := [], state := GameOver), dropped, gone + [last.sock], Some(last.username),
                    Some(Send(last, GameWon(last.username))))
    else Disconnection(r, dropped, gone, None, None)
  }

  function DisconnectPlayers(r: RoomState, now: Timestamp): (d: Disconnection)
    ensures |d.room.players| <= |r.players|
  {
    var s := SweepFrom(Sweep(r.players, [], []), 0, r.state == Play, now);
    CloseIfOver(r.(players := Keep(s.players, s.gone), bombs := r.bombs + s.dropped), s.dropped, s.gone)
  }
}
