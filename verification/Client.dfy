/** The client's mirror of a room: what it makes of each server message. */
module Client {
  import opened Grid
  import opened Messages

  /** A drawn player. */
  datatype Boomberman = Boomberman(name: string, pos: Tile, health: int)

  /** Waiting for the game, in it, or stuck on the error screen. */
  datatype Phase = InLobby | Playing | Halted

  datatype ClientState = ClientState(players: seq<Boomberman>, start: Tile, phase: Phase, winner: string)

  const FRESH := ClientState([], Tile(0, 0), InLobby, "")

  /** The first player of that name, or the number of players. */
  function FindPlayer(players: seq<Boomberman>, username: string): (i: nat)
    ensures i <= |players|
    ensures i < |players| ==> players[i].name == username
    ensures forall j :: 0 <= j < i ==> players[j].name != username
  {
    if players == [] || players[0].name == username then 0 else 1 + FindPlayer(players[1..], username)
  }

  function Erase<T>(s: seq<T>, i: nat): seq<T>
    requires i < |s|
  {
    s[..i] + s[i + 1..]
  }

  /** `setPlayerParams`: an unknown colour leaves the previous corner in place. */
  function StartFor(color: int, previous: Tile): Tile {
    match color
    case 0 => Tile(1, 1)
    case 1 => Tile(15, 1)
    case 2 => Tile(1, 9)
    case 3 => Tile(15, 9)
    case _ => previous
  }

  function AddPlayer(c: ClientState, p: Listed): ClientState {
    var start := StartFor(p.color, c.start);
    c.(players := c.players + [Boomberman(p.username, start, 3)], start := start)
  }

  function AddPlayers(c: ClientState, ps: seq<Listed>): ClientState
    decreases |ps|
  {
    if ps == [] then c else AddPlayer(AddPlayers(c, ps[..|ps| - 1]), ps[|ps| - 1])
  }

  /** `handleLobbyMsg`: leaves are ignored, an error halts. */
  function HandleInLobby(c: ClientState, m: ServerMsg): ClientState {
    match m
    case GameStart => c.(phase := Playing)
    case WelcomeToRoom(ps) => AddPlayers(c, ps)
    case GameJoin(p) => AddPlayer(c, p)
    case Error => c.(phase := Halted)
    case _ => c
  }

  /** `handleMessage`. */
  function HandleInGame(c: ClientState, m: ServerMsg): ClientState {
    match m
    case OtherMove(username, to) =>
      var i := FindPlayer(c.players, username);
      if username == "" || i == |c.players| then c
      else c.(players := c.players[i := c.players[i].(pos := to)])
    case OtherLeave(username) =>
      var i := FindPlayer(c.players, username);
      if i == |c.players| then c else c.(players := Erase(c.players, i))
    case GotHit(username, livesRemaining, _) =>
      var i := FindPlayer(c.players, username);
      if i == |c.players| then c
      else if livesRemaining <= 0 then c.(players := Erase(c.players, i))
      else c.(players := c.players[i := c.players[i].(health := c.players[i].health - 1)])
    case MovementCorrection(to) =>
      if c.players == [] then c else c.(players := c.players[0 := c.players[0].(pos := to)])
    case GameWon(winner) => c.(winner := winner)
    case _ => c
  }

  function Handle(c: ClientState, m: ServerMsg): ClientState {
    match c.phase
    case InLobby => HandleInLobby(c, m)
    case Playing => HandleInGame(c, m)
    case Halted => c
  }

  /** The client after the messages of `log`, in order. */
  function ClientOf(log: seq<ServerMsg>): ClientState {
    if log == [] then FRESH else Handle(ClientOf(log[..|log| - 1]), log[|log| - 1])
  }

  lemma ClientOfAppend(log: seq<ServerMsg>, m: ServerMsg)
    ensures ClientOf(log + [m]) == Handle(ClientOf(log), m)
  {
    assert (log + [m])[..|log + [m]| - 1] == log;
  }

  // ----- the handler object

  class ServerHandler {
    var players: seq<Boomberman>
    var start: Tile
    var winner: string

    ghost function View(phase: Phase): ClientState
      reads this
    {
      ClientState(players, start, phase, winner)
    }

    constructor ()
      ensures View(InLobby) == FRESH
    {
      players, start, winner := [], Tile(0, 0), "";
    }

    method Find(username: string) returns (i: nat)
      ensures i == FindPlayer(players, username)
    {
      i := 0;
      while i < |players| && players[i].name != username
        invariant i <= |players|
        invariant forall j :: 0 <= j < i ==> players[j].name != username
      {
        i := i + 1;
      }
      FirstIsUnique(players, username, i);
    }

    method SetPlayerParams(color: int)
      modifies this`start
      ensures start == StartFor(color, old(start))
    {
      match color
      case 0 => start := Tile(1, 1);
      case 1 => start := Tile(15, 1);
      case 2 => start := Tile(1, 9);
      case 3 => start := Tile(15, 9);
      case _ =>
    }

    method Add(p: Listed)
      modifies this`players, this`start
      ensures View(InLobby) == AddPlayer(old(View(InLobby)), p)
    {
      SetPlayerParams(p.color);
      players := players + [Boomberman(p.username, start, 3)];
    }

    method JoinRoom(list: seq<Listed>)
      modifies this`players, this`start
      ensures View(InLobby) == AddPlayers(old(View(InLobby)), list)
    {
      for i := 0 to |list|
        invariant View(InLobby) == AddPlayers(old(View(InLobby)), list[..i])
      {
        assert list[..i + 1][..i] == list[..i];
        Add(list[i]);
      }
      assert list[..|list|] == list;
    }

    method HandleLobbyMsg(m: ServerMsg) returns (phase: Phase)
      modifies this
      ensures View(phase) == HandleInLobby(old(View(InLobby)), m)
    {
      phase := InLobby;
      match m
      case GameStart => phase := Playing;
      case WelcomeToRoom(ps) => JoinRoom(ps);
      case GameJoin(p) => Add(p);
      case Error => phase := Halted;
      case _ =>
    }

    /** A correction goes to entry 0, which must be there. */
    method HandleMessage(m: ServerMsg)
      requires m.MovementCorrection? ==> players != []
      modifies this
      ensures View(Playing) == HandleInGame(old(View(Playing)), m)
    {
      match m
      case OtherMove(username, to) =>
        if username == "" {
          return;
        }
        var found := Find(username);
        if found != |players| {
          players := players[found := players[found].(pos := to)];
        }
      case OtherLeave(username) =>
        var found := Find(username);
        if found != |players| {
          players := Erase(players, found);
        }
      case GotHit(username, livesRemaining, _) =>
        var found := Find(username);
        if found != |players| {
          players := players[found := players[found].(health := players[found].health - 1)];
          if livesRemaining <= 0 {
            players := Erase(players, found);
          }
        }
      case MovementCorrection(to) =>
        players := players[0 := players[0].(pos := to)];
      case GameWon(name) =>
        winner := name;
      case _ =>
    }
  }

  lemma FirstIsUnique(players: seq<Boomberman>, username: string, i: nat)
    requires i <= |players| && (i < |players| ==> players[i].name == username)
    requires forall j :: 0 <= j < i ==> players[j].name != username
    ensures i == FindPlayer(players, username)
  {
  }
}
