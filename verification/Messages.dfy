/** What travels between the server and its clients, and the server's end of one
    player's connection. */
module Messages {
  import opened Grid

  type Sock = int
  type Timestamp = int

  datatype Option<T> = None | Some(value: T)

  /** An entry of the player list. */
  datatype Listed = Listed(username: string, color: int)

  datatype ServerMsg =
    | Error
    | WelcomeToRoom(players: seq<Listed>)
    | GameJoin(player: Listed)
    | GameStart
    | OtherBombPlace(username: string, timestamp: Timestamp, at: Tile)
    | GotHit(username: string, livesRemaining: int, timestamp: Timestamp)
    | OtherMove(username: string, to: Tile)
    | OtherLeave(username: string)
    | GameWon(winner: string)
    | MovementCorrection(to: Tile)

  datatype ClientMsg =
    | IPlaceBomb(at: Tile)
    | IMove(to: Tile)
    | ILeave
    | OtherType

  /** The sending side of a connection. `faults` are the sends, counted from 0, that
      the network lets fail; `log` is what got through. */
  datatype Link = Link(faults: set<nat>, attempts: nat, log: seq<ServerMsg>)

  predicate Fails(link: Link) {
    link.attempts in link.faults
  }

  function Attempt(link: Link, m: ServerMsg): Link {
    link.(attempts := link.attempts + 1, log := if Fails(link) then link.log else link.log + [m])
  }
}
