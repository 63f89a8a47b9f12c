/** A player object of the server. */
module PlayerObject {
  import opened Grid
  import opened Messages
  import opened MoveGuard
  import opened RoomSpec

  class Player {
    const sock: Sock
    const username: string
    const color: int
    var livesRemaining: int
    var immunityEnd: Timestamp
    var markedForDisconnect: bool
    var coords: Tile
    const moveHistory: array<MovementEntry>
    var step: nat
    var link: Link

    ghost predicate Valid() {
      moveHistory.Length == HISTORY
    }

    ghost function Movement(): Guard
      requires Valid()
      reads this, moveHistory
    {
      Guard(coords, moveHistory[..], step)
    }

    ghost function View(): PlayerState
      requires Valid()
      reads this, moveHistory
    {
      PlayerState(sock, username, color, livesRemaining, immunityEnd, markedForDisconnect, Movement(), link)
    }

    /** Throws for a colour without a starting corner; hence the precondition. */
    constructor (sock: Sock, username: string, color: int, faults: set<nat>, now: Timestamp)
      requires IsColor(color)
      ensures Valid() && fresh(moveHistory) && View() == NewPlayer(sock, username, color, faults, now)
    {
      this.sock, this.username, this.color := sock, username, color;
      livesRemaining, immunityEnd, markedForDisconnect := STARTER_LIVES, now, false;
      match color {
        case 0 => coords := Tile(1, 1);
        case 1 => coords := Tile(15, 1);
        case 2 => coords := Tile(1, 9);
        case _ => coords := Tile(15, 9);
      }
      moveHistory := new MovementEntry[HISTORY](_ => BLANK);
      step, link := 0, Link(faults, 0, []);
      new;
      assert moveHistory[..] == NewGuard(coords).moveHistory;
    }

    /** Moves the player there, or says where to throw it back to. */
    method MoveCheckSus(x: int, y: int, now: Timestamp) returns (correction: Option<Tile>)
      requires Valid()
      modifies this`coords, this`step, moveHistory
      ensures (Movement(), correction) == MoveCheck(old(Movement()), Tile(x, y), now)
    {
      if x < 0 || y < 0 {
        return Some(coords);
      }
      var moveX := if x < coords.x then coords.x - x else x - coords.x;
      var moveY := if y < coords.y then coords.y - y else y - coords.y;
      if moveX != 0 && moveY != 0 {
        return Some(coords);
      }

      step := step + 1;
      if step < 6 {
        coords := Tile(x, y);
        return None;
      }

      var oldestStep := if step % 5 == 4 then 0 else step % 5 + 1;
      // The comparison comes out as 0 or 1.
      var diff := if now - moveHistory[oldestStep].ts < PLAYER_SUS_TRESHHOLD_MILLIS then 1 else 0;
      if diff > 0 && diff < PLAYER_SUS_TRESHHOLD_MILLIS {
        step := 0;
        return Some(moveHistory[oldestStep].coords);
      }

      coords := Tile(x, y);
      moveHistory[step % 5] := MovementEntry(now, coords);
      return None;
    }
  }
}
