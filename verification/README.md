# The game server, its client mirror and what lies underneath, verified

This project models the authoritative Boomberman server in Dafny and proves what its
design relies on. `dafny verify dfyconfig.toml` checks all of it.

Every component appears twice where the program changes state: as an object whose
methods loop and assign as the C++ does (`TileMap`, `Bomb::boom`, `Connection`, `Player`,
`Room`, `Server`, `ServerHandler`), and as functions on values that those methods are
proved to compute. The theorems are about the functions, over all inputs and all runs.

| file | what it holds |
|---|---|
| `Grid.dfy` | the 17 by 11 field: initial table, `Map`, "some soft walls opened" |
| `Blast.dfy`, `BlastAlgebra.dfy` | `Bomb::boom` against line of sight; how blasts compose |
| `Framing.dfy`, `Delivery.dfy` | `Connection::send`, `Receive`, `HasMoreMessages` over byte streams; from the room's view of a connection to the bytes |
| `MoveGuard.dfy`, `Player.dfy` | the mod-5 ring that limits movement, and the player object |
| `Messages.dfy`, `RoomSpec.dfy`, `Room.dfy` | one room: its operations as functions, and the object |
| `RoomFacts.dfy`, `Disconnects.dfy`, `Leaving.dfy` | what those operations do to the player list, and who goes in a disconnect |
| `RoomRun.dfy`, `RoomInvariants.dfy`, `RoomTheorems.dfy` | runs of a room with its timers, and what holds in all of them |
| `Steps.dfy`, `Hits.dfy`, `InPlay.dfy`, `Corrections.dfy` | what a step in play does, told from the room before it: who moves, who is hit, who is told off, who leaves, where corrections send |
| `WaitingRoom.dfy`, `Colours.dfy` | which waiting rooms outlive a message or a lost connection; who shares a colour |
| `Scenes.dfy`, `DeadGame.dfy`, `Endings.dfy`, `ShortStart.dfy`, `DestroyedRooms.dfy` | runs that reach what nobody intended |
| `Announcements.dfy` | bombs and winners: everybody is told, and told right |
| `Client.dfy`, `ClientLog.dfy`, `Winners.dfy` | the client; what its log alone says it shows; the winner it shows as a game ends |
| `Mirror.dfy`, `MirrorRuns.dfy`, `LobbyRoster.dfy`, `Agreement.dfy` | the client's roster and its agreement with the room |
| `ServerSpec.dfy`, `Server.dfy`, `ServerLoop.dfy`, `ServerRuns.dfy`, `ServerTheorems.dfy`, `Lobby.dfy` | the socket tables, the server's event loops, and who gets from the lobby into a room |

A *step* is one section under the server's lock. Every send may fail as a whole: each
connection carries the set of its sends that will, so a theorem about every run is also
one about every pattern of such failures. Failures in the middle of a message are those
of `Framing.dfy`, and kept out of the rest by an assumption (see below). Timers fire in
any order once due.

## What the proofs found

* A frame's length byte passes through a signed `char`: a stream is received as sent if
  and only if no payload exceeds 127 bytes, while `send` accepts 255 (`Deliver`). A
  255-byte message whose 256 bytes leave in one write is reported as not sent (`Send`).
* A `write` that fails after the first is not noticed: its -1 takes the counter one back
  and the last byte is sent again. What `send` calls success has put the frame on the
  stream if and only if no write failed (`Send`, `OneFailureRepeatsAByte`). A `read` that
  fails first becomes a stream of empty messages, later ones shift the stream; only the
  end of it yields nothing (`Receive`). The header promises nothing is returned then.
* In the waiting room a leave marks the newest player, not the author (`LeavingTheLobby`).
* A player waiting alone ends the room with any message, because the disconnects that
  follow every message find one player left; it is declared the winner unless it asked
  to leave or could not be sent the error (`WaitingAlone`). In general a waiting room
  outlives a message if and only if two players stay and, should anybody go, all who stay
  get to hear of it (`WhoOutlivesAMessage`); for a lost connection see `WhoOutlivesALoss`.
* A join hands out as colour the number of players present. Colours differ after it if and
  only if they did before and nobody has that one (`JoinKeepsColoursApart`); at the start,
  if and only if four players start or the one missing joined third (`StartColours`). A
  start with two players of one colour in one corner is reached (`SharedCornerIsReached`).
* Clients ignore leaves while they wait. As the game starts the last to join agrees with
  the room, the others do if and only if four players start it (`AgreementAtGameStart`);
  a start with three is reached (`DisagreementIsReached`). Who agrees then goes on
  agreeing (`MirrorAgreement`).
* Disconnects count players, not lives: they leave a game of the dead if and only if at
  least two players stay and none of those is alive (`OnlyTheDeadRemain`). Such a game is
  reached (`DeadGameIsReached`), and then the draw for a winner has nobody to pick
  (`DrawNeedsSomebodyAlive`). The draw's upper bound is also inclusive, one too many, which
  takes effect with a last player who falls (`LastFallIsReached`); the model takes draws
  that name somebody.
* Whoever stays alone wins, dead or alive (`TheLoneWin`), and a dead player does win
  (`DeadWinnerIsReached`).
* A room that is over, and so about to be destroyed, may have a bomb's timer still armed
  (`TimerOutlivesTheGame`).
* The rate limit covers recorded moves: the first five steps after a correction are let
  through at any time (`FirstFiveMovesAreFree`, `LetThroughExactly`), and as a correction
  takes back nothing but the count of steps, any number of moves gets through at one
  instant (`NoLimitAcrossCorrections`).
* A room that is over is named in the very list whose making destroys it, if and only if
  fewer than four players ever joined it (`DestroyedRoomsAreListed`), and the server gets
  to hold such rooms (`FinishedRoomIsReached`).
* Who asks, with a name, to join a room that is over but never had four players is closed
  without a seat; nobody else is when errors get through (`HomelessExactly`). A request for a new room without a player name is refused but the
  room made for it stays (`TurnedAway`).
* Clients tell a dropped atomic bomb from a planted one by the name "Server", which a
  player may take: that player's bombs are then shown as atomic (`PlainBombShownRight`).

## Assumptions

* `Player::step` starts at 0; it has no initialiser.
* The timer records handed to epoll are kept by value, one for each bomb.
* Moves are requested inside the grid and bombs strictly inside the border;
  `getSquareState` does not look. Coordinates are whole numbers.
* Clock readings never decrease. An operation reads the clock once; different operations
  of a step read it separately.
* Descriptors handed out by `accept` are not in use in a room, lobby messages come from
  connections in the lobby, and a room name drawn at random is new.
* `runRooms` goes on reading `pl->player` and `pl->room` after the first disconnects may
  have freed both (Server.cpp:272-295); the model takes them by value, as if they had not.
* In the room and server theorems no write fails after the first of its message, and every
  payload fits in 127 bytes; a welcome list of four long names may not. `Delivery.dfy`
  proves that a connection then does to its stream what `Attempt` does to the log, and
  `SendMessage` that a later failure goes unnoticed and spoils the stream.
* For the theorems about corrections, clock readings are at least 50.

## Model

| member | source | states |
|---|---|---|
| Grid.InitialIsWalled | game/src/shared/game/Map.h:11-20 | the border of the initial table is hard wall all round |
| Grid.InitialIsLaid | game/src/shared/game/Map.h:11-20 | the whole initial table told from where a tile lies: hard wall round the border and where row and column are both even, open ground on three tiles in each corner, soft wall elsewhere |
| Grid.TileMap.constructor | game/src/shared/game/Map.h:11-20 | a new map holds the initial table |
| Grid.TileMap.GetSquareState | game/src/shared/game/Map.cpp:10 | reads the tile at these coordinates |
| Grid.TileMap.SetSquareState | game/src/shared/game/Map.cpp:11 | changes that tile and no other |
| Blast.RayIsSight | game/src/shared/game/Bomb.cpp:36-48 | one ray lists, once each, exactly the tiles in line of sight in its direction |
| Blast.BurstIsLit | game/src/shared/game/Bomb.cpp:32-64 | the pushed list is the declarative lit set, without duplicates |
| Blast.CastRay | game/src/shared/game/Bomb.cpp:36-48 | scanning while opening walls lists what the untouched field shows and opens exactly the soft walls listed |
| Blast.CastArms | game/src/shared/game/Bomb.cpp:35-62 | the column ray is not affected by walls the row ray opened |
| Blast.Boom | game/src/shared/game/Bomb.cpp:32-64 | the returned tiles are the line of sight before the blast, once each; the field differs only by lit soft walls opened, the bomb's own tile excepted; no access leaves the field |
| BlastAlgebra.LitGrows | game/src/shared/game/Bomb.cpp:41-45 | with some soft walls cleared a bomb lights a superset |
| BlastAlgebra.ChainMonotone | game/src/shared/game/Bomb.cpp:32-64 | that lead survives any sequence of bombs |
| BlastAlgebra.AtomicSeesHardWallsOnly | game/src/shared/game/Bomb.cpp:44-45 | atomic lit tiles depend on hard walls alone |
| BlastAlgebra.AtomicChain | game/src/shared/game/Bomb.cpp:41-45 | the outcome of any sequence of atomic blasts is read off the first field |
| BlastAlgebra.AtomicBlastsCommute | game/src/shared/game/Bomb.cpp:54-58 | atomic blasts commute and are idempotent: the same bombs in any order and repetition leave the same field |
| BlastAlgebra.PlainBlastsDoNotCommute | game/src/shared/game/Bomb.cpp:44-45 | plain blasts do not commute, on the initial field |
| BlastAlgebra.SeparateBlastsCommute | game/src/shared/game/Bomb.cpp:41-58 | blasts of any kind commute if there is no soft wall that both would open |
| BlastAlgebra.SightIsMutual | game/src/shared/game/Bomb.cpp:35-62 | at equal strength lighting is symmetric between tiles that are not hard wall |
| Framing.WirePrefix | game/src/shared/msg/Connection.cpp:273-304 | frames are self-delimiting: whole frames cut off a stream are its first messages |
| Framing.FrameSize | game/src/shared/msg/Connection.cpp:47-48 | the size a length byte widens to, signed: right below 128, past the buffer above, zero for 255 |
| Framing.Connection.QueueWholeFrames | game/src/shared/msg/Connection.cpp:55-68 | the first loop queues exactly the whole frames of the buffer, in order, and keeps the rest at its front |
| Framing.Connection.ReadRestOfFrame | game/src/shared/msg/Connection.cpp:71-101 | after the batch exactly the rest of the frame is read; each failing read takes the counter, and so the next byte, one back, and an end of the stream in between yields nothing |
| Framing.Connection.FillFrame | game/src/shared/msg/Connection.cpp:88-94 | the second loop stops exactly at the end of the frame, or one byte further for each read that failed |
| Framing.Connection.TakeApart | game/src/shared/msg/Connection.cpp:43-101 | what one batch, or its wrapped count after a failed read, comes to: the messages queued, the one returned, the stream left |
| Framing.Connection.Receive | game/src/shared/msg/Connection.cpp:27-103 | however reads are cut and whichever fail: without failures the message returned is the next one, those read ahead are queued behind it and the unread stream is at a frame boundary; a first read that fails makes empty messages up, a later one shifts the stream by a byte; nothing is returned at the end of the stream only |
| Framing.Connection.HasMoreMessages | game/src/shared/msg/Connection.cpp:105 | true if and only if something is queued |
| Framing.Connection.Send | game/src/shared/msg/Connection.cpp:273-304 | however writes are cut and whichever fail: what is on the stream, which messages are reported as not sent, and that success means the frame was appended if and only if no write failed |
| Framing.OneFailureRepeatsAByte | game/src/shared/msg/Connection.cpp:292-301 | a write that fails with k bytes out repeats byte k - 1, and the count still comes to the whole frame |
| Framing.ReceiveLoop | game/src/client/ServerHandler.cpp:97-131 | any split of the reads: the messages handled are those on the stream, in order, if and only if all fit in 127 bytes |
| Framing.SendAll | game/src/shared/msg/Connection.cpp:273-304 | sending them all puts the frames on the stream one after the other, however the writes are cut |
| Framing.Deliver | game/src/client/ServerHandler.cpp:97-131 | any split of writes and reads: the messages handled at one end are those sent at the other if and only if all fit in 127 bytes |
| Delivery.SendMessage | game/src/shared/msg/Connection.cpp:273-304 | unless a write fails after the first, a send reports and leaves on the stream what the room model says; success means delivery if and only if none did |
| Delivery.Converse | game/src/server/Room.cpp:292-300 | whatever first writes fail and however writes and reads are cut, the client handles exactly the log the room model keeps, if no write fails later |
| MoveGuard.MoveCheck | game/src/server/entities/Player.cpp:33-62 | a corrected move changes neither coordinates nor ring; an accepted one puts the player there |
| MoveGuard.OutOfLine | game/src/server/entities/Player.cpp:34-40 | a request off the field at its low edges, or off the player's row and column, is answered with where the player stands and changes nothing |
| MoveGuard.LineOfMoves | game/src/server/entities/Player.cpp:42-61 | any other counts as a step: the first five are accepted, a later one less than 50 ms after the move recorded four before is thrown back there and starts the count again, and the rest are accepted and recorded |
| MoveGuard.RingStep | game/src/server/entities/Player.cpp:49-61 | the slot compared holds the move recorded four before |
| MoveGuard.RateLimit | game/src/server/entities/Player.cpp:42-61 | between speed corrections any n consecutive recorded moves span at least 50 * floor((n-1)/4) ms |
| MoveGuard.LetThroughExactly | game/src/server/entities/Player.cpp:42-61 | a request is let through if and only if it is on the player's row or column, and not at negative coordinates, and is among the first five steps or comes 50 ms after the move compared at least |
| MoveGuard.FirstFiveMovesAreFree | game/src/server/entities/Player.cpp:42-47 | after any run of requests the first five steps since a correction are let through at any time |
| MoveGuard.OneInSixIsCorrected | game/src/server/entities/Player.cpp:49-56 | of requests in line, however fast, one in six is corrected at most |
| MoveGuard.NoLimitAcrossCorrections | game/src/server/entities/Player.cpp:49-56 | any number of moves gets through at one instant |
| MoveGuard.CorrectionsAreRealPlaces | game/src/server/entities/Player.cpp:33-62 | every correction names the current tile or one accepted earlier, never the blank ring entry |
| PlayerObject.Player.constructor | game/src/server/entities/Player.cpp:6-29 | a new player stands in its colour's corner with three lives |
| PlayerObject.Player.MoveCheckSus | game/src/server/entities/Player.cpp:33-62 | the object's ring, step and coordinates change as MoveCheck says |
| RoomFacts.HandleMessageKeepsPeople | game/src/server/Room.cpp:68-144 | a message changes marks, links and positions only; marks are not taken back |
| Steps.StraightOrNotAtAll | game/src/server/Room.cpp:104-131 | in every run one step takes a player along its row or its column only, to open ground, and only at its own request |
| InPlay.TurnedBack | game/src/server/Room.cpp:109-126 | asked for a wall, or for a tile off its row and column, the player is told where it stands, and nothing else changes |
| InPlay.TooFast | game/src/server/Room.cpp:118-126 | asked too soon it is told where it was four recorded moves before, stays, and starts its count again |
| InPlay.MovesOn | game/src/server/Room.cpp:118-130 | otherwise it stands where it asked to, and exactly the others are told |
| InPlay.Plants | game/src/server/Room.cpp:93-102 | the bomb is queued last, with its strength and time, its timer is wanted, and exactly the others are told |
| InPlay.ToldOff | game/src/server/Room.cpp:72-89 | who is dead, or waits, and asks for anything but to leave, or asks for anything unknown, is told so, and nothing else changes |
| InPlay.NothingButTheError | game/src/server/Room.cpp:84-143 | in every run of a game bombs, timers, field and all others are as before the whole step then, if nobody is marked and the error gets through |
| InPlay.TheLeaverIsGone | game/src/server/Room.cpp:133-137 | in every run who asks to leave a game is no longer in the room after the step |
| InPlay.OnlyTheLeaverGoes | game/src/server/Room.cpp:133-137 | in every run, of three or more players it alone goes if the others are unmarked and can be told; they stay in order, with the notices in their logs, and if it was alive an atomic bomb and its timer are where it stood |
| InPlay.TheOtherWins | game/src/server/Room.cpp:133-137 | in every run, of two players the other one wins |
| RoomFacts.BlastedBodies | game/src/server/Room.cpp:164-189 | in one explosion each player loses exactly one life if standing on a lit tile, alive and not immune, and none otherwise |
| RoomObject.Room.constructor | game/src/server/Room.cpp:8-12 | a new room is empty, waiting, on the initial field |
| RoomObject.Room.SendSpecific | game/src/server/Room.cpp:292-300 | a send that fails marks its receiver |
| RoomObject.Room.SendExcept | game/src/server/Room.cpp:302-308 | everybody but the one player is sent the message |
| RoomObject.Room.SendBroadcast | game/src/server/Room.cpp:310-314 | everybody is sent the message |
| RoomObject.Room.CanJoin | game/src/server/Room.cpp:19-36 | rejects the empty name, a name in use and a room that has had its four players, and nothing else |
| RoomObject.Room.JoinPlayer | game/src/server/Room.cpp:38-64 | null and no change unless waiting; else the whole new room, with every message sent |
| RoomObject.Room.HandleMove | game/src/server/Room.cpp:104-131 | the branches of a move: wall, too fast, accepted |
| RoomObject.Room.HandleMessage | game/src/server/Room.cpp:68-144 | the whole new room, with every message sent, and whether a bomb timer is wanted |
| RoomObject.Room.CheckPlayer | game/src/server/Room.cpp:164-189 | immunity makes a blast cost a player at most one life however many tiles it stands on |
| RoomObject.Room.NotifyExplosion | game/src/server/Room.cpp:146-232 | the oldest bomb goes off, players are checked, a winner is announced and everybody marked when at most one is left |
| RoomObject.Room.EvictMarked | game/src/server/Room.cpp:235-257 | the first pass visits players in order, marks made by its own failing sends included |
| RoomObject.Room.Erase | game/src/server/Room.cpp:259-266 | the nested erase by identity keeps exactly the other players, in order |
| RoomObject.Room.DisconnectPlayers | game/src/server/Room.cpp:234-290 | the whole new room, the number of bombs to time and the sockets removed; a last player left is told that it won before it goes |
| Disconnects.DisconnectTakesTheMarked | game/src/server/Room.cpp:239-257 | removed are exactly the players marked when visited, with one atomic bomb for each of them alive in play, where it stood |
| Disconnects.DisconnectKeepsOrder | game/src/server/Room.cpp:259-289 | the others stay in order, unless one is left, who wins, is told so and goes too |
| Disconnects.SocketsAccountedFor | game/src/server/Room.cpp:236-289 | the sockets handed back are those no longer in the room, each once |
| Leaving.WhoLeaves | game/src/server/Room.cpp:239-257 | who goes, told from the room before: the marked, and whoever misses one of the notices about leavers before it in the list |
| Leaving.CalmLeaves | game/src/server/Room.cpp:239-257 | when the next sends get through, exactly the marked go |
| Leaving.GoesOnWithTwo | game/src/server/Room.cpp:268-289 | a room goes on if and only if two players stay |
| Leaving.WinnerByDisconnect | game/src/server/Room.cpp:268-289 | there is a winner by disconnect if and only if somebody stays alone |
| Leaving.TheLoneWin | game/src/server/Room.cpp:273-285 | that one wins with the lives it had, alive or dead |
| RoomInvariants.NoBombExplodesEarly | game/src/server/Room.cpp:146-151 | whatever order timers fire in, the bomb at the front is old enough when one does |
| RoomInvariants.JoinedKeeps | game/src/server/Room.cpp:38-64 | a join keeps every invariant of the room and finds a colour |
| RoomInvariants.HeardKeeps | game/src/server/Room.cpp:68-144 | a message keeps every invariant |
| RoomInvariants.FiredKeeps | game/src/server/Room.cpp:146-232 | an explosion keeps every invariant |
| RoomInvariants.PostKeeps | game/src/server/Server.cpp:441-453 | the disconnects after an event keep every invariant and leave a finished room empty |
| RoomTheorems.RunKeeps | game/src/server/Server.cpp:235-320 | all invariants hold after every run |
| RoomTheorems.JoinAccounting | game/src/server/Room.cpp:19-63 | players present and removed are clientCount and never exceed four; names are real and distinct; the colour a join hands out has a corner, so the player constructor never throws |
| Colours.JoinKeepsColoursApart | game/src/server/Room.cpp:43-48 | after a join the colours differ if and only if they did before and nobody present has the number of players present as colour |
| Colours.WaitingColours | game/src/server/Room.cpp:43-48 | while a room waits colours differ, and a newcomer it goes on waiting with has as colour the number of joins before |
| Colours.StartColours | game/src/server/Room.cpp:43-61 | as the game starts colours differ if and only if four players start it or nobody who waited has colour two, the one who joined third |
| Colours.SharedCornerIsReached | game/src/server/Room.cpp:43-48 | a run reaches a start with two players of one colour in one corner |
| RoomTheorems.GameStartsWithTheFourth | game/src/server/Room.cpp:57-61 | a join ends with GAME_START to everybody if and only if it is the fourth |
| Announcements.GameStartsOnce | game/src/server/Room.cpp:57-61 | in every run an unmarked client has been told of the start exactly once if the room ever began to play, and never otherwise |
| RoomTheorems.NoBombExplodesEarlyInAnyRun | game/src/server/Server.cpp:300-319 | in every run a timer that fires in play finds a bomb, the oldest, planted at least three seconds ago |
| RoomTheorems.BombsAndTimersBalance | game/src/server/Server.cpp:263-269 | in play every queued bomb has its timer; bombs planted are exploded or queued |
| RoomTheorems.OpenGround | game/src/server/Room.cpp:104-130 | border and hard walls never change, cells only open, everybody stands on open ground inside, and queued bombs are strictly inside |
| RoomTheorems.CorrectionsNameOpenGround | game/src/server/Room.cpp:106-126 | a correction names a tile still open, and a corrected move leaves the server's coordinates |
| Corrections.EveryCorrectionIsOpenGround | game/src/server/Room.cpp:109-126 | in every run every correction sent to a player who is still there names open ground |
| Corrections.EveryCorrectionWasOpenGround | game/src/server/Room.cpp:109-126 | ... and did as it was sent, to players about to be removed as well |
| RoomTheorems.HitSpacing | game/src/server/Room.cpp:162-189 | at most three hits on a player, 500 ms apart, a third at least a second after the first; lives are three less the hits |
| Hits.WhoIsHit | game/src/server/Room.cpp:162-189 | in every run an explosion costs exactly those players a life, and one, whose tile it lights, who have a life left and who were last hit 500 ms ago at least or never |
| Hits.WhoWasHit | game/src/server/Room.cpp:162-189 | ... as everybody has it who is still there after the step |
| Hits.OnlyBlastsHurt | game/src/server/Room.cpp:68-144 | messages and lost connections take no life |
| RoomTheorems.LivesNeverRise | game/src/server/Room.cpp:179-184 | lives never rise; only an explosion takes one, and only one |
| RoomTheorems.RoomLifecycle | game/src/server/Room.cpp:191-231 | the state only moves forward, one winner at most is announced, a finished room is empty and stays finished |
| RoomTheorems.DrawNeedsSomebodyAlive | game/src/server/Room.cpp:199-207 | after a blast without survivors the draw can pick somebody if and only if somebody was alive before, and its inclusive upper bound never does |
| DeadGame.OnlyTheDeadRemain | game/src/server/Room.cpp:259-289 | disconnects leave a game in play with nobody alive if and only if at least two players stay and none of those who stay is alive |
| DeadGame.TheUnmarkedAreDead | game/src/server/Room.cpp:259-289 | on marks alone, when the next sends get through: two players unmarked, and all of those dead |
| DeadGame.DeadGameIsReached | game/src/server/Room.cpp:199-207 | a run reaches a game in play with a timer armed, nobody alive and nobody to draw whenever it goes off |
| Endings.LastFallIsReached | game/src/server/Room.cpp:199-207 | a run reaches an explosion in which the last one alive falls and the upper bound of the draw names nobody |
| Endings.DeadWinnerIsReached | game/src/server/Room.cpp:273-276 | a run reaches a step that announces a dead player as the winner |
| Endings.TimerOutlivesTheGame | game/src/server/Server.cpp:306-318 | a run reaches a room that is over with a timer still armed |
| RoomTheorems.LeavingTheLobby | game/src/server/Room.cpp:72-82 | a leave in the waiting room marks its author if and only if the author is the newest player |
| WaitingRoom.QuietDisconnect | game/src/server/Room.cpp:234-290 | with nobody marked, disconnects leave a room of two or more as it was |
| WaitingRoom.WhoOutlivesAMessage | game/src/server/Server.cpp:260-296 | a waiting room outlives a message if and only if at least two players stay and, should anybody go, all who stay can be told; otherwise it is over |
| WaitingRoom.WhoOutlivesALoss | game/src/server/Server.cpp:253-258 | a waiting room outlives a lost connection if and only if two players stay; otherwise it is over |
| WaitingRoom.WaitingAlone | game/src/server/Server.cpp:260-296 | a player waiting alone ends the room with any message, and is declared the winner unless it asked to leave or could not be sent the error |
| Announcements.EveryBombIsAnnounced | game/src/server/Room.cpp:93-101 | in every run every queued bomb has been announced where it lies, an atomic one to all unmarked clients, a planted one to all but its planter and under the name of the player who planted it there and then; it is shown as what it is if and only if that name is not "Server", and always if nobody joined under it |
| Announcements.PlainBombShownRight | game/src/client/ServerHandler.cpp:65-77 | the notice of a planted bomb, sent to all others, shows it as planted if and only if its planter is not called "Server" |
| Announcements.TheRightOneWins | game/src/server/Room.cpp:191-231 | an explosion ends the game if and only if it leaves one player alive at most; the winner is the survivor, or somebody alive before when there is none; everybody is marked and told who won |
| ClientLog.PhaseOfLog | game/src/client/ServerHandler.cpp:327-372 | whatever a client was sent, it is in its game if and only if the start came before any error; an error before the start halts it for good |
| ClientLog.ShownWinner | game/src/client/ServerHandler.cpp:88-91 | whatever a client was sent, the winner it shows is that of the last win it heard of in its game, and nobody if there was none |
| ClientLog.ListIsAdded | game/src/client/ServerHandler.cpp:374-426 | a player list adds its entries in order, with three lives each, in the corner of their colour or, for a colour without one, where the entry before went |
| ClientLog.StrangersIgnored | game/src/client/ServerHandler.cpp:33-64 | a message about nobody the client shows, or a move of somebody without a name, changes nothing |
| Winners.TheWinnerIsShown | game/src/server/Room.cpp:191-231 | in every run, as a game ends by blast or by disconnects, whoever is told so, was in touch and missed nothing sent in that step shows the one winner there is |
| Winners.NoSilentEnd | game/src/server/Room.cpp:268-289 | in every run, whenever a winner is announced one player of the room is told, and all of them if it is by blast |
| Client.FindPlayer | game/src/client/ServerHandler.cpp:391-399 | the first entry of that name, or none |
| Client.ServerHandler.Find | game/src/client/ServerHandler.cpp:391-399 | the search loop finds that entry |
| Client.ServerHandler.SetPlayerParams | game/src/client/ServerHandler.cpp:401-426 | the corner of a colour; an unknown colour keeps the previous one |
| Client.ServerHandler.JoinRoom | game/src/client/ServerHandler.cpp:374-389 | the welcome list is added in order |
| Client.ServerHandler.HandleLobbyMsg | game/src/client/ServerHandler.cpp:327-372 | the roster and the phase after a lobby message |
| Client.ServerHandler.HandleMessage | game/src/client/ServerHandler.cpp:29-95 | the roster and the winner after a game message |
| Mirror.AgreesAfterMove | game/src/client/ServerHandler.cpp:33-44 | a roster that agreed agrees after somebody's move |
| Mirror.AgreesAfterHit | game/src/client/ServerHandler.cpp:54-64 | ... after somebody's hit, fatal or not |
| Mirror.AgreesAfterLeave | game/src/client/ServerHandler.cpp:45-53 | ... after somebody's leave |
| MirrorRuns.HeardMirrors | game/src/server/Room.cpp:68-144 | a message keeps every unmarked client in agreement |
| MirrorRuns.FiredMirrors | game/src/server/Room.cpp:146-232 | an explosion keeps every unmarked client in agreement |
| MirrorRuns.DisconnectMirrors | game/src/server/Room.cpp:234-290 | disconnects keep every unmarked client in agreement |
| MirrorRuns.WelcomeShowsRoom | game/src/client/ServerHandler.cpp:374-426 | a fresh client shows the welcome list as the room it lists |
| MirrorRuns.StartFollows | game/src/server/Room.cpp:38-64 | a game starts with every client in agreement if nobody left before, and with the last to join in any case |
| MirrorRuns.RunFollows | game/src/client/ServerHandler.cpp:29-95 | clients in agreement with a game agree after every run |
| Agreement.AgreementAtGameStart | game/src/client/ServerHandler.cpp:327-372 | as the game starts a client agrees with the room if and only if it joined last or four players start |
| Agreement.MirrorAgreement | game/src/client/ServerHandler.cpp:29-95 | in every run of a game an unmarked client that agreed at its start shows of the others exactly those alive, where the server has them and with their lives; its own entry is first and has its lives, and every correction hit that entry |
| ShortStart.DisagreementIsReached | game/src/client/ServerHandler.cpp:327-372 | a run reaches a start with three players and a client that waited and disagrees |
| ServerObject.Server.Accept | game/src/server/Server.cpp:177-204 | a new connection is booked in the lobby and nowhere else |
| ServerObject.Server.CleanupSock | game/src/server/Server.cpp:455-470 | the socket leaves all tables |
| ServerObject.Server.SortRooms | game/src/server/Server.cpp:326-337 | the reply names, once each, exactly the rooms not full by head count; the finished ones are found |
| ServerObject.Server.HandleGetRoomList | game/src/server/Server.cpp:326-348 | exactly the finished rooms are destroyed; the other room objects are untouched |
| ServerObject.Server.JoinNamed | game/src/server/Server.cpp:374-418 | the connection moves from the lobby into the room and its tables, or is refused, or is dropped |
| ServerObject.Server.HandleJoinRoom | game/src/server/Server.cpp:350-419 | the room asked for, a new one, or an error |
| ServerObject.Server.HandleRoomPostEvent | game/src/server/Server.cpp:441-453 | one timer for each bomb dropped, and the sockets closed struck off |
| ServerObject.Server.HandlePlayerEvent | game/src/server/Server.cpp:247-296 | a section of runRooms does to the room and the tables what the room step says, or nothing for a marked player or a finished room |
| ServerObject.Server.HandleTimerEvent | game/src/server/Server.cpp:314-317 | a section of runBombs does what the room step says |
| ServerLoop.OnAccepted | game/src/server/Server.cpp:177-204 | the whole server, room objects included, moves as the step of the state machine says, other rooms untouched |
| ServerLoop.OnLobbyLost | game/src/server/Server.cpp:206-213 | ... when a lobby connection is lost |
| ServerLoop.OnGetRoomList | game/src/server/Server.cpp:326-348 | ... when the room list is asked for |
| ServerLoop.OnJoin | game/src/server/Server.cpp:350-419 | ... when a room is asked for; new objects of the room are shared with no other |
| ServerLoop.OnPlayer | game/src/server/Server.cpp:247-296 | ... when a player in a room is heard of or lost, for the room the tables assign it |
| ServerLoop.OnTimer | game/src/server/Server.cpp:306-318 | ... when a timer goes off |
| ServerRuns.OnEvent | game/src/server/Server.cpp:161-320 | whatever the event, the whole server moves as the state machine says |
| ServerRuns.Serve | game/src/server/Server.cpp:161-320 | from its launch, over any sequence of events, the server object is where the run of the state machine is |
| ServerTheorems.ClosedAreRemoved | game/src/server/Server.cpp:449-452 | a step strikes off exactly the sockets of the players it removed |
| ServerTheorems.ErasingFinishedRoomsDropsNobody | game/src/server/Server.cpp:339-342 | a room destroyed had no players |
| ServerTheorems.DestroyedRoomsAreListed | game/src/server/Server.cpp:330-342 | a finished room is still in the list if and only if it never had four players |
| DestroyedRooms.FinishedRoomIsReached | game/src/server/Server.cpp:330-342 | a run of the server reaches a finished room that had fewer than four players |
| ServerTheorems.ServerBookkeeping | game/src/server/Server.cpp:192-198 | over every run lobby and rooms share no socket, none is listed twice, and the room tables hold exactly the players' sockets, each assigned to the one room that has it |
| ServerTheorems.BooksFromTheStart | game/src/server/Server.cpp:388-417 | so it is from an empty server |
| ServerTheorems.BookedKeepsApart | game/src/server/Server.cpp:396-414 | a socket is in one room at most, and not in the lobby then |
| Lobby.CleanedUp | game/src/server/Server.cpp:455-470 | whatever the tables held, a socket cleaned up is in none of them, and all others are where they were |
| Lobby.AcceptedIsIn | game/src/server/Server.cpp:177-204 | whatever the tables held, a socket accepted is in the lobby once and in no room table, and all others are where they were |
| Lobby.LobbyAfter | game/src/server/Server.cpp:177-213 | who is in the lobby after each event that is no request to join: a new connection is, a lost one is not, and one that asks for the list or anything unknown stays if and only if it can be answered |
| Lobby.RoomsAfterList | game/src/server/Server.cpp:326-348 | making the list removes the finished rooms and leaves the others and the room tables as they were |
| Lobby.TurnedAway | game/src/server/Server.cpp:350-384 | asking for a room that is not there or has had its four players, with no name or one in use: everything stays as it was if the error gets through (a room made for somebody without a name stays too), and the connection is closed otherwise |
| Lobby.Seated | game/src/server/Server.cpp:386-418 | anybody else who asks for a room that waits is in it, in front, off the lobby and in the room tables, and nothing else changes but what the others there are sent |
| Lobby.LeftOutside | game/src/server/Server.cpp:399-412 | anybody else who asks for a finished room that never had its four is struck off the lobby and gets no seat |
| Lobby.HomelessExactly | game/src/server/Server.cpp:350-418 | when errors get through, a request to join loses the connection its place in the lobby without a seat if and only if it is such a room, with a name |

## Left out

- ServerObject.Server.HandlePlayerEvent: works on the one room concerned; that the others stand as they did is OnPlayer's part. The player of a table entry is found by its socket instead of by pointer, and rooms are assigned by name.
- ServerObject.Server.HandleTimerEvent: an epoll record is the time its timer was armed, kept with the room; a timer whose room was erased is not followed further, though a room can be over with one armed (TimerOutlivesTheGame).
- RoomObject.Room.DisconnectPlayers: needs the sockets of a room to differ, as they do in every run; `epoll_ctl`, `shutdown` and `close` are not modelled.
- RoomObject.Room.NotifyExplosion: takes the random pick as a parameter that names somebody, for a draw that does not is undefined in the program.
- Framing.Connection.Send: a failing write that takes the counter below zero makes the program write from outside the buffer; the model stops there.
- Framing.Connection.Receive: a length byte of 128 or more makes the program read past its buffer; the model stops there. The empty messages made up by a failed read are taken to fit in memory.
- Agreement.MirrorAgreement: says nothing of the client's own position, which it moves on its own, nor of bombs, fire and the map it draws.
- Messages that `runRooms` leaves in a connection's queue: the loop that would drain it is guarded by a condition that is never met.
- Sockets, epoll, signals, threads and logging; a message is a value, and for framing a payload of bytes; Protocol Buffers encoding is not part of this model.
- Drawing, menus, keyboard, local animation and invulnerability counters of the client.
- The texts of error messages and the 256-byte buffer they are formatted into.
- `util::RandomString`: room names are parameters.
- The Go load generator.
