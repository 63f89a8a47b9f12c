/** The room object: every operation does to its players, bombs and field what the
    operation of the same name in `RoomSpec` says. */
module RoomObject {
  import opened Grid
  import opened Blast
  import opened Messages
  import opened MoveGuard
  import opened PlayerObject
  import Spec = RoomSpec

  type PlayerState = Spec.PlayerState

  /** No two players share an object, or a ring. */
  ghost predicate Apart(ps: seq<Player>) {
    && (forall i :: 0 <= i < |ps| ==> ps[i].Valid())
    && forall i, j :: 0 <= i < j < |ps| ==> ps[i] != ps[j] && ps[i].moveHistory != ps[j].moveHistory
  }

  ghost function Rings(ps: seq<Player>): set<array<MovementEntry>> {
    set i | 0 <= i < |ps| :: ps[i].moveHistory
  }

  ghost function Views(ps: seq<Player>): (vs: seq<PlayerState>)
    requires forall i :: 0 <= i < |ps| ==> ps[i].Valid()
    reads ps, Rings(ps)
    ensures |vs| == |ps| && forall i :: 0 <= i < |ps| ==> vs[i] == ps[i].View()
  {
    seq(|ps|, i requires 0 <= i < |ps| && ps[i].Valid() reads ps, Rings(ps) => ps[i].View())
  }

  /** One of the objects `ps` stands as `q` says. */
  ghost predicate Shown(ps: seq<Player>, q: PlayerState)
    reads ps, Rings(ps)
  {
    exists i :: 0 <= i < |ps| && ps[i].Valid() && ps[i].View() == q
  }

  lemma ShownAmong(ps: seq<Player>, all: seq<Player>, q: PlayerState)
    requires Shown(ps, q) && forall i :: 0 <= i < |ps| ==> ps[i] in all
    ensures Shown(all, q)
  {
    var i :| 0 <= i < |ps| && ps[i].Valid() && ps[i].View() == q;
    var j :| 0 <= j < |all| && all[j] == ps[i];
  }

  ghost function Burning(tiles: seq<Tile>): iset<Tile> {
    iset t | t in tiles
  }

  ghost predicate SocksDiffer(ps: seq<Player>) {
    forall i, j :: 0 <= i < j < |ps| ==> ps[i].sock != ps[j].sock
  }

  /** Players of `all`, and their sockets. */
  ghost predicate Match(leavers: seq<Player>, socks: seq<Sock>, all: seq<Player>) {
    |leavers| == |socks| && forall i :: 0 <= i < |leavers| ==> leavers[i] in all && leavers[i].sock == socks[i]
  }

  /** Where the first pass of the disconnects stands. */
  ghost predicate Pass(s: Spec.Sweep, bombsToPlace: nat, socks: seq<Sock>, leavers: seq<Player>, all: seq<Player>) {
    bombsToPlace == |s.dropped| && socks == s.gone && Match(leavers, socks, all)
  }

  /** The players whose socket is not among `gone`, in order. */
  ghost function Remaining(ps: seq<Player>, gone: seq<Sock>): (kept: seq<Player>) {
    if ps == [] then []
    else (if ps[0].sock in gone then [] else [ps[0]]) + Remaining(ps[1..], gone)
  }

  lemma {:induction false} RemainingAll(ps: seq<Player>)
    ensures Remaining(ps, []) == ps
  {
    if ps != [] {
      RemainingAll(ps[1..]);
    }
  }

  lemma {:induction false} RemainingMembers(ps: seq<Player>, gone: seq<Sock>)
    ensures forall i :: 0 <= i < |Remaining(ps, gone)| ==>
      Remaining(ps, gone)[i] in ps && Remaining(ps, gone)[i].sock !in gone
    ensures SocksDiffer(ps) ==> SocksDiffer(Remaining(ps, gone))
  {
    if ps != [] {
      RemainingMembers(ps[1..], gone);
      assert forall i | 0 <= i < |Remaining(ps[1..], gone)| :: Remaining(ps[1..], gone)[i] in ps[1..];
      assert Remaining(ps, gone) == Remaining(ps[1..], gone) || (ps[0].sock !in gone &&
          Remaining(ps, gone) == [ps[0]] + Remaining(ps[1..], gone));
    }
  }

  lemma {:induction false} RemainingTwice(ps: seq<Player>, gone: seq<Sock>, sock: Sock)
    ensures Remaining(Remaining(ps, gone), [sock]) == Remaining(ps, gone + [sock])
  {
    if ps != [] {
      var rest := Remaining(ps[1..], gone);
      RemainingTwice(ps[1..], gone, sock);
      if ps[0].sock in gone {
        assert Remaining(ps, gone) == rest;
      } else {
        assert Remaining(ps, gone) == [ps[0]] + rest && ([ps[0]] + rest)[1..] == rest;
      }
    }
  }

  /** What taking out one more player amounts to. */
  lemma RemainingNext(ps: seq<Player>, gone: seq<Sock>, k: nat, p: Player)
    requires SocksDiffer(ps) && p in ps && k < |gone| && p.sock == gone[k]
    ensures SocksDiffer(Remaining(ps, gone[..k]))
    ensures var kept := Remaining(ps, gone[..k]);
      forall i :: 0 <= i < |kept| && kept[i].sock == p.sock ==> kept[i] == p
    ensures Remaining(Remaining(ps, gone[..k]), [p.sock]) == Remaining(ps, gone[..k + 1])
  {
    RemainingMembers(ps, gone[..k]);
    RemainingTwice(ps, gone[..k], gone[k]);
    assert gone[..k + 1] == gone[..k] + [gone[k]];
  }

  lemma {:induction false} RemainingSame(ps: seq<Player>, sock: Sock)
    requires forall i :: 0 <= i < |ps| ==> ps[i].sock != sock
    ensures Remaining(ps, [sock]) == ps
  {
    if ps != [] {
      RemainingSame(ps[1..], sock);
    }
  }

  lemma {:induction false} RemainingWithout(ps: seq<Player>, i: nat)
    requires SocksDiffer(ps) && i < |ps|
    ensures Remaining(ps, [ps[i].sock]) == ps[..i] + ps[i + 1..]
  {
    if i == 0 {
      RemainingSame(ps[1..], ps[0].sock);
    } else {
      RemainingWithout(ps[1..], i - 1);
      assert ps[..i] + ps[i + 1..] == [ps[0]] + (ps[1..][..i - 1] + ps[1..][i..]);
    }
  }

  /** The bombs dropped have no part in how a room closes. */
  lemma DroppedAside(r: Spec.RoomState, now: Timestamp)
    ensures var s := Spec.SweepFrom(Spec.Sweep(r.players, [], []), 0, r.state == Spec.Play, now);
      var u := r.(players := Spec.Keep(s.players, s.gone), bombs := r.bombs + s.dropped);
      Spec.DisconnectPlayers(r, now) == Spec.CloseIfOver(u, [], s.gone).(dropped := s.dropped)
  {
  }

  /** A message sent to the first `i` players but number `k`. */
  ghost function SentUpTo(ps: seq<PlayerState>, i: nat, k: int, m: ServerMsg): (qs: seq<PlayerState>)
    requires i <= |ps|
    ensures |qs| == |ps|
  {
    seq(|ps|, j requires 0 <= j < |ps| => if j < i && j != k then Spec.Send(ps[j], m) else ps[j])
  }

  lemma OneMoreSent(ps: seq<PlayerState>, i: nat, k: int, m: ServerMsg)
    requires i < |ps|
    ensures SentUpTo(ps, i + 1, k, m) ==
      if i == k then SentUpTo(ps, i, k, m) else Spec.SendOne(SentUpTo(ps, i, k, m), i, m)
  {
    var qs := if i == k then SentUpTo(ps, i, k, m) else Spec.SendOne(SentUpTo(ps, i, k, m), i, m);
    forall j | 0 <= j < |ps|
      ensures SentUpTo(ps, i + 1, k, m)[j] == qs[j]
    {
    }
    assert SentUpTo(ps, i + 1, k, m) == qs;
  }

  lemma AllSent(ps: seq<PlayerState>, k: int, m: ServerMsg)
    ensures SentUpTo(ps, |ps|, k, m) == Spec.SendExcept(ps, k, m)
  {
    assert forall j | 0 <= j < |ps| :: SentUpTo(ps, |ps|, k, m)[j] == Spec.SendExcept(ps, k, m)[j];
  }

  lemma HurtAndTold(ps: seq<PlayerState>, i: nat, m: ServerMsg, now: Timestamp)
    requires i < |ps| && m == GotHit(ps[i].username, ps[i].livesRemaining - 1, now)
    ensures Spec.HurtAndTell(ps, i, now) == Spec.Broadcast(ps[i := Spec.Hurt(ps[i], now)], m)
  {
  }

  lemma ApartCons(p: Player, ps: seq<Player>)
    requires p.Valid() && Apart(ps)
    requires forall i :: 0 <= i < |ps| ==> ps[i] != p && ps[i].moveHistory != p.moveHistory
    ensures Apart([p] + ps)
  {
  }

  lemma {:induction false} RemainingApart(ps: seq<Player>, gone: seq<Sock>)
    requires Apart(ps)
    ensures Apart(Remaining(ps, gone))
  {
    if ps != [] {
      RemainingApart(ps[1..], gone);
      RemainingMembers(ps[1..], gone);
      forall i | 0 <= i < |Remaining(ps[1..], gone)|
        ensures Remaining(ps[1..], gone)[i] != ps[0] && Remaining(ps[1..], gone)[i].moveHistory != ps[0].moveHistory
      {
        var j :| 0 <= j < |ps[1..]| && ps[1..][j] == Remaining(ps[1..], gone)[i];
        assert ps[j + 1] == Remaining(ps[1..], gone)[i];
      }
      ApartCons(ps[0], Remaining(ps[1..], gone));
      assert Remaining(ps, gone) == Remaining(ps[1..], gone) ||
          Remaining(ps, gone) == [ps[0]] + Remaining(ps[1..], gone);
    }
  }

  lemma {:induction false} RemainingViews(ps: seq<Player>, gone: seq<Sock>)
    requires Apart(ps) && Apart(Remaining(ps, gone))
    ensures Views(Remaining(ps, gone)) == Spec.Keep(Views(ps), gone)
  {
    if ps != [] {
      var rest := Remaining(ps[1..], gone);
      RemainingApart(ps[1..], gone);
      RemainingViews(ps[1..], gone);
      assert Views(ps)[1..] == Views(ps[1..]) && Views(ps)[0] == ps[0].View();
      if ps[0].sock in gone {
        assert Remaining(ps, gone) == rest;
      } else {
        assert Remaining(ps, gone) == [ps[0]] + rest;
        assert Views([ps[0]] + rest) == [ps[0].View()] + Views(rest);
      }
    }
  }

  class Room {
    var players: seq<Player>
    var bombs: seq<Bomb>
    var state: Spec.GameState
    var clientCount: nat
    const field: TileMap

    ghost predicate Valid()
      reads this, field, field.cells
    {
      field.Valid() && Apart(players)
    }

    ghost function View(): Spec.RoomState
      requires Valid()
      reads this, field, field.cells, players, Rings(players)
    {
      Spec.RoomState(Views(players), bombs, state, clientCount, field.Contents)
    }

    /** Everything the room is made of. */
    ghost function Footprint(): set<object>
      reads this
    {
      {this, field, field.cells} + (set p | p in players) + Rings(players)
    }

    /** The room is in order and stands as `r` says. */
    ghost predicate Shows(r: Spec.RoomState)
      reads this, Footprint()
    {
      Valid() && View() == r
    }

    constructor ()
      ensures Valid() && fresh(Footprint()) && View() == Spec.NEW_ROOM
    {
      players, bombs, state, clientCount := [], [], Spec.WaitForStart, 0;
      field := new TileMap();
    }

    // ----- sends

    method SendSpecific(player: Player, m: ServerMsg)
      requires player.Valid()
      modifies player`link, player`markedForDisconnect
      ensures player.View() == Spec.Send(old(player.View()), m)
    {
      var sent := !Fails(player.link);
      player.link := Attempt(player.link, m);
      if !sent {
        player.markedForDisconnect := true;
      }
    }

    /** Sending to player number `k`, as seen by the whole list. */
    method SendTo(player: Player, ghost k: nat, m: ServerMsg)
      requires Apart(players) && k < |players| && players[k] == player
      modifies player`link, player`markedForDisconnect
      ensures Views(players) == Spec.SendOne(old(Views(players)), k, m)
    {
      ghost var before := Views(players);
      SendSpecific(player, m);
      assert forall j | 0 <= j < |players| && j != k :: players[j].View() == before[j];
    }

    method SendExcept(player: Player?, ghost k: int, m: ServerMsg)
      requires Apart(players)
      requires forall i :: 0 <= i < |players| ==> (players[i] == player <==> i == k)
      modifies players
      ensures Views(players) == Spec.SendExcept(old(Views(players)), k, m)
    {
      ghost var before := Views(players);
      for i := 0 to |players|
        invariant Views(players) == SentUpTo(before, i, k, m)
      {
        OneMoreSent(before, i, k, m);
        if players[i] != player {
          SendTo(players[i], i, m);
        }
      }
      AllSent(before, k, m);
    }

    method SendBroadcast(m: ServerMsg)
      requires Apart(players)
      modifies players
      ensures Views(players) == Spec.Broadcast(old(Views(players)), m)
    {
      SendExcept(null, -1, m);
    }

    // ----- joining

    method CanJoin(username: string) returns (rejected: Option<string>)
      requires Valid()
      ensures rejected == None <==> Spec.CanJoin(View(), username)
    {
      if username == "" {
        return Some("Empty username");
      }
      var alreadyExists := false;
      for i := 0 to |players|
        invariant alreadyExists <==> exists j :: 0 <= j < i && players[j].username == username
      {
        if players[i].username == username {
          alreadyExists := true;
        }
      }
      assert alreadyExists <==> Spec.HasName(Views(players), username);
      if alreadyExists {
        return Some("There already is a nick like that");
      }
      if Spec.MAX_PLAYERS - clientCount == 0 {
        return Some("Room is full");
      }
      return None;
    }

    method ListPlayers() returns (list: seq<Listed>)
      requires Apart(players)
      ensures list == Spec.Listing(Views(players))
    {
      list := [];
      for i := 0 to |players|
        invariant |list| == i && forall j :: 0 <= j < i ==> list[j] == Listed(players[j].username, players[j].color)
      {
        list := list + [Listed(players[i].username, players[i].color)];
      }
    }

    /** The newcomer goes to the front. */
    method Seat(sock: Sock, username: string, faults: set<nat>, now: Timestamp) returns (player: Player)
      requires Valid() && Spec.IsColor(|players|)
      modifies this`players, this`clientCount
      ensures Valid() && fresh(player) && fresh(player.moveHistory) && players == [player] + old(players)
      ensures Views(players) == [Spec.NewPlayer(sock, username, |old(players)|, faults, now)] + old(Views(players))
      ensures clientCount == old(clientCount) + 1
    {
      ghost var before := Views(players);
      player := new Player(sock, username, |players|, faults, now);
      players := [player] + players;
      clientCount := clientCount + 1;
      assert forall j | 0 < j < |players| :: players[j].View() == before[j - 1];
    }

    /** The newcomer gets the list, the others get the newcomer. */
    method Introduce()
      requires Apart(players) && |players| > 0
      modifies players
      ensures var vs := old(Views(players));
        var welcomed := Spec.SendOne(vs, 0, WelcomeToRoom(Spec.Listing(vs)));
        Views(players) == Spec.SendExcept(welcomed, 0, GameJoin(Listed(vs[0].username, vs[0].color)))
    {
      ghost var vs := Views(players);
      assert vs[0] == players[0].View();
      var list := ListPlayers();
      assert list == Spec.Listing(vs);
      SendTo(players[0], 0, WelcomeToRoom(list));
      assert Views(players) == Spec.SendOne(vs, 0, WelcomeToRoom(Spec.Listing(vs)));
      var newcomer := Listed(players[0].username, players[0].color);
      assert newcomer == Listed(vs[0].username, vs[0].color);
      SendExcept(players[0], 0, GameJoin(newcomer));
      assert Views(players) ==
          Spec.SendExcept(Spec.SendOne(vs, 0, WelcomeToRoom(Spec.Listing(vs))), 0, GameJoin(newcomer));
    }

    /** Null, and nothing done, once the room no longer waits. */
    method JoinPlayer(sock: Sock, username: string, faults: set<nat>, now: Timestamp) returns (player: Player?)
      requires Valid() && (state == Spec.WaitForStart ==> Spec.IsColor(|players|))
      modifies this`players, this`clientCount, this`state, players
      ensures Valid()
      ensures player == null <==> old(state) != Spec.WaitForStart
      ensures player == null ==> players == old(players) && View() == old(View())
      ensures player != null ==> fresh(player) && fresh(player.moveHistory) && players == [player] + old(players)
      ensures player != null ==> View() == Spec.JoinPlayer(old(View()), sock, username, faults, now)
    {
      if state != Spec.WaitForStart {
        return null;
      }
      player := Seat(sock, username, faults, now);
      Introduce();
      StartIfFull();
    }

    method StartIfFull()
      requires Valid()
      modifies this`state, players
      ensures Valid()
      ensures View() == if clientCount == Spec.MAX_PLAYERS
        then old(View()).(players := Spec.Broadcast(old(Views(players)), GameStart), state := Spec.Play)
        else old(View())
    {
      if Spec.MAX_PLAYERS - clientCount == 0 {
        ghost var told := Views(players);
        state := Spec.Play;
        assert Views(players) == told;
        SendBroadcast(GameStart);
      }
    }

    // ----- messages from players

    method HandleMove(author: Player, ghost k: nat, to: Tile, now: Timestamp)
      requires Valid() && k < |players| && players[k] == author && InGrid(to)
      modifies players, author.moveHistory
      ensures Valid() && View() == Spec.MoveTo(old(View()), k, to, now)
    {
      ghost var before := Views(players);
      var tileState := field.GetSquareState(to.x, to.y);
      if tileState != NOTHIN {
        SendTo(author, k, MovementCorrection(author.coords));
        return;
      }
      var correction := author.MoveCheckSus(to.x, to.y, now);
      assert Views(players) == before[k := before[k].(guard := MoveCheck(before[k].guard, to, now).0)];
      if correction.Some? {
        SendTo(author, k, MovementCorrection(correction.value));
        return;
      }
      SendExcept(author, k, OtherMove(author.username, to));
    }

    /** True when a bomb was placed and wants a timer. Coordinates in range. */
    method HandleMessage(author: Player, ghost k: nat, msg: ClientMsg, now: Timestamp) returns (placed: bool)
      requires Valid() && k < |players| && players[k] == author
      requires msg.IMove? ==> InGrid(msg.to)
      modifies this`bombs, players, author.moveHistory
      ensures Valid() && (View(), placed) == Spec.HandleMessage(old(View()), k, msg, now)
    {
      placed := false;
      ghost var before := Views(players);
      if state == Spec.WaitForStart {
        if msg != ILeave {
          SendTo(author, k, Error);
          return;
        }
        players[0].markedForDisconnect := true;
        assert Views(players) == before[0 := before[0].(marked := true)];
        return;
      }
      if author.livesRemaining == 0 && msg != ILeave {
        SendTo(author, k, Error);
        return;
      }
      match msg
      case IPlaceBomb(at) =>
        bombs := bombs + [Bomb(at, 3, now, false)];
        assert Views(players) == before;
        SendExcept(author, k, OtherBombPlace(author.username, now, at));
        placed := true;
      case IMove(to) =>
        HandleMove(author, k, to, now);
      case ILeave =>
        author.markedForDisconnect := true;
        assert Views(players) == before[k := before[k].(marked := true)];
      case OtherType =>
        SendTo(author, k, Error);
    }

    /** What the event loop does to a player it can no longer receive from. */
    method MarkPlayer(k: nat)
      requires Valid() && k < |players|
      modifies players
      ensures Valid() && Views(players) == old(Views(players))[k := old(Views(players))[k].(marked := true)]
    {
      ghost var before := Views(players);
      players[k].markedForDisconnect := true;
      assert forall j | 0 <= j < |players| && j != k :: players[j].View() == before[j];
    }

    // ----- explosions

    method AlivePlayers() returns (alive: seq<nat>)
      requires Apart(players)
      ensures Views(players) == old(Views(players)) && alive == Spec.Alive(Views(players))
    {
      ghost var vs := Views(players);
      alive := [];
      for i := 0 to |players|
        invariant alive == Spec.AliveUpTo(vs, i)
      {
        assert vs[i] == players[i].View();
        if players[i].livesRemaining > 0 {
          alive := alive + [i];
        }
      }
    }

    /** Player `i` against the burning tiles. Immunity makes one blast cost one life at
        most, whatever the number of tiles. */
    method CheckPlayer(i: nat, tiles: seq<Tile>, now: Timestamp)
      requires Apart(players) && i < |players|
      modifies players
      ensures Views(players) ==
        if Spec.Hit(old(Views(players))[i], Burning(tiles), now)
        then Spec.HurtAndTell(old(Views(players)), i, now) else old(Views(players))
    {
      ghost var before := Views(players);
      var player := players[i];
      for j := 0 to |tiles|
        invariant Views(players) ==
          if Spec.Hit(before[i], Burning(tiles[..j]), now) then Spec.HurtAndTell(before, i, now) else before
      {
        assert Views(players)[i] == player.View();
        assert forall t :: t in tiles[..j + 1] <==> t in tiles[..j] || t == tiles[j];
        if player.coords == tiles[j] && player.livesRemaining > 0 {
          if player.immunityEnd > now {
            continue;
          }
          HurtPlayer(i, now);
        }
      }
      assert tiles[..|tiles|] == tiles;
    }

    /** Player `i` loses a life, is immune for a while, and everybody is told. */
    method HurtPlayer(i: nat, now: Timestamp)
      requires Apart(players) && i < |players|
      modifies players
      ensures Views(players) == Spec.HurtAndTell(old(Views(players)), i, now)
    {
      ghost var before := Views(players);
      assert before[i] == players[i].View();
      var m := GotHit(players[i].username, players[i].livesRemaining - 1, now);
      TakeLife(players[i], i, now);
      SendBroadcast(m);
      HurtAndTold(before, i, m, now);
    }

    method TakeLife(player: Player, ghost i: nat, now: Timestamp)
      requires Apart(players) && i < |players| && players[i] == player
      modifies player`immunityEnd, player`livesRemaining
      ensures Apart(players)
      ensures Views(players) == old(Views(players))[i := Spec.Hurt(old(Views(players))[i], now)]
    {
      ghost var before := Views(players);
      player.immunityEnd := now + Spec.IMMUNITY_TIME_MILLIS;
      player.livesRemaining := player.livesRemaining - 1;
      assert forall j | 0 <= j < |players| && j != i :: players[j].View() == before[j];
    }

    method MarkEveryone()
      requires Apart(players)
      modifies players
      ensures Views(players) == Spec.MarkAll(old(Views(players)))
    {
      ghost var before := Views(players);
      for i := 0 to |players|
        invariant forall j :: 0 <= j < i ==> players[j].View() == before[j].(marked := true)
        invariant forall j :: i <= j < |players| ==> players[j].View() == before[j]
      {
        players[i].markedForDisconnect := true;
      }
    }

    method Username(i: nat) returns (username: string)
      requires Apart(players) && i < |players|
      ensures Views(players) == old(Views(players)) && username == Views(players)[i].username
    {
      username := players[i].username;
      assert Views(players)[i] == players[i].View();
    }

    /** The winner is announced, everybody is marked, the game is over. */
    method Win(winner: string)
      requires Valid()
      modifies this`state, players
      ensures Valid() && View() == Spec.Win(old(View()), winner)
    {
      SendBroadcast(GameWon(winner));
      ghost var told := Views(players);
      state := Spec.WaitForEnd;
      assert Views(players) == told;
      MarkEveryone();
      ghost var marked := Views(players);
      state := Spec.GameOver;
      assert Views(players) == marked;
    }

    /** Who has won, now that the blast is over. */
    method PickWinner(aliveBefore: seq<nat>, draw: nat) returns (winner: Option<string>)
      requires Valid()
      requires Spec.Alive(Views(players)) == [] ==> draw < |aliveBefore| && aliveBefore[draw] < |players|
      ensures View() == old(View()) && winner == Spec.WinnerOf(View().players, aliveBefore, draw)
    {
      ghost var vs := Views(players);
      var alive := AlivePlayers();
      assert Views(players) == vs && alive == Spec.Alive(vs);
      if |alive| == 0 {
        assert alive == [];
        var name := Username(aliveBefore[draw]);
        return Some(name);
      }
      if |alive| == 1 {
        var name := Username(alive[0]);
        return Some(name);
      }
      return None;
    }

    /** One fuse has burnt down. `draw` is the random pick among those alive before, used
        when nobody is alive after. */
    method NotifyExplosion(draw: nat, now: Timestamp)
      requires Valid() && Spec.DrawDefined(View(), draw, now)
      requires Spec.Explodes(View()) ==> Walled(field.Contents) && Inside(bombs[0].pos)
      modifies this`state, this`bombs, field, field.cells, players
      ensures Valid() && View() == Spec.NotifyExplosion(old(View()), draw, now).room
    {
      if state != Spec.Play || |bombs| == 0 {
        return;
      }
      ghost var r := View();
      var aliveBefore := AlivePlayers();
      assert View() == r && aliveBefore == Spec.Alive(r.players);
      Explode(now);
      assert View() == Spec.Detonate(r, now);
      Conclude(aliveBefore, draw);
    }

    /** A single survivor wins; among the dead, one of those alive before is drawn. */
    method Conclude(aliveBefore: seq<nat>, draw: nat)
      requires Valid()
      requires Spec.Alive(Views(players)) == [] ==> draw < |aliveBefore| && aliveBefore[draw] < |players|
      modifies this`state, players
      ensures Valid()
      ensures View() == Spec.Conclude(old(View()), Spec.WinnerOf(old(Views(players)), aliveBefore, draw)).room
    {
      var winner := PickWinner(aliveBefore, draw);
      if winner.Some? {
        Win(winner.value);
      }
    }

    /** Every player in turn against the burning tiles. */
    method CheckPlayers(tiles: seq<Tile>, now: Timestamp)
      requires Apart(players)
      modifies players
      ensures Views(players) == Spec.Blasted(old(Views(players)), 0, Burning(tiles), now)
    {
      ghost var before := Views(players);
      for i := 0 to |players|
        invariant Spec.Blasted(Views(players), i, Burning(tiles), now) == Spec.Blasted(before, 0, Burning(tiles), now)
      {
        ghost var vs := Views(players);
        CheckPlayer(i, tiles, now);
        assert Spec.Blasted(vs, i, Burning(tiles), now) == Spec.Blasted(Views(players), i + 1, Burning(tiles), now);
      }
    }

    /** The front bomb goes off and the players are checked one by one. */
    method Explode(now: Timestamp)
      requires Valid() && bombs != [] && Walled(field.Contents) && Inside(bombs[0].pos)
      modifies this`bombs, field, field.cells, players
      ensures Valid() && View() == Spec.Detonate(old(View()), now)
    {
      ghost var vs, g := Views(players), field.Contents;
      var bomb := bombs[0];
      bombs := bombs[1..];
      var tiles := Boom(field, bomb);
      assert Burning(tiles) == Spec.LitTiles(g, bomb);
      assert Views(players) == vs;
      CheckPlayers(tiles, now);
    }

    // ----- disconnects

    /** Player `i` leaves: the others are told, and a bomb drops where it stood if it was
        alive in the game. `s` is where the pass stands. */
    method Evict(i: nat, now: Timestamp, ghost s: Spec.Sweep)
      returns (drops: bool, ghost t: Spec.Sweep, ghost fell: seq<Bomb>)
      requires Valid() && i < |players| && s.players == Views(players)
      modifies this`bombs, players
      ensures Valid() && t == Spec.Evict(s, i, state == Spec.Play, now) && Views(players) == t.players
      ensures bombs == old(bombs) + fell && t.dropped == s.dropped + fell && |fell| == if drops then 1 else 0
    {
      var player := players[i];
      assert s.players[i] == player.View();
      SendExcept(player, i, OtherLeave(player.username));
      drops := state == Spec.Play && player.livesRemaining != 0;
      ghost var told := Views(players);
      assert told[i] == player.View();
      t, fell := Spec.Evict(s, i, state == Spec.Play, now), [];
      if drops {
        fell := [Bomb(player.coords, 9, now, true)];
        bombs := bombs + [Bomb(player.coords, 9, now, true)];
        assert Views(players) == told;
        SendExcept(player, i, OtherBombPlace("Server", now, player.coords));
      }
    }

    /** One turn of the first pass; `before` are the bombs there were when it began. */
    method Visit(i: nat, now: Timestamp, toPlace: nat, gone: seq<Sock>, leavers: seq<Player>, ghost s: Spec.Sweep,
            ghost before: seq<Bomb>)
      returns (bombsToPlace: nat, socks: seq<Sock>, toDestroy: seq<Player>, ghost t: Spec.Sweep)
      requires Valid() && i < |players| && s.players == Views(players) && bombs == before + s.dropped
      requires Pass(s, toPlace, gone, leavers, players)
      modifies this`bombs, players
      ensures Valid() && t.players == Views(players) && bombs == before + t.dropped
      ensures Pass(t, bombsToPlace, socks, toDestroy, players)
      ensures Spec.SweepFrom(s, i, state == Spec.Play, now) == Spec.SweepFrom(t, i + 1, state == Spec.Play, now)
    {
      bombsToPlace, socks, toDestroy := toPlace, gone, leavers;
      t := s;
      assert s.players[i] == players[i].View();
      if players[i].markedForDisconnect {
        socks, toDestroy := socks + [players[i].sock], toDestroy + [players[i]];
        var drops;
        ghost var fell;
        drops, t, fell := Evict(i, now, s);
        assert (before + s.dropped) + fell == before + (s.dropped + fell);
        if drops {
          bombsToPlace := bombsToPlace + 1;
        }
      }
    }

    /** The first pass: notices and bombs, nobody erased yet. */
    method EvictMarked(now: Timestamp) returns (bombsToPlace: nat, socks: seq<Sock>, toDestroy: seq<Player>)
      requires Valid()
      modifies this`bombs, players
      ensures Valid()
      ensures var s := Spec.SweepFrom(Spec.Sweep(old(Views(players)), [], []), 0, state == Spec.Play, now);
        Views(players) == s.players && bombs == old(bombs) + s.dropped &&
          Pass(s, bombsToPlace, socks, toDestroy, players)
    {
      bombsToPlace, socks, toDestroy := 0, [], [];
      ghost var s := Spec.Sweep(Views(players), [], []);
      assert bombs + [] == bombs;
      ghost var before, swept := bombs, Spec.SweepFrom(s, 0, state == Spec.Play, now);
      for i := 0 to |players|
        invariant Valid() && s.players == Views(players) && bombs == before + s.dropped
        invariant Pass(s, bombsToPlace, socks, toDestroy, players)
        invariant Spec.SweepFrom(s, i, state == Spec.Play, now) == swept
      {
        bombsToPlace, socks, toDestroy, s := Visit(i, now, bombsToPlace, socks, toDestroy, s, before);
      }
    }

    /** The second pass, by object identity. */
    method Erase(toDestroy: seq<Player>, ghost socks: seq<Sock>)
      requires SocksDiffer(players)
      requires Match(toDestroy, socks, players)
      modifies this`players
      ensures players == Remaining(old(players), socks)
    {
      ghost var all := players;
      RemainingAll(all);
      for k := 0 to |toDestroy|
        invariant players == Remaining(all, socks[..k])
      {
        RemainingNext(all, socks, k, toDestroy[k]);
        EraseOne(toDestroy[k]);
      }
      assert socks[..|socks|] == socks;
    }

    method EraseLeavers(toDestroy: seq<Player>, ghost socks: seq<Sock>)
      requires Apart(players) && SocksDiffer(players)
      requires Match(toDestroy, socks, players)
      modifies this`players
      ensures Apart(players) && forall i :: 0 <= i < |players| ==> players[i] in old(players)
      ensures Views(players) == Spec.Keep(old(Views(players)), socks)
    {
      ghost var all, before := players, Views(players);
      Erase(toDestroy, socks);
      assert Views(all) == before;
      RemainingApart(all, socks);
      RemainingMembers(all, socks);
      RemainingViews(all, socks);
    }

    /** The first entry that is that object goes, if there is one. */
    method EraseOne(player: Player)
      requires SocksDiffer(players) && forall i :: 0 <= i < |players| && players[i].sock == player.sock ==>
          players[i] == player
      modifies this`players
      ensures players == Remaining(old(players), [player.sock])
    {
      for i := 0 to |players|
        invariant forall j :: 0 <= j < i ==> players[j] != player
        invariant players == old(players)
      {
        if players[i] == player {
          RemainingWithout(players, i);
          players := players[..i] + players[i + 1..];
          return;
        }
      }
      RemainingSame(players, player.sock);
    }

    /** Both passes: the room without the leavers. */
    method RemoveMarked(now: Timestamp) returns (bombsToPlace: nat, gone: seq<Sock>)
      requires Valid() && SocksDiffer(players)
      modifies this`players, this`bombs, players
      ensures Valid() && forall i :: 0 <= i < |players| ==> players[i] in old(players)
      ensures var r := old(View());
        var s := Spec.SweepFrom(Spec.Sweep(r.players, [], []), 0, r.state == Spec.Play, now);
        && View() == r.(players := Spec.Keep(s.players, s.gone), bombs := r.bombs + s.dropped)
        && bombsToPlace == |s.dropped| && gone == s.gone
    {
      var toDestroy;
      bombsToPlace, gone, toDestroy := EvictMarked(now);
      EraseLeavers(toDestroy, gone);
    }

    /** Whoever is marked when its turn comes goes, with the atomic bombs to arm timers
        for and the sockets to strike off the tables. A single player left wins, is told
        so and goes too. */
    method DisconnectPlayers(now: Timestamp) returns (bombsToPlace: nat, socks: seq<Sock>)
      requires Valid() && SocksDiffer(players)
      modifies this`players, this`bombs, this`state, players
      ensures Valid() && forall i :: 0 <= i < |players| ==> players[i] in old(players)
      ensures var d := Spec.DisconnectPlayers(old(View()), now);
        && View() == d.room && bombsToPlace == |d.dropped| && socks == d.sockets
        && (d.farewell.Some? ==> Shown(old(players), d.farewell.value))
    {
      ghost var r := View();
      var gone;
      bombsToPlace, gone := RemoveMarked(now);
      ghost var rest, d := players, Spec.CloseIfOver(View(), [], gone);
      DroppedAside(r, now);
      socks := CloseIfOver(gone);
      if d.farewell.Some? {
        ShownAmong(rest, old(players), d.farewell.value);
      }
    }

    /** The room once the marked are gone: over if one player is left, or none. */
    method CloseIfOver(gone: seq<Sock>) returns (socks: seq<Sock>)
      requires Valid()
      modifies this`players, this`state, players
      ensures Valid() && forall i :: 0 <= i < |players| ==> players[i] in old(players)
      ensures var d := Spec.CloseIfOver(old(View()), [], gone);
        && View() == d.room && socks == d.sockets
        && (d.farewell.Some? ==> Shown(old(players), d.farewell.value))
    {
      ghost var rest := Views(players);
      socks := gone;
      match |players| {
        case 0 =>
          state := Spec.GameOver;
          assert Views(players) == rest;
        case 1 =>
          assert rest[0] == players[0].View();
          SendBroadcast(GameWon(players[0].username));
          state := Spec.WaitForEnd;
          socks := socks + [players[0].sock];
          players := [];
          state := Spec.GameOver;
        case _ =>
      }
    }
  }
}
