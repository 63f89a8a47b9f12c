/** What the messages a client has received come to, told without running the client. */
module ClientLog {
  import opened Grid
  import opened Messages
  import opened Client

  /** The client got into its game: the start came before any error. */
  ghost predicate Plays(log: seq<ServerMsg>) {
    exists i :: 0 <= i < |log| && log[i] == GameStart && Error !in log[..i]
  }

  lemma PlaysOn(log: seq<ServerMsg>, longer: seq<ServerMsg>)
    requires Plays(log) && log <= longer
    ensures Plays(longer)
  {
    var i :| 0 <= i < |log| && log[i] == GameStart && Error !in log[..i];
    assert longer[i] == GameStart && longer[..i] == log[..i];
  }

  lemma PlaysSnoc(log: seq<ServerMsg>, m: ServerMsg)
    ensures Plays(log + [m]) <==> Plays(log) || (m == GameStart && Error !in log)
  {
    var longer := log + [m];
    if Plays(log) {
      PlaysOn(log, longer);
    }
    if m == GameStart && Error !in log {
      assert longer[|log|] == GameStart && longer[..|log|] == log;
    }
    if Plays(longer) {
      var i :| 0 <= i < |longer| && longer[i] == GameStart && Error !in longer[..i];
      assert longer[..i] == log[..i];
      assert i < |log| ==> log[i] == GameStart;
      assert i == |log| ==> log[..i] == log;
    }
  }

  lemma {:induction false} AddingKeepsTheRest(c: ClientState, ps: seq<Listed>)
    ensures AddPlayers(c, ps).phase == c.phase && AddPlayers(c, ps).winner == c.winner
    decreases |ps|
  {
    if ps != [] {
      AddingKeepsTheRest(c, ps[..|ps| - 1]);
    }
  }

  /** The phase of a client told from the log: in its game from the start on, unless an error
      came before, which halts it for good. */
  lemma {:induction false} PhaseOfLog(log: seq<ServerMsg>)
    ensures ClientOf(log).phase == if Plays(log) then Playing else if Error in log then Halted else InLobby
  {
    if log != [] {
      var before, m := log[..|log| - 1], log[|log| - 1];
      assert log == before + [m];
      PhaseOfLog(before);
      PlaysSnoc(before, m);
      if m.WelcomeToRoom? {
        AddingKeepsTheRest(ClientOf(before), m.players);
      }
    }
  }

  /** Entry `i` is the last win the client heard of, and it was in its game. */
  ghost predicate IsLastWin(log: seq<ServerMsg>, i: nat) {
    && i < |log| && log[i].GameWon? && Plays(log[..i])
    && forall j | i < j < |log| :: !log[j].GameWon?
  }

  lemma LastWinSnoc(log: seq<ServerMsg>, m: ServerMsg, i: nat)
    requires IsLastWin(log + [m], i)
    ensures if i == |log| then m.GameWon? && Plays(log) else !m.GameWon? && IsLastWin(log, i)
  {
    var longer := log + [m];
    if i == |log| {
      assert longer[..i] == log;
    } else {
      assert longer[|log|] == m && longer[..i] == log[..i];
      assert forall j | i < j < |log| :: longer[j] == log[j];
    }
  }

  lemma {:induction false} WinnerShown(log: seq<ServerMsg>, i: nat)
    requires IsLastWin(log, i)
    ensures ClientOf(log).winner == log[i].winner
  {
    var before, m := log[..|log| - 1], log[|log| - 1];
    assert log == before + [m];
    LastWinSnoc(before, m, i);
    PhaseOfLog(before);
    if i < |before| {
      WinnerShown(before, i);
      PlaysOn(log[..i], before);
    }
  }

  lemma {:induction false} NoWinnerShown(log: seq<ServerMsg>)
    requires forall i | 0 <= i < |log| && log[i].GameWon? :: !Plays(log[..i])
    ensures ClientOf(log).winner == ""
  {
    if log != [] {
      var before, m := log[..|log| - 1], log[|log| - 1];
      assert log == before + [m];
      PhaseOfLog(before);
      forall i | 0 <= i < |before| && before[i].GameWon?
        ensures !Plays(before[..i])
      {
        assert log[i] == before[i] && log[..i] == before[..i];
      }
      NoWinnerShown(before);
      if m.WelcomeToRoom? {
        AddingKeepsTheRest(ClientOf(before), m.players);
      }
    }
  }

  lemma LastWinFrom(log: seq<ServerMsg>, i: nat)
    requires i < |log| && log[i].GameWon? && Plays(log[..i])
    ensures exists n :: IsLastWin(log, n)
    decreases |log| - i
  {
    if j :| i < j < |log| && log[j].GameWon? {
      PlaysOn(log[..i], log[..j]);
      LastWinFrom(log, j);
    } else {
      assert IsLastWin(log, i);
    }
  }

  /** What a client shows as the winner, for every log it may have received. */
  lemma ShownWinner(log: seq<ServerMsg>)
    ensures forall i: nat | IsLastWin(log, i) :: ClientOf(log).winner == log[i].winner
    ensures (forall i: nat :: !IsLastWin(log, i)) ==> ClientOf(log).winner == ""
  {
    if i: nat :| IsLastWin(log, i) {
      forall n: nat | IsLastWin(log, n)
        ensures ClientOf(log).winner == log[n].winner
      {
        WinnerShown(log, n);
      }
    } else {
      forall i: nat | i < |log| && log[i].GameWon?
        ensures !Plays(log[..i])
      {
        if Plays(log[..i]) {
          LastWinFrom(log, i);
        }
      }
      NoWinnerShown(log);
    }
  }

  // ----- the roster

  /** The corner of the last of the first `n` entries with a colour that has one. */
  function CornerAt(ps: seq<Listed>, n: nat, before: Tile): Tile
    requires n <= |ps|
  {
    if n == 0 then before
    else
      var color := ps[n - 1].color;
      if 0 <= color <= 3 then Tile(if color % 2 == 0 then 1 else 15, if color < 2 then 1 else 9)
      else CornerAt(ps, n - 1, before)
  }

  lemma {:induction false} CornerOfPrefix(ps: seq<Listed>, qs: seq<Listed>, n: nat, before: Tile)
    requires n <= |ps| && ps <= qs
    ensures CornerAt(ps, n, before) == CornerAt(qs, n, before)
  {
    if n > 0 {
      CornerOfPrefix(ps, qs, n - 1, before);
    }
  }

  lemma {:induction false} StartAfterList(c: ClientState, ps: seq<Listed>)
    ensures AddPlayers(c, ps).start == CornerAt(ps, |ps|, c.start)
    decreases |ps|
  {
    if ps != [] {
      var n := |ps| - 1;
      StartAfterList(c, ps[..n]);
      CornerOfPrefix(ps[..n], ps, n, c.start);
    }
  }

  /** A list adds its entries in order with three lives each, in the corner of their colour or,
      if it has none, where the one before them went. */
  lemma {:induction false} ListIsAdded(c: ClientState, ps: seq<Listed>, i: nat)
    requires i < |ps|
    ensures var qs := AddPlayers(c, ps).players;
      && |qs| == |c.players| + |ps| && qs[..|c.players|] == c.players
      && qs[|c.players| + i] == Boomberman(ps[i].username, CornerAt(ps, i + 1, c.start), 3)
    decreases |ps|
  {
    var n := |ps| - 1;
    StartAfterList(c, ps);
    assert AddPlayers(c, ps) == AddPlayer(AddPlayers(c, ps[..n]), ps[n]);
    if n > 0 {
      ListIsAdded(c, ps[..n], if i < n then i else 0);
      CornerOfPrefix(ps[..n], ps, if i < n then i + 1 else 0, c.start);
    }
  }

  /** In its game a client heeds nothing about players it does not show, nor a move of
      somebody without a name. */
  lemma StrangersIgnored(c: ClientState, m: ServerMsg)
    requires m.OtherMove? || m.OtherLeave? || m.GotHit?
    requires (m.OtherMove? && m.username == "") || forall e | e in c.players :: e.name != m.username
    ensures HandleInGame(c, m) == c
  {
    var i := FindPlayer(c.players, m.username);
    assert i < |c.players| ==> c.players[i] in c.players;
  }
}
