/** The game controller: the two players, whose turn it is, whether the
    round is over, and the score tally that survives from round to round.
    The state machine is first given as pure functions over GameState
    (Play, ResetRound) with lemmas about them; the GameController class
    below holds the same state in fields and is proved to follow them. */
module Controller {
  import opened Board

  /** A player keeps the name and the mark given when the players were added. */
  datatype Player = Player(name: string, mark: Mark)

  /** What a move attempt reports: nothing (the move was ignored or the
      round goes on), a tie, or a win by the player with the given index and
      name. */
  datatype Outcome = NoOutcome | TieOutcome | WinOutcome(player: nat, name: string)

  /** The score tally. */
  datatype Scores = Scores(player1Wins: nat, player2Wins: nat, ties: nat)

  /** Everything the controller and the board it drives hold. */
  datatype GameState = GameState(players: seq<Player>, board: seq<Cell>, current: nat, over: bool, scores: Scores)

  /** The two players as they are added: the first plays X, the second O. */
  ghost predicate PlayersReady(ps: seq<Player>)
  {
    |ps| == 2 && ps[0].mark == X && ps[1].mark == O
  }

  /** The shape a move needs: nine cells, a turn of 0 or 1, two players. */
  ghost predicate Playable(g: GameState)
  {
    |g.board| == 9 && g.current <= 1 && |g.players| == 2
  }

  /** The invariant the controller keeps: the players are either not yet
      added or the X/O pair, the turn is 0 or 1, and the round is over
      exactly when the win check reports a win or a tie. */
  ghost predicate Consistent(g: GameState)
  {
    |g.board| == 9 && g.current <= 1 &&
    (g.players == [] || PlayersReady(g.players)) &&
    (g.over <==> CheckWinner(g.board) != NoWinner)
  }

  function Total(s: Scores): nat
  {
    s.player1Wins + s.player2Wins + s.ties
  }

  /** No counter of s is below the same counter of t. */
  ghost predicate AtLeast(s: Scores, t: Scores)
  {
    s.player1Wins >= t.player1Wins && s.player2Wins >= t.player2Wins && s.ties >= t.ties
  }

  /** Whose turn it is after the turn passes. */
  function Toggle(i: nat): (j: nat)
    requires i <= 1
    ensures j <= 1 && j != i
  {
    if i == 0 then 1 else 0
  }

  /** The scores after a win by the player with index i. */
  function Credit(s: Scores, i: nat): (r: Scores)
  {
    if i == 0 then s.(player1Wins := s.player1Wins + 1) else s.(player2Wins := s.player2Wins + 1)
  }

  /** One move attempt at index by the player whose turn it is; an index
      off the board names no free cell and is ignored like a taken one. */
  function Play(g: GameState, index: int): (r: (GameState, Outcome))
    requires Playable(g)
    ensures Playable(r.0) && r.0.players == g.players
    ensures forall c :: 0 <= c < 9 && g.board[c] != Empty ==> r.0.board[c] == g.board[c]
    ensures AtLeast(r.0.scores, g.scores)
    ensures Total(r.0.scores) == Total(g.scores) + (if r.1 == NoOutcome then 0 else 1)
  {
    if g.over then (g, NoOutcome)
    else if index < 0 || index >= 9 || g.board[index] != Empty then (g, NoOutcome)
    else AfterMove(g, Moved(g, index))
  }

  /** What follows an accepted move, in a round not yet over, that left the
      board as b. */
  function AfterMove(g: GameState, b: seq<Cell>): (r: (GameState, Outcome))
    requires Playable(g) && !g.over && |b| == 9
    ensures r.0.board == b && r.0.players == g.players
    ensures r.0.over <==> CheckWinner(b) != NoWinner
    ensures r.1 == NoOutcome <==> !r.0.over
    ensures r.0.current == g.current <==> r.0.over
  {
    match CheckWinner(b)
    case Tie =>
      (g.(board := b, over := true, scores := g.scores.(ties := g.scores.ties + 1)), TieOutcome)
    case Winner(_) =>
      (g.(board := b, over := true, scores := Credit(g.scores, g.current)),
       WinOutcome(g.current, g.players[g.current].name))
    case NoWinner =>
      (g.(board := b, current := Toggle(g.current)), NoOutcome)
  }

  /** A new round: fresh board, first player's turn, round not over. */
  function ResetRound(g: GameState): (r: GameState)
    ensures r.players == g.players && r.scores == g.scores
    ensures |r.board| == 9 && CheckWinner(r.board) == NoWinner
  {
    EmptyBoardUndecided();
    GameState(g.players, EMPTY_BOARD, 0, false, g.scores)
  }

  /** A sequence of move attempts, one after the other. */
  function PlayAll(g: GameState, moves: seq<int>): (r: GameState)
    requires Playable(g)
    ensures Playable(r) && r.players == g.players
    decreases |moves|
  {
    if moves == [] then g else PlayAll(Play(g, moves[0]).0, moves[1..])
  }

  /** Once the round is over, a move attempt reports nothing and changes
      nothing. */
  lemma PlayWhenOver(g: GameState, index: int)
    requires Playable(g) && g.over
    ensures Play(g, index) == (g, NoOutcome)
  {
  }

  /** A move onto a taken cell, or off the board, reports nothing and
      changes nothing. */
  lemma RejectedMove(g: GameState, index: int)
    requires Playable(g) && (index < 0 || index >= 9 || g.board[index] != Empty)
    ensures Play(g, index) == (g, NoOutcome)
  {
  }

  /** The board after the player whose turn it is puts a mark at index. */
  function Moved(g: GameState, index: nat): (r: seq<Cell>)
    requires Playable(g) && index < 9
  {
    g.board[index := Filled(g.players[g.current].mark)]
  }

  /** The turn passes exactly on an accepted move after which no line is
      complete and some cell is still free; such a move places the mover's
      mark and touches neither the flag nor the scores. */
  lemma TurnPasses(g: GameState, index: int)
    requires Playable(g)
    ensures var r := Play(g, index);
      r.0.current != g.current <==>
        !g.over && 0 <= index < 9 && g.board[index] == Empty && NoLineWon(Moved(g, index)) && Empty in Moved(g, index)
    ensures var r := Play(g, index);
      r.0.current != g.current ==>
        r.0.current == Toggle(g.current) && r.1 == NoOutcome && !r.0.over &&
        r.0.scores == g.scores && r.0.board == Moved(g, index)
  {
    if !g.over && 0 <= index < 9 && g.board[index] == Empty {
      CheckWinnerMeaning(Moved(g, index));
    }
  }

  /** In a consistent game, an accepted move that completes a line ends the
      round, keeps the turn, adds one to the mover's counter (the first
      player's for index 0, the second player's otherwise) and names the
      mover; the line found is one of the mover's mark. */
  lemma WinningMove(g: GameState, index: nat)
    requires Consistent(g) && Playable(g) && index < 9 && !g.over && g.board[index] == Empty
    requires !NoLineWon(Moved(g, index))
    ensures CheckWinner(Moved(g, index)) == Winner(g.players[g.current].mark)
    ensures var r := Play(g, index);
      r.1 == WinOutcome(g.current, g.players[g.current].name) &&
      r.0.over && r.0.current == g.current && r.0.board == Moved(g, index) &&
      r.0.scores == (if g.current == 0 then g.scores.(player1Wins := g.scores.player1Wins + 1)
                     else g.scores.(player2Wins := g.scores.player2Wins + 1))
  {
    CheckWinnerMeaning(g.board);
    CheckWinnerMeaning(Moved(g, index));
    WinnerIsLastMover(g.board, index, g.players[g.current].mark);
  }

  /** An accepted move that takes the last free cell without completing a
      line ends the round as a tie and adds one to the tie counter only. */
  lemma TieMove(g: GameState, index: nat)
    requires Playable(g) && index < 9 && !g.over && g.board[index] == Empty
    requires NoLineWon(Moved(g, index)) && Empty !in Moved(g, index)
    ensures var r := Play(g, index);
      r.1 == TieOutcome && r.0.over && r.0.current == g.current && r.0.board == Moved(g, index) &&
      r.0.scores == g.scores.(ties := g.scores.ties + 1)
  {
    CheckWinnerMeaning(Moved(g, index));
  }

  /** The outcome of a move says which counter, if any, went up by one. */
  lemma OutcomeMatchesScores(g: GameState, index: int)
    requires Playable(g)
    ensures var r := Play(g, index);
      (r.1 == NoOutcome <==> r.0.scores == g.scores) &&
      (r.1 == TieOutcome <==> r.0.scores == g.scores.(ties := g.scores.ties + 1)) &&
      (r.1.WinOutcome? && r.1.player == 0 <==>
         r.0.scores == g.scores.(player1Wins := g.scores.player1Wins + 1)) &&
      (r.1.WinOutcome? && r.1.player == 1 <==>
         r.0.scores == g.scores.(player2Wins := g.scores.player2Wins + 1))
  {
  }

  /** Every move attempt keeps the controller's invariant. */
  lemma PlayKeepsConsistent(g: GameState, index: int)
    requires Consistent(g) && Playable(g)
    ensures Consistent(Play(g, index).0)
  {
  }

  /** A new round has an empty board, the first player's turn and no result;
      it keeps players and scores, keeps the invariant, and doing it twice is
      the same as doing it once. */
  lemma ResetRoundFreshRound(g: GameState)
    requires g.players == [] || PlayersReady(g.players)
    ensures var r := ResetRound(g);
      Consistent(r) && r.players == g.players && r.scores == g.scores &&
      (forall c :: 0 <= c < 9 ==> r.board[c] == Empty) && r.current == 0 && !r.over &&
      ResetRound(r) == r
  {
    EmptyBoardUndecided();
  }

  /** Once the round is over, no sequence of move attempts changes anything. */
  lemma {:induction false} OverIsAbsorbing(g: GameState, moves: seq<int>)
    requires Playable(g) && g.over
    ensures PlayAll(g, moves) == g
    decreases |moves|
  {
    if moves != [] {
      PlayWhenOver(g, moves[0]);
      OverIsAbsorbing(g, moves[1..]);
    }
  }

  /** A taken cell keeps its mark through any sequence of move attempts. */
  lemma {:induction false} FilledCellsPersist(g: GameState, moves: seq<int>, c: nat)
    requires Playable(g) && c < 9 && g.board[c] != Empty
    ensures PlayAll(g, moves).board[c] == g.board[c]
    decreases |moves|
  {
    if moves != [] {
      FilledCellsPersist(Play(g, moves[0]).0, moves[1..], c);
    }
  }

  /** Over any sequence of move attempts no counter goes down and the
      counters grow by at most one per attempt. */
  lemma {:induction false} ScoresNeverDecrease(g: GameState, moves: seq<int>)
    requires Playable(g)
    ensures AtLeast(PlayAll(g, moves).scores, g.scores)
    ensures Total(PlayAll(g, moves).scores) <= Total(g.scores) + |moves|
    decreases |moves|
  {
    if moves != [] {
      ScoresNeverDecrease(Play(g, moves[0]).0, moves[1..]);
    }
  }

  /** Cells 2 and 5 to 8 meet every winning line, so while they are free no
      line is complete and the round goes on. */
  lemma QuietBoard(b: seq<Cell>)
    requires |b| == 9 && b[2] == Empty && b[5] == Empty && b[6] == Empty && b[7] == Empty && b[8] == Empty
    ensures NoLineWon(b) && Empty in b
  {
    forall j | 0 <= j < |WIN_LINES| ensures LineMark(b, j).None? {
      assert !LineHeldBy(b, j, X) && !LineHeldBy(b, j, O);
    }
  }

  /** A move into a free cell that leaves cells 2 and 5 to 8 free passes the
      turn. */
  lemma QuietMove(g: GameState, index: nat)
    requires Playable(g) && !g.over && index < 9 && g.board[index] == Empty
    requires var b := Moved(g, index); b[2] == Empty && b[5] == Empty && b[6] == Empty && b[7] == Empty && b[8] == Empty
    ensures Play(g, index) == (g.(board := Moved(g, index), current := Toggle(g.current)), NoOutcome)
  {
    QuietBoard(Moved(g, index));
    TurnPasses(g, index);
  }

  /** The players of the short game below. */
  const ALICE_AND_BOB: seq<Player> := [Player("Alice", X), Player("Bob", O)]

  /** A fresh round of the short game below. */
  function TopRowStart(): GameState
  {
    GameState(ALICE_AND_BOB, EMPTY_BOARD, 0, false, Scores(0, 0, 0))
  }

  /** The position of the short game below after its first four moves. */
  function TopRowPosition(): GameState
  {
    TopRowStart().(board := EMPTY_BOARD[0 := Filled(X)][3 := Filled(O)][1 := Filled(X)][4 := Filled(O)])
  }

  /** The opening of a short game from a fresh round: after X on 0, O on 3,
      X on 1 and O on 4 the game is in that position, with the first player
      to move; a fifth move is then played from there. */
  lemma TopRowOpening()
    ensures PlayAll(TopRowStart(), [0, 3, 1, 4]) == TopRowPosition()
    ensures PlayAll(TopRowStart(), [0, 3, 1, 4, 2]) == PlayAll(TopRowPosition(), [2])
  {
    var g0 := TopRowStart();
    var g1 := g0.(board := g0.board[0 := Filled(X)], current := 1);
    var g2 := g1.(board := g1.board[3 := Filled(O)], current := 0);
    var g3 := g2.(board := g2.board[1 := Filled(X)], current := 1);
    QuietMove(g0, 0);
    QuietMove(g1, 3);
    QuietMove(g2, 1);
    QuietMove(g3, 4);
    PlayAllFirst(g0, 0, [3, 1, 4, 2]);
    PlayAllFirst(g1, 3, [1, 4, 2]);
    PlayAllFirst(g2, 1, [4, 2]);
    PlayAllFirst(g3, 4, [2]);
    PlayAllSingle(g3, 4);
    PlayAllFirst(g0, 0, [3, 1, 4]);
    PlayAllFirst(g1, 3, [1, 4]);
    PlayAllFirst(g2, 1, [4]);
  }

  /** From that position, X on 2 completes the top row: the first player
      wins, the round is over and the first player's counter goes up. */
  lemma TopRowFinish()
    ensures Play(TopRowPosition(), 2) ==
      (TopRowPosition().(board := [Filled(X), Filled(X), Filled(X), Filled(O), Filled(O), Empty, Empty, Empty, Empty],
                         over := true, scores := Scores(1, 0, 0)),
       WinOutcome(0, "Alice"))
  {
    var b := [Filled(X), Filled(X), Filled(X), Filled(O), Filled(O), Empty, Empty, Empty, Empty];
    assert Moved(TopRowPosition(), 2) == b;
    assert LineMark(b, 0) == Some(X);
  }

  /** The short game from a fresh round ends when X on 2 completes the top
      row: the round is over and the first player is credited with one win. */
  lemma TopRowGame()
    ensures var g := PlayAll(TopRowStart(), [0, 3, 1, 4, 2]);
      g.over && g.scores == Scores(1, 0, 0) &&
      g.board == [Filled(X), Filled(X), Filled(X), Filled(O), Filled(O), Empty, Empty, Empty, Empty]
  {
    var p := TopRowPosition();
    assert |p.board| == 9;
    PlayAllSingle(p, 2);
    TopRowOpening();
    TopRowFinish();
  }

  /** Running a single move is that move. */
  lemma PlayAllSingle(g: GameState, m: int)
    requires Playable(g)
    ensures PlayAll(g, [m]) == Play(g, m).0
  {
    assert [m][1..] == [];
  }

  /** Running moves one after the other starts with the first. */
  lemma PlayAllFirst(g: GameState, m: int, rest: seq<int>)
    requires Playable(g)
    ensures PlayAll(g, [m] + rest) == PlayAll(Play(g, m).0, rest)
  {
    assert ([m] + rest)[1..] == rest;
  }

  /** The controller of one game session. It drives its own board, holds the
      players, the turn, the end-of-round flag and the three counters. */
  class GameController {
    const gameboard: Gameboard
    var players: seq<Player>
    var currentPlayerIndex: nat
    var gameOver: bool
    var player1Wins: nat
    var player2Wins: nat
    var ties: nat

    /** The controller's fields and its board as one value. */
    ghost function State(): GameState
      reads this, gameboard, gameboard.board
      requires gameboard.Valid()
    {
      GameState(players, gameboard.board[..], currentPlayerIndex, gameOver,
                Scores(player1Wins, player2Wins, ties))
    }

    ghost predicate Valid()
      reads this, gameboard, gameboard.board
    {
      gameboard.Valid() && Consistent(State())
    }

    /** A new session: empty board, no players yet, first player's turn,
        round not over, all counters zero. */
    constructor ()
      ensures Valid() && fresh(gameboard) && fresh(gameboard.board)
      ensures State() == GameState([], EMPTY_BOARD, 0, false, Scores(0, 0, 0))
    {
      gameboard := new Gameboard();
      players := [];
      currentPlayerIndex := 0;
      gameOver := false;
      player1Wins, player2Wins, ties := 0, 0, 0;
      EmptyBoardUndecided();
    }

    /** Adds the first player with mark X and the second with mark O. */
    method AddPlayers(player1Name: string, player2Name: string)
      requires Valid() && players == []
      modifies this`players
      ensures Valid()
      ensures State() == old(State()).(players := [Player(player1Name, X), Player(player2Name, O)])
    {
      players := players + [Player(player1Name, X)];
      players := players + [Player(player2Name, O)];
    }

    /** The player whose turn it is; the first player plays X and the
        second O. */
    function GetCurrentPlayer(): (p: Player)
      reads this, gameboard, gameboard.board
      requires Valid() && |players| == 2
      ensures p == players[currentPlayerIndex]
      ensures p.mark == (if currentPlayerIndex == 0 then X else O)
    {
      players[currentPlayerIndex]
    }

    /** Passes the turn to the other player. */
    method SwitchPlayer()
      requires currentPlayerIndex <= 1
      modifies this`currentPlayerIndex
      ensures currentPlayerIndex == Toggle(old(currentPlayerIndex))
    {
      currentPlayerIndex := if currentPlayerIndex == 0 then 1 else 0;
    }

    /** One move attempt at index by the current player: ignored once the
        round is over or when the cell is taken; otherwise the mark is
        placed and the round either ends with a win or a tie, counted in
        the score tally, or goes on with the other player's turn. */
    method PlayRound(index: int) returns (result: Outcome)
      requires Valid() && |players| == 2
      modifies this, gameboard.board
      ensures Valid() && gameboard.board == old(gameboard.board)
      ensures (State(), result) == Play(old(State()), index)
    {
      ghost var g := State();
      ghost var r := Play(g, index);
      PlayKeepsConsistent(g, index);
      result := NoOutcome;
      if !gameOver {
        var currentPlayer := GetCurrentPlayer();
        var placed := gameboard.SetMove(index, currentPlayer.mark);
        if placed {
          var winner := CheckWinner(gameboard.GetBoard());
          ghost var b := gameboard.board[..];
          assert r == AfterMove(g, b);
          if winner != NoWinner {
            gameOver := true;
            if winner == Tie {
              ties := ties + 1;
              result := TieOutcome;
              assert r.0 == GameState(players, b, currentPlayerIndex, true, Scores(player1Wins, player2Wins, ties));
            } else {
              if currentPlayerIndex == 0 {
                player1Wins := player1Wins + 1;
              } else {
                player2Wins := player2Wins + 1;
              }
              result := WinOutcome(currentPlayerIndex, currentPlayer.name);
              assert r.0 == GameState(players, b, currentPlayerIndex, true, Scores(player1Wins, player2Wins, ties));
            }
          } else {
            SwitchPlayer();
            assert r.0 == GameState(players, b, currentPlayerIndex, false, Scores(player1Wins, player2Wins, ties));
          }
        }
      }
    }

    /** Starts a new round with the same players; the counters are kept. */
    method ResetGame()
      requires Valid()
      modifies this, gameboard
      ensures Valid() && fresh(gameboard.board)
      ensures State() == ResetRound(old(State()))
    {
      gameboard.ResetBoard();
      currentPlayerIndex := 0;
      gameOver := false;
      EmptyBoardUndecided();
    }

    /** The three counters, read without changing anything. */
    function GetScores(): (s: Scores)
      reads this
      ensures s == Scores(player1Wins, player2Wins, ties)
    {
      Scores(player1Wins, player2Wins, ties)
    }
  }
}
