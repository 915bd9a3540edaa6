# Tic-tac-toe game engine

A Dafny model of the engine of a browser tic-tac-toe game: the board with
its nine cells, the two players and their marks, and the game controller.
The controller takes turns, accepts or rejects moves, spots a win or a tie,
ends the round, and keeps a score tally that lasts across rounds.

The project has two modules:

- `Board` (`board.dfy`) holds the cell and mark datatypes, the eight winning
  lines, and the win check `CheckWinner`. It is written as pure functions,
  with lemmas that say what the win check reports in terms of complete lines
  and free cells. The `Gameboard` class keeps the nine cells in an `array`,
  and its methods change them in place.
- `Controller` (`controller.dfy`) gives the controller's state machine as
  pure functions over a `GameState` value: `Play` is one move attempt,
  `ResetRound` starts a new round and `PlayAll` runs a sequence of move
  attempts. Lemmas are proved about these functions. The `GameController`
  class keeps the same state in fields, drives its own `Gameboard`, and each
  method is proved to follow the matching function.

The controller's invariant is `Controller.Consistent`. It says the board has
nine cells and the turn is 0 or 1. It says the players are either not added
yet or are the X/O pair. And it says the round is over exactly when the win
check reports a win or a tie. Every method of `GameController` keeps it.

The strings the source returns ("It's a tie!", "<name> wins!", nothing) are
modelled as the `Outcome` datatype. `WinOutcome` carries the winner's index
and name, which is what the message is built from.

## Model

| member | source | states |
|---|---|---|
| Board.LineMark | script.js:60-62 | a line reports a mark exactly when all three of its cells hold that mark, and reports none when no mark holds all three |
| Board.FirstWinningLine | script.js:59-64 | any line index the scan reports before running off the end is a complete line; that it is the first one is FirstWinningLineIsFirst |
| Board.FirstWinningLineIsFirst | script.js:59-64 | the scan over the winning lines stops at the first complete line, and runs off the end only when no line from its start on is complete |
| Board.CheckWinnerMeaning | script.js:49-71 | a winner is the mark of a complete line with no complete line before it; no winner means no line is complete; a tie means no complete line and no free cell; no result means no complete line and some free cell |
| Board.CheckWinner | script.js:49-71 | a tie is reported only on a full board and no result only while some cell is free; the full meaning in terms of lines is CheckWinnerMeaning |
| Board.EmptyBoardUndecided | script.js:3 | a fresh board has neither a winner nor a tie |
| Board.NewLineThroughMove | script.js:77-78 | a move into a free cell can only complete a line that passes through that cell, and that line then holds the mark just placed |
| Board.WinnerIsLastMover | script.js:77-90 | if no line was complete before a move, any winner reported after it holds the mark just placed |
| Board.Gameboard.constructor | script.js:3 | the board starts as nine free cells |
| Board.Gameboard.GetBoard | script.js:5 | returns the nine cells as they stand, in row-major order |
| Board.Gameboard.SetMove | script.js:7-13 | reports success exactly when the index names a free cell; on success only that cell changes and it takes the mark; otherwise the board is unchanged |
| Board.Gameboard.ResetBoard | script.js:15-17 | the board becomes a fresh array of nine free cells |
| Controller.Toggle | script.js:46 | the turn goes from 0 to 1 and from 1 to 0 |
| Controller.Play | script.js:73-97 | a move attempt keeps the players, keeps every taken cell, lowers no counter, and raises the counters by one in total exactly when it reports a win or a tie |
| Controller.AfterMove | script.js:78-94 | after an accepted move in a round not yet over, the board is the new one and the players are kept; the round ends exactly when the win check reports a win or a tie, and exactly then an outcome is reported and the turn stays put |
| Controller.PlayAll | script.js:73-97 | a sequence of move attempts keeps the players and the game shape |
| Controller.PlayWhenOver | script.js:74 | once the round is over, a move attempt reports nothing and changes nothing |
| Controller.RejectedMove | script.js:77-96 | a move onto a taken cell or off the board reports nothing and changes nothing |
| Controller.TurnPasses | script.js:77-94 | the turn passes exactly when the move is accepted and afterwards no line is complete and some cell is free; the mover's mark is then placed and the flag and scores stay as they were |
| Controller.WinningMove | script.js:77-90 | an accepted move that completes a line is a win for the mover's mark; it ends the round, keeps the turn, adds one to the mover's counter and names the mover |
| Controller.TieMove | script.js:66-83 | an accepted move that fills the last free cell without completing a line ends the round as a tie and adds one to the tie counter only |
| Controller.OutcomeMatchesScores | script.js:79-96 | no outcome, a tie, a win by the first player and a win by the second player each match exactly one way the score tally changes |
| Controller.PlayKeepsConsistent | script.js:73-97 | every move attempt keeps the controller's invariant |
| Controller.ResetRound | script.js:99-103 | a new round keeps the players and the scores and has a nine-cell board on which the win check reports nothing; the rest is ResetRoundFreshRound |
| Controller.ResetRoundFreshRound | script.js:99-103 | a new round keeps the players and scores and the invariant; it has nine free cells, the first player's turn and the flag cleared; a second reset changes nothing |
| Controller.OverIsAbsorbing | script.js:74 | once the round is over, no sequence of move attempts changes the state |
| Controller.FilledCellsPersist | script.js:7-13 | a taken cell keeps its mark through any sequence of move attempts |
| Controller.ScoresNeverDecrease | script.js:79-91 | over any sequence of move attempts no counter goes down, and the total grows by at most one per attempt |
| Controller.TopRowOpening | script.js:73-97 | from a fresh round with players Alice (X) and Bob (O), the moves 0, 3, 1 and 4 reach the position with X on 0 and 1, O on 3 and 4, the round not over, the scores at zero and Alice to move; a fifth move after them is that move played from this position |
| Controller.TopRowFinish | script.js:77-90 | from that position Alice taking cell 2 is a win named for her: the round is over and her counter is 1 |
| Controller.TopRowGame | script.js:73-97 | the five moves 0, 3, 1, 4, 2 from a fresh round end the round with the top row held by X and the tally at one win for the first player |
| Controller.GameController.constructor | script.js:29-36 | a new session has no players, the first player's turn, the round not over, all counters at zero and a fresh board |
| Controller.GameController.AddPlayers | script.js:38-41 | the first player gets mark X and the second mark O; nothing else changes and the invariant holds |
| Controller.GameController.GetCurrentPlayer | script.js:43 | the player whose turn it is, who plays X on turn 0 and O on turn 1 |
| Controller.GameController.SwitchPlayer | script.js:45-47 | the turn goes to the other player |
| Controller.GameController.PlayRound | script.js:73-97 | the new state and the outcome are those of `Play` on the old state, the board is changed in place, and the invariant holds |
| Controller.GameController.ResetGame | script.js:99-103 | the new state is `ResetRound` of the old one: a fresh board, turn 0, flag cleared, players and counters kept |
| Controller.GameController.GetScores | script.js:105-109 | the three counters as they stand, read without changing anything |

## Left out

- The display controller (script.js:114-179) is not part of this model. It
  renders the board in the browser, reads the players' names and handles
  clicks. That is all browser I/O.
- The messages that `playRound` returns are modelled as `Outcome` values. A
  plain `return;` and `return null` are both `NoOutcome`, because callers
  cannot tell them apart by truthiness.
- Controller.GameController.AddPlayers: requires that no players were added
  yet. In the source a second call appends another pair, and the game goes
  on using the first two. That growth of the list is not modelled.
- Controller.GameController.PlayRound and GetCurrentPlayer: require the two
  players to be present. Before they are added, `getCurrentPlayer`
  (script.js:43) returns `undefined`, and `playRound` then throws when it
  reads that value's mark (script.js:77). Neither the `undefined` result nor
  the exception is modelled; both calls are excluded by their requires.
- Board.Gameboard.SetMove: the index is an integer. The source also accepts
  any JavaScript value as a property key, such as the string "4" or a
  fraction. Only integer indices are modelled; every integer off the board
  is rejected, as `board[index] === ""` is false there.
- Board.Gameboard.GetBoard returns a snapshot of the cells. The source hands
  out the live array, so a caller could write to it. That aliasing is not
  modelled.
- The counters are unbounded naturals. The loss of precision of JavaScript
  numbers beyond 2^53 is not modelled.
- The `Player` factory (script.js:24-26) is the `Controller.Player`
  datatype constructor. It has no behaviour of its own to state.
- `addPlayers` (script.js:38-41) resets neither the turn nor the
  end-of-round flag, and Controller.GameController.AddPlayers does the same.
