/** The tic-tac-toe board: nine cells in row-major order, the eight winning
    lines, and the win/tie evaluation that the game controller runs after
    every accepted move. */
module Board {

  datatype Option<T> = None | Some(value: T)

  /** The two marks players put on the board. */
  datatype Mark = X | O

  /** A cell is either still free or holds the mark of the player who took it. */
  datatype Cell = Empty | Filled(mark: Mark)

  /** What the win check reports: the mark of a completed line, a full board
      without a completed line, or neither (the round goes on). */
  datatype Verdict = NoWinner | Tie | Winner(mark: Mark)

  /** A fresh board: nine free cells. */
  const EMPTY_BOARD: seq<Cell> := [Empty, Empty, Empty, Empty, Empty, Empty, Empty, Empty, Empty]

  /** The three rows, the three columns and the two diagonals, in the order
      in which the win check examines them. */
  const WIN_LINES: seq<(nat, nat, nat)> :=
    [(0, 1, 2), (3, 4, 5), (6, 7, 8),
     (0, 3, 6), (1, 4, 7), (2, 5, 8),
     (0, 4, 8), (2, 4, 6)]

  /** Line k is complete for mark m: all three of its cells hold m. */
  ghost predicate LineHeldBy(b: seq<Cell>, k: nat, m: Mark)
    requires |b| == 9 && k < |WIN_LINES|
  {
    b[WIN_LINES[k].0] == Filled(m) && b[WIN_LINES[k].1] == Filled(m) && b[WIN_LINES[k].2] == Filled(m)
  }

  /** Line k is the place i, or passes through it. */
  ghost predicate OnLine(k: nat, i: nat)
    requires k < |WIN_LINES|
  {
    i == WIN_LINES[k].0 || i == WIN_LINES[k].1 || i == WIN_LINES[k].2
  }

  /** The mark that completes line k, if any: the first cell must be taken
      and the other two must equal it. */
  function LineMark(b: seq<Cell>, k: nat): (r: Option<Mark>)
    requires |b| == 9 && k < |WIN_LINES|
    ensures r.Some? ==> LineHeldBy(b, k, r.value)
    ensures r.None? ==> forall m :: !LineHeldBy(b, k, m)
  {
    var line := WIN_LINES[k];
    if b[line.0] != Empty && b[line.0] == b[line.1] && b[line.0] == b[line.2] then Some(b[line.0].mark) else None
  }

  /** No line of the board is complete. */
  ghost predicate NoLineWon(b: seq<Cell>)
    requires |b| == 9
  {
    forall j :: 0 <= j < |WIN_LINES| ==> LineMark(b, j).None?
  }

  /** The index of the first complete line examined at or after k, or
      |WIN_LINES| when there is none: the loop over WIN_LINES with its
      early return. */
  function FirstWinningLine(b: seq<Cell>, k: nat): (r: nat)
    requires |b| == 9 && k <= |WIN_LINES|
    ensures r < |WIN_LINES| ==> LineMark(b, r).Some?
    decreases |WIN_LINES| - k
  {
    if k == |WIN_LINES| then k
    else if LineMark(b, k).Some? then k
    else FirstWinningLine(b, k + 1)
  }

  /** The search stops at the first complete line, and at |WIN_LINES| only
      when no line from k on is complete. */
  lemma {:induction false} FirstWinningLineIsFirst(b: seq<Cell>, k: nat)
    requires |b| == 9 && k <= |WIN_LINES|
    ensures var r := FirstWinningLine(b, k);
      k <= r <= |WIN_LINES| &&
      (forall j :: k <= j < r ==> LineMark(b, j).None?) &&
      (r < |WIN_LINES| ==> LineMark(b, r).Some?)
    decreases |WIN_LINES| - k
  {
    if k < |WIN_LINES| && LineMark(b, k).None? {
      FirstWinningLineIsFirst(b, k + 1);
    }
  }

  /** The win check: the mark of the first complete line in WIN_LINES order;
      otherwise a tie when no cell is free; otherwise no result yet. */
  function CheckWinner(b: seq<Cell>): (r: Verdict)
    requires |b| == 9
    ensures r == Tie ==> Empty !in b
    ensures r == NoWinner ==> Empty in b
  {
    var w := FirstWinningLine(b, 0);
    if w < |WIN_LINES| then Winner(LineMark(b, w).value)
    else if Empty !in b then Tie
    else NoWinner
  }

  /** What the win check reports, in terms of the lines: a winner is the
      mark of a complete line with no complete line before it; a tie means
      no complete line and no free cell; no result means no complete line
      and some free cell. */
  lemma CheckWinnerMeaning(b: seq<Cell>)
    requires |b| == 9
    ensures var r := CheckWinner(b);
      (r.Winner? ==>
         exists j :: 0 <= j < |WIN_LINES| && LineMark(b, j) == Some(r.mark) &&
           forall i :: 0 <= i < j ==> LineMark(b, i).None?) &&
      (!r.Winner? <==> NoLineWon(b)) &&
      (r == Tie <==> NoLineWon(b) && Empty !in b) &&
      (r == NoWinner <==> NoLineWon(b) && Empty in b)
  {
    FirstWinningLineIsFirst(b, 0);
  }

  /** A fresh board has no result. */
  lemma EmptyBoardUndecided()
    ensures CheckWinner(EMPTY_BOARD) == NoWinner
  {
    CheckWinnerMeaning(EMPTY_BOARD);
    assert EMPTY_BOARD[0] == Empty;
    forall j | 0 <= j < |WIN_LINES| ensures LineMark(EMPTY_BOARD, j).None? {
      assert !LineHeldBy(EMPTY_BOARD, j, X) && !LineHeldBy(EMPTY_BOARD, j, O);
    }
  }

  /** Taking a free cell can complete a line that was not complete before
      only if that line passes through the cell, and then it is complete for
      the mark just placed. */
  lemma NewLineThroughMove(b: seq<Cell>, i: nat, m: Mark, j: nat)
    requires |b| == 9 && i < 9 && b[i] == Empty && j < |WIN_LINES|
    requires LineMark(b, j).None? && LineMark(b[i := Filled(m)], j).Some?
    ensures OnLine(j, i) && LineMark(b[i := Filled(m)], j) == Some(m)
  {
    var b' := b[i := Filled(m)];
    var w := LineMark(b', j).value;
    assert LineHeldBy(b', j, w);
  }

  /** If no line was complete before a move into a free cell, then any
      winner reported afterwards holds the mark just placed. */
  lemma {:induction false} WinnerIsLastMover(b: seq<Cell>, i: nat, m: Mark)
    requires |b| == 9 && i < 9 && b[i] == Empty && NoLineWon(b)
    ensures CheckWinner(b[i := Filled(m)]).Winner? ==> CheckWinner(b[i := Filled(m)]) == Winner(m)
  {
    var b' := b[i := Filled(m)];
    var r := CheckWinner(b');
    CheckWinnerMeaning(b');
    if r.Winner? {
      var j :| 0 <= j < |WIN_LINES| && LineMark(b', j) == Some(r.mark) &&
        forall k :: 0 <= k < j ==> LineMark(b', k).None?;
      NewLineThroughMove(b, i, m, j);
    }
  }

  /** The single board of a game. */
  class Gameboard {
    var board: array<Cell>

    ghost predicate Valid()
      reads this
    {
      board.Length == 9
    }

    constructor ()
      ensures Valid() && fresh(board) && board[..] == EMPTY_BOARD
    {
      board := new Cell[9](_ => Empty);
    }

    /** A snapshot of the nine cells, in row-major order. */
    function GetBoard(): (cells: seq<Cell>)
      reads this, board
      requires Valid()
      ensures |cells| == 9
      ensures forall i :: 0 <= i < 9 ==> cells[i] == board[i]
    {
      board[..]
    }

    /** Places mark at index when that names a free cell and reports whether
        it did; a taken cell is never overwritten, and an index off the board
        names no cell. */
    method SetMove(index: int, mark: Mark) returns (ok: bool)
      requires Valid()
      modifies board
      ensures Valid()
      ensures ok <==> 0 <= index < 9 && old(board[index]) == Empty
      ensures ok ==> board[..] == old(board[..])[index := Filled(mark)]
      ensures !ok ==> board[..] == old(board[..])
    {
      if 0 <= index < 9 && board[index] == Empty {
        board[index] := Filled(mark);
        return true;
      }
      return false;
    }

    /** Replaces the board by a fresh one with nine free cells. */
    method ResetBoard()
      modifies this
      ensures Valid() && fresh(board) && board[..] == EMPTY_BOARD
    {
      board := new Cell[9](_ => Empty);
    }
  }
}
