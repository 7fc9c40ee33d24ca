/**
 * The tic-tac-toe session of game.py: a 9-cell board, the winning-line
 * detector, the full-board check, the random computer reply and the click
 * handler that places a mark and settles win, draw or turn.
 */
module TicTacToe {
  import opened Optional

  /** The two marks: X ('❌') always moves first, O ('⭕') second. */
  datatype Mark = X | O

  function Other(m: Mark): Mark { if m == X then O else X }

  /** A cell index on the 3x3 board, numbered row by row. */
  type Idx = i: nat | i < 9

  type Cell = Option<Mark>
  type Board = seq<Cell>

  /** The session's `winner` field: None, a mark, or the string "Draw". */
  datatype Winner = NoWinner | Won(mark: Mark) | Draw

  /** The two entries of the game-mode radio button. */
  datatype Mode = TwoPlayers | VsComputer

  /** The session's score dictionary: wins of X, wins of O, draws. */
  datatype Score = Score(x: nat, o: nat, draws: nat)

  datatype Line = Line(a: Idx, b: Idx, c: Idx)

  /** The winning lines in scan order: rows, then columns, then diagonals. */
  const Lines: seq<Line> := [
    Line(0, 1, 2), Line(3, 4, 5), Line(6, 7, 8),
    Line(0, 3, 6), Line(1, 4, 7), Line(2, 5, 8),
    Line(0, 4, 8), Line(2, 4, 6)
  ]

  const EmptyBoard: Board := [None, None, None, None, None, None, None, None, None]

  /** `board[a] and board[a] == board[b] == board[c]`: the line is filled by one mark. */
  predicate Owned(b: Board, l: Line)
    requires |b| == 9
  {
    b[l.a].Some? && b[l.a] == b[l.b] && b[l.b] == b[l.c]
  }

  predicate OwnedBy(b: Board, l: Line, m: Mark)
    requires |b| == 9
  {
    b[l.a] == Some(m) && b[l.b] == Some(m) && b[l.c] == Some(m)
  }

  predicate HasLine(b: Board)
    requires |b| == 9
  {
    exists k :: 0 <= k < |Lines| && Owned(b, Lines[k])
  }

  /** The index of the first owned line at or after position k of the scan order. */
  function FirstOwned(b: Board, k: nat): (r: Option<nat>)
    requires |b| == 9 && k <= |Lines|
    ensures r.Some? ==> k <= r.value < |Lines| && Owned(b, Lines[r.value])
    ensures r.Some? ==> forall j :: k <= j < r.value ==> !Owned(b, Lines[j])
    ensures r.None? ==> forall j :: k <= j < |Lines| ==> !Owned(b, Lines[j])
    decreases |Lines| - k
  {
    if k == |Lines| then None
    else if Owned(b, Lines[k]) then Some(k)
    else FirstOwned(b, k + 1)
  }

  /**
   * check_winner: the mark and the line of the first owned line in scan
   * order, or (None, None). It never yields a draw.
   */
  function CheckWinner(b: Board): (r: (Option<Mark>, Option<Line>))
    requires |b| == 9
    ensures r.0.Some? <==> HasLine(b)
    ensures r.0.Some? <==> r.1.Some?
    ensures r.0.Some? ==> r.1.value in Lines && OwnedBy(b, r.1.value, r.0.value)
    ensures r.0.Some? ==> exists k :: 0 <= k < |Lines| && r.1 == Some(Lines[k])
                                  && forall j :: 0 <= j < k ==> !Owned(b, Lines[j])
  {
    match FirstOwned(b, 0)
    case None => (None, None)
    case Some(k) => (Some(b[Lines[k].a].value), Some(Lines[k]))
  }

  /** is_board_full: no cell is None, that is, every cell holds one of the two marks. */
  predicate IsBoardFull(b: Board)
    ensures IsBoardFull(b) <==> Occupied(b) == |b|
  {
    MarkedCells(b);
    forall i :: 0 <= i < |b| ==> b[i].Some?
  }

  /** The indices of the empty cells, in increasing order (the comprehension in computer_move). */
  function EmptyCells(b: Board): (r: seq<nat>)
    ensures forall k :: k in r <==> 0 <= k < |b| && b[k].None?
    ensures forall j :: 0 <= j < |r| ==> r[j] < |b|
    ensures forall j, k :: 0 <= j < k < |r| ==> r[j] < r[k]
    ensures |r| == 0 <==> IsBoardFull(b)
  {
    if |b| == 0 then []
    else
      var init := b[..|b| - 1];
      assert forall k :: 0 <= k < |init| ==> init[k] == b[k];
      EmptyCells(init) + (if b[|b| - 1].None? then [|b| - 1] else [])
  }

  /**
   * computer_move: `random.choice(empty_cells)` with the random choice given
   * as `pick`; None once the board is full or a winner is set.
   */
  function ComputerMove(b: Board, winner: Winner, pick: nat): (r: Option<Idx>)
    requires |b| == 9
    ensures r.Some? <==> !IsBoardFull(b) && winner == NoWinner
    ensures r.Some? ==> b[r.value].None?
  {
    var empty := EmptyCells(b);
    if |empty| > 0 && winner == NoWinner then Some(empty[pick % |empty|] as Idx) else None
  }

  /** Every empty cell is a possible computer reply, for some random choice. */
  lemma ComputerMoveReachesEveryEmptyCell(b: Board, i: Idx)
    requires |b| == 9 && b[i].None?
    ensures exists pick: nat :: ComputerMove(b, NoWinner, pick) == Some(i)
  {
    var empty := EmptyCells(b);
    assert i in empty;
    var j :| 0 <= j < |empty| && empty[j] == i;
    ModBelow(j, |empty|);
    assert ComputerMove(b, NoWinner, j) == Some(i);
  }

  lemma ModBelow(j: nat, n: nat)
    requires j < n
    ensures j % n == j
  {
  }

  /** The number of cells holding mark m. */
  function Count(b: Board, m: Mark): (r: nat)
    ensures r <= |b|
  {
    if |b| == 0 then 0 else (if b[0] == Some(m) then 1 else 0) + Count(b[1..], m)
  }

  /** Writing a mark into an empty cell adds one to its count and leaves the other count alone. */
  lemma {:induction false} CountPlace(b: Board, i: nat, p: Mark)
    requires i < |b| && b[i].None?
    ensures Count(b[i := Some(p)], p) == Count(b, p) + 1
    ensures Count(b[i := Some(p)], Other(p)) == Count(b, Other(p))
  {
    if i > 0 {
      CountPlace(b[1..], i - 1, p);
      assert b[i := Some(p)][1..] == b[1..][i - 1 := Some(p)];
    } else {
      assert b[i := Some(p)][1..] == b[1..];
    }
  }

  /** A board of empty cells holds no mark. */
  lemma {:induction false} CountEmpty(b: Board, m: Mark)
    requires forall i :: 0 <= i < |b| ==> b[i] == None
    ensures Count(b, m) == 0
  {
    if |b| > 0 {
      CountEmpty(b[1..], m);
    }
  }

  /** The empty board has no owned line and no marks. */
  lemma EmptyBoardIsFresh()
    ensures |EmptyBoard| == 9 && !HasLine(EmptyBoard)
    ensures Count(EmptyBoard, X) == 0 && Count(EmptyBoard, O) == 0
  {
    CountEmpty(EmptyBoard, X);
    CountEmpty(EmptyBoard, O);
  }

  /** The cells occupied by either mark. */
  function Occupied(b: Board): nat
  {
    Count(b, X) + Count(b, O)
  }

  /** The marks never outnumber the cells, and they fill the board exactly when no cell is empty. */
  lemma {:induction false} MarkedCells(b: Board)
    ensures Occupied(b) <= |b|
    ensures Occupied(b) == |b| <==> forall i :: 0 <= i < |b| ==> b[i].Some?
  {
    if |b| > 0 {
      var rest := b[1..];
      MarkedCells(rest);
      assert Count(b, X) == (if b[0] == Some(X) then 1 else 0) + Count(rest, X);
      assert Count(b, O) == (if b[0] == Some(O) then 1 else 0) + Count(rest, O);
      if b[0].Some? {
        assert b[0] == Some(b[0].value);
        assert b[0].value == X || b[0].value == O;
      }
      assert forall i :: 1 <= i < |b| ==> b[i] == rest[i - 1];
      if !(forall i :: 0 <= i < |rest| ==> rest[i].Some?) {
        var i :| 0 <= i < |rest| && rest[i].None?;
        assert b[i + 1].None?;
      }
    }
  }

  /**
   * On a board with no owned line, a line completed by writing p into one
   * cell is owned by p: the detected winner is the mover, whatever the scan
   * order of the lines.
   */
  lemma NewLineBelongsToMover(b: Board, i: Idx, p: Mark, l: Line)
    requires |b| == 9 && !Owned(b, l)
    requires Owned(b[i := Some(p)], l)
    ensures OwnedBy(b[i := Some(p)], l, p)
  {
  }

  /**
   * How a move by `mover` that produced board b settles the game: a line
   * wins for the mover, else a full board is a draw, else the turn passes.
   */
  datatype Outcome = Outcome(winner: Winner, score: Score, next: Mark)

  function Settle(b: Board, mover: Mark, s: Score): Outcome
    requires |b| == 9
  {
    if HasLine(b) then Outcome(Won(mover), Credit(s, mover), mover)
    else if IsBoardFull(b) then Outcome(Draw, s.(draws := s.draws + 1), mover)
    else Outcome(NoWinner, s, Other(mover))
  }

  /** One more win for mark m. */
  function Credit(s: Score, m: Mark): (r: Score)
    ensures r.draws == s.draws
    ensures m == X ==> r.x == s.x + 1 && r.o == s.o
    ensures m == O ==> r.o == s.o + 1 && r.x == s.x
  {
    if m == X then s.(x := s.x + 1) else s.(o := s.o + 1)
  }

  /**
   * The mark counts agree with whose turn it is: while the game runs, the
   * player to move is X exactly when both marks are equally many; once it is
   * over, the last mover is the current player.
   */
  ghost predicate Balanced(b: Board, current: Mark, over: bool)
  {
    if over then Count(b, X) == Count(b, O) + (if current == X then 1 else 0)
    else Count(b, X) == Count(b, O) + (if current == X then 0 else 1)
  }

  class Game {
    var board: Board
    var currentPlayer: Mark
    var winner: Winner
    var winningLine: Option<Line>
    var gameMode: Mode
    var gameOver: bool
    var score: Score

    /** The invariant every handler keeps, the mode rule aside. */
    ghost predicate Consistent()
      reads this
    {
      && |board| == 9
      && (gameOver <==> winner != NoWinner)
      && (winner == NoWinner ==> !HasLine(board) && winningLine == None)
      && (winner.Won? ==> CheckWinner(board) == (Some(winner.mark), winningLine)
                          && winner.mark == currentPlayer)
      && (winner == Draw ==> IsBoardFull(board) && !HasLine(board) && winningLine == None)
      && Balanced(board, currentPlayer, winner != NoWinner)
    }

    /** Against the computer, a running game always waits for X. */
    ghost predicate Valid()
      reads this
    {
      Consistent() && (gameMode == VsComputer && winner == NoWinner ==> currentPlayer == X)
    }

    /** The session's first state: empty board, X to move, no score, "Play vs Computer". */
    constructor ()
      ensures Valid()
      ensures board == EmptyBoard && currentPlayer == X && winner == NoWinner
      ensures winningLine == None && !gameOver && gameMode == VsComputer
      ensures score == Score(0, 0, 0)
    {
      board := EmptyBoard;
      currentPlayer := X;
      winner := NoWinner;
      winningLine := None;
      gameMode := VsComputer;
      gameOver := false;
      score := Score(0, 0, 0);
      EmptyBoardIsFresh();
    }

    /**
     * Write the current player's mark into an empty cell of a running game,
     * then settle it: a completed line wins for the mover, else a full board
     * is a draw, else the turn passes.
     */
    method Place(idx: Idx)
      requires Consistent() && board[idx].None? && winner == NoWinner
      modifies this
      ensures Consistent()
      ensures board == old(board)[idx := Some(old(currentPlayer))]
      ensures Occupied(board) == Occupied(old(board)) + 1
      ensures gameMode == old(gameMode)
      ensures HasLine(board) ==>
                winner == Won(old(currentPlayer)) && gameOver
                && winningLine == CheckWinner(board).1
                && score == Credit(old(score), old(currentPlayer))
                && currentPlayer == old(currentPlayer)
      ensures !HasLine(board) && IsBoardFull(board) ==>
                winner == Draw && gameOver && winningLine == None
                && score == old(score).(draws := old(score).draws + 1)
                && currentPlayer == old(currentPlayer)
      ensures !HasLine(board) && !IsBoardFull(board) ==>
                winner == NoWinner && !gameOver && winningLine == None
                && score == old(score)
                && currentPlayer == Other(old(currentPlayer))
    {
      ghost var before := board;
      CountPlace(board, idx, currentPlayer);
      board := board[idx := Some(currentPlayer)];
      var (w, line) := CheckWinner(board);
      winner := if w.Some? then Won(w.value) else NoWinner;
      winningLine := line;
      if w.Some? {
        NewLineBelongsToMover(before, idx, currentPlayer, line.value);
        gameOver := true;
        score := Credit(score, w.value);
      } else if IsBoardFull(board) {
        winner := Draw;
        gameOver := true;
        score := score.(draws := score.draws + 1);
      } else {
        currentPlayer := Other(currentPlayer);
      }
    }

    /**
     * A click on cell idx. An occupied cell or a finished game changes
     * nothing. Otherwise the mark is placed; against the computer, a game
     * still running after it gets the reply chosen by `pick` for O.
     */
    method Click(idx: Idx, pick: nat)
      requires Valid()
      modifies this
      ensures Valid()
      ensures old(board[idx]).Some? || old(winner) != NoWinner ==> unchanged(this)
      ensures old(board[idx]).None? && old(winner) == NoWinner ==>
                var placed := old(board)[idx := Some(old(currentPlayer))];
                var first := Settle(placed, old(currentPlayer), old(score));
                gameMode == old(gameMode) && winningLine == CheckWinner(board).1 &&
                if old(gameMode) == VsComputer && first.winner == NoWinner then
                  var reply := ComputerMove(placed, NoWinner, pick);
                  reply.Some? && board == placed[reply.value := Some(O)]
                  && Outcome(winner, score, currentPlayer) == Settle(board, O, first.score)
                else
                  board == placed
                  && Outcome(winner, score, currentPlayer) == first
    {
      if board[idx].None? && winner == NoWinner {
        Place(idx);
        if gameMode == VsComputer && currentPlayer == O && winner == NoWinner {
          var move := ComputerMove(board, winner, pick);
          if move.Some? {
            Place(move.value);
          }
        }
      }
    }

    /** reset_game: a fresh board with X to move; the score is kept. */
    method ResetGame()
      modifies this
      ensures Valid()
      ensures board == EmptyBoard && currentPlayer == X && winner == NoWinner
      ensures winningLine == None && !gameOver
      ensures score == old(score) && gameMode == old(gameMode)
    {
      board := EmptyBoard;
      currentPlayer := X;
      winner := NoWinner;
      winningLine := None;
      gameOver := false;
      EmptyBoardIsFresh();
    }

    /** reset_score: all three counters back to zero; the board is kept. */
    method ResetScore()
      requires Valid()
      modifies this`score
      ensures Valid()
      ensures score == Score(0, 0, 0)
    {
      score := Score(0, 0, 0);
    }

    /** Choosing another game mode restarts the game. */
    method SelectMode(mode: Mode)
      requires Valid()
      modifies this
      ensures Valid()
      ensures gameMode == mode
      ensures mode == old(gameMode) ==> unchanged(this)
      ensures mode != old(gameMode) ==>
                board == EmptyBoard && currentPlayer == X && winner == NoWinner
                && winningLine == None && !gameOver && score == old(score)
    {
      if mode != gameMode {
        gameMode := mode;
        ResetGame();
      }
    }
  }
}
