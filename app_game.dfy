/**
 The React front-end's game state and its three transitions: the human's
 click (X), the AI's reply (O, chosen by minimax) and the restart. The
 state is the board, whose turn it is, the verdict and whether the AI is
 about to move.
 */
module AppGame {
  import opened Board
  import opened AppWinner
  import opened ScriptWinState
  import opened Minimax
  import opened MinimaxProperties

  /** The invariant of the game state. The verdict is always `checkWinner`
      of the board. The game stops at the first completed line, so at most
      one player owns a line. X moves first and the turns alternate, so X has
      as many marks as O, or one more, and X is to move on an open game
      exactly when the counts are equal. The AI thinks exactly when the game
      is open and O is to move. */
  ghost predicate Consistent(board: Board, isXNext: bool, winner: Verdict, isAiThinking: bool) {
    && winner == CheckWinner(board)
    && !(CheckWinState(board, X) && CheckWinState(board, O))
    && (Count(board, Mark(X)) == Count(board, Mark(O)) || Count(board, Mark(X)) == Count(board, Mark(O)) + 1)
    && (winner == Pending ==> (isXNext <==> Count(board, Mark(X)) == Count(board, Mark(O))))
    && (isAiThinking <==> !isXNext && winner == Pending)
  }

  /** The initial state is consistent: the empty board is an open game with
      no marks on it, X to move. */
  lemma EmptyBoardIsOpen()
    ensures CheckWinner(EmptyBoard) == Pending
    ensures Consistent(EmptyBoard, true, Pending, false)
  {
    CountAbsent(EmptyBoard, Mark(X));
    CountAbsent(EmptyBoard, Mark(O));
    assert EmptyBoard[0] == Empty;
  }

  /** A move on a board where the game is still open: it adds one mark of the
      mover and none of the other player, and afterwards the other player
      owns no line and is not reported as the winner. */
  lemma MoveOnOpenBoard(b: Board, i: Index, p: Player)
    requires CheckWinner(b) == Pending && b[i] == Empty
    ensures Count(b[i := Mark(p)], Mark(p)) == Count(b, Mark(p)) + 1
    ensures Count(b[i := Mark(p)], Mark(Other(p))) == Count(b, Mark(Other(p)))
    ensures !CheckWinState(b[i := Mark(p)], Other(p))
    ensures CheckWinner(b[i := Mark(p)]) != Won(Other(p))
  {
    WonLineBelongsToAPlayer(b);
    MarkGivesOpponentNoLine(b, i, p);
    CountAfterUpdate(b, i, Mark(p), Mark(p));
    CountAfterUpdate(b, i, Mark(p), Mark(Other(p)));
    if CheckWinner(b[i := Mark(p)]) == Won(Other(p)) {
      ReportedWinnerOwnsALine(b[i := Mark(p)], Other(p));
    }
  }

  /** X's move on X's turn keeps the state consistent, whether it ends the
      game or passes the turn to the AI. */
  lemma ClickKeepsConsistent(b: Board, i: Index)
    requires Consistent(b, true, Pending, false) && b[i] == Empty
    ensures CheckWinner(b[i := Mark(X)]) != Pending ==>
              Consistent(b[i := Mark(X)], true, CheckWinner(b[i := Mark(X)]), false)
    ensures CheckWinner(b[i := Mark(X)]) == Pending ==>
              Consistent(b[i := Mark(X)], false, Pending, true)
  {
    MoveOnOpenBoard(b, i, X);
  }

  /** O's move on O's turn keeps the state consistent, whether it ends the
      game or passes the turn back to X. */
  lemma AiMoveKeepsConsistent(b: Board, i: Index)
    requires Consistent(b, false, Pending, true) && b[i] == Empty
    ensures CheckWinner(b[i := Mark(O)]) != Pending ==>
              Consistent(b[i := Mark(O)], false, CheckWinner(b[i := Mark(O)]), false)
    ensures CheckWinner(b[i := Mark(O)]) == Pending ==>
              Consistent(b[i := Mark(O)], true, Pending, false)
  {
    MoveOnOpenBoard(b, i, O);
  }

  /** While the game is open the AI's search is not terminal, so it returns
      a move, and that move is an empty cell. Both front-ends would choose it. */
  lemma AiMoveIsLegal(b: Board)
    requires CheckWinner(b) == Pending
    ensures Evaluate(ReactApp, b, O).Chosen?
    ensures b[Evaluate(ReactApp, b, O).index] == Empty
    ensures Evaluate(ReactApp, b, O) == Evaluate(VanillaScript, b, O)
  {
    TerminalScoreMeaning(ReactApp, b);
    EvaluateTerminal(ReactApp, b, O);
    WonLineBelongsToAPlayer(b);
    FrontEndsAgree(b, O);
  }

  /** `minimax(board, 'o').index` on an open board, the search running on
      a scratch copy of the board. */
  method AiChoice(b: Board) returns (index: Index)
    requires CheckWinner(b) == Pending
    ensures Evaluate(ReactApp, b, O).Chosen? && index == Evaluate(ReactApp, b, O).index
    ensures b[index] == Empty
  {
    var cells := new Cell[9](i requires 0 <= i < 9 => b[i]);
    assert cells[..] == b;
    var best := Minimax.Minimax(ReactApp, cells, O);
    AiMoveIsLegal(b);
    index := best.index;
  }

  class Game {
    var board: Board
    var isXNext: bool
    var winner: Verdict
    var isAiThinking: bool

    ghost predicate Valid()
      reads this
    {
      Consistent(board, isXNext, winner, isAiThinking)
    }

    /** The initial state: an empty board, X to move. */
    constructor ()
      ensures Valid()
      ensures board == EmptyBoard && isXNext && winner == Pending && !isAiThinking
    {
      board := EmptyBoard;
      isXNext := true;
      winner := Pending;
      isAiThinking := false;
      EmptyBoardIsOpen();
    }

    /** `handleClick(index)`: a click on a finished game, while the AI is
        thinking or on an occupied cell is ignored; otherwise X is written at
        `index` and the game either ends with `checkWinner`'s verdict, which
        cannot be an O win, or passes the turn to the AI. */
    method HandleClick(index: Index)
      requires Valid()
      modifies this
      ensures Valid()
      ensures old(winner != Pending || isAiThinking || board[index] != Empty) ==> unchanged(this)
      ensures old(winner == Pending && !isAiThinking && board[index] == Empty) ==>
                && board == old(board)[index := Mark(X)]
                && winner == CheckWinner(board)
                && winner != Won(O)
                && isAiThinking == (winner == Pending)
                && isXNext == (winner != Pending)
    {
      if winner != Pending || isAiThinking || board[index] != Empty {
        return;
      }
      ClickKeepsConsistent(board, index);
      MoveOnOpenBoard(board, index, X);
      var newBoard := board[index := Mark(X)];
      board := newBoard;
      var result := CheckWinner(newBoard);
      if result != Pending {
        winner := result;
      } else {
        isXNext := false;
        isAiThinking := true;
      }
    }

    /** The AI effect: once the turn has passed to O on an open game with the
        AI thinking, the AI moves; in any other state nothing happens. */
    method AiTurn()
      requires Valid()
      modifies this
      ensures Valid()
      ensures !old(!isXNext && winner == Pending && isAiThinking) ==> unchanged(this)
      ensures old(!isXNext && winner == Pending && isAiThinking) ==>
                && (exists index: Index :: old(board)[index] == Empty
                      && Evaluate(ReactApp, old(board), O).Chosen? && Evaluate(ReactApp, old(board), O).index == index
                      && board == old(board)[index := Mark(O)])
                && winner == CheckWinner(board) && winner != Won(X)
                && !isAiThinking
                && (isXNext <==> winner == Pending)
    {
      if !isXNext && winner == Pending && isAiThinking {
        MakeAiMove();
      }
    }

    /** `makeAiMove`: O is written at the index minimax chooses for O on the
        current board, which is an empty cell; the AI stops thinking and the
        game either ends with a verdict that cannot be an X win, or passes the
        turn back to X. */
    method MakeAiMove()
      requires Valid() && !isXNext && winner == Pending && isAiThinking
      modifies this
      ensures Valid()
      ensures exists index: Index :: old(board)[index] == Empty
                && Evaluate(ReactApp, old(board), O).Chosen? && Evaluate(ReactApp, old(board), O).index == index
                && board == old(board)[index := Mark(O)]
      ensures winner == CheckWinner(board) && winner != Won(X)
      ensures !isAiThinking
      ensures isXNext <==> winner == Pending
    {
      var index := AiChoice(board);
      AiMoveKeepsConsistent(board, index);
      MoveOnOpenBoard(board, index, O);
      var newBoard := board[index := Mark(O)];
      board := newBoard;
      isAiThinking := false;
      var result := CheckWinner(newBoard);
      if result != Pending {
        winner := result;
      } else {
        isXNext := true;
      }
    }

    /** `restartGame`: back to the initial state. */
    method RestartGame()
      modifies this
      ensures Valid()
      ensures board == EmptyBoard && isXNext && winner == Pending && !isAiThinking
    {
      board := EmptyBoard;
      isXNext := true;
      winner := Pending;
      isAiThinking := false;
      EmptyBoardIsOpen();
    }
  }
}
