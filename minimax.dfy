/**
 The exhaustive minimax move chooser. Both front-ends carry the same
 search; they differ only in how a finished board is scored, so the
 search is written once and takes the front-end as a parameter.

 O maximises and X minimises; an X win scores -10, an O win +10 and a
 full board 0, with no discount for depth. Ties go to the first empty
 cell in ascending index order, because the comparison is strict.
 */
module Minimax {
  import opened Board
  import opened AppWinner
  import opened ScriptWinState

  /** `ReactApp` scores finished boards with `checkWinner`, `VanillaScript`
      with `checkWinState`, testing X before O. */
  datatype FrontEnd = ReactApp | VanillaScript

  /** The source's `{score}` for a finished board, or `{index, score}` for a
      chosen move. */
  datatype Move = Terminal(score: int) | Chosen(index: Index, score: int)

  /** The running best of the selection loop: `bestScore` and `bestMove`
      (an index into `moves`, undefined until a move has been taken). */
  datatype Selection = Selection(bestScore: int, bestMove: Option<nat>)

  predicate IsScore(s: int) {
    s == -10 || s == 0 || s == 10
  }

  /** The score of a win for `p`. */
  function Gain(p: Player): int {
    if p == O then 10 else -10
  }

  /** The starting `bestScore`: worse than any score for the side to move. */
  function Start(p: Player): (s: int)
    ensures Better(p, -10, s) && Better(p, 0, s) && Better(p, 10, s)
  {
    if p == O then -10000 else 10000
  }

  /** Score `a` strictly improves on `s` for `p`: `>` for O, `<` for X. */
  predicate Better(p: Player, a: int, s: int) {
    if p == O then a > s else a < s
  }

  /** The terminal test at the head of `minimax`: the score of a finished
      board, or `None` when the search must go on, in which case there is
      an empty cell to try. */
  function TerminalScore(f: FrontEnd, b: Board): (r: Option<int>)
    ensures r.Some? ==> IsScore(r.value)
    ensures r.None? ==> EmptyCells(b) != []
  {
    EmptyCellsNoneIffFull(b);
    match f
    case ReactApp =>
      var w := CheckWinner(b);
      if w == Won(X) then Some(-10)
      else if w == Won(O) then Some(10)
      else if |EmptyCells(b)| == 0 then Some(0)
      else None
    case VanillaScript =>
      if CheckWinState(b, X) then Some(-10)
      else if CheckWinState(b, O) then Some(10)
      else if |EmptyCells(b)| == 0 then Some(0)
      else None
  }

  /** What the terminal test means, for either front-end: the search goes on
      exactly while no line is won and a cell is empty; a full board with no
      won line scores 0. The React copy scores the mark of the first won
      line; the vanilla copy tests X before O, so a board on which both
      sides own a line scores -10 there. */
  lemma TerminalScoreMeaning(f: FrontEnd, b: Board)
    ensures TerminalScore(f, b).None? <==> NoLineWon(b) && !Full(b)
    ensures TerminalScore(f, b) == Some(0) <==> NoLineWon(b) && Full(b)
    ensures f == ReactApp ==> (TerminalScore(f, b) == Some(-10) <==> CheckWinner(b) == Won(X))
    ensures f == ReactApp ==> (TerminalScore(f, b) == Some(10) <==> CheckWinner(b) == Won(O))
    ensures f == VanillaScript ==> (TerminalScore(f, b) == Some(-10) <==> CheckWinState(b, X))
    ensures f == VanillaScript ==> (TerminalScore(f, b) == Some(10) <==> !CheckWinState(b, X) && CheckWinState(b, O))
  {
    WonLineBelongsToAPlayer(b);
    EmptyCellsNoneIffFull(b);
    var w := CheckWinner(b);
    if w.Won? {
      assert w == Won(w.mark);
      assert w.mark == X || w.mark == O;
    }
  }

  /** The value of `minimax(b, p)`: the terminal score of a finished board,
      otherwise the first best of the trial moves. */
  function Evaluate(f: FrontEnd, b: Board, p: Player): (m: Move)
    decreases Count(b, Empty), 1
    ensures IsScore(m.score)
    ensures m.Chosen? ==> b[m.index] == Empty
  {
    match TerminalScore(f, b)
    case Some(s) => Terminal(s)
    case None =>
      var moves := Trials(f, b, p, |EmptyCells(b)|);
      var sel := Select(p, moves, |moves|);
      assert Better(p, moves[0].score, Start(p));
      moves[sel.bestMove.value]
  }

  /** The `moves` list after the first `n` trials: trial i marks the i-th
      empty cell for `p` and scores the board with the other player to move. */
  function Trials(f: FrontEnd, b: Board, p: Player, n: nat): (ms: seq<Move>)
    requires n <= |EmptyCells(b)|
    decreases Count(b, Empty), 0, n
    ensures |ms| == n
    ensures forall i :: 0 <= i < n ==> ms[i].Chosen? && ms[i].index == EmptyCells(b)[i] && IsScore(ms[i].score)
  {
    if n == 0 then []
    else
      var s := EmptyCells(b)[n - 1];
      var earlier := Trials(f, b, p, n - 1);
      var last := Chosen(s, TrialScore(f, b, p, s));
      assert forall i :: 0 <= i < n - 1 ==> (earlier + [last])[i] == earlier[i];
      earlier + [last]
  }

  /** The score of one trial: `minimax` of the board with `s` marked for
      `p`, the other player to move. */
  function TrialScore(f: FrontEnd, b: Board, p: Player, s: Index): (score: int)
    requires b[s] == Empty
    decreases Count(b, Empty), 0, 0
    ensures IsScore(score)
  {
    CountAfterUpdate(b, s, Mark(p), Empty);
    Evaluate(f, b[s := Mark(p)], Other(p)).score
  }

  /** One more trial appends the scored move for the next empty cell: the
      one-step unfolding of `Trials` that the trial loop of `Minimax` keeps as
      its invariant. */
  lemma TrialsExtend(f: FrontEnd, b: Board, p: Player, n: nat)
    requires n < |EmptyCells(b)|
    ensures Trials(f, b, p, n + 1) == Trials(f, b, p, n) + [Chosen(EmptyCells(b)[n], TrialScore(f, b, p, EmptyCells(b)[n]))]
  {
  }

  /** The selection loop after `n` steps. The result is the first move whose
      score no move beats for `p`, every earlier move scoring strictly worse. */
  function Select(p: Player, moves: seq<Move>, n: nat): (r: Selection)
    requires n <= |moves|
    ensures r.bestMove.None? ==> r.bestScore == Start(p)
    ensures r.bestMove.None? ==> forall i :: 0 <= i < n ==> !Better(p, moves[i].score, Start(p))
    ensures r.bestMove.Some? ==> r.bestMove.value < n && r.bestScore == moves[r.bestMove.value].score
    ensures r.bestMove.Some? ==> Better(p, r.bestScore, Start(p))
    ensures forall i :: 0 <= i < n ==> !Better(p, moves[i].score, r.bestScore)
    ensures r.bestMove.Some? ==> forall i :: 0 <= i < r.bestMove.value ==> Better(p, r.bestScore, moves[i].score)
  {
    if n == 0 then Selection(Start(p), None)
    else
      var sel := Select(p, moves, n - 1);
      if Better(p, moves[n - 1].score, sel.bestScore) then Selection(moves[n - 1].score, Some(n - 1))
      else sel
  }

  /** `minimax(newBoard, player)`: the terminal test, then one trial per
      empty cell in ascending index order, collected in `moves`, then the
      first best move. */
  method Minimax(f: FrontEnd, board: array<Cell>, player: Player) returns (m: Move)
    requires board.Length == 9
    modifies board
    decreases Count(board[..], Empty), 1
    ensures board[..] == old(board[..])
    ensures m == Evaluate(f, old(board[..]), player)
  {
    ghost var b: Board := board[..];
    var availSpots := EmptyCells(board[..]);
    var terminal := TerminalScore(f, board[..]);
    if terminal.Some? {
      return Terminal(terminal.value);
    }

    var moves: seq<Move> := [];
    var i := 0;
    while i < |availSpots|
      invariant 0 <= i <= |availSpots|
      invariant board[..] == b
      invariant moves == Trials(f, b, player, i)
    {
      var score := TryMove(f, board, player, availSpots[i]);
      TrialsExtend(f, b, player, i);
      moves := moves + [Chosen(availSpots[i], score)];
      i := i + 1;
    }

    var best := PickBest(player, moves);
    m := moves[best];
  }

  /** One trial: mark `spot` for `player` in place, score the board with the
      other player to move, and reset the cell to empty. */
  method TryMove(f: FrontEnd, board: array<Cell>, player: Player, spot: Index) returns (score: int)
    requires board.Length == 9
    requires board[spot] == Empty
    modifies board
    decreases Count(board[..], Empty), 0
    ensures board[..] == old(board[..])
    ensures score == TrialScore(f, old(board[..]), player, spot)
  {
    ghost var b: Board := board[..];
    board[spot] := Mark(player);
    assert board[..] == b[spot := Mark(player)];
    CountAfterUpdate(b, spot, Mark(player), Empty);
    var result := Minimax(f, board, Other(player));
    score := result.score;
    board[spot] := Empty;
    assert board[..] == b;
  }

  /** The selection loop of `minimax`: a strict comparison against the
      running best, starting from a score no real move can lose to, so the
      first of several equally good moves is kept. */
  method PickBest(player: Player, moves: seq<Move>) returns (bestMove: nat)
    requires moves != []
    requires forall i :: 0 <= i < |moves| ==> IsScore(moves[i].score)
    ensures Select(player, moves, |moves|).bestMove == Some(bestMove)
    ensures bestMove < |moves|
    ensures forall i :: 0 <= i < |moves| ==> !Better(player, moves[i].score, moves[bestMove].score)
    ensures forall i :: 0 <= i < bestMove ==> Better(player, moves[bestMove].score, moves[i].score)
  {
    var bestScore := Start(player);
    var best: Option<nat> := None;
    var j := 0;
    while j < |moves|
      invariant 0 <= j <= |moves|
      invariant Selection(bestScore, best) == Select(player, moves, j)
    {
      if Better(player, moves[j].score, bestScore) {
        bestScore := moves[j].score;
        best := Some(j);
      }
      j := j + 1;
    }
    assert Better(player, moves[0].score, Start(player));
    bestMove := best.value;
  }
}
