/**
 What the search promises: terminal scores, the legality and optimality of
 the chosen move with first-index tie-breaking, the scoring of an
 immediate win (which the search need not choose, since scores are not
 discounted by depth), and where the two front-ends' copies agree and
 disagree.
 */
module MinimaxProperties {
  import opened Board
  import opened AppWinner
  import opened ScriptWinState
  import opened Minimax

  /** A finished board is scored without a move; an open one yields a move. */
  lemma EvaluateTerminal(f: FrontEnd, b: Board, p: Player)
    ensures TerminalScore(f, b).Some? ==> Evaluate(f, b, p) == Terminal(TerminalScore(f, b).value)
    ensures TerminalScore(f, b).None? ==> Evaluate(f, b, p).Chosen?
  {
  }

  /** Trial k of the `moves` list scores the k-th empty cell. */
  lemma {:induction false} TrialScores(f: FrontEnd, b: Board, p: Player, n: nat, k: nat)
    requires k < n <= |EmptyCells(b)|
    decreases n
    ensures Trials(f, b, p, n)[k].score == TrialScore(f, b, p, EmptyCells(b)[k])
  {
    var earlier := Trials(f, b, p, n - 1);
    TrialsExtend(f, b, p, n - 1);
    if k < n - 1 {
      TrialScores(f, b, p, n - 1, k);
      assert Trials(f, b, p, n)[k] == earlier[k];
    }
  }

  /** On an open board the chosen move is one of the trials; no trial beats
      its score for `p` (it is a maximum for O, a minimum for X), and every
      empty cell with a smaller index scores strictly worse, so ties go to
      the lowest index. */
  lemma EvaluateIsFirstBest(f: FrontEnd, b: Board, p: Player)
    requires TerminalScore(f, b).None?
    ensures Evaluate(f, b, p).Chosen?
    ensures Evaluate(f, b, p) in Trials(f, b, p, |EmptyCells(b)|)
    ensures forall i :: 0 <= i < |EmptyCells(b)| ==>
              !Better(p, Trials(f, b, p, |EmptyCells(b)|)[i].score, Evaluate(f, b, p).score)
    ensures forall i :: 0 <= i < |EmptyCells(b)| && EmptyCells(b)[i] < Evaluate(f, b, p).index ==>
              Better(p, Evaluate(f, b, p).score, Trials(f, b, p, |EmptyCells(b)|)[i].score)
  {
    var spots := EmptyCells(b);
    var moves := Trials(f, b, p, |spots|);
    var sel := Select(p, moves, |moves|);
    assert Better(p, moves[0].score, Start(p));
    var k := sel.bestMove.value;
    assert Evaluate(f, b, p) == moves[k];
    EmptyCellsAscending(b);
    forall i | 0 <= i < |spots| && spots[i] < moves[k].index
      ensures Better(p, moves[k].score, moves[i].score)
    {
      assert i < k;
    }
  }

  /** If marking some empty cell wins outright for `p`, the search scores
      the position as a win for `p`. */
  lemma ImmediateWinIsFound(f: FrontEnd, b: Board, p: Player, s: Index)
    requires TerminalScore(f, b).None?
    requires b[s] == Empty
    requires TerminalScore(f, b[s := Mark(p)]) == Some(Gain(p))
    ensures Evaluate(f, b, p).score == Gain(p)
  {
    var spots := EmptyCells(b);
    EmptyCellsComplete(b, s);
    var k :| 0 <= k < |spots| && spots[k] == s;
    var moves := Trials(f, b, p, |spots|);
    TrialScores(f, b, p, |spots|, k);
    EvaluateTerminal(f, b[s := Mark(p)], Other(p));
    assert moves[k].score == Gain(p);
    EvaluateIsFirstBest(f, b, p);
  }

  /** `checkWinner` reports `p` only when `p` owns a line. */
  lemma ReportedWinnerOwnsALine(b: Board, p: Player)
    requires CheckWinner(b) == Won(p)
    ensures CheckWinState(b, p)
  {
    var k := FirstWonLine(b, 0).value;
    LineWonIsLineOfItsMark(b, k);
    assert LineOf(b, p, k);
  }

  /** `checkWinner` reports `p` when `p` owns a line and the other player
      does not. */
  lemma SoleLineOwnerIsReported(b: Board, p: Player)
    requires CheckWinState(b, p) && !CheckWinState(b, Other(p))
    ensures CheckWinner(b) == Won(p)
  {
    var k :| 0 <= k < |Lines| && LineOf(b, p, k);
    assert LineWon(b, k);
    var j := FirstWonLine(b, 0).value;
    LineWonIsLineOfItsMark(b, j);
    var q := b[Lines[j].0].player;
    assert CheckWinState(b, q);
    assert q == p || q == Other(p);
  }

  /** The two terminal tests agree unless both players own a line. */
  lemma TerminalScoresAgree(b: Board)
    requires !(CheckWinState(b, X) && CheckWinState(b, O))
    ensures TerminalScore(ReactApp, b) == TerminalScore(VanillaScript, b)
  {
    TerminalScoreMeaning(ReactApp, b);
    TerminalScoreMeaning(VanillaScript, b);
    if CheckWinner(b).Won? {
      ReportedWinnerOwnsALine(b, CheckWinner(b).mark);
    }
    if CheckWinState(b, X) {
      SoleLineOwnerIsReported(b, X);
    }
    if CheckWinState(b, O) {
      SoleLineOwnerIsReported(b, O);
    }
  }

  /** The two copies of `minimax` compute the same move and score on every
      board on which not both players own a line, which includes every board
      reachable by play: the search stops at the first completed line. */
  lemma {:induction false} FrontEndsAgree(b: Board, p: Player)
    requires !(CheckWinState(b, X) && CheckWinState(b, O))
    decreases Count(b, Empty), 1
    ensures Evaluate(ReactApp, b, p) == Evaluate(VanillaScript, b, p)
  {
    TerminalScoresAgree(b);
    if TerminalScore(ReactApp, b).None? {
      var n := |EmptyCells(b)|;
      TrialsAgree(b, p, n);
    }
  }

  lemma {:induction false} TrialsAgree(b: Board, p: Player, n: nat)
    requires TerminalScore(ReactApp, b).None?
    requires n <= |EmptyCells(b)|
    decreases Count(b, Empty), 0, n
    ensures Trials(ReactApp, b, p, n) == Trials(VanillaScript, b, p, n)
  {
    if n > 0 {
      TrialsAgree(b, p, n - 1);
      TrialScoreAgrees(b, p, EmptyCells(b)[n - 1]);
      TrialsExtend(ReactApp, b, p, n - 1);
      TrialsExtend(VanillaScript, b, p, n - 1);
    }
  }

  lemma {:induction false} TrialScoreAgrees(b: Board, p: Player, s: Index)
    requires TerminalScore(ReactApp, b).None?
    requires b[s] == Empty
    decreases Count(b, Empty), 0, 0
    ensures TrialScore(ReactApp, b, p, s) == TrialScore(VanillaScript, b, p, s)
  {
    TerminalScoreMeaning(ReactApp, b);
    WonLineBelongsToAPlayer(b);
    MarkGivesOpponentNoLine(b, s, p);
    CountAfterUpdate(b, s, Mark(p), Empty);
    var child := b[s := Mark(p)];
    assert !CheckWinState(child, Other(p));
    assert p == X || p == O;
    FrontEndsAgree(child, Other(p));
  }

  /** On a board where O owns the first row and X the second, the React copy
      scores an O win (the first won line in scan order is O's) while the
      vanilla copy scores an X win (it tests X first). */
  lemma FrontEndsDisagreeOnDoubleWin()
    ensures var b: Board := [Mark(O), Mark(O), Mark(O), Mark(X), Mark(X), Mark(X), Empty, Empty, Empty];
            TerminalScore(ReactApp, b) == Some(10) && TerminalScore(VanillaScript, b) == Some(-10)
  {
    var b: Board := [Mark(O), Mark(O), Mark(O), Mark(X), Mark(X), Mark(X), Empty, Empty, Empty];
    assert LineWon(b, 0);
    assert LineOf(b, X, 1);
    TerminalScoreMeaning(VanillaScript, b);
  }

  /** If `p` moving at `s` completes a line of `p` and gives the opponent
      none, then `p` to move on the open board `d` scores a win for `p`. */
  lemma WinningReply(d: Board, p: Player, s: Index)
    requires NoLineWon(d) && !Full(d) && d[s] == Empty
    requires CheckWinState(d[s := Mark(p)], p) && !CheckWinState(d[s := Mark(p)], Other(p))
    ensures Evaluate(ReactApp, d, p).score == Gain(p)
  {
    TerminalScoreMeaning(ReactApp, d);
    SoleLineOwnerIsReported(d[s := Mark(p)], p);
    TerminalScoreMeaning(ReactApp, d[s := Mark(p)]);
    ImmediateWinIsFound(ReactApp, d, p, s);
  }

  /** X holds 0 and 1, O holds 3 and 4 and the rest is empty: O to move
      can win at once at 5. */
  predicate TwoThreats(b: Board) {
    && b[0] == Mark(X) && b[1] == Mark(X) && b[2] == Empty
    && b[3] == Mark(O) && b[4] == Mark(O) && b[5] == Empty
    && b[6] == Empty && b[7] == Empty && b[8] == Empty
  }

  /** Whatever X answers after O blocks at 2, O then completes a line:
      5 (the middle row) unless X took it, and 6 (the anti-diagonal) if X did. */
  lemma BlockAtTwoStillWins(b: Board, x: Index)
    requires TwoThreats(b) && b[2 := Mark(O)][x] == Empty
    ensures Evaluate(ReactApp, b[2 := Mark(O)][x := Mark(X)], O).score == 10
  {
    var d := b[2 := Mark(O)][x := Mark(X)];
    assert NoLineWon(d);
    if x == 5 {
      assert d[6] == Empty;
      assert LineOf(d[6 := Mark(O)], O, 7);
      assert !CheckWinState(d[6 := Mark(O)], X);
      WinningReply(d, O, 6);
    } else {
      assert d[5] == Empty;
      assert LineOf(d[5 := Mark(O)], O, 1);
      assert !CheckWinState(d[5 := Mark(O)], X);
      WinningReply(d, O, 5);
    }
  }

  /** After O blocks at 2, every reply of X loses, so O's trial at 2
      scores 10. */
  lemma BlockAtTwoWins(b: Board)
    requires TwoThreats(b)
    ensures TrialScore(ReactApp, b, O, 2) == 10
  {
    var c := b[2 := Mark(O)];
    assert NoLineWon(c) && c[5] == Empty;
    TerminalScoreMeaning(ReactApp, c);
    var spots := EmptyCells(c);
    forall k | 0 <= k < |spots|
      ensures Trials(ReactApp, c, X, |spots|)[k].score == 10
    {
      BlockAtTwoStillWins(b, spots[k]);
      TrialScores(ReactApp, c, X, |spots|, k);
    }
    EvaluateIsFirstBest(ReactApp, c, X);
    assert Evaluate(ReactApp, c, X).score == 10;
  }

  /** On such a board the game is open and O moving at 5 wins at once. */
  lemma WinAtFive(b: Board)
    requires TwoThreats(b)
    ensures TerminalScore(ReactApp, b).None?
    ensures TerminalScore(ReactApp, b[5 := Mark(O)]) == Some(10)
  {
    assert NoLineWon(b) && b[2] == Empty;
    TerminalScoreMeaning(ReactApp, b);
    assert LineOf(b[5 := Mark(O)], O, 1);
    assert !CheckWinState(b[5 := Mark(O)], X);
    SoleLineOwnerIsReported(b[5 := Mark(O)], O);
    TerminalScoreMeaning(ReactApp, b[5 := Mark(O)]);
  }

  /** If the lowest empty cell already scores a win for `p`, the search
      chooses it: nothing scores better and no cell comes before it. */
  lemma FirstCellWinIsChosen(f: FrontEnd, b: Board, p: Player, s: Index)
    requires TerminalScore(f, b).None?
    requires b[s] == Empty && TrialScore(f, b, p, s) == Gain(p)
    requires forall i :: 0 <= i < s ==> b[i] != Empty
    ensures Evaluate(f, b, p) == Chosen(s, Gain(p))
  {
    var spots := EmptyCells(b);
    EmptyCellsComplete(b, s);
    var k :| 0 <= k < |spots| && spots[k] == s;
    var moves := Trials(f, b, p, |spots|);
    TrialScores(f, b, p, |spots|, k);
    EvaluateIsFirstBest(f, b, p);
    var e := Evaluate(f, b, p);
    var j :| 0 <= j < |moves| && moves[j] == e;
    assert IsScore(e.score) && !Better(p, moves[k].score, e.score);
    assert e.index == spots[j] && b[e.index] == Empty;
    assert e.index >= s && !Better(p, e.score, moves[k].score);
  }

  /** The search does not prefer an immediate win: scores are not discounted
      by depth and ties go to the lowest index, so on a `TwoThreats` board O,
      who wins at once at 5, chooses 2, which also wins, two moves later. */
  lemma ImmediateWinNotPreferred(b: Board)
    requires TwoThreats(b)
    ensures TerminalScore(ReactApp, b).None?
    ensures b[5] == Empty && TerminalScore(ReactApp, b[5 := Mark(O)]) == Some(10)
    ensures Evaluate(ReactApp, b, O) == Chosen(2, 10)
  {
    WinAtFive(b);
    BlockAtTwoWins(b);
    forall i | 0 <= i < 2
      ensures b[i] != Empty
    {
      assert i == 0 || i == 1;
    }
    FirstCellWinIsChosen(ReactApp, b, O, 2);
  }
}
