/**
 The vanilla front-end's `checkWinState(board, player)`: does some winning
 line hold `player`'s mark in all three cells?
 */
module ScriptWinState {
  import opened Board

  /** `some` over `Lines[k..]` of `every` cell of the line holding `p`. */
  function AnyLineFrom(b: Board, p: Player, k: nat): (r: bool)
    requires k <= |Lines|
    decreases |Lines| - k
    ensures r <==> exists j :: k <= j < |Lines| && LineOf(b, p, j)
  {
    if k == |Lines| then false
    else LineOf(b, p, k) || AnyLineFrom(b, p, k + 1)
  }

  function CheckWinState(b: Board, p: Player): (r: bool)
    ensures r <==> exists k :: 0 <= k < |Lines| && LineOf(b, p, k)
  {
    AnyLineFrom(b, p, 0)
  }

  /** Some line is won exactly when one of the two players owns a line. */
  lemma WonLineBelongsToAPlayer(b: Board)
    ensures !NoLineWon(b) <==> CheckWinState(b, X) || CheckWinState(b, O)
  {
    if !NoLineWon(b) {
      var k :| 0 <= k < |Lines| && LineWon(b, k);
      LineWonIsLineOfItsMark(b, k);
      var p := b[Lines[k].0].player;
      assert CheckWinState(b, p);
      assert p == X || p == O;
    }
    if CheckWinState(b, X) || CheckWinState(b, O) {
      var p := if CheckWinState(b, X) then X else O;
      var k :| 0 <= k < |Lines| && LineOf(b, p, k);
      assert LineWon(b, k);
      assert !NoLineWon(b);
    }
  }

  /** Putting `p`'s mark on a cell cannot give the other player a line. */
  lemma MarkGivesOpponentNoLine(b: Board, i: Index, p: Player)
    requires !CheckWinState(b, Other(p))
    ensures !CheckWinState(b[i := Mark(p)], Other(p))
  {
  }
}
