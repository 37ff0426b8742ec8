/**
 The React front-end's `checkWinner`: scan the winning lines in order and
 report the mark of the first line with three equal non-empty cells;
 otherwise report a draw when every cell is filled, and nothing when the
 game is still open.
 */
module AppWinner {
  import opened Board

  /** The source's result `null`, `'x'` / `'o'`, or `'draw'`. */
  datatype Verdict = Pending | Won(mark: Player) | Draw

  /** The early-return scan over `Lines[k..]`: the first won line, if any. */
  function FirstWonLine(b: Board, k: nat): (r: Option<nat>)
    requires k <= |Lines|
    decreases |Lines| - k
    ensures r.Some? ==> k <= r.value < |Lines| && LineWon(b, r.value)
    ensures r.Some? ==> forall j :: k <= j < r.value ==> !LineWon(b, j)
    ensures r.None? ==> forall j :: k <= j < |Lines| ==> !LineWon(b, j)
  {
    if k == |Lines| then None
    else if LineWon(b, k) then Some(k)
    else FirstWonLine(b, k + 1)
  }

  function CheckWinner(b: Board): (r: Verdict)
    // a mark is reported exactly when some line is won ...
    ensures r.Won? <==> exists k :: 0 <= k < |Lines| && LineWon(b, k)
    // ... and it is the mark of the first won line in scan order
    ensures r.Won? ==> exists k :: 0 <= k < |Lines| && LineWon(b, k) && b[Lines[k].0] == Mark(r.mark)
                                   && forall j :: 0 <= j < k ==> !LineWon(b, j)
    // a win is checked before a draw: a full board with a won line is not a draw
    ensures r == Draw <==> NoLineWon(b) && Full(b)
    ensures r == Pending <==> NoLineWon(b) && !Full(b)
  {
    match FirstWonLine(b, 0)
    case Some(k) => Won(b[Lines[k].0].player)
    case None => if Full(b) then Draw else Pending
  }
}
