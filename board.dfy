/**
 The tic-tac-toe board shared by both front-ends: nine cells in row-major
 order, each empty (the source's `null`) or holding a player's mark
 (`'x'` or `'o'`), and the eight winning lines scanned in a fixed order.
 */
module Board {

  datatype Option<T> = None | Some(value: T)

  datatype Player = X | O

  /** A cell: `null` in the source is `Empty`, `'x'` / `'o'` is `Mark(X)` / `Mark(O)`. */
  datatype Cell = Empty | Mark(player: Player)

  /** A cell position 0..8, row-major over the 3x3 grid. */
  type Index = i: nat | i < 9

  /** The board is always nine cells long. */
  type Board = b: seq<Cell> | |b| == 9 witness seq(9, _ => Empty)

  type Line = (Index, Index, Index)

  /** The eight winning triples, in the order both front-ends scan them:
      three rows, three columns, two diagonals. */
  const Lines: seq<Line> := [
    (0, 1, 2),
    (3, 4, 5),
    (6, 7, 8),
    (0, 3, 6),
    (1, 4, 7),
    (2, 5, 8),
    (0, 4, 8),
    (2, 4, 6)
  ]

  const EmptyBoard: Board := seq(9, _ => Empty)

  /** The player who moves after `p`. */
  function Other(p: Player): (q: Player)
    ensures q != p
  {
    if p == X then O else X
  }

  /** A row of the grid: three consecutive cells starting at a multiple of 3. */
  predicate IsRow(l: Line) {
    l.0 % 3 == 0 && l.1 == l.0 + 1 && l.2 == l.0 + 2
  }

  /** A column of the grid: a top-row cell and the two cells below it. */
  predicate IsColumn(l: Line) {
    l.0 < 3 && l.1 == l.0 + 3 && l.2 == l.0 + 6
  }

  /** The winning lines are the three rows top to bottom, then the three
      columns left to right, then the main and the anti-diagonal; every row
      and every column of the grid is among them, and no line is listed
      twice. */
  lemma LinesAreRowsColumnsDiagonals()
    ensures |Lines| == 8
    ensures forall k :: 0 <= k < 3 ==> IsRow(Lines[k]) && Lines[k].0 == 3 * k
    ensures forall k :: 3 <= k < 6 ==> IsColumn(Lines[k]) && Lines[k].0 == k - 3
    ensures Lines[6] == (0, 4, 8) && Lines[7] == (2, 4, 6)
    ensures forall j, k :: 0 <= j < k < |Lines| ==> Lines[j] != Lines[k]
  {
  }

  /** Line k has three equal, non-empty cells. */
  predicate LineWon(b: Board, k: nat)
    requires k < |Lines|
  {
    var (i, j, l) := Lines[k];
    b[i] != Empty && b[i] == b[j] && b[i] == b[l]
  }

  /** Line k is filled entirely with `p`'s mark. */
  predicate LineOf(b: Board, p: Player, k: nat)
    requires k < |Lines|
  {
    var (i, j, l) := Lines[k];
    b[i] == Mark(p) && b[j] == Mark(p) && b[l] == Mark(p)
  }

  predicate NoLineWon(b: Board) {
    forall k :: 0 <= k < |Lines| ==> !LineWon(b, k)
  }

  /** Every cell is filled. */
  predicate Full(b: Board) {
    forall i :: 0 <= i < |b| ==> b[i] != Empty
  }

  /** The number of cells equal to `c`. `Count(b, Empty)`, the number of
      empty cells, is the measure the search recursion decreases. */
  function Count(b: seq<Cell>, c: Cell): nat {
    if b == [] then 0
    else (if b[0] == c then 1 else 0) + Count(b[1..], c)
  }

  /** A won line belongs to the player whose mark stands in its first cell. */
  lemma LineWonIsLineOfItsMark(b: Board, k: nat)
    requires k < |Lines|
    ensures LineWon(b, k) <==> b[Lines[k].0].Mark? && LineOf(b, b[Lines[k].0].player, k)
  {
  }

  /** Overwriting cell `i` with `v` removes the old content from the count
      and adds the new one; in particular marking an empty cell leaves one
      empty cell fewer and one more of that mark. */
  lemma {:induction false} CountAfterUpdate(b: seq<Cell>, i: nat, v: Cell, c: Cell)
    requires i < |b|
    ensures Count(b[i := v], c) == Count(b, c) - (if b[i] == c then 1 else 0) + (if v == c then 1 else 0)
  {
    if i > 0 {
      assert b[i := v][1..] == b[1..][i - 1 := v];
      CountAfterUpdate(b[1..], i - 1, v, c);
    }
  }

  /** A sequence without any cell equal to `c` counts none. */
  lemma {:induction false} CountAbsent(b: seq<Cell>, c: Cell)
    requires forall i :: 0 <= i < |b| ==> b[i] != c
    ensures Count(b, c) == 0
  {
    if b != [] {
      CountAbsent(b[1..], c);
    }
  }

  /** The empty cells of `b` at positions `k` and beyond, in ascending order. */
  function EmptyFrom(b: Board, k: nat): (r: seq<Index>)
    requires k <= |b|
    decreases |b| - k
    ensures forall n :: 0 <= n < |r| ==> k <= r[n] && b[r[n]] == Empty
  {
    if k == |b| then []
    else if b[k] == Empty then [k as Index] + EmptyFrom(b, k + 1)
    else EmptyFrom(b, k + 1)
  }

  /** The source's `availSpots`: the empty cells of the board. */
  function EmptyCells(b: Board): (r: seq<Index>)
    ensures forall n :: 0 <= n < |r| ==> b[r[n]] == Empty
  {
    EmptyFrom(b, 0)
  }

  lemma {:induction false} EmptyFromAscending(b: Board, k: nat)
    requires k <= |b|
    decreases |b| - k
    ensures forall m, n :: 0 <= m < n < |EmptyFrom(b, k)| ==> EmptyFrom(b, k)[m] < EmptyFrom(b, k)[n]
  {
    if k < |b| {
      EmptyFromAscending(b, k + 1);
    }
  }

  lemma {:induction false} EmptyFromComplete(b: Board, k: nat, i: Index)
    requires k <= i && b[i] == Empty
    decreases |b| - k
    ensures i in EmptyFrom(b, k)
  {
    if k < i {
      EmptyFromComplete(b, k + 1, i);
    }
  }

  /** `availSpots` lists the empty cells in strictly ascending index order. */
  lemma EmptyCellsAscending(b: Board)
    ensures forall m, n :: 0 <= m < n < |EmptyCells(b)| ==> EmptyCells(b)[m] < EmptyCells(b)[n]
  {
    EmptyFromAscending(b, 0);
  }

  /** Every empty cell is among `availSpots`. */
  lemma EmptyCellsComplete(b: Board, i: Index)
    requires b[i] == Empty
    ensures i in EmptyCells(b)
  {
    EmptyFromComplete(b, 0, i);
  }

  /** `availSpots` is empty exactly when the board is full. */
  lemma EmptyCellsNoneIffFull(b: Board)
    ensures EmptyCells(b) == [] <==> Full(b)
  {
    if !Full(b) {
      var i :| 0 <= i < |b| && b[i] == Empty;
      EmptyCellsComplete(b, i);
    }
    if EmptyCells(b) != [] {
      assert b[EmptyCells(b)[0]] == Empty;
    }
  }
}
