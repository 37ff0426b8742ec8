# Tic-tac-toe with a minimax opponent

A model of the game logic of a browser tic-tac-toe ("Ristinolla") in which
the human plays X and the computer plays O. The program has two front-ends:
a React component (`src/App.jsx`) and an older vanilla-JavaScript version
(`backup_vanilla/script.js`). Each carries its own copy of the win test and
of an exhaustive minimax search that picks the computer's move.

The model covers:

- **Board** (`board.dfy`): the nine-cell board, the eight winning lines in
  the order both front-ends scan them, cell counts, and `availSpots` (the
  empty cells in ascending index order).
- **AppWinner** (`app_winner.dfy`): React's `checkWinner`. It reports the
  mark of the first won line in scan order. Otherwise it reports a draw on a
  full board, and nothing while the game is open.
- **ScriptWinState** (`script_win_state.dfy`): the vanilla `checkWinState`.
  It tests whether some line holds one given mark in all three cells.
- **Minimax** (`minimax.dfy`): the search, written once. A `FrontEnd`
  parameter selects the terminal test, which is the only point where the two
  copies differ. The search itself is `Minimax.Minimax`, a method over an
  array. For each empty cell, `TryMove` writes the mark in place, recurses,
  and writes `Empty` back. `PickBest` runs the strict best-score scan. The
  method is proved equal to the pure specification `Evaluate`, which is
  built from `Trials` (the `moves` list) and `Select` (the selection loop),
  and the method leaves the array as it found it.
- **MinimaxProperties** (`minimax_properties.dfy`), what the search
  guarantees:
  - terminal scores;
  - the chosen move is an empty cell;
  - the chosen move is the best for the side to move, with ties going to
    the lowest index;
  - a position where the side to move can win at once is scored as that
    win; the chosen cell may be a lower-index move that wins later, because
    scores are not discounted by depth (`ImmediateWinNotPreferred` exhibits
    such a board);
  - the two copies return the same move on every board where not both
    players own a line;
  - they differ on a board where both players own a line.
- **AppGame** (`app_game.dfy`): React's game state as a class `Game`, with
  `handleClick`, the AI effect, `makeAiMove` and `restartGame`. They keep
  the invariant `Consistent`:
  - the stored verdict is `checkWinner` of the board;
  - at most one player owns a line;
  - X and O alternate;
  - the AI thinks only on O's turn in an open game.

Cells are `Empty` (the source's `null`) or `Mark(X)` / `Mark(O)` (`'x'` /
`'o'`). Scores are `-10` for an X win, `10` for an O win and `0` for a draw.

## Model

| member | source | states |
|---|---|---|
| Board.LinesAreRowsColumnsDiagonals | src/App.jsx:3-12 | `WINNING_COMBINATIONS` (the same list at backup_vanilla/script.js lines 3-12) is eight distinct lines: the three rows top to bottom, the three columns left to right, then the main and the anti-diagonal |
| Board.Other | src/App.jsx:110-116 | the recursive call is made for the other player, never the same one: X after O, O after X |
| Board.LineWon | src/App.jsx:29 | definition of the test on one triple: its first cell is non-null and equal to the other two |
| Board.LineOf | backup_vanilla/script.js:169-171 | definition of `every` over one triple: all three cells hold `player` |
| Board.Full | src/App.jsx:33 | definition of `every(cell => cell !== null)`: no cell is empty |
| Board.CountAfterUpdate | backup_vanilla/script.js:128-139 | writing a mark into an empty cell leaves one empty cell fewer, so every recursive call of `minimax` sees fewer empty cells (the termination measure); writing `null` back restores the count |
| Board.LineWonIsLineOfItsMark | src/App.jsx:28-29 | a line with three equal non-null cells is exactly a line filled with the mark of its first cell |
| Board.EmptyCells | src/App.jsx:93 | every index in `availSpots` is a `null` cell |
| Board.EmptyCellsComplete | src/App.jsx:93 | every `null` cell is in `availSpots` |
| Board.EmptyCellsAscending | backup_vanilla/script.js:110 | `availSpots` is strictly ascending |
| Board.EmptyCellsNoneIffFull | backup_vanilla/script.js:117 | `availSpots` is empty exactly when every cell is filled |
| AppWinner.FirstWonLine | src/App.jsx:27-32 | the scan with early return yields a won line, none of the earlier lines is won, and no result means no line from the start of the scan onwards is won |
| AppWinner.CheckWinner | src/App.jsx:26-35 | a mark is returned iff some line is won, and it is the mark of the first won line in list order; `'draw'` iff no line is won and the board is full (so a win beats a draw); `null` iff no line is won and some cell is empty |
| ScriptWinState.CheckWinState | backup_vanilla/script.js:167-173 | true iff some winning line has all three cells equal to `player` |
| ScriptWinState.WonLineBelongsToAPlayer | backup_vanilla/script.js:167-173 | some line is won (three equal non-null cells) iff `checkWinState` holds for X or for O |
| ScriptWinState.MarkGivesOpponentNoLine | backup_vanilla/script.js:128 | writing `player` into a cell never completes a line for the other player |
| Minimax.TerminalScore | src/App.jsx:96-99 | the terminal test yields only -10, 0 or 10, and when it yields nothing there is an empty cell to try |
| Minimax.TerminalScoreMeaning | backup_vanilla/script.js:113-119 | the search goes on iff no line is won and a cell is empty; 0 iff no line is won and the board is full; React: -10 / 10 iff `checkWinner` reports X / O; vanilla: -10 iff X owns a line, 10 iff O owns one and X does not |
| Minimax.Evaluate | src/App.jsx:91-142 | every score `minimax` returns is -10, 0 or 10, and a returned `index` is a `null` cell of the input board |
| Minimax.Trials | src/App.jsx:103-121 | the `moves` list has one entry per empty cell, in `availSpots` order, each with its cell as `index` and a score in {-10, 0, 10} |
| Minimax.TrialScore | src/App.jsx:108-116 | a trial's score is in {-10, 0, 10} |
| Minimax.TrialsExtend | backup_vanilla/script.js:123-142 | one loop step appends exactly the scored move for the next empty cell (the one-step unfolding of `Trials` used as the trial loop's invariant) |
| Minimax.Start | src/App.jsx:125-133 | the starting `bestScore`, -10000 for O and 10000 for X, is beaten by each of the scores -10, 0 and 10, so the first move always replaces it |
| Minimax.Better | src/App.jsx:127-135 | definition of the comparison: strict `>` for O, strict `<` for X |
| Minimax.Select | src/App.jsx:123-141 | the strict scan keeps the first move whose score no move beats for the player (the maximum for O, the minimum for X); every earlier move scores strictly worse; the kept score is that move's score and beats the sentinel; nothing is kept exactly when no move beats the sentinel, and then the score stays the sentinel |
| Minimax.Minimax | src/App.jsx:91-142 | the in-place search returns exactly `Evaluate` of the input board and leaves the array holding its original contents; with `VanillaScript` it is the copy at backup_vanilla/script.js lines 108-164, with `checkWinState` as the terminal test |
| Minimax.TryMove | src/App.jsx:107-119 | marking a cell, recursing with the other player and resetting the cell yields the child's score and restores the array |
| Minimax.PickBest | backup_vanilla/script.js:144-163 | `bestMove` is defined on a non-empty `moves` list and is the index `Select` picks: no move beats it and every earlier move is strictly worse |
| MinimaxProperties.EvaluateTerminal | src/App.jsx:96-99 | a finished board is scored without a move; an open board always yields a move |
| MinimaxProperties.TrialScores | backup_vanilla/script.js:123-142 | entry k of `moves` is scored by the recursive call on the board with the k-th empty cell marked |
| MinimaxProperties.EvaluateIsFirstBest | src/App.jsx:123-141 | on an open board the result is one of the trial moves; no trial beats its score for the side to move; every empty cell with a lower index scores strictly worse |
| MinimaxProperties.ImmediateWinIsFound | src/App.jsx:103-141 | if marking some empty cell wins outright for the side to move, the search scores the position as that win |
| MinimaxProperties.FirstCellWinIsChosen | src/App.jsx:123-141 | if the trial of the lowest empty cell scores a win for the side to move, the search returns that cell with that score |
| MinimaxProperties.WinningReply | src/App.jsx:96-116 | on an open board, a move that gives the mover a line and the opponent none makes the position a win for the mover |
| MinimaxProperties.WinAtFive | src/App.jsx:96-98 | with X on 0 and 1, O on 3 and 4 and the rest empty, the game is open and O marking 5 ends it with score 10 |
| MinimaxProperties.BlockAtTwoStillWins | src/App.jsx:103-141 | on that board, after O takes 2 and X answers anywhere, O to move scores 10 |
| MinimaxProperties.BlockAtTwoWins | src/App.jsx:103-141 | on that board, O's trial at cell 2 scores 10, because every answer of X loses |
| MinimaxProperties.ImmediateWinNotPreferred | src/App.jsx:91-141 | on that board O can win at once at 5, yet the search returns cell 2 with score 10: scores are not discounted by depth and ties go to the lowest index |
| MinimaxProperties.ReportedWinnerOwnsALine | src/App.jsx:26-35 | `checkWinner` reports a mark only if `checkWinState` holds for it |
| MinimaxProperties.SoleLineOwnerIsReported | src/App.jsx:26-35 | if exactly one player owns a line, `checkWinner` reports that player |
| MinimaxProperties.TerminalScoresAgree | backup_vanilla/script.js:113-119 | the two terminal tests give the same score unless both players own a line |
| MinimaxProperties.FrontEndsAgree | backup_vanilla/script.js:108-164 | both copies of `minimax` return the same move and score on every board where not both players own a line |
| MinimaxProperties.TrialsAgree | backup_vanilla/script.js:123-142 | on such a board both copies build the same `moves` list |
| MinimaxProperties.TrialScoreAgrees | backup_vanilla/script.js:128-136 | a trial move keeps the board free of a double line, so both copies score it the same |
| MinimaxProperties.FrontEndsDisagreeOnDoubleWin | backup_vanilla/script.js:113-116 | on a board where O owns the first row and X the second, the React copy scores 10 (the first won line is O's) and the vanilla copy scores -10 (X is tested first) |
| AppGame.Consistent | src/App.jsx:18-22 | definition of the invariant over the four state values: the verdict is `checkWinner` of the board, at most one player owns a line, X has as many marks as O or one more, on an open game X is to move exactly when the counts are equal, and the AI thinks exactly when the game is open and O is to move |
| AppGame.EmptyBoardIsOpen | src/App.jsx:18-22 | the initial state, an empty board with X to move, is an open game and satisfies the game invariant |
| AppGame.MoveOnOpenBoard | src/App.jsx:51-55 | a move on an open game adds one mark of the mover and none of the other player, and can never make the other player the winner |
| AppGame.ClickKeepsConsistent | src/App.jsx:50-61 | the human's move keeps the invariant, whether the game ends or the turn passes to O |
| AppGame.AiMoveKeepsConsistent | src/App.jsx:78-88 | the AI's move keeps the invariant, whether the game ends or the turn passes back to X |
| AppGame.AiMoveIsLegal | src/App.jsx:76-79 | on an open game `minimax(board, 'o')` returns an index, which is an empty cell and is also the move the vanilla copy would choose |
| AppGame.AiChoice | src/App.jsx:76 | the index taken from `minimax(board, 'o')` is the index of `Evaluate` and an empty cell |
| AppGame.Game.constructor | src/App.jsx:18-22 | the initial state: empty board, X to move, no winner, AI idle |
| AppGame.Game.HandleClick | src/App.jsx:46-62 | a click on a finished game, while the AI thinks, or on an occupied cell changes nothing; otherwise only cell `index` changes, to X, and the game ends with `checkWinner`'s verdict or passes to the AI |
| AppGame.Game.AiTurn | src/App.jsx:65-72 | when it is O's turn, no winner is set and the AI is thinking, the AI moves: only the cell minimax chooses for O changes, to O, the AI stops thinking, and the game ends with `checkWinner`'s verdict (never an X win) or the turn passes back to X; in any other state nothing changes |
| AppGame.Game.MakeAiMove | src/App.jsx:74-89 | only the cell minimax chooses changes, to O; the AI stops thinking; the game ends with `checkWinner`'s verdict (never an X win) or the turn passes back to X |
| AppGame.Game.RestartGame | src/App.jsx:144-149 | back to the empty board, X to move, no winner, AI idle |

## Left out

- Rendering, hooks plumbing and the modal and status text (`src/App.jsx` from line 151): these are presentation.
- The 600 ms AI delay and its cleanup. `Game.AiTurn` is the effect as a single step, with no timer.
- Score tallies and the score-pop animation in `handleEndGame`: these are display state. Ending the game is modelled only as setting `winner`.
- The vanilla front-end's DOM handlers and helpers (`getBoardState`, `checkWin`, `isDraw`, `placeMark`, `endGame`, listener wiring). They read and write `classList` on page elements the model does not have.
- AppGame.Game.MakeAiMove: React hands its own state array to `minimax`, which writes into it and restores it. The model hands the search a scratch copy, so the brief mutation of React state is not modelled. The result is the same because `Minimax.Minimax` restores the array.
- AppGame.Game.HandleClick: `index` is a cell index 0..8, because clicks only come from the nine cells. Out-of-range indices are not modelled.
- AppGame.Game.MakeAiMove: requires the effect's guard (O to move, no winner, AI thinking), because the source calls it only from that guarded effect. `Game.AiTurn` models the guard itself.
- Minimax.Minimax: the recursion is split into `Minimax`, `TryMove` (one mark, recurse, reset step) and `PickBest` (the selection loop). The source's two selection loops, `>` from -10000 for O and `<` from 10000 for X, are one loop over the predicate `Better`.
- Whether the AI never loses from the empty board is not proved: it needs the whole game tree, which is beyond what the verifier can unfold.
