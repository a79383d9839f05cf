# Tic-tac-toe Board component, modelled in Dafny

This project models the game logic of the React `Board` component of a
pass-and-play tic-tac-toe game (`src/components/Board.jsx`). The component
keeps three pieces of state: the nine `squares` (each `null`, `'X'` or
`'O'`), the turn flag `xIsNext`, and the `scores` of X and O. It has three
event handlers: `handleClick(i)`, `resetGame` and `resetScores`. On every
render it derives the winner (`calculateWinner`), the draw flag and the
status line from that state.

The model has three modules:

- `GameRules` (`game_rules.dfy`) holds the pure rules. It defines the
  markers, the grid as a `seq` of nine `Option<Marker>`, and the eight
  winning lines in the source's order (rows, then columns, then diagonals).
  `CalculateWinner` is the first-match search, given both as a recursive
  function and as the loop method `FindWinner` that is proved equal to it.
  The module also defines the draw test, the three-way `Status`, and the
  marker counts behind the turn invariant.
- `BoardComponent` (`board_component.dfy`) holds the state. `Click` is the
  effect of one `handleClick` as a pure transition on a `GameState` value.
  The class `Board` has the fields `squares`, `xIsNext`, `scoreX` and
  `scoreO`, and methods `HandleClick`, `ResetGame`, `ResetScores` and
  `CurrentStatus`. `HandleClick` is proved to move the object's state
  exactly as `Click` does. The lemmas about `Click` and `Play` (a run of
  clicks) state what a click does. They also show that every reachable state
  keeps the invariant `Consistent`: X has as many markers as O when it is
  X's turn and one more otherwise, and at most one marker owns complete
  lines.
- `Scenarios` (`scenarios.dfy`) plays whole rounds from the initial state
  and states the grid, turn, scores and status they end in.

One consequence of the invariant is `WinnerIsLineOwner`. On a reachable grid,
the line order of the search decides only which line is reported. It never
decides which marker wins.

Some descriptions of this game add an auto-reset timer after a win, a
`setAutoReset` intent and a winning-line index in the result of the winner
search. The component as written has none of these: `calculateWinner`
returns only the marker, and nothing is scheduled. The model follows the
code. A click order sometimes quoted as a draw, 0, 1, 3, 4, 2, 5, 6, 8, 7,
is in fact a win for X: X's fourth marker completes the left column, and the
last two clicks are ignored (`Scenarios.LeftColumnWin`).

## Model

| member | source | states |
|---|---|---|
| `GameRules.WinnerFromIsFirstComplete` | src/components/Board.jsx:31-38 | The search from line k returns nothing exactly when every line from k on is incomplete. Otherwise it returns the owner of the first complete line at or after k. |
| `GameRules.CalculateWinnerIsFirstComplete` | src/components/Board.jsx:19-39 | `calculateWinner` returns a marker exactly when some line holds three equal non-null squares. The marker is the owner of the first such line in the order rows, columns, diagonals. |
| `GameRules.FindWinner` | src/components/Board.jsx:31-38 | The loop over the line table with early return computes exactly `CalculateWinner`. |
| `GameRules.FirstLineDecides` | src/components/Board.jsx:20-36 | Tie-break: when line j is the first complete line, the winner is the owner of line j, whatever later lines hold. |
| `GameRules.WinnerIsLineOwner` | src/components/Board.jsx:19-39 | When at most one marker owns complete lines, `calculateWinner` returns m exactly when m owns some complete line, so the line order does not affect the marker reported. |
| `GameRules.StatusOf` | src/components/Board.jsx:41-52 | The status is exactly one of three cases. It is Winner(m) exactly when `calculateWinner` gives m. It is Draw exactly when `isDraw` holds: no winner and no empty square. It is NextPlayer exactly when there is no winner and some square is empty, and then it names the marker given by `xIsNext`. |
| `GameRules.DrawRejectsEveryClick` | src/components/Board.jsx:42-59 | On a drawn grid the guard of `handleClick` rejects every square. |
| `GameRules.CountEmpty` | src/components/Board.jsx:10 | A grid of empty squares holds no marker of either kind. |
| `GameRules.CountPlace` | src/components/Board.jsx:62-63 | Writing m into an empty square raises the count of m by exactly one and leaves the count of the other marker unchanged. |
| `GameRules.PlayKeepsBalance` | src/components/Board.jsx:63-66 | Writing the mover's marker and flipping `xIsNext` keeps the balance: #X == #O when X is to move, #X == #O + 1 when O is. |
| `GameRules.PlayKeepsSingleOwner` | src/components/Board.jsx:57-66 | A move accepted by the guard cannot complete a line of the other marker, so afterwards at most one marker owns complete lines. |
| `GameRules.EmptySquaresStart` | src/components/Board.jsx:10-13 | The empty grid with X to move is balanced, has no winner and no line owner. |
| `BoardComponent.ClickMoves` | src/components/Board.jsx:55-66 | A click on a filled square, after a win or on a drawn grid changes nothing. An accepted click writes X if `xIsNext` and O otherwise into square i only, and flips `xIsNext`. A filled square is never changed by a click. |
| `BoardComponent.ClickScores` | src/components/Board.jsx:68-77 | A score rises by exactly one when the click turns a grid without a winner into one won by that marker. Otherwise both scores are unchanged. |
| `BoardComponent.InitialConsistent` | src/components/Board.jsx:10-16 | The initial state (empty grid, X to move, scores 0/0) satisfies the invariant. |
| `BoardComponent.ClickKeepsConsistent` | src/components/Board.jsx:55-78 | Every click, accepted or not, preserves the invariant (turn balance and a single line owner). |
| `BoardComponent.PlayConcat` | src/components/Board.jsx:55-78 | Handling a run of clicks in two parts gives the same state as handling it in one. |
| `BoardComponent.PlayKeepsConsistent` | src/components/Board.jsx:55-78 | Any run of clicks from a consistent state keeps it consistent and never lowers either score. |
| `BoardComponent.Board.constructor` | src/components/Board.jsx:10-16 | The component starts with nine empty squares, X to move and both scores 0, and satisfies the invariant. |
| `BoardComponent.Board.HandleClick` | src/components/Board.jsx:55-78 | The guard, the write on a copy of the grid, the turn flip and the score update form one atomic step. That step leaves the fields equal to `Click` of the old state and keeps the invariant. |
| `BoardComponent.Board.ResetGame` | src/components/Board.jsx:81-84 | The grid becomes all empty and X is to move. Both scores are unchanged, and the invariant holds afterwards. |
| `BoardComponent.Board.ResetScores` | src/components/Board.jsx:87-89 | Both scores become 0. The grid and the turn are unchanged. |
| `BoardComponent.Board.CurrentStatus` | src/components/Board.jsx:41-52 | The status computed at render time from the current fields is `StatusOf` of the grid and the turn flag. |
| `Scenarios.TopRowWin` | src/components/Board.jsx:55-78 | Clicks 0, 3, 1, 4, 2 from the start end with X on the top row, O to move, scores 1/0, and status Winner(X). |
| `Scenarios.LeftColumnWin` | src/components/Board.jsx:55-78 | Clicks 0, 1, 3, 4, 2, 5, 6, 8, 7 end with X winning on the left column and scores 1/0. Clicks 8 and 7 come after the win and leave squares 7 and 8 empty. |
| `Scenarios.FullGridDraw` | src/components/Board.jsx:41-78 | Clicks 0, 1, 2, 4, 3, 5, 7, 6, 8 fill the grid with no complete line. The status is Draw and the scores stay 0/0. |

## Left out

- Rendering is not modelled: the JSX markup, inline styles, the scoreboard and control layout of `Board.jsx`, `src/components/Cell.jsx` (CSS class choice and a click passthrough) and `src/App.jsx`. None of it holds game logic.
- React's asynchronous, batched state setters are not modelled. One `handleClick` is one atomic update of the three fields, which matches the source computing the new winner from `nextSquares` rather than from the state.
- The scores object `{ x, o }`, indexed by the winner's lower-cased name, is modelled as the two fields `scoreX` and `scoreO`, selected by marker.
- The status strings are not modelled. The status is the datatype `Status` (Winner, Draw, NextPlayer).
- Clicks outside squares 0 to 8 are not modelled: the nine cells of the grid are the only callers of `handleClick` and pass 0 to 8. `HandleClick` takes a `Cell` (an integer from 0 to 8).
- JavaScript truthiness of `squares[i]` is modelled as "the square holds a marker", since a square only ever holds `null`, `'X'` or `'O'`.
- Scores are unbounded natural numbers. JavaScript numbers stop being exact above 2^53, which no game reaches.
