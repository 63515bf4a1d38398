# Breakthrough rules engine, modelled in Dafny

This project models the rules engine of a small Breakthrough game (`main.py`) together with the turn and selection logic around it. Breakthrough is played on an 8x8 board with pawns that move forward one row at a time.

- `Board` holds an 8x8 grid `grid[x][y]` of cells and a terminal flag `over`. A cell is `PW = 1` (white pawn), `PB = -1` (black pawn) or `0`.
- `is_legal` is the single-step legality test: it rejects a step when the game is over, when it moves more than one file sideways, when either cell is off the board or when the source is empty. A white pawn must then go to row `y - 1` and a black pawn to row `y + 1`, and a step straight ahead needs an empty destination.
- `move` overwrites the destination with the source pawn, clears the source, and ends the game when a white pawn reaches row 0 or a black pawn reaches row 7.
- `reset` rebuilds the starting position: Black on rows 0-1 and White on rows 6-7 of every file.
- `Game.get_coords` turns a token such as `a2-a3` or `b2xc3` into two coordinates. A file letter `f` becomes `ord(f) - ord('a')` and a rank digit `r` becomes `8 - r`.
- `Game.handle_click` is a two-state selection machine over `last_cell_clicked` and `turn`. `Game.play` replays a `;`-separated transcript, one move per press of the space bar.

Files:

- `rules.dfy`: modules `Options` and `Rules`. These are the values: cells, coordinates, the grid as `seq<seq<int>>`, and a position (grid plus `over`). `Rules` also holds the declarative step rule `Legal`, the application of a step `Apply`, and the pawn-counting lemmas.
- `engine.dfy`: module `Engine`, class `Board`. It keeps an `array2<int>` grid and the `over` flag, with a ghost copy of the grid as a value that `Valid()` ties to the array. `IsLegal` reads the array and follows the source's early returns. `Move` updates the array in place. `Reset` installs a new array, because `reset` re-runs `__init__`.
- `notation.dfy`: module `Notation`. It models `str.split`, `get_coords` and the parsing of a transcript.
- `control.dfy`: module `Control`. It models a game session as a value: `handle_click` as `Click`, the `r` key as `ResetKey`, and the replay order of `play` as `Replay`.
- `client.dfy`: module `Client`, class `Game`. Its methods `HandleClick`, `ResetKey` and `Play` update the board and the game's fields in place. Each is proved equal to its `Control` function.

The source has no exceptions of its own. Errors are Python's or numpy's:

- `Board.move` indexes the numpy array with unchecked coordinates when it is called from `play`. numpy accepts indices from -8 to 7, and a negative index counts from the end. `Rules.Indexable` and `Rules.Wrap` model this.
- Any other index raises `IndexError`. If the source index is bad, the error comes before any change. If only the destination index is bad, it comes after the source cell was cleared. `Apply` returns `ok = false` in both cases.
- `get_coords` fails in `split` unpacking, in string indexing or in `int`. `ParseMove` returns `None` in these cases.

## Behaviour worth knowing

- `is_legal` never looks at the destination of a diagonal step. A pawn may therefore step diagonally onto a pawn of its own colour and remove it. `Rules.SelfCaptureAccepted` shows this in the starting position.
- `is_legal` never looks at whose turn it is. The turn check is in `handle_click`, which selects only a pawn of the side to move.
- The selection survives the `r` key. `Control.StaleSelectionAfterReset` shows the consequence: after a reset, a black pawn selected before it can still be moved on White's turn.
- `main.py` has no move history or undo; `move` neither checks legality nor flips the turn.

## Model

| member | source | states |
|---|---|---|
| `Rules.InBounds` | main.py:32-33 | A cell is on the board exactly when numpy indexes it without counting from the end. |
| `Rules.Initial` | main.py:10-14 | The starting position is a well-formed 8x8 grid of cell values with `over` false; `InitialCounts` counts its pawns. |
| `Rules.Legal` | main.py:35-66 | The declarative step rule: not over, both cells on the board, a pawn on the source, one row forward for its colour, at most one file sideways, and an empty destination straight ahead. A legal step never stays put and never makes numpy raise. |
| `Rules.Apply` | main.py:16-30 | Only the destination and the source change. The destination gets the old source value and the source becomes empty. `over` becomes true exactly when a white pawn lands on row 0 or a black pawn on row 7, and is never cleared. numpy's index range and the point at which `IndexError` is raised are modelled. |
| `Rules.LegalRejections` | main.py:36-48 | No step is legal when the game is over, when `abs(x1 - x2) > 1`, when either cell is off the board, or when the source is empty. |
| `Rules.LegalForward` | main.py:51-60 | A legal white step goes to `y - 1` and a legal black step to `y + 1`, so source and destination differ. |
| `Rules.StraightStep` | main.py:51-63 | A forward step in the same file is legal exactly when the destination is empty. |
| `Rules.DiagonalStep` | main.py:51-66 | A step one file sideways is legal exactly when it goes one row forward, whatever the destination holds. |
| `Rules.SelfCaptureAccepted` | main.py:51-66 | In the starting position White may step from (0, 7) onto its own pawn at (1, 6), which leaves 15 white pawns. |
| `Rules.MoveCounts` | main.py:20-24 | After a legal move, each colour loses a pawn exactly when the destination held one of that colour. The total is unchanged onto an empty cell and one lower onto an occupied one. |
| `Rules.InitialCounts` | main.py:10-14 | The starting position has 16 white pawns, 16 black pawns and 32 empty cells. |
| `Engine.Board.NewGrid` | main.py:11-13 | The array built by zero-filling and the two slice assignments holds Black on rows 0-1, White on rows 6-7 and 0 elsewhere, for every file. |
| `Engine.Board.constructor` | main.py:10-14 | A new board holds the starting position with `over` false. |
| `Engine.Board.Reset` | main.py:68-69 | Reset installs a fresh array holding the starting position and clears `over`. |
| `Engine.Board.IsLegal` | main.py:35-66 | The early-return test on the array agrees with the declarative rule `Rules.Legal` on every input. |
| `Engine.Board.Move` | main.py:16-30 | The in-place update of the array and `over` yields the position `Rules.Apply` describes, and `ok` is false exactly where numpy raised. |
| `Notation.Split` | main.py:220 | `str.split` gives one piece more than there are separators, no piece holds the separator, and joining the pieces gives the input back. |
| `Notation.SplitJoin` | main.py:220 | Splitting a join of separator-free pieces gives the pieces back. |
| `Notation.ParseMove` | main.py:217-228 | A token whose separator (`x` if present, else `-`) does not occur exactly once is rejected, and an accepted token has at least five characters. |
| `Notation.ParseHalves` | main.py:217-228 | A token `p0 + sep + p1` with one separator parses exactly when both halves have at least two characters and a digit second; it then gives `((ord(p0[0])-97, 8-int(p0[1])), (ord(p1[0])-97, 8-int(p1[1])))`, ignoring the rest of each half. |
| `Notation.ParseAlgebraic` | main.py:217-228 | Derived from `ParseHalves`: `<f1><r1><sep><f2><r2>` parses to `((ord(f1)-97, 8-r1), (ord(f2)-97, 8-r2))`. Files a-h and ranks 1-8 land on the board. |
| `Notation.ParseExample` | main.py:217-228 | `a2-a3` parses to `((0, 6), (0, 5))`. |
| `Notation.ParseAll` | main.py:235 | The transcript parses exactly when every token parses, and then gives one move per token, in order. |
| `Notation.ParseTranscript` | main.py:233-235 | A parsed transcript has one move more than it has `;` characters. |
| `Notation.ParseJoinedTranscript` | main.py:233-235 | Tokens joined by `;` parse back to their moves in the order written. |
| `Control.Start` | main.py:79-96 | A new game has the starting position, White to move and no selection. |
| `Control.Click` | main.py:178-197 | A click keeps the turn at `PW` or `PB`, the grid well formed and any selection on the board. |
| `Control.ClickSelects` | main.py:181-187 | With no selection, a click selects the clicked cell exactly when it is on the board and holds a pawn of the side to move. Nothing else changes. |
| `Control.ClickWithSelection` | main.py:189-197 | With a selection, the turn is negated exactly when `is_legal` accepts the step to the clicked cell. The step is then applied and the selection cleared. Otherwise the position stays, and the selection moves to the clicked cell when that cell holds a pawn of the side to move. |
| `Control.ClickKeepsOwnership` | main.py:181-197 | If the selection is on a pawn of the side to move before a click, it still is after the click. |
| `Control.ClickMovesSideToMove` | main.py:181-194 | From such a selection, every move a click makes moves a pawn of the side to move onto the clicked cell. |
| `Control.ResetKey` | main.py:209-212 | The `r` key restores the starting position and gives White the move, and it keeps the selection. |
| `Control.StaleSelectionAfterReset` | main.py:209-212 | After a2-a3 by White, a Black selection of (0, 1) and a reset, the next click moves the black pawn on White's turn. |
| `Control.Reversed` | main.py:235 | `reversed` keeps the length and puts element `i` at position `n-1-i`. |
| `Control.PopReversed` | main.py:248-250 | Popping the reversed list yields the first move and leaves the rest reversed. |
| `Control.Replay` | main.py:248-252 | Replaying keeps the grid well formed. |
| `Control.ReplayAppend` | main.py:248-252 | Replaying a transcript in two pieces is the same as replaying it whole, so moves apply in transcript order. |
| `Client.Game.constructor` | main.py:78-96 | A new game holds a fresh starting board, White to move and no selection. |
| `Client.Game.HandleClick` | main.py:170-197 | The in-place click handler yields the session `Control.Click` describes. |
| `Client.Game.ResetKey` | main.py:209-212 | The `r` key yields the session `Control.ResetKey` describes, with a new grid array. |
| `Client.Game.Play` | main.py:232-252 | A transcript that does not parse changes nothing and reports the error. Otherwise, popping the reversed list applies the transcript's moves in order, with no legality check, as `Control.Replay` describes. The turn and the selection do not change. |

## Left out

- Rendering is not modelled: `draw_coordinates`, `draw_board`, the colour constants and the surface and screen setup in `Game.__init__` are `pygame` drawing with no effect on the game state.
- The pixel-to-cell mapping at the top of `handle_click` depends on screen constants. The model starts from the cell coordinates and keeps the `in_bounds` guard.
- The `pygame` event loops of `run` and `play` are not modelled. From `run`, only the effect of the `r` key is kept (`Game.ResetKey`). From `play`, the space-bar presses before the window closes become the parameter `presses`.
- The `print` calls in `handle_click` and `play`, and the `__main__` block (argument check, reading the transcript with `input()`), are input and output.
- `player.py` is a sprite animator. It is not part of this model.
- numpy keeps the grid as floats. Only -1, 0 and 1 ever occur, so the grid is a grid of integers.
- Notation.ParseMove: only the ASCII digits `0`-`9` are accepted as ranks. Python's `int` on one character also accepts other Unicode decimal digits.
- Client.Game.Play: when a move raises `IndexError`, the model returns `ok = false` with the board as it stands. The exception then ends the Python program, which the model does not represent.
