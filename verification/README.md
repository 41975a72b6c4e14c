# 2048 game engine in Dafny

This project models the engine of a terminal 2048 game (`2048.py`) and proves
properties of the model. It covers `GameField` and the turn logic of `Admin`.

`GameField` holds a square board of tiles, with 0 for an empty cell. A move
to the left slides each row's tiles together ("tighten"), merges adjacent
equal pairs `x, x` into `0, 2x` from the left ("merge"), and tightens again.
The other three moves reuse the left move, wrapped in `invert` (every row
reversed) and `transpose`. The `can_move_*` tests say whether a direction
can move the board. `spawn` writes a 2 or a 4 into a random empty cell.

`Admin` runs the game as a state machine over the states `init`, `game`,
`win`, `over` and `exit`. It reads a key, moves and spawns, and then checks
for a win and for the end of the game.

The model is functional:

- A row is a `seq<nat>` and a board is a `seq<seq<nat>>`.
- Every operation is a pure function or a method with a contract.
- An exception the Python code can raise becomes `Raised(fault)` of a `Result`.
- The two random draws of a spawn are inputs of type `Chance`:
  - `roll` stands for `randrange(100)`; the tile is a 4 when it is above 89, otherwise a 2.
  - `pick` selects entry `pick % n` of the `n` free cells, which takes the place of `choice`.
- One pass of the game loop is the function `Controller.Step`. It takes the
  admin, the key the state reads, and the draws of the spawns.

| file | module | models |
|---|---|---|
| `errors.dfy` | `Errors` | the exceptions the engine raises (`IndexError`, `AttributeError`, `ValueError`), `Result`, `Option` |
| `row_move.dfy` | `RowMove` | `move_row_left` with `tighten` and `merge`, and `row_is_left_movable` |
| `field.dfy` | `Field` | `transpose`, `invert`, the four moves, and the `can_move_*` tests |
| `spawn.dfy` | `Spawning` | `spawn` and `reset` |
| `input.dfy` | `Input` | the six actions of `Action` and its key table |
| `controller.dfy` | `Controller` | `Admin`: `move`, `is_win`, `is_over`, `can_move`, `reset`, `state_init`, `state_game`, `_restart_or_exit`, and the intended game-over check |

Central results:

- `RowMove.MovableIffMoveChanges` and `Field.CanMoveIff`: the movability test
  holds exactly when the move changes the row or the board.
- `Controller.StepRaisesWhenStuck`: as written, `is_over` never selects the
  `over` state, and the game raises `AttributeError` on a move that does not
  win and leaves a board no direction can move (see Findings).

In three places the code departs from the usual rules of 2048. The model
follows the code each time:

- `_restart_or_exit` (2048.py:245-247) exits on every key except restart, so
  in `win` and `over` a move key ends the game.
- 2048.py:198 sets a score that nothing ever increments, so the score stays 0
  (`Controller.WellFormed` holds `score == 0`).
- `is_over` (2048.py:219-221) never returns a value, so the game never enters
  `over` (see Findings).

## Model

| member | source | states |
|---|---|---|
| RowMove.NonZeros | 2048.py:50 | the list comprehension keeps only non-zero cells, each taken from the row; the result is empty exactly when every cell is 0, and as long as the row exactly when no cell is 0 |
| RowMove.NonZerosKeepsTiles | 2048.py:50 | the kept cells are exactly the row's tiles, each as often as it occurs, with only the empty cells dropped |
| RowMove.NonZerosConcat | 2048.py:50 | the tiles of two joined rows are the first row's tiles followed by the second's, so the comprehension keeps the tiles in their order |
| RowMove.Tighten | 2048.py:48-52 | tightening keeps the length, leaves no tile after an empty cell, and keeps the tiles in their order |
| RowMove.TightenLayout | 2048.py:50-51 | the tightened row starts with the row's tiles in order, continues with empty cells only, and keeps the sum |
| RowMove.TightenFixedIffCompact | 2048.py:48-52 | tightening leaves a row unchanged exactly when no tile follows an empty cell |
| RowMove.TightenIdempotent | 2048.py:48-52 | tightening twice equals tightening once |
| RowMove.TightenKeepsTiles | 2048.py:48-52 | tightening keeps every cell 0 or a power of two of at least 2 |
| RowMove.Merge | 2048.py:68 | merging keeps the row length, as the `assert` after the loop demands |
| RowMove.MergeLoop | 2048.py:56-69 | the loop with the `pair` flag computes the merge, where a pair `x, x` becomes `0, 2x` and the right cell of a pair starts no new pair |
| RowMove.MergeKeepsSum | 2048.py:54-69 | merging keeps the sum of the row |
| RowMove.MergeCountsTiles | 2048.py:59-67 | merging never adds a tile, and removes at least one when two equal tiles are adjacent |
| RowMove.MergeWithoutPairs | 2048.py:63-67 | a row without two adjacent equal tiles is not changed by merging |
| RowMove.MergeCellwise | 2048.py:56-65 | each merged cell is the old cell, empty, or the double of a tile whose equal left neighbour has been emptied, so every tile merges at most once |
| RowMove.MergeKeepsTiles | 2048.py:54-69 | merging keeps every cell 0 or a power of two of at least 2 |
| RowMove.MoveRowLeftShape | 2048.py:47-73 | a moved row has the same length and sum, no tile after an empty cell, and no more tiles than before |
| RowMove.MoveRowLeftKeepsTiles | 2048.py:47-73 | moving keeps every cell 0 or a power of two of at least 2 |
| RowMove.MoveRowLeftExamples | 2048.py:47-73 | `[2,2,4]` becomes `[4,4,0]`, `[2,2,2,2]` becomes `[4,4,0,0]`, `[0,0,2,2]` becomes `[4,0,0,0]` and `[2,0,2,4]` becomes `[4,4,0,0]` |
| RowMove.AnyChange | 2048.py:101 | the `any` over `change(i)` holds exactly when some adjacent pair from `i` on is an empty cell before a tile or two equal tiles |
| RowMove.MovableIffMoveChanges | 2048.py:94-101 | a row is left-movable exactly when moving it left changes it |
| RowMove.MovedRowHasRoom | 2048.py:47-73 | a row that can move has an empty cell after the move |
| RowMove.MovableExamples | 2048.py:94-101 | `[2,4,0,0]` cannot move left and `[0,2,4,0]` can |
| Field.MinWidth | 2048.py:41 | `zip` stops at the shortest row: the width is at most every row's length and equals some row's length |
| Field.TransposeSquare | 2048.py:40-41 | transposing a square board gives a square board of the same size, with cell `(i, j)` taken from cell `(j, i)` |
| Field.TransposeInvolution | 2048.py:40-41 | transposing a square board twice restores it |
| Field.ReverseInvolution | 2048.py:44 | reversing a row twice restores it |
| Field.InvertInvolution | 2048.py:43-44 | inverting a board twice restores it |
| Field.InvertKeepsBoard | 2048.py:43-44 | inverting keeps the shape, squareness, valid tiles and the existence of an empty cell |
| Field.TransposeKeepsBoard | 2048.py:40-41 | transposing a square board keeps valid tiles and the existence of an empty cell |
| Field.MoveLeftKeepsBoard | 2048.py:75-76 | moving left keeps the shape of every row and keeps valid tiles |
| Field.MoveRightKeepsBoard | 2048.py:78-81 | moving right keeps the size, squareness and valid tiles |
| Field.MoveKeepsBoard | 2048.py:75-91 | every move keeps a square board square, of the same size, with valid tiles |
| Field.MoveRightMirrorsLeft | 2048.py:78-81 | moving the mirrored board right gives the mirror image of moving the board left |
| Field.AnyRowMovable | 2048.py:104 | the `any` over the rows holds exactly when some row from `i` on is left-movable |
| Field.CanMoveLeftIff | 2048.py:103-104 | `can_move_left` holds exactly when `move_left` changes the board |
| Field.CanMoveRightIff | 2048.py:106-110 | `can_move_right` holds exactly when `move_right` changes the board |
| Field.CanMoveUpIff | 2048.py:112-116 | `can_move_up` holds exactly when `move_up` changes the square board |
| Field.CanMoveDownIff | 2048.py:118-122 | `can_move_down` holds exactly when `move_down` changes the square board |
| Field.CanMoveIff | 2048.py:103-122 | for every direction, the test holds exactly when the move changes the square board |
| Field.CellsAfterCanMove | 2048.py:106-122 | the in-place transforms of the tests leave a square board as they found it |
| Field.MoveLeftLeavesRoom | 2048.py:75-76 | a left move that changes the board leaves an empty cell |
| Field.MoveLeavesRoom | 2048.py:75-91 | a move that changes a square board leaves an empty cell, so the spawn after it cannot fail |
| Spawning.RowEmpties | 2048.py:36 | lists exactly the free cells of row `i` from column `j` on |
| Spawning.EmptyCellsFrom | 2048.py:36 | lists exactly the free cells from row `i` on |
| Spawning.EmptyCellsListsFree | 2048.py:36 | the list `choice` draws from is non-empty exactly when the board has a free cell |
| Spawning.Spawn | 2048.py:31-37 | a spawn raises `IndexError` exactly when the board is full; otherwise it writes the drawn 2 or 4 into one formerly empty cell and leaves every other cell as it was |
| Spawning.SpawnAddsOneTile | 2048.py:31-37 | a spawn adds exactly one tile, a 2 or a 4, and keeps a square board of valid tiles square and valid |
| Spawning.SpawnedAtOccupies | 2048.py:37 | filling a free cell with a tile occupies exactly one more cell |
| Spawning.SpawnedAtValid | 2048.py:33-37 | writing a 2 or a 4 into a board of valid tiles keeps it valid |
| Spawning.EmptyBoard | 2048.py:22 | the fresh board is square with `size` rows, and every cell is empty |
| Spawning.ResetOutcome | 2048.py:21-24 | a reset board of size at least 2 is square and valid with exactly two tiles; a smaller board raises `IndexError` |
| Input.ActionOfKey | 2048.py:172-174 | a key maps to an action exactly when it is one of `WASDRQwasdrq`, and letter `k` maps to action `k % 6` |
| Controller.AdminCanMove | 2048.py:223-224 | `can_move` raises `AttributeError` exactly for `restart` and `exit`, and otherwise is the direction's movability test |
| Controller.AdminMove | 2048.py:206-212 | `move` raises for `restart` and `exit`; on a square board it moves exactly when the move changes the board, then spawns once, and otherwise leaves the board unchanged |
| Controller.AdminMoveKeepsBoard | 2048.py:206-212 | `move` keeps a square board of valid tiles square, of the same size and valid |
| Controller.WellFormedMove | 2048.py:206-212 | on a well-formed admin a directional `move` never raises, and moves and spawns exactly when the direction can move |
| Controller.Flatten | 2048.py:216 | `chain(*cells)` holds exactly the cells of the board |
| Controller.MaxOf | 2048.py:216 | `max` returns an element that no element exceeds |
| Controller.FlattenEmpty | 2048.py:216 | the chained cells are empty exactly when the board has no cell |
| Controller.MaxReachesIffWinning | 2048.py:216 | the largest cell reaches `win_num` exactly when some cell does |
| Controller.IsWin | 2048.py:214-217 | `is_win` raises `ValueError` exactly on a board without cells, and otherwise holds exactly when some cell reaches `win_num` |
| Controller.StuckIff | 2048.py:103-122 | no direction can move exactly when all four `can_move_*` tests fail |
| Controller.IsOver | 2048.py:219-221 | `is_over` raises `AttributeError` exactly when no direction can move; otherwise it clears `over` and returns `None` |
| Controller.CheckEnd | 2048.py:239-243 | after a move that changed the board the turn enters `win` on a winning board; otherwise it stays in `game` or raises when no direction can move |
| Controller.CheckEndKeepsWellFormed | 2048.py:239-243 | the checks after a move change only the state and the flags |
| Controller.NewAdminOutcome | 2048.py:189-200 | a new admin of size at least 2 is well formed, in `init`, with two tiles; a smaller one raises `IndexError` |
| Controller.StateInitOutcome | 2048.py:226-228 | `state_init` of a well-formed admin gives a well-formed fresh board in `game` with both flags cleared |
| Controller.GameTurn | 2048.py:230-243 | a directional turn stays in `game` with the board unchanged when the direction cannot move; otherwise the board is moved and spawned and the end checks follow |
| Controller.StateGameNeverOver | 2048.py:239-243 | `state_game` never enters `over` and never sets the flag |
| Controller.StateGameKeepsWellFormed | 2048.py:230-243 | `state_game` keeps the admin well formed |
| Controller.StepKeepsWellFormed | 2048.py:226-253 | every turn keeps the board square, valid, of the admin's size, and the score at 0 |
| Controller.NeverOver | 2048.py:239-243 | no turn enters `over` or sets the `over` flag |
| Controller.StepRaisesWhenStuck | 2048.py:219-243 | a turn raises `AttributeError` exactly when a move changes the board, does not win, and leaves a board no direction can move |
| Controller.WinningMoveWins | 2048.py:239-240 | a move onto a board holding `win_num` enters `win` with the flag set |
| Controller.IsOverIntended | 2048.py:219-221 | the intended game-over check holds exactly when no direction can move |
| Controller.CheckEndIntended | 2048.py:239-243 | with the intended check the turn enters `win` on a winning board, otherwise `over` exactly when no direction can move, otherwise `game` |
| Controller.GameTurnIntended | 2048.py:230-243 | with the intended check a directional turn leaves an unmovable board unchanged in `game`; otherwise it moves, spawns and applies the intended end checks |
| Controller.StateGameIntendedOutcome | 2048.py:230-243 | with the intended check a turn never raises, keeps the admin well formed, and enters `over` exactly when a move fills the board without a win or a possible move |
| Controller.IntendedStepOutcome | 2048.py:226-253 | with the intended check no turn of a well-formed admin raises, every turn keeps it well formed, and a turn in `game` enters `over` exactly when a move changes the board, does not win, and leaves a board no direction can move |
| Controller.WorkedMove | 2048.py:78-81 | moving `[[2,4],[2,0]]` right is possible and gives `[[2,4],[0,2]]` |
| Controller.WorkedSpawn | 2048.py:31-37 | a roll of 95 writes a 4 into the only free cell of `[[2,4],[0,2]]` |
| Controller.WorkedStuck | 2048.py:103-122 | `[[2,4],[4,2]]` cannot move in any direction and holds no 2048 |
| Controller.StuckTurnRaises | 2048.py:219-221 | moving `[[2,4],[2,0]]` right and spawning a 4 raises `AttributeError` |
| Controller.StuckTurnEndsGame | 2048.py:241-242 | with the intended check the same turn enters `over` |

## Left out

- `Screen` (2048.py:125-160) only draws with curses. Its reference to the undefined `over_string` is never reached, because `over` is never set.
- `Action.get` (2048.py:179-183) is a blocking keyboard read. The model takes the resulting action as an input of `Controller.Step`.
- `Admin.__call__`, the `screen` property and the `__main__` block (2048.py:202-204, 255-263) set up the terminal. They run the loop through string-keyed `getattr`, which `Controller.Step` replaces with a `match` on the state.
- `_generate_game_field` (2048.py:26-29) is dead code. It uses numpy and attributes that do not exist.
- Randomness is not modelled as probability. Both draws of a spawn are inputs.
- Score accumulation: the code never increments `score`, so the model keeps it at 0 and states nothing about scoring.
- Object identity: `Admin.reset` builds a `GameField`, whose constructor already resets it, and then resets it again. The model performs one reset. The first reset's spawns are overwritten; only its `IndexError` on a board smaller than 2 x 2 could be observed, and the second reset raises the same error.
- RowMove.NonZeros: its own contract does not say which tiles are kept or in what order. `RowMove.NonZerosKeepsTiles` (the tiles, with their counts) and `RowMove.NonZerosConcat` (their order) state both as separate lemmas, so that the many proofs that unfold `NonZeros` do not carry a multiset fact.
- Field.CanMoveUpIff: is stated for square boards only, the only boards the game builds.
- Field.CanMoveDownIff: is stated for square boards only, the only boards the game builds.
- Field.CanMoveIff: is stated for square boards only, the only boards the game builds.
- Field.TransposeInvolution: is stated for square boards only, the only boards the game builds.
- Controller.AdminMove: the move-and-spawn outcome is stated for square boards only. `move` is modelled on the input board, which on square boards is the board the `can_move_*` test leaves behind (`Field.CellsAfterCanMove`). On other boards the in-place `invert`/`transpose` of the test is not carried over.
- Controller.IsOver: the admin it returns keeps the input board. The four `can_move_*` probes of 2048.py:221 transform the board in place and restore it, which leaves a square board unchanged (`Field.CellsAfterCanMove`). On other boards the model does not carry their transforms over.
- Spawning.Spawn: lists the free cells by the real row count and row lengths, where 2048.py:36 uses `range(self.size)` for both. The two agree on the `size` x `size` boards the game builds (`Controller.WellFormed`).
- Controller.StepRaisesWhenStuck: stated for well-formed admins only: square boards of at least 2 x 2 with valid tiles, which every reachable admin is (`Controller.NewAdminOutcome`, `Controller.StepKeepsWellFormed`).

## Findings

| source | as written | input that shows it | evidently intended | confidence | as-written member | corrected member |
|---|---|---|---|---|---|---|
| 2048.py:219-221 | `is_over` has no `return`, so it yields `None` and the `over` branch at 2048.py:241-242 is never taken. It also asks `can_move` for `restart` and `exit`. On a board no direction can move, `any` reaches `can_move('restart')`, and `getattr` raises `AttributeError`, which crashes the game. | 2 x 2 admin in `game` with cells `[[2,4],[2,0]]`, `win_num` 2048; key `d` (right); roll 95 (a 4), first free cell. The move gives `[[2,4],[0,2]]`, the spawn gives `[[2,4],[4,2]]`, and no direction can move that board. | `over` is set exactly when none of the four directions can move, `is_over` returns it, and the turn enters `over` | not executed | Controller.StuckTurnRaises | Controller.IntendedStepOutcome |
