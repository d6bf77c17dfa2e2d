# Langton's Ant on a toroidal board — a Dafny model

This project models the simulation core of a desktop Langton's Ant viewer.
An ant walks an N×N board of boolean cells (`true` = black, `false` = white).
Each step it reads the cell under it. On black it turns left and paints the cell white. On white it turns right and paints the cell black.
It then moves one cell along its new heading, wrapping at the board's edges.
The panel that owns the board creates it white with the ant at `(N/2, N/2)` facing `UP`.
The panel steps the ant, clears the board and replaces the ant, and toggles a clicked cell.

Modules follow the source files:

- `Grid` (`grid.dfy`): the board's value view (`seq<seq<bool>>`). It defines the single-cell paint and flip, the whole-board whitening, the blank board, and `CellsOf`, the value held by the `array2<bool>` board.
- `Ant` (`ant.dfy`): the `Direction` enum and its numbering, the right and left turns, C++'s truncating `%` (`CppRem`), and the move (`Forward`). It also has the value-level step `StepWorld` and the class `LangtonsAnt` with fields `row`, `col` and `dir`, whose methods update the ant and the caller's board in place.
- `Panel` (`panel.dfy`): the panel's value-level operations (`Initial`, `Cleared`, `Toggled`) and a run over any sequence of step/clear/click events. It also has the class `DrawingPanel`, which owns an `array2<bool>` board and a `LangtonsAnt`.

Each class method is proved against a value-level function of the old state (`Snapshot() == StepWorld(old(Snapshot()))` and similar). The properties are proved as lemmas about those functions.

The ant turns first and then moves along its new heading. From (1,1) facing UP on a white 3×3 board it reaches (1,2) facing RIGHT, then (2,2) facing DOWN (`Ant.TwoStepsFromCentreOfThree`).

The move in `Step` is `MoveForward(grid.size())`, so both coordinates wrap modulo the row count. The ant is guaranteed to stay on the board when all rows have one length and that length is at least the row count, which includes every square board. On a board with fewer columns than rows, a RIGHT or LEFT move can take it off (`Ant.NarrowBoardLosesAnt`). The panel's board is always square (`Panel.WellFormed`, `Panel.DrawingPanel.Valid`).

## Model

| member | source | states |
|---|---|---|
| `Ant.Ordinal` | StudentProject/LangtonsAnt.h:18 | every heading has an enumerator value below 4 |
| `Ant.FromOrdinal` | StudentProject/LangtonsAnt.cpp:28 | casting k < 4 back to a heading gives the heading numbered k |
| `Ant.OrdinalRoundTrip` | StudentProject/LangtonsAnt.h:18 | the headings are exactly UP, RIGHT, DOWN, LEFT, numbered 0..3 one-to-one |
| `Ant.RightOf` | StudentProject/LangtonsAnt.cpp:28 | `(dir + 1) % 4` maps UP→RIGHT→DOWN→LEFT→UP |
| `Ant.LeftOf` | StudentProject/LangtonsAnt.cpp:33 | `(dir + 3) % 4` maps UP→LEFT→DOWN→RIGHT→UP |
| `Ant.FourRightTurns` | StudentProject/LangtonsAnt.cpp:26-29 | four right turns are the identity |
| `Ant.LeftUndoesRight` | StudentProject/LangtonsAnt.cpp:26-34 | a left turn undoes a right turn and vice versa |
| `Ant.CppRem` | StudentProject/LangtonsAnt.cpp:40-43 | C++ `%` agrees with the mathematical modulus on non-negative operands, and is in (-n, 0] on negative ones |
| `Ant.Forward` | StudentProject/LangtonsAnt.cpp:38-44 | a move changes only the coordinate along the heading and, from a non-negative start, lands it in [0, gridSize); from a cell of a gridSize×gridSize board it stays on the board |
| `Ant.ForwardIsTorusNeighbour` | StudentProject/LangtonsAnt.cpp:40-43 | from an on-board cell the move reaches `((row + dr) mod N, (col + dc) mod N)`, the neighbour in that heading on the torus |
| `Ant.UpFromTopRowWraps` | StudentProject/LangtonsAnt.cpp:40 | moving UP from row 0 lands on row N-1, same column |
| `Ant.RightFromLastColumnWraps` | StudentProject/LangtonsAnt.cpp:43 | moving RIGHT from column N-1 lands on column 0, same row |
| `Ant.ForwardThenBack` | StudentProject/LangtonsAnt.cpp:38-44 | a move along the opposite heading returns the ant to where it was |
| `Ant.StepWorld` | StudentProject/LangtonsAnt.cpp:7-24 | a step negates exactly the cell under the ant; on a board whose rows share one length of at least the row count (every square board) the ant ends on the board |
| `Ant.NarrowBoardLosesAnt` | StudentProject/LangtonsAnt.cpp:23 | because the column wrap uses the row count, one step on a white 3×2 board from (0,1) facing UP puts the ant in column 2, off the board |
| `Ant.StepOnWhite` | StudentProject/LangtonsAnt.cpp:17-23 | on a white cell: turn right, the cell becomes black, move along the new heading |
| `Ant.StepOnBlack` | StudentProject/LangtonsAnt.cpp:12-23 | on a black cell: turn left, the cell becomes white, move along the new heading |
| `Ant.StepChangesExactlyOneCell` | StudentProject/LangtonsAnt.cpp:10-21 | the board keeps its shape and a cell differs afterwards if and only if it is the ant's pre-step cell |
| `Ant.MoveUsesNewHeading` | StudentProject/LangtonsAnt.cpp:19-23 | facing UP on white at (r, c), the ant ends facing RIGHT at (r, (c+1) mod N) |
| `Ant.TwoStepsFromCentreOfThree` | StudentProject/LangtonsAnt.cpp:10-23 | on a white 3×3 board from (1,1) UP: (1,2) RIGHT, then (2,2) DOWN, both visited cells black |
| `Ant.LangtonsAnt.constructor` | StudentProject/LangtonsAnt.cpp:4-5 | a new ant is at exactly (startRow, startCol) facing UP |
| `Ant.LangtonsAnt.TurnRight` | StudentProject/LangtonsAnt.cpp:26-29 | only the heading changes, to its right turn |
| `Ant.LangtonsAnt.TurnLeft` | StudentProject/LangtonsAnt.cpp:31-34 | only the heading changes, to its left turn |
| `Ant.LangtonsAnt.MoveForward` | StudentProject/LangtonsAnt.cpp:36-44 | only row and col change, to `Forward` of the heading and the given size |
| `Ant.LangtonsAnt.Step` | StudentProject/LangtonsAnt.cpp:7-24 | the caller's board and the ant's fields become `StepWorld` of their old values |
| `Grid.Painted` | StudentProject/LangtonsAnt.cpp:15-20 | assigning one cell sets that cell and leaves every other cell and the shape unchanged |
| `Grid.Flipped` | StudentProject/DrawingPanel.cpp:73 | negating one cell changes that cell only |
| `Grid.FlipTwice` | StudentProject/DrawingPanel.cpp:73 | negating the same cell twice restores the board |
| `Grid.Whitened` | StudentProject/DrawingPanel.cpp:55-56 | filling every row with false keeps the shape and leaves no black cell |
| `Grid.Blank` | StudentProject/DrawingPanel.cpp:16 | the initial board is N×N and all white |
| `Grid.WhitenedSquareIsBlank` | StudentProject/DrawingPanel.cpp:55-56 | whitening an N×N board gives the initial N×N board |
| `Grid.WhitenTwice` | StudentProject/DrawingPanel.cpp:55-56 | whitening is idempotent |
| `Grid.CellsOf` | StudentProject/LangtonsAnt.h:12 | the value of the array board has its dimensions and its cells |
| `Panel.Initial` | StudentProject/DrawingPanel.cpp:16-17 | the initial state is an N×N all-white board with the ant at (N/2, N/2) facing UP; `InitialWellFormed` proves the ant is on the board for every N ≥ 1 |
| `Panel.InitialWellFormed` | StudentProject/DrawingPanel.cpp:16-17 | for every N ≥ 1 the initial board is N×N and white, and the centred ant (N/2, N/2) is on it |
| `Panel.Cleared` | StudentProject/DrawingPanel.cpp:55-58 | clearing keeps the board's shape, leaves no black cell and puts a new ant at (N/2, N/2) facing UP; `ClearedIsInitial` and `ClearIdempotent` prove it gives the initial state and is idempotent |
| `Panel.ClearedIsInitial` | StudentProject/DrawingPanel.cpp:55-58 | clearing an N×N board gives the initial state, whatever the ant's prior position and heading |
| `Panel.ClearIdempotent` | StudentProject/DrawingPanel.cpp:55-58 | clearing twice is clearing once |
| `Panel.Toggled` | StudentProject/DrawingPanel.cpp:71-74 | a click negates the clicked cell if it is on the board and no other cell; the ant is untouched |
| `Panel.ToggleOutsideIsNoop` | StudentProject/DrawingPanel.cpp:71 | a click outside the board changes nothing |
| `Panel.ToggleTwice` | StudentProject/DrawingPanel.cpp:73 | clicking the same cell twice restores the state |
| `Panel.Apply` | StudentProject/DrawingPanel.cpp:47-75 | a step, a clear or a click keeps the board N×N and the ant on it |
| `Panel.Run` | StudentProject/DrawingPanel.cpp:47-75 | every sequence of steps, clears and clicks keeps the board N×N and the ant on it |
| `Panel.RunConcat` | StudentProject/DrawingPanel.cpp:47-75 | running two event sequences in turn is running their concatenation |
| `Panel.ClearAfterAnyRun` | StudentProject/DrawingPanel.cpp:53-60 | after any history, a clear yields the initial state |
| `Panel.StepSimulationFlipsOneCell` | StudentProject/DrawingPanel.cpp:47-51 | a simulation step keeps the invariant and changes exactly the cell under the ant |
| `Panel.DrawingPanel.constructor` | StudentProject/DrawingPanel.cpp:11-18 | a new panel holds the initial state for its grid size, with a fresh board and ant |
| `Panel.DrawingPanel.StepSimulation` | StudentProject/DrawingPanel.cpp:47-51 | the board and the ant become `StepWorld` of their old values; the invariant holds |
| `Panel.DrawingPanel.ClearGrid` | StudentProject/DrawingPanel.cpp:53-60 | the same board, whitened in place, and a fresh ant at the centre facing UP |
| `Panel.DrawingPanel.OnMouseClick` | StudentProject/DrawingPanel.cpp:71-75 | the board becomes `Toggled` of the old state at the clicked cell; the invariant holds |

## Left out

- Rendering (`OnPaint`, `Refresh()` calls) and the pixel-to-cell mapping in `OnMouseClick`. `Panel.DrawingPanel.OnMouseClick` receives an already computed (row, col). The mapping divides by a pixel cell width that can be 0.
- `MainWindow` (timer, toolbar, status bar, generation counter), `SettingsDialog`, `Settings` file load/save and colour accessors, `App` and `Utilities.h`. These are user-interface and framework code. `Panel.Run` stands for the sequence of steps, clears and clicks this code issues.
- Changes of `settings.gridSize` after construction. The board is sized only in the constructor, and `ClearGrid` and the click bounds check read the live setting. The model fixes one grid size per panel (`const gridSize`) and has no resize.
- Ragged boards. The source's `vector<vector<bool>>` could have rows of different lengths; the model's `array2<bool>` is rectangular, and the panel invariant makes it square.
- Heap ownership. `delete ant` has no counterpart; the panel's `ant` field is assigned a fresh object.
- 32-bit `int` overflow in `row - 1 + gridSize` and `row + 1`. It can happen only for coordinates near the `int` limits, which no on-board ant reaches, since the grid size is at most 100.
- Neighbour counts, pattern import and binary universe save/load. No source file of this repository implements them.
- Ant.CppRem: for a negative dividend it states only the sign and range of the result, not its exact value; no on-board ant produces a negative dividend.
- Ant.Forward: for a position off the board it states only which coordinate may change, not where the ant lands. The source's callers never move an off-board ant.
