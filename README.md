# Conway's Game of Life: the engine of Conway.py and Conway_basic.py

The repository holds two pygame programs that run Conway's Game of Life on a dense
numpy grid indexed `grid[x, y]`. This project models the engine inside them and proves
its properties in Dafny:

- **Conway.py** has a 120 x 80 grid. Its generation step (`update_grid`) counts
  neighbours over a window clipped to the grid with `max`/`min`. It also has an RLE
  pattern loader (`parse_rle`) behind the Open RLE button, a Clear button, a Start
  button, the Space key for pause, and the `+`/`=`/`-` keys for the game speed.
- **Conway_basic.py** has a 60 x 40 grid. Its step counts neighbours over the
  unclipped numpy slice `grid[x-1:x+2, y-1:y+2]`. It also has four preset stamps
  (glider, LWSS, blinker, MWSS), Clear and Randomize buttons, Start, and the Space key.

Both programs share the interaction state: the grid, `dragging`, `toggle_target`,
`paused` and, in Conway.py, `game_speed`.

The modules follow that structure:

- `Life` (life.dfy) holds what both programs share:
  - the grid as a value (`Grid`, and `Cells` for an `array2`);
  - the per-cell rule `NextCell`, in the branch form both `update_grid`s use;
  - `np.sum` over a window (`WindowSum`, with the loop `WindowTotal`);
  - Conway.py's clipped count `ClippedCount`;
  - the reference count `MooreCount`, the live in-range Moore neighbours;
  - `Overlay`, which writes only 1s and only inside the grid. Both the RLE loader and
    the presets place patterns this way.
- `Controls` (controls.dfy) holds two classes:
  - `Editor`: the grid array, `dragging` and `toggleTarget`, with press, drag repaint,
    release, Clear and grid replacement;
  - `Clock`: `paused` and the game speed. Conway_basic.py ticks at a fixed 10 frames
    per second, so `ConwayBasic` uses only `paused`.
- `Rle` (rle.dfy) models `parse_rle`:
  - the Python string operations it uses (`str.strip`, `str.split(...)[k]`, `int()`);
  - the line scan, as the loop `ScanLines` against the fold `Classify`;
  - the body decoder, as the loop `DecodeInto` against the character-level state
    machine `Feed`/`Run`/`Decode`;
  - the oversize prompt and the centring (`ParseRle`).
- `Conway` (conway.dfy) holds Conway.py's constants, its step (`Step`, with the loop
  `UpdateGrid`) and its event loop (`HandleEvent`, `Tick`, `Frame`).
- `ConwayBasic` (conway_basic.dfy) holds Conway_basic.py's constants, its Python slice
  normalisation (`SliceBound`), its step, the preset stamps and its event loop.

Each loop that fills or changes an array is a method. Each is proved against a pure
function of the old state: `UpdateGrid` against `Step`, `DecodeInto` against `Overlay`
of `Decode`, `ScanLines` against `Classify`, and `Stamp` against `Overlay`. What the
source promises is then proved about those functions:

- B3/S23 over the Moore neighbours;
- no spontaneous generation;
- the edge behaviour of the slice window;
- the header round trip;
- the body being the concatenation of the non-header, non-comment lines;
- the last header winning;
- the cells an `o` run writes;
- the decoded diamond example;
- every frame keeping the grid 0/1, so that each step is B3/S23 on a 0/1 grid.

The event handlers are methods on the `Editor` and `Clock` objects. Each is proved
against a pure function of the editor's state (`EditState`: the cells, `dragging` and
`toggle_target`): `HandleEvent` against `EventState`, and `Frame` against `FrameState`.

Where a documented description and the code disagree, the model follows the code:

- Conway_basic.py's window does not wrap around at the edges. At `x == 0` the slice
  `x-1:x+2` starts at -1. Python reads -1 as the last index, so for a grid at least 3
  wide the slice is empty. The count is then minus the cell itself, and every cell of
  column 0 and row 0 is dead after a step. At the far edges the slice is clipped, as in
  Conway.py.
- Conway.py's hotkey list (Conway.py:53-59) names `O` and `C`, but the event loop
  handles only Space, `+`, `=` and `-`. In the model every other key leaves the state
  unchanged.
- A header `int()` failure raises in the source and ends the program. The model
  returns `Malformed` from `ParseRle` and leaves the grid untouched. The same holds for
  a header missing a field or an `=`.

## Model

| member | source | states |
|---|---|---|
| Life.NextCell | Conway.py:192-197 | On a 0/1 cell the result is 0/1. It is 1 iff the count is 3, or the cell is live and the count is 2. A cell that is not live and does not have 3 neighbours keeps its value. |
| Life.WindowTotal | Conway.py:191 | The returned total is the sum of the array's cells over the window `[x0, x1) x [y0, y1)`, which is 0 when either range is empty (`np.sum` of a slice). |
| Life.ClippedCountIsMoore | Conway.py:191 | On a 0/1 grid, the clipped window sum minus the cell equals the number of live cells among its in-range Moore neighbours. Out-of-range neighbours are not counted and nothing wraps around. |
| Life.Overlay | Conway.py:115-121 | The result has the grid's shape. Every live cell stays live. Every changed cell became 1 and is a pattern cell at the offset. Every pattern cell that lands inside the grid is 1. A 0/1 grid stays 0/1. |
| Controls.Editor.constructor | Conway.py:42-47 | The editor's state is the all-dead W x H grid in a fresh array, `dragging` false and `toggle_target` 1, and it is valid (0/1 cells, target 0 or 1). |
| Controls.Editor.Press | Conway.py:244-247 | The editor's state becomes `PressState` of the old state. |
| Controls.PressState | Conway.py:244-247 | The pressed cell becomes `1 - v` and no other cell changes. `dragging` is set and the drag paints the cell's new value. A valid state stays valid. |
| Controls.Editor.Repaint | Conway.py:251-255 | The editor's state becomes `RepaintState` of the old state. |
| Controls.RepaintState | Conway.py:251-255 | While dragging with the mouse over the grid, the cell under it takes the drag's value. No other cell changes, nothing changes otherwise, and a valid state stays valid. |
| Controls.Editor.Release | Conway.py:248-249 | The editor's state becomes `ReleaseState` of the old state. |
| Controls.ReleaseState | Conway.py:248-249 | `dragging` is cleared; the grid and the drag's value are kept, so a valid state stays valid. |
| Controls.Editor.Clear | Conway.py:177 | Every cell of the same array is 0 (`grid.fill(0)`); the drag state is kept. |
| Life.Blank | Conway.py:43 | `np.zeros`: a W x H grid of dead cells, which is 0/1. |
| Controls.Editor.Replace | Conway_basic.py:68-70 | The grid is a new array of the same shape holding exactly the given cells (the random draw); the drag state is kept. |
| Controls.PressAndHold | Conway.py:244-255 | A press followed by the same frame's repaint on the same cell gives the state of the press alone: the repaint keeps the toggle. |
| Controls.DragPaintScenario | Conway.py:244-255 | A press on a dead cell, a repaint over another dead cell and a release leave both live and the drag value 1. A second gesture from the first cell then paints 0 and leaves both dead. |
| Controls.Clock.constructor | Conway.py:50 | `paused` starts true (`paused = True` in `main`, Conway.py line 222 and Conway_basic.py line 149) and the speed starts at 10. |
| Controls.Clock.TogglePause | Conway.py:231-232 | Space flips `paused`. |
| Controls.Clock.Start | Conway.py:182-184 | Start sets `paused` to false. |
| Controls.Clock.SpeedUp | Conway.py:233-234 | `+` and `=` add one to the speed, which stays at least 1. |
| Controls.Clock.SlowDown | Conway.py:235-236 | `-` lowers the speed by one but never below 1 (`max(1, speed - 1)`). |
| Rle.TrimLeft | Conway.py:86 | The result is a suffix of the input. Everything removed is whitespace, and the result does not start with whitespace. |
| Rle.TrimRight | Conway.py:86 | The result is a prefix of the input. Everything removed is whitespace, and the result does not end with whitespace. |
| Rle.ParseIntDecimal | Conway.py:83-84 | `int()` reads back a decimal numeral, also after a leading blank. |
| Rle.HeaderRoundTrip | Conway.py:81-84 | A header `x = <w>, y = <h>`, then any whitespace (such as the newline `readlines()` keeps), then nothing or further comma-separated fields, declares width w and height h. |
| Rle.HeaderLine | Conway.py:75-84 | The header line `x = <w>, y = <h>` as `readlines()` delivers it, ending in a newline, declares width w and height h. |
| Rle.ParseSpacedDecimal | Conway.py:83-84 | `int()` reads back a decimal numeral after a blank and before trailing whitespace. |
| Rle.FailureStays | Conway.py:81-84 | Once a header line fails to parse, the whole scan fails. |
| Rle.ScanLines | Conway.py:78-86 | The line loop gives exactly the fold `Classify`: headers set the size, comments are dropped, other lines are stripped and appended, and a bad header fails. |
| Rle.ClassifyBody | Conway.py:85-86 | The gathered body is the concatenation, in order, of the stripped lines that are neither header nor comment. |
| Rle.NoHeaderNoSize | Conway.py:79-84 | Without a header line the scan cannot fail and the declared size is 0 by 0. |
| Rle.LastHeaderWins | Conway.py:80-84 | The declared size is the one parsed from the last header line. |
| Rle.RunCellsRow | Conway.py:116-121 | An `o` run of length n from (x, y) covers exactly the cells x to x + n - 1 of row y. |
| Rle.LiveRun | Conway.py:112-121 | An `o` before `!` adds exactly the run's cells to the pattern, moves x past the run, keeps y and clears the count. |
| Rle.RunAppend | Conway.py:108-129 | Decoding a body that is the concatenation of two parts decodes the second part from the state the first leaves: the loop carries `x`, `y` and `count` across characters. |
| Rle.WriteRun | Conway.py:116-121 | The inner loop of an `o` run sets to 1 exactly the in-range grid cells of the run's n cells, shifted by the start offsets, and leaves every other cell as it was. |
| Rle.StoppedStays | Conway.py:127-128 | Whatever follows `!` is ignored. |
| Rle.DiamondCells | Conway.py:106-129 | The body `bob$obo$bob!` decodes to the four cells (1,0), (0,1), (2,1), (1,2). |
| Rle.DiamondExample | Conway.py:106-129 | The literal body `"bob$obo$bob!"` decodes to the cells (1,0), (0,1), (2,1), (1,2). |
| Rle.DecodeInto | Conway.py:106-129 | The decoding loop leaves the grid equal to `Overlay` of the old grid with the decoded cells at the given start. Only in-range cells are written, and only with 1. |
| Rle.CenterOffset | Conway.py:103-104 | `(grid - pattern) // 2` leaves margins that differ by at most one cell. It is negative iff the pattern is larger than the grid. |
| Rle.ParseRle | Conway.py:73-129 | The outcome is `Verdict` of the lines, and the grid becomes `LoadedGrid` of the old grid. |
| Rle.Verdict | Conway.py:73-104 | Malformed iff the header scan fails. Declined iff the declared size exceeds the grid on either axis and the answer is no. Loaded otherwise. |
| Rle.LoadedGrid | Conway.py:73-129 | Unless the verdict is Loaded the grid is unchanged. A load keeps every live cell live and keeps a 0/1 grid 0/1. |
| Conway.StepIsLife | Conway.py:187-198 | On a 0/1 grid the step is B3/S23 over the in-range Moore neighbours: alive next iff 3 live neighbours, or alive with 2. The result is 0/1. |
| Conway.StepAllDead | Conway.py:187-198 | An all-dead grid steps to an all-dead grid. |
| Conway.NeighbourCount | Conway.py:191 | The computed count is the clipped window sum minus the cell. |
| Conway.UpdateGrid | Conway.py:187-198 | The result is a fresh array of the same shape holding `Step` of the argument. The argument is not modified. |
| Conway.StepColumn | Conway.py:190-197 | The inner loop writes the step's value into every cell of column x and touches no other column. |
| Conway.SpeedStaysPositive | Conway.py:233-236 | No key sequence brings the speed below 1. |
| Conway.PauseOnlyByKeys | Conway.py:231-232 | Events with no Space press and no Start press leave `paused` unchanged. |
| Conway.HandleEvent | Conway.py:227-249 | `paused` and speed change as the per-event functions say. The editor's state becomes `EventState` of the old state. A load result is returned exactly for Open RLE with a chosen file, and it is that file's `Verdict`. |
| Conway.EventState | Conway.py:227-249 | Every event keeps the grid's shape, and a valid state (0/1 cells, drag value 0 or 1) stays valid. |
| Conway.StateAfter | Conway.py:227-249 | A frame's events, in order, keep the grid's shape and keep a valid state valid. |
| Conway.KeysKeepState | Conway.py:227-236 | Key presses never change the grid or the drag state. |
| Conway.HandleEvents | Conway.py:227-249 | The event loop leaves `paused`, speed and the editor's state equal to the folds over the frame's events. |
| Conway.Tick | Conway.py:257-258 | When paused the grid array is kept. Otherwise it is a fresh array holding one `Step` of the old grid; the drag state is kept. |
| Conway.Advance | Conway.py:257-258 | A paused frame changes nothing. A valid state stays valid through the step. |
| Conway.Frame | Conway.py:224-258 | After one frame, `paused` and speed are the folds over the frame's events. The editor's state is `FrameState` of the old state: the events, then the repaint, then a step iff not paused. A valid editor stays valid. |
| Conway.FrameState | Conway.py:224-258 | A frame keeps the grid's shape and keeps a valid state valid, so the step always applies B3/S23 to a 0/1 grid. |
| Conway.IdleFrame | Conway.py:224-258 | A paused frame with only key presses, and no drag under the mouse, leaves the grid and the drag state as they were. |
| Conway.StartWins | Conway.py:182-184 | When the last Space or Start event of a sequence is a Start press, the simulation is running afterwards. |
| Conway.PausedAfterAppend | Conway.py:231-232 | `paused` after two runs of events is `paused` after the second run, started from the first. |
| ConwayBasic.SliceBound | Conway_basic.py:118 | A slice bound in range is kept. A negative one counts from the end, and the result is clipped to `[0, n]`. |
| ConwayBasic.InteriorCount | Conway_basic.py:118 | For x >= 1 and y >= 1 on a 0/1 grid, the slice count is the number of live in-range Moore neighbours. |
| ConwayBasic.EdgeCount | Conway_basic.py:118 | In column 0 or row 0 of a grid at least 3 x 3, the slice is empty and the count is minus the cell. |
| ConwayBasic.StepIsLifeInside | Conway_basic.py:114-125 | On a 0/1 grid at least 3 x 3, B3/S23 over the Moore neighbours holds for x, y >= 1. Every cell of column 0 and row 0 is dead after the step, and the result is 0/1. |
| ConwayBasic.StepAllDead | Conway_basic.py:114-125 | An all-dead grid steps to an all-dead grid. |
| ConwayBasic.EdgeBirthMissed | Conway_basic.py:118-124 | A dead column-0 cell with exactly 3 live neighbours stays dead here, but Conway.py's step brings it to life. |
| ConwayBasic.NeighbourCount | Conway_basic.py:118 | The computed count is the sum over the normalised slice minus the cell. |
| ConwayBasic.UpdateGrid | Conway_basic.py:114-125 | The result is a fresh array of the same shape holding `Step` of the argument. The argument is not modified. |
| ConwayBasic.StepColumn | Conway_basic.py:117-124 | The inner loop writes the step's value into every cell of column x and touches no other column. |
| ConwayBasic.Stamp | Conway_basic.py:46-65 | Writing 1 at each listed offset (all inside the grid) leaves the grid equal to `Overlay` of the offsets: exactly those cells become 1 and nothing else changes. |
| ConwayBasic.SetGlider | Conway_basic.py:46-49 | The glider's five cells are set at (GRID_WIDTH // 2, GRID_HEIGHT // 2). On the 60 x 40 grid every index is in range. |
| ConwayBasic.SetLwss | Conway_basic.py:51-54 | The LWSS's nine cells are set at (GRID_WIDTH // 2 - 2, GRID_HEIGHT // 2 - 2), all in range. |
| ConwayBasic.SetBlinker | Conway_basic.py:56-59 | The blinker's three cells are set at (GRID_WIDTH // 2, GRID_HEIGHT // 2), all in range. |
| ConwayBasic.SetMwss | Conway_basic.py:61-65 | The MWSS's nine cells are set at (GRID_WIDTH // 2 - 2, GRID_HEIGHT // 2 - 2), all in range. |
| ConwayBasic.DoubleSpace | Conway_basic.py:157-159 | Two Space presses in a row leave `paused` as it was. |
| ConwayBasic.HandleEvent | Conway_basic.py:154-172 | Space flips `paused` and Start clears it. The editor's state becomes `EventState` of the old state. |
| ConwayBasic.EventState | Conway_basic.py:154-172 | Every event keeps the grid's shape, and a valid state stays valid, the four presets and Randomize included. |
| ConwayBasic.StateAfter | Conway_basic.py:154-172 | A frame's events, in order, keep the grid's shape and keep a valid state valid. |
| ConwayBasic.PresetTwice | Conway_basic.py:46-65 | Pressing a preset button twice gives the same state as pressing it once. |
| ConwayBasic.HandleEvents | Conway_basic.py:154-172 | The event loop leaves `paused` and the editor's state equal to the folds over the frame's events. |
| ConwayBasic.Tick | Conway_basic.py:180-181 | When paused the grid array is kept. Otherwise it is a fresh array holding one `Step` of the old grid. |
| ConwayBasic.Advance | Conway_basic.py:180-181 | A paused frame changes nothing. A valid state stays valid through the step. |
| ConwayBasic.Frame | Conway_basic.py:151-181 | After one frame, `paused` is the fold over the frame's events. The editor's state is `FrameState` of the old state: the events, then the repaint, then a step iff not paused. A valid editor stays valid. |
| ConwayBasic.FrameState | Conway_basic.py:151-181 | A frame keeps the grid's shape and keeps a valid state valid. |

## Left out

- Rendering is not modelled: `draw_grid` (with its per-frame random blue shade),
  `draw_menu`, `screen.fill` and `display.flip`. It has no effect on the engine's state.
- The `Button` class is not modelled: layout, hover colour and hit testing. A menu
  press arrives already resolved to the button it hit, or to none.
- The mapping from pixels to cells is not modelled. A grid press arrives as cell
  coordinates that must lie inside the grid.
  - The source's `pos[1] > SCREEN_HEIGHT` test lets `pos[1] == SCREEN_HEIGHT` reach the
    grid as row GRID_HEIGHT.
  - That case is an IndexError in the source, not defined behaviour, so no event
    models it.
- Frame timing is not modelled (`clock.tick(game_speed)`, `clock.tick(10)`). The speed
  is kept as a value only.
- The QUIT event and `running` are not modelled. A frame with a quit still processes
  its other events, and the program's exit is outside the engine.
- The tkinter dialogs are inputs: the file dialog's choice (`Option<FileChoice>`), the
  oversize prompt's answer (`proceed`) and `show_hotkeys` (no state change).
- The file read in `parse_rle` is not modelled. The loader takes the file's lines.
- The Windows `ctypes` foreground call has no effect on the engine's state.
- `randomize_grid`'s random draw is not modelled. The Randomize button carries the
  drawn grid, which must be 0/1 and of the grid's shape.
- Rle.ParseInt: accepts only ASCII digits. Python's `int()` also accepts other Unicode
  decimal digits (`int('３') == 3`) and single `_` separators between digits.
- Rle.Feed: counts only ASCII `0`-`9` as run-count digits. In the source,
  `char.isdigit()` also accepts other Unicode digits:
  - a Unicode decimal digit is read by `int()` as its value, so the body `３o` is a
    three-cell run in the source but one cell in the model;
  - a non-decimal digit such as `²` makes `int()` raise in the middle of the decode,
    after the earlier runs have already been written to the grid.
- A header `int()` failure raises and ends the program in the source. The model
  reports it as `Malformed` and leaves the grid untouched instead.
- The glider translation (four steps) and blinker oscillation examples are not proved.
  They are computations on concrete grids, and B3/S23 itself is proved for every grid
  (`Conway.StepIsLife`).

## Findings

| source | as written | input that shows it | evidently intended | confidence | as-written member | corrected member |
|---|---|---|---|---|---|---|
| Conway_basic.py:118 | The slice `grid[x-1:x+2, y-1:y+2]` starts at -1 for x == 0 or y == 0. Python reads -1 as the last index, so the slice is empty and the count is `-grid[x, y]`. | On the 60 x 40 grid, a dead cell (0, 1) whose neighbours (1, 0), (1, 1), (1, 2) are live stays dead. | Count the in-range Moore neighbours, as Conway.py's clipped window does, so that (0, 1) is born. | medium, not executed | ConwayBasic.EdgeBirthMissed | Conway.StepIsLife |
