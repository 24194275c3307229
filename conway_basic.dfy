/** Conway_basic.py: a 60 x 40 grid whose generation step counts neighbours over the
    unclipped numpy slice grid[x-1:x+2, y-1:y+2], four preset stamps, Clear and
    Randomize buttons, and the Space key. */
module ConwayBasic {
  import opened Life
  import opened Controls
  import Conway

  const ScreenWidth := 1200
  const ScreenHeight := 800
  const CellSize := 20
  const GridWidth := ScreenWidth / CellSize
  const GridHeight := ScreenHeight / CellSize

  // ---------------------------------------------------------------------------
  // The generation step

  /** A slice bound i of a Python slice over n elements, normalised as Python does for
      step 1: a negative bound counts from the end (i + n), and the result is clipped
      to [0, n].  The bound -1 therefore means n - 1, not 0. */
  function SliceBound(i: int, n: nat): (r: nat)
    ensures r <= n
    ensures 0 <= i <= n ==> r == i
    ensures i > n ==> r == n
    ensures i < 0 <= i + n ==> r == i + n
    ensures i + n < 0 ==> r == 0
  {
    if i < 0 then (if i + n < 0 then 0 else i + n)
    else if i >= n then n
    else i
  }

  /** alive_neighbors of update_grid: np.sum(grid[x-1:x+2, y-1:y+2]) - grid[x, y]. */
  function SliceCount(g: Grid, w: nat, h: nat, x: int, y: int): int
    requires IsGrid(g, w, h) && InGrid(w, h, x, y)
  {
    WindowSum(g, w, h, SliceBound(x - 1, w), SliceBound(x + 2, w), SliceBound(y - 1, h), SliceBound(y + 2, h))
    - g[x][y]
  }

  /** The next generation as update_grid computes it. */
  function Step(g: Grid, w: nat, h: nat): (r: Grid)
    requires IsGrid(g, w, h)
    ensures IsGrid(r, w, h)
  {
    seq(w, x requires 0 <= x < w =>
      seq(h, y requires 0 <= y < h => NextCell(g[x][y], SliceCount(g, w, h, x, y))))
  }

  /** Away from column 0 and row 0 the slice is the clipped window: on a binary grid the
      count is the number of live in-range Moore neighbours (the upper edges are clipped,
      nothing wraps around). */
  lemma InteriorCount(g: Grid, w: nat, h: nat, x: int, y: int)
    requires IsGrid(g, w, h) && Binary(g) && InGrid(w, h, x, y) && x >= 1 && y >= 1
    ensures SliceCount(g, w, h, x, y) == MooreCount(g, w, h, x, y)
  {
    assert SliceCount(g, w, h, x, y) == ClippedCount(g, w, h, x, y);
    ClippedCountIsMoore(g, w, h, x, y);
  }

  /** In column 0 or row 0 of a grid at least 3 x 3 a slice starts at -1, which Python
      reads as the last index, so the slice is empty and the count is minus the cell. */
  lemma EdgeCount(g: Grid, w: nat, h: nat, x: int, y: int)
    requires IsGrid(g, w, h) && w >= 3 && h >= 3 && InGrid(w, h, x, y) && (x == 0 || y == 0)
    ensures SliceCount(g, w, h, x, y) == -g[x][y]
  {
    if y == 0 {
      EmptyRowsWindow(g, w, h, SliceBound(x - 1, w), SliceBound(x + 2, w), SliceBound(y - 1, h), SliceBound(y + 2, h));
    }
  }

  /** On a binary grid at least 3 x 3 the step follows rule B3/S23 over the in-range Moore
      neighbours at every cell with x >= 1 and y >= 1, and kills every cell of column 0
      and row 0, whatever its neighbours.  The result is binary again. */
  lemma StepIsLifeInside(g: Grid, w: nat, h: nat)
    requires IsGrid(g, w, h) && Binary(g) && w >= 3 && h >= 3
    ensures Binary(Step(g, w, h))
    ensures forall x, y :: InGrid(w, h, x, y) && x >= 1 && y >= 1 ==>
      (Step(g, w, h)[x][y] == 1 <==> MooreCount(g, w, h, x, y) == 3 || (g[x][y] == 1 && MooreCount(g, w, h, x, y) == 2))
    ensures forall x, y :: InGrid(w, h, x, y) && (x == 0 || y == 0) ==> Step(g, w, h)[x][y] == 0
  {
    forall x, y | InGrid(w, h, x, y)
      ensures x >= 1 && y >= 1 ==>
        (Step(g, w, h)[x][y] == 1 <==> MooreCount(g, w, h, x, y) == 3 || (g[x][y] == 1 && MooreCount(g, w, h, x, y) == 2))
      ensures x == 0 || y == 0 ==> Step(g, w, h)[x][y] == 0
    {
      if x >= 1 && y >= 1 {
        InteriorCount(g, w, h, x, y);
      } else {
        EdgeCount(g, w, h, x, y);
      }
    }
  }

  /** No spontaneous generation: an all-dead grid steps to an all-dead grid. */
  lemma StepAllDead(g: Grid, w: nat, h: nat)
    requires IsGrid(g, w, h) && AllDead(g)
    ensures AllDead(Step(g, w, h))
  {
    forall x, y | InGrid(w, h, x, y)
      ensures Step(g, w, h)[x][y] == 0
    {
      EmptyWindow(g, w, h, SliceBound(x - 1, w), SliceBound(x + 2, w), SliceBound(y - 1, h), SliceBound(y + 2, h));
    }
  }

  /** A dead cell in column 0 with exactly three live neighbours, which rule B3/S23 (and
      the clipped count of Conway.py) brings to life, stays dead under this step. */
  lemma EdgeBirthMissed(g: Grid, w: nat, h: nat, y: int)
    requires IsGrid(g, w, h) && Binary(g) && w >= 3 && h >= 3 && 0 <= y < h
    requires g[0][y] == 0 && MooreCount(g, w, h, 0, y) == 3
    ensures Step(g, w, h)[0][y] == 0
    ensures Conway.Step(g, w, h)[0][y] == 1
  {
    EdgeCount(g, w, h, 0, y);
    ClippedCountIsMoore(g, w, h, 0, y);
  }

  /** alive_neighbors for cell (x, y), with the slice bounds normalised as numpy does. */
  method NeighbourCount(g: array2<int>, x: int, y: int) returns (n: int)
    requires InGrid(g.Length0, g.Length1, x, y)
    ensures n == SliceCount(Cells(g), g.Length0, g.Length1, x, y)
  {
    var total := WindowTotal(g, SliceBound(x - 1, g.Length0), SliceBound(x + 2, g.Length0),
                                SliceBound(y - 1, g.Length1), SliceBound(y + 2, g.Length1));
    n := total - g[x, y];
  }

  /** update_grid (Conway_basic.py:114-125): a copy of the grid, then a pass over every
      cell that writes 0 where a live cell dies and 1 where a dead cell is born.  The
      argument is not modified (the method has no modifies clause). */
  method UpdateGrid(g: array2<int>) returns (r: array2<int>)
    requires g.Length0 == GridWidth && g.Length1 == GridHeight
    ensures fresh(r) && r.Length0 == GridWidth && r.Length1 == GridHeight
    ensures Cells(r) == Step(Cells(g), GridWidth, GridHeight)
  {
    ghost var next := Step(Cells(g), GridWidth, GridHeight);
    r := new int[GridWidth, GridHeight]((i, j) reads g => if InGrid(GridWidth, GridHeight, i, j) then g[i, j] else 0);
    var x := 0;
    while x < GridWidth
      invariant 0 <= x <= GridWidth
      invariant forall i, j :: InGrid(x, GridHeight, i, j) ==> r[i, j] == next[i][j]
      invariant forall i, j :: x <= i < GridWidth && 0 <= j < GridHeight ==> r[i, j] == g[i, j]
    {
      StepColumn(g, r, x, Cells(g), next[x]);
      x := x + 1;
    }
    SameGrid(Cells(r), next, GridWidth, GridHeight);
  }

  /** The value col[y] the step gives cell (x, y), from the count the loop computed. */
  lemma NextFromCount(g: array2<int>, cg: Grid, x: int, y: int, col: seq<int>, alive: int)
    requires g.Length0 == GridWidth && g.Length1 == GridHeight && InGrid(GridWidth, GridHeight, x, y)
    requires cg == Cells(g) && |col| == GridHeight
    requires forall j {:trigger SliceCount(cg, GridWidth, GridHeight, x, j)} :: 0 <= j < GridHeight ==> col[j] == NextCell(cg[x][j], SliceCount(cg, GridWidth, GridHeight, x, j))
    requires alive == SliceCount(Cells(g), g.Length0, g.Length1, x, y)
    ensures col[y] == NextCell(g[x, y], alive)
  {
  }

  /** The inner loop of update_grid over the cells of column x. */
  method StepColumn(g: array2<int>, r: array2<int>, x: int, ghost cg: Grid, ghost col: seq<int>)
    requires g.Length0 == r.Length0 == GridWidth && g.Length1 == r.Length1 == GridHeight && g != r
    requires 0 <= x < GridWidth && cg == Cells(g) && |col| == GridHeight
    requires forall j {:trigger SliceCount(cg, GridWidth, GridHeight, x, j)} :: 0 <= j < GridHeight ==> col[j] == NextCell(cg[x][j], SliceCount(cg, GridWidth, GridHeight, x, j))
    requires forall j :: 0 <= j < GridHeight ==> r[x, j] == g[x, j]
    modifies r
    ensures forall j :: 0 <= j < GridHeight ==> r[x, j] == col[j]
    ensures forall i, j :: InGrid(GridWidth, GridHeight, i, j) && i != x ==> r[i, j] == old(r[i, j])
  {
    var y := 0;
    while y < GridHeight
      invariant 0 <= y <= GridHeight
      invariant forall j :: 0 <= j < y ==> r[x, j] == col[j]
      invariant forall j :: y <= j < GridHeight ==> r[x, j] == g[x, j]
      invariant forall i, j :: InGrid(GridWidth, GridHeight, i, j) && i != x ==> r[i, j] == old(r[i, j])
    {
      var alive := NeighbourCount(g, x, y);
      NextFromCount(g, cg, x, y, col, alive);
      if g[x, y] == 1 {
        if alive < 2 || alive > 3 {
          r[x, y] := 0;
        }
      } else {
        if alive == 3 {
          r[x, y] := 1;
        }
      }
      y := y + 1;
    }
  }

  // ---------------------------------------------------------------------------
  // Preset patterns

  const Glider: seq<(int, int)> := [(1, 0), (2, 1), (0, 2), (1, 2), (2, 2)]
  const Lwss: seq<(int, int)> := [(1, 0), (4, 0), (0, 1), (0, 2), (4, 2), (0, 3), (1, 3), (2, 3), (3, 3)]
  const Blinker: seq<(int, int)> := [(1, 0), (1, 1), (1, 2)]
  const Mwss: seq<(int, int)> := [(1, 0), (2, 0), (3, 0), (4, 0), (0, 1), (4, 1), (4, 2), (0, 3), (3, 3)]

  /** The offsets of a pattern list, as a set. */
  function Offsets(cells: seq<(int, int)>): (s: set<(int, int)>)
    ensures forall p :: p in s <==> p in cells
  {
    set p | p in cells
  }

  /** The loop of set_glider and its siblings: grid[px + sx, py + sy] = 1 for each
      offset in turn.  The source has no bounds check, so every target must be inside
      the grid; the result is the overlay of the offsets at (sx, sy). */
  method Stamp(grid: array2<int>, cells: seq<(int, int)>, sx: int, sy: int)
    requires forall k :: 0 <= k < |cells| ==> InGrid(grid.Length0, grid.Length1, sx + cells[k].0, sy + cells[k].1)
    modifies grid
    ensures Cells(grid) == Overlay(old(Cells(grid)), grid.Length0, grid.Length1, Offsets(cells), sx, sy)
  {
    var k := 0;
    while k < |cells|
      invariant 0 <= k <= |cells|
      invariant forall i, j :: InGrid(grid.Length0, grid.Length1, i, j) ==>
        grid[i, j] == if (i - sx, j - sy) in cells[..k] then 1 else old(grid[i, j])
    {
      var (px, py) := cells[k];
      grid[px + sx, py + sy] := 1;
      assert cells[..k + 1] == cells[..k] + [cells[k]];
      k := k + 1;
    }
    assert cells[..k] == cells;
    SameGrid(Cells(grid), Overlay(old(Cells(grid)), grid.Length0, grid.Length1, Offsets(cells), sx, sy),
             grid.Length0, grid.Length1);
  }

  /** set_glider: the glider at (GRID_WIDTH // 2, GRID_HEIGHT // 2). */
  method SetGlider(grid: array2<int>)
    requires grid.Length0 == GridWidth && grid.Length1 == GridHeight
    modifies grid
    ensures Cells(grid) == Overlay(old(Cells(grid)), GridWidth, GridHeight, Offsets(Glider), GridWidth / 2, GridHeight / 2)
  {
    Stamp(grid, Glider, GridWidth / 2, GridHeight / 2);
  }

  /** set_lwss: the lightweight spaceship at (GRID_WIDTH // 2 - 2, GRID_HEIGHT // 2 - 2). */
  method SetLwss(grid: array2<int>)
    requires grid.Length0 == GridWidth && grid.Length1 == GridHeight
    modifies grid
    ensures Cells(grid) == Overlay(old(Cells(grid)), GridWidth, GridHeight, Offsets(Lwss), GridWidth / 2 - 2, GridHeight / 2 - 2)
  {
    Stamp(grid, Lwss, GridWidth / 2 - 2, GridHeight / 2 - 2);
  }

  /** set_blinker: the blinker at (GRID_WIDTH // 2, GRID_HEIGHT // 2). */
  method SetBlinker(grid: array2<int>)
    requires grid.Length0 == GridWidth && grid.Length1 == GridHeight
    modifies grid
    ensures Cells(grid) == Overlay(old(Cells(grid)), GridWidth, GridHeight, Offsets(Blinker), GridWidth / 2, GridHeight / 2)
  {
    Stamp(grid, Blinker, GridWidth / 2, GridHeight / 2);
  }

  /** set_mwss: the middleweight spaceship at (GRID_WIDTH // 2 - 2, GRID_HEIGHT // 2 - 2). */
  method SetMwss(grid: array2<int>)
    requires grid.Length0 == GridWidth && grid.Length1 == GridHeight
    modifies grid
    ensures Cells(grid) == Overlay(old(Cells(grid)), GridWidth, GridHeight, Offsets(Mwss), GridWidth / 2 - 2, GridHeight / 2 - 2)
  {
    Stamp(grid, Mwss, GridWidth / 2 - 2, GridHeight / 2 - 2);
  }

  // ---------------------------------------------------------------------------
  // The event loop

  /** The menu buttons; Randomize carries the random 0/1 grid the RNG would draw. */
  datatype Button = StartButton | GliderButton | LwssButton | BlinkerButton | MwssButton
                  | ClearButton | RandomizeButton(cells: Grid)

  /** paused after one event: Space flips it, Start clears it; no other key matters. */
  function PausedAfterEvent(p: bool, e: Event<Button>): bool
  {
    match e
    case KeyDown(Space) => !p
    case MenuPress(Some(StartButton)) => false
    case _ => p
  }

  function PausedAfter(p: bool, es: seq<Event<Button>>): bool
  {
    if es == [] then p else PausedAfterEvent(PausedAfter(p, es[..|es| - 1]), es[|es| - 1])
  }

  /** Pressing Space twice in a row leaves paused as it was. */
  lemma {:induction false} DoubleSpace(p: bool, es: seq<Event<Button>>)
    ensures PausedAfter(p, es + [KeyDown(Space), KeyDown(Space)]) == PausedAfter(p, es)
  {
    assert (es + [KeyDown(Space), KeyDown(Space)])[..|es| + 1] == es + [KeyDown(Space)];
    assert (es + [KeyDown(Space)])[..|es|] == es;
  }

  /** A press lands inside the grid, and a random grid has the grid's shape and 0/1 cells. */
  predicate WellFormed(e: Event<Button>)
  {
    && (e.GridPress? ==> InGrid(GridWidth, GridHeight, e.x, e.y))
    && (e.MenuPress? && e.button.Some? && e.button.value.RandomizeButton? ==>
          IsGrid(e.button.value.cells, GridWidth, GridHeight) && Binary(e.button.value.cells))
  }

  /** The editor state after one event: a grid press toggles its cell and starts a drag,
      a release ends the drag, each preset button overlays its pattern, Clear empties the
      grid and Randomize replaces it; keys, Start and a press on no button leave the
      state as it was. */
  function EventState(s: EditState, e: Event<Button>): (r: EditState)
    requires IsGrid(s.cells, GridWidth, GridHeight) && WellFormed(e)
    ensures IsGrid(r.cells, GridWidth, GridHeight)
    ensures ValidState(s) ==> ValidState(r)
  {
    match e
    case GridPress(x, y) => PressState(s, GridWidth, GridHeight, x, y)
    case MouseUp => ReleaseState(s)
    case MenuPress(Some(GliderButton)) =>
      s.(cells := Overlay(s.cells, GridWidth, GridHeight, Offsets(Glider), GridWidth / 2, GridHeight / 2))
    case MenuPress(Some(LwssButton)) =>
      s.(cells := Overlay(s.cells, GridWidth, GridHeight, Offsets(Lwss), GridWidth / 2 - 2, GridHeight / 2 - 2))
    case MenuPress(Some(BlinkerButton)) =>
      s.(cells := Overlay(s.cells, GridWidth, GridHeight, Offsets(Blinker), GridWidth / 2, GridHeight / 2))
    case MenuPress(Some(MwssButton)) =>
      s.(cells := Overlay(s.cells, GridWidth, GridHeight, Offsets(Mwss), GridWidth / 2 - 2, GridHeight / 2 - 2))
    case MenuPress(Some(ClearButton)) => s.(cells := Blank(GridWidth, GridHeight))
    case MenuPress(Some(RandomizeButton(cells))) => s.(cells := cells)
    case _ => s
  }

  /** The editor state after a frame's events, in order. */
  function StateAfter(s: EditState, es: seq<Event<Button>>): (r: EditState)
    requires IsGrid(s.cells, GridWidth, GridHeight) && forall k :: 0 <= k < |es| ==> WellFormed(es[k])
    ensures IsGrid(r.cells, GridWidth, GridHeight)
    ensures ValidState(s) ==> ValidState(r)
  {
    if es == [] then s else EventState(StateAfter(s, es[..|es| - 1]), es[|es| - 1])
  }

  /** The step of a frame: one generation unless paused.  A 0/1 grid stays 0/1. */
  function Advance(s: EditState, paused: bool): (r: EditState)
    requires IsGrid(s.cells, GridWidth, GridHeight)
    ensures IsGrid(r.cells, GridWidth, GridHeight) && r.dragging == s.dragging && r.toggleTarget == s.toggleTarget
    ensures paused ==> r == s
    ensures ValidState(s) ==> ValidState(r)
  {
    if paused then s
    else
      StepKeepsValid(s);
      s.(cells := Step(s.cells, GridWidth, GridHeight))
  }

  /** A step keeps a valid state valid: the step yields 0/1 cells. */
  lemma StepKeepsValid(s: EditState)
    requires IsGrid(s.cells, GridWidth, GridHeight)
    ensures ValidState(s) ==> ValidState(s.(cells := Step(s.cells, GridWidth, GridHeight)))
  {
    if ValidState(s) {
      StepIsLifeInside(s.cells, GridWidth, GridHeight);
    }
  }

  /** The editor state after a whole frame: the events, the drag repaint at the mouse's
      cell, then the step unless paused. */
  function FrameState(s: EditState, es: seq<Event<Button>>, cursor: Option<(int, int)>, paused: bool): (r: EditState)
    requires IsGrid(s.cells, GridWidth, GridHeight) && forall k :: 0 <= k < |es| ==> WellFormed(es[k])
    requires cursor.Some? ==> InGrid(GridWidth, GridHeight, cursor.value.0, cursor.value.1)
    ensures IsGrid(r.cells, GridWidth, GridHeight)
    ensures ValidState(s) ==> ValidState(r)
  {
    Advance(RepaintState(StateAfter(s, es), GridWidth, GridHeight, cursor), paused)
  }

  /** A preset stamped twice in a row is stamped once: the overlay writes only 1s. */
  lemma {:induction false} PresetTwice(s: EditState, b: Button)
    requires IsGrid(s.cells, GridWidth, GridHeight)
    requires b == GliderButton || b == LwssButton || b == BlinkerButton || b == MwssButton
    ensures EventState(EventState(s, MenuPress(Some(b))), MenuPress(Some(b))) == EventState(s, MenuPress(Some(b)))
  {
    var once := EventState(s, MenuPress(Some(b)));
    SameGrid(EventState(once, MenuPress(Some(b))).cells, once.cells, GridWidth, GridHeight);
  }

  /** One iteration of the event loop of main (Conway_basic.py:154-172). */
  method HandleEvent(ed: Editor, clock: Clock, e: Event<Button>)
    requires ed.grid.Length0 == GridWidth && ed.grid.Length1 == GridHeight
    requires WellFormed(e)
    modifies ed, ed.grid, clock`paused
    ensures ed.grid.Length0 == GridWidth && ed.grid.Length1 == GridHeight
    ensures ed.grid == old(ed.grid) || fresh(ed.grid)
    ensures clock.paused == PausedAfterEvent(old(clock.paused), e)
    ensures ed.State() == EventState(old(ed.State()), e)
  {
    match e {
      case KeyDown(k) =>
        if k == Space {
          clock.TogglePause();
        }
      case GridPress(x, y) =>
        ed.Press(x, y);
      case MenuPress(b) =>
        if b.Some? {
          match b.value {
            case StartButton => clock.Start();
            case GliderButton => SetGlider(ed.grid);
            case LwssButton => SetLwss(ed.grid);
            case BlinkerButton => SetBlinker(ed.grid);
            case MwssButton => SetMwss(ed.grid);
            case ClearButton => ed.Clear();
            case RandomizeButton(cells) => ed.Replace(cells);
          }
        }
      case MouseUp =>
        ed.Release();
    }
  }

  /** The folds over the first k + 1 events are one more event applied to the folds over
      the first k. */
  lemma OneMoreEvent(s: EditState, p: bool, es: seq<Event<Button>>, k: int)
    requires IsGrid(s.cells, GridWidth, GridHeight) && forall i :: 0 <= i < |es| ==> WellFormed(es[i])
    requires 0 <= k < |es|
    ensures StateAfter(s, es[..k + 1]) == EventState(StateAfter(s, es[..k]), es[k])
    ensures PausedAfter(p, es[..k + 1]) == PausedAfterEvent(PausedAfter(p, es[..k]), es[k])
  {
    assert es[..k + 1][..k] == es[..k];
  }

  /** The event loop of one frame (Conway_basic.py:154-172): each event in turn. */
  method HandleEvents(ed: Editor, clock: Clock, events: seq<Event<Button>>)
    requires ed.grid.Length0 == GridWidth && ed.grid.Length1 == GridHeight
    requires forall k :: 0 <= k < |events| ==> WellFormed(events[k])
    modifies ed, ed.grid, clock`paused
    ensures ed.grid.Length0 == GridWidth && ed.grid.Length1 == GridHeight
    ensures ed.grid == old(ed.grid) || fresh(ed.grid)
    ensures clock.paused == PausedAfter(old(clock.paused), events)
    ensures ed.State() == StateAfter(old(ed.State()), events)
  {
    ghost var s0, p0 := ed.State(), clock.paused;
    var k := 0;
    while k < |events|
      invariant 0 <= k <= |events|
      invariant ed.grid.Length0 == GridWidth && ed.grid.Length1 == GridHeight
      invariant ed.grid == old(ed.grid) || fresh(ed.grid)
      invariant clock.paused == PausedAfter(p0, events[..k])
      invariant ed.State() == StateAfter(s0, events[..k])
    {
      OneMoreEvent(s0, p0, events, k);
      HandleEvent(ed, clock, events[k]);
      k := k + 1;
    }
    assert events[..k] == events;
  }

  /** The per-frame step (Conway_basic.py:180-181): exactly one generation when not
      paused, none when paused. */
  method Tick(ed: Editor, clock: Clock)
    requires ed.grid.Length0 == GridWidth && ed.grid.Length1 == GridHeight
    modifies ed`grid
    ensures ed.grid.Length0 == GridWidth && ed.grid.Length1 == GridHeight
    ensures clock.paused ==> ed.grid == old(ed.grid)
    ensures !clock.paused ==> fresh(ed.grid)
    ensures ed.State() == Advance(old(ed.State()), clock.paused)
  {
    if !clock.paused {
      ed.grid := UpdateGrid(ed.grid);
    }
  }

  /** One pass of the main loop (Conway_basic.py:151-181): the frame's events in order,
      the drag repaint at the mouse's cell (None over the menu bar), then one step iff
      not paused. */
  method Frame(ed: Editor, clock: Clock, events: seq<Event<Button>>, cursor: Option<(int, int)>)
    requires ed.grid.Length0 == GridWidth && ed.grid.Length1 == GridHeight
    requires forall k :: 0 <= k < |events| ==> WellFormed(events[k])
    requires cursor.Some? ==> InGrid(GridWidth, GridHeight, cursor.value.0, cursor.value.1)
    modifies ed, ed.grid, clock`paused
    ensures ed.grid.Length0 == GridWidth && ed.grid.Length1 == GridHeight
    ensures clock.paused == PausedAfter(old(clock.paused), events)
    ensures ed.State() == FrameState(old(ed.State()), events, cursor, clock.paused)
    ensures old(ed.Valid()) ==> ed.Valid()
  {
    HandleEvents(ed, clock, events);
    ed.Repaint(cursor);
    Tick(ed, clock);
  }
}
