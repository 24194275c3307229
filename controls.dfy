/** The interaction and clock state both programs keep in globals: the grid with the
    drag-paint state (grid, dragging, toggle_target) and the simulation clock
    (paused, game_speed).  The event loop of each program (Conway.Frame,
    ConwayBasic.Frame) drives these objects. */
module Controls {
  import opened Life

  /** A key press the event loop reacts to (pygame.K_SPACE, K_PLUS, K_EQUALS, K_MINUS). */
  datatype Key = Space | Plus | Equals | Minus | OtherKey

  /** One pygame event, with the mouse position already resolved to a cell or a menu button:
      GridPress is a MOUSEBUTTONDOWN over the grid at cell (x, y) = pos // CELL_SIZE,
      MenuPress one over the menu bar (the button hit, if any), MouseUp a MOUSEBUTTONUP. */
  datatype Event<B> = KeyDown(key: Key) | GridPress(x: int, y: int) | MenuPress(button: Option<B>) | MouseUp

  /** The editor's state as a value: the grid, whether a drag is in progress and the
      value the drag paints. */
  datatype EditState = EditState(cells: Grid, dragging: bool, toggleTarget: int)

  /** The program only ever holds 0/1 cells, and the drag paints 0 or 1. */
  predicate ValidState(s: EditState)
  {
    Binary(s.cells) && (s.toggleTarget == 0 || s.toggleTarget == 1)
  }

  /** A press on cell (x, y): the cell is toggled to 1 - v and every other cell kept; a
      drag starts, painting the toggled value. */
  function PressState(s: EditState, w: nat, h: nat, x: int, y: int): (r: EditState)
    requires IsGrid(s.cells, w, h) && InGrid(w, h, x, y)
    ensures IsGrid(r.cells, w, h)
    ensures r.cells[x][y] == 1 - s.cells[x][y]
    ensures forall i, j :: InGrid(w, h, i, j) && (i, j) != (x, y) ==> r.cells[i][j] == s.cells[i][j]
    ensures r.dragging && r.toggleTarget == r.cells[x][y]
    ensures ValidState(s) ==> ValidState(r)
  {
    EditState(s.cells[x := s.cells[x][y := 1 - s.cells[x][y]]], true, 1 - s.cells[x][y])
  }

  /** The once-per-frame repaint: while dragging, the cell under the mouse takes the
      drag's value; otherwise, or with the mouse off the grid (None), nothing changes. */
  function RepaintState(s: EditState, w: nat, h: nat, cursor: Option<(int, int)>): (r: EditState)
    requires IsGrid(s.cells, w, h)
    requires cursor.Some? ==> InGrid(w, h, cursor.value.0, cursor.value.1)
    ensures IsGrid(r.cells, w, h) && r.dragging == s.dragging && r.toggleTarget == s.toggleTarget
    ensures s.dragging && cursor.Some? ==> r.cells[cursor.value.0][cursor.value.1] == s.toggleTarget
    ensures forall i, j :: InGrid(w, h, i, j) && !(s.dragging && cursor == Some((i, j))) ==> r.cells[i][j] == s.cells[i][j]
    ensures ValidState(s) ==> ValidState(r)
  {
    if s.dragging && cursor.Some? then
      var (x, y) := cursor.value;
      s.(cells := s.cells[x := s.cells[x][y := s.toggleTarget]])
    else s
  }

  /** A release ends the drag and changes nothing else. */
  function ReleaseState(s: EditState): (r: EditState)
    ensures r.cells == s.cells && !r.dragging && r.toggleTarget == s.toggleTarget
    ensures ValidState(s) ==> ValidState(r)
  {
    s.(dragging := false)
  }

  /** A press, then the repaint of the same frame with the mouse still on the pressed
      cell: the repaint keeps the toggle instead of undoing it. */
  lemma PressAndHold(s: EditState, w: nat, h: nat, x: int, y: int)
    requires IsGrid(s.cells, w, h) && InGrid(w, h, x, y)
    ensures RepaintState(PressState(s, w, h, x, y), w, h, Some((x, y))) == PressState(s, w, h, x, y)
  {
    var p := PressState(s, w, h, x, y);
    SameGrid(RepaintState(p, w, h, Some((x, y))).cells, p.cells, w, h);
  }

  /** The grid and the drag-paint state. */
  class Editor {
    var grid: array2<int>
    var dragging: bool
    var toggleTarget: int

    /** The editor's current state as a value. */
    ghost function State(): EditState
      reads this, grid
    {
      EditState(Cells(grid), dragging, toggleTarget)
    }

    ghost predicate Valid()
      reads this, grid
    {
      ValidState(State())
    }

    /** np.zeros((GRID_WIDTH, GRID_HEIGHT)), dragging = False, toggle_target = 1. */
    constructor (w: nat, h: nat)
      ensures fresh(grid) && grid.Length0 == w && grid.Length1 == h
      ensures State() == EditState(Blank(w, h), false, 1) && Valid()
    {
      grid := new int[w, h]((x, y) => 0);
      dragging := false;
      toggleTarget := 1;
      new;
      SameGrid(Cells(grid), Blank(w, h), w, h);
    }

    /** A press on cell (x, y) (the MOUSEBUTTONDOWN branch over the grid). */
    method Press(x: int, y: int)
      requires InGrid(grid.Length0, grid.Length1, x, y)
      modifies this`dragging, this`toggleTarget, grid
      ensures State() == PressState(old(State()), grid.Length0, grid.Length1, x, y)
    {
      ghost var before := State();
      grid[x, y] := 1 - grid[x, y];
      dragging := true;
      toggleTarget := grid[x, y];
      SameGrid(Cells(grid), PressState(before, grid.Length0, grid.Length1, x, y).cells, grid.Length0, grid.Length1);
    }

    /** The once-per-frame repaint at the mouse's cell. */
    method Repaint(cursor: Option<(int, int)>)
      requires cursor.Some? ==> InGrid(grid.Length0, grid.Length1, cursor.value.0, cursor.value.1)
      modifies grid
      ensures State() == RepaintState(old(State()), grid.Length0, grid.Length1, cursor)
    {
      ghost var before := State();
      if dragging && cursor.Some? {
        grid[cursor.value.0, cursor.value.1] := toggleTarget;
      }
      SameGrid(Cells(grid), RepaintState(before, grid.Length0, grid.Length1, cursor).cells, grid.Length0, grid.Length1);
    }

    /** A release ends the drag. */
    method Release()
      modifies this`dragging
      ensures State() == ReleaseState(old(State()))
    {
      dragging := false;
    }

    /** The Clear button: grid.fill(0). */
    method Clear()
      modifies grid
      ensures State() == old(State()).(cells := Blank(grid.Length0, grid.Length1))
    {
      forall x, y | 0 <= x < grid.Length0 && 0 <= y < grid.Length1 {
        grid[x, y] := 0;
      }
      SameGrid(Cells(grid), Blank(grid.Length0, grid.Length1), grid.Length0, grid.Length1);
    }

    /** The grid is replaced by a new array holding the given cells (randomize_grid,
        whose random draw is taken as the argument). */
    method Replace(cells: Grid)
      requires IsGrid(cells, grid.Length0, grid.Length1)
      modifies this`grid
      ensures fresh(grid) && grid.Length0 == old(grid.Length0) && grid.Length1 == old(grid.Length1)
      ensures State() == old(State()).(cells := cells)
    {
      var w, h := grid.Length0, grid.Length1;
      grid := new int[w, h]((x, y) requires InGrid(w, h, x, y) => cells[x][y]);
      SameGrid(Cells(grid), cells, w, h);
    }
  }

  /** A drag gesture, then a second gesture started on the first one's cell.  The first
      (press on dead a, repaint over dead b, release) leaves both a and b live; the
      second starts on the now live a, so it paints 0 and leaves both dead. */
  lemma DragPaintScenario(s: EditState, w: nat, h: nat, a: (int, int), b: (int, int))
    requires IsGrid(s.cells, w, h) && InGrid(w, h, a.0, a.1) && InGrid(w, h, b.0, b.1)
    requires a != b && s.cells[a.0][a.1] == 0 && s.cells[b.0][b.1] == 0
    ensures var first := ReleaseState(RepaintState(PressState(s, w, h, a.0, a.1), w, h, Some(b)));
            first.cells[a.0][a.1] == 1 && first.cells[b.0][b.1] == 1 && first.toggleTarget == 1 && !first.dragging
    ensures var first := ReleaseState(RepaintState(PressState(s, w, h, a.0, a.1), w, h, Some(b)));
            var second := ReleaseState(RepaintState(PressState(first, w, h, a.0, a.1), w, h, Some(b)));
            second.cells[a.0][a.1] == 0 && second.cells[b.0][b.1] == 0 && second.toggleTarget == 0 && !second.dragging
  {
  }

  /** The simulation clock: paused (initially true) and game_speed, the frame rate,
      which never drops below 1.  Conway_basic.py has no game_speed (it ticks at a fixed
      10 frames per second): ConwayBasic uses only paused and never reads or writes speed. */
  class Clock {
    var paused: bool
    var speed: int

    ghost predicate Valid()
      reads this
    {
      speed >= 1
    }

    /** paused = True at the start of main, game_speed = 10. */
    constructor ()
      ensures Valid() && paused && speed == 10
    {
      paused := true;
      speed := 10;
    }

    /** The Space key. */
    method TogglePause()
      modifies this`paused
      ensures paused == !old(paused)
    {
      paused := !paused;
    }

    /** The Start button (start_simulation). */
    method Start()
      modifies this`paused
      ensures !paused
    {
      paused := false;
    }

    /** The + or = key: one more frame per second, no upper bound. */
    method SpeedUp()
      requires Valid()
      modifies this`speed
      ensures Valid() && speed == old(speed) + 1
    {
      speed := speed + 1;
    }

    /** The - key: one frame per second less, floored at 1. */
    method SlowDown()
      requires Valid()
      modifies this`speed
      ensures Valid() && speed == (if old(speed) > 1 then old(speed) - 1 else 1)
    {
      speed := Max(1, speed - 1);
    }
  }
}
