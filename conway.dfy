/** Conway.py: a 120 x 80 grid whose generation step clips the neighbour window at the
    grid's edges, an RLE loader behind the Open RLE button, and speed keys. */
module Conway {
  import opened Life
  import opened Controls
  import Rle

  const ScreenWidth := 1200
  const ScreenHeight := 800
  const CellSize := 10
  const GridWidth := ScreenWidth / CellSize
  const GridHeight := ScreenHeight / CellSize

  // ---------------------------------------------------------------------------
  // The generation step

  /** The next generation as update_grid computes it: every cell passes NextCell with
      the clipped window count. */
  function Step(g: Grid, w: nat, h: nat): (r: Grid)
    requires IsGrid(g, w, h)
    ensures IsGrid(r, w, h)
  {
    seq(w, x requires 0 <= x < w =>
      seq(h, y requires 0 <= y < h => NextCell(g[x][y], ClippedCount(g, w, h, x, y))))
  }

  /** On a binary grid the step is rule B3/S23 over the in-range Moore neighbours, with
      no wrap-around: a cell is alive next iff it has exactly 3 live neighbours, or it
      is alive and has exactly 2.  The result is binary again. */
  lemma StepIsLife(g: Grid, w: nat, h: nat)
    requires IsGrid(g, w, h) && Binary(g)
    ensures Binary(Step(g, w, h))
    ensures forall x, y :: InGrid(w, h, x, y) ==>
      (Step(g, w, h)[x][y] == 1 <==> MooreCount(g, w, h, x, y) == 3 || (g[x][y] == 1 && MooreCount(g, w, h, x, y) == 2))
  {
    forall x, y | InGrid(w, h, x, y)
      ensures Step(g, w, h)[x][y] == 1 <==> MooreCount(g, w, h, x, y) == 3 || (g[x][y] == 1 && MooreCount(g, w, h, x, y) == 2)
    {
      ClippedCountIsMoore(g, w, h, x, y);
    }
  }

  /** No spontaneous generation: an all-dead grid steps to an all-dead grid. */
  lemma StepAllDead(g: Grid, w: nat, h: nat)
    requires IsGrid(g, w, h) && AllDead(g)
    ensures AllDead(Step(g, w, h))
  {
    forall x, y | InGrid(w, h, x, y)
      ensures Step(g, w, h)[x][y] == 0
    {
      EmptyWindow(g, w, h, Max(x - 1, 0), Min(x + 2, w), Max(y - 1, 0), Min(y + 2, h));
    }
  }

  /** The number update_grid compares against 2 and 3 for cell (x, y):
      np.sum over the clipped window minus the cell itself. */
  method NeighbourCount(g: array2<int>, x: int, y: int) returns (n: int)
    requires InGrid(g.Length0, g.Length1, x, y)
    ensures n == ClippedCount(Cells(g), g.Length0, g.Length1, x, y)
  {
    var total := WindowTotal(g, Max(x - 1, 0), Min(x + 2, g.Length0), Max(y - 1, 0), Min(y + 2, g.Length1));
    n := total - g[x, y];
  }

  /** update_grid (Conway.py:187-198): a copy of the grid, then a pass over every cell
      that writes 0 where a live cell dies and 1 where a dead cell is born.  The argument
      is not modified (the method has no modifies clause). */
  method UpdateGrid(g: array2<int>) returns (r: array2<int>)
    requires g.Length0 == GridWidth && g.Length1 == GridHeight
    ensures fresh(r) && r.Length0 == GridWidth && r.Length1 == GridHeight
    ensures Cells(r) == Step(Cells(g), GridWidth, GridHeight)
  {
    ghost var next := Step(Cells(g), GridWidth, GridHeight);
    r := new int[GridWidth, GridHeight]((i, j) reads g => if InGrid(GridWidth, GridHeight, i, j) then g[i, j] else 0);
    var x := 0;
    while x < GridWidth
      invariant 0 <= x <= GridWidth
      invariant forall i, j :: InGrid(x, GridHeight, i, j) ==> r[i, j] == next[i][j]
      invariant forall i, j :: x <= i < GridWidth && 0 <= j < GridHeight ==> r[i, j] == g[i, j]
    {
      StepColumn(g, r, x, Cells(g), next[x]);
      x := x + 1;
    }
    SameGrid(Cells(r), next, GridWidth, GridHeight);
  }

  lemma NextFromCount(g: array2<int>, cg: Grid, x: int, y: int, col: seq<int>, alive: int)
    requires g.Length0 == GridWidth && g.Length1 == GridHeight && InGrid(GridWidth, GridHeight, x, y)
    requires cg == Cells(g) && |col| == GridHeight
    requires forall j {:trigger ClippedCount(cg, GridWidth, GridHeight, x, j)} :: 0 <= j < GridHeight ==> col[j] == NextCell(cg[x][j], ClippedCount(cg, GridWidth, GridHeight, x, j))
    requires alive == ClippedCount(Cells(g), g.Length0, g.Length1, x, y)
    ensures col[y] == NextCell(g[x, y], alive)
  {
  }

  /** The inner loop of update_grid over the cells of column x. */
  method StepColumn(g: array2<int>, r: array2<int>, x: int, ghost cg: Grid, ghost col: seq<int>)
    requires g.Length0 == r.Length0 == GridWidth && g.Length1 == r.Length1 == GridHeight && g != r
    requires 0 <= x < GridWidth && cg == Cells(g) && |col| == GridHeight
    requires forall j {:trigger ClippedCount(cg, GridWidth, GridHeight, x, j)} :: 0 <= j < GridHeight ==> col[j] == NextCell(cg[x][j], ClippedCount(cg, GridWidth, GridHeight, x, j))
    requires forall j :: 0 <= j < GridHeight ==> r[x, j] == g[x, j]
    modifies r
    ensures forall j :: 0 <= j < GridHeight ==> r[x, j] == col[j]
    ensures forall i, j :: InGrid(GridWidth, GridHeight, i, j) && i != x ==> r[i, j] == old(r[i, j])
  {
    var y := 0;
    while y < GridHeight
      invariant 0 <= y <= GridHeight
      invariant forall j :: 0 <= j < y ==> r[x, j] == col[j]
      invariant forall j :: y <= j < GridHeight ==> r[x, j] == g[x, j]
      invariant forall i, j :: InGrid(GridWidth, GridHeight, i, j) && i != x ==> r[i, j] == old(r[i, j])
    {
      var alive := NeighbourCount(g, x, y);
      NextFromCount(g, cg, x, y, col, alive);
      if g[x, y] == 1 {
        if alive < 2 || alive > 3 {
          r[x, y] := 0;
        }
      } else {
        if alive == 3 {
          r[x, y] := 1;
        }
      }
      y := y + 1;
    }
  }

  // ---------------------------------------------------------------------------
  // The event loop

  /** The menu buttons; Open RLE carries the file dialog's result (None when cancelled). */
  datatype Button = StartButton | OpenRleButton(choice: Option<Rle.FileChoice>) | ClearButton | HotkeysButton

  /** paused after one event: Space flips it, Start clears it. */
  function PausedAfterEvent(p: bool, e: Event<Button>): bool
  {
    match e
    case KeyDown(Space) => !p
    case MenuPress(Some(StartButton)) => false
    case _ => p
  }

  /** game_speed after one event: + and = raise it, - lowers it but not below 1. */
  function SpeedAfterEvent(s: int, e: Event<Button>): int
  {
    match e
    case KeyDown(Plus) => s + 1
    case KeyDown(Equals) => s + 1
    case KeyDown(Minus) => Max(1, s - 1)
    case _ => s
  }

  function PausedAfter(p: bool, es: seq<Event<Button>>): bool
  {
    if es == [] then p else PausedAfterEvent(PausedAfter(p, es[..|es| - 1]), es[|es| - 1])
  }

  function SpeedAfter(s: int, es: seq<Event<Button>>): int
  {
    if es == [] then s else SpeedAfterEvent(SpeedAfter(s, es[..|es| - 1]), es[|es| - 1])
  }

  /** The speed never drops below 1, whatever keys are pressed. */
  lemma {:induction false} SpeedStaysPositive(s: int, es: seq<Event<Button>>)
    requires s >= 1
    ensures SpeedAfter(s, es) >= 1
  {
    if es != [] {
      SpeedStaysPositive(s, es[..|es| - 1]);
    }
  }

  /** A frame whose events hold no Space press and no Start press leaves paused as it was. */
  lemma {:induction false} PauseOnlyByKeys(p: bool, es: seq<Event<Button>>)
    requires forall k :: 0 <= k < |es| ==> es[k] != KeyDown(Space) && es[k] != MenuPress(Some(StartButton))
    ensures PausedAfter(p, es) == p
  {
    if es != [] {
      PauseOnlyByKeys(p, es[..|es| - 1]);
    }
  }

  /** paused after two runs of events is paused after the second, started from the first. */
  lemma {:induction false} PausedAfterAppend(p: bool, es: seq<Event<Button>>, more: seq<Event<Button>>)
    ensures PausedAfter(p, es + more) == PausedAfter(PausedAfter(p, es), more)
    decreases |more|
  {
    if more == [] {
      assert es + more == es;
    } else {
      assert (es + more)[..|es + more| - 1] == es + more[..|more| - 1];
      PausedAfterAppend(p, es, more[..|more| - 1]);
    }
  }

  /** When the last Space or Start event is a Start press, the simulation runs. */
  lemma StartWins(p: bool, es: seq<Event<Button>>, more: seq<Event<Button>>)
    requires forall k :: 0 <= k < |more| ==> more[k] != KeyDown(Space) && more[k] != MenuPress(Some(StartButton))
    ensures !PausedAfter(p, es + [MenuPress(Some(StartButton))] + more)
  {
    var start: Event<Button> := MenuPress(Some(StartButton));
    PausedAfterAppend(p, es + [start], more);
    assert (es + [start])[..|es|] == es;
    PauseOnlyByKeys(false, more);
  }

  predicate GridEvent(e: Event<Button>)
  {
    e.GridPress? ==> InGrid(GridWidth, GridHeight, e.x, e.y)
  }

  /** The editor state after one event: a grid press toggles its cell and starts a drag,
      a release ends the drag, Clear empties the grid and Open RLE with a chosen file
      loads it; keys, Start, Hotkeys, a cancelled dialog and a press on no button leave
      the state as it was. */
  function EventState(s: EditState, e: Event<Button>): (r: EditState)
    requires IsGrid(s.cells, GridWidth, GridHeight) && GridEvent(e)
    ensures IsGrid(r.cells, GridWidth, GridHeight)
    ensures ValidState(s) ==> ValidState(r)
  {
    match e
    case GridPress(x, y) => PressState(s, GridWidth, GridHeight, x, y)
    case MouseUp => ReleaseState(s)
    case MenuPress(Some(ClearButton)) => s.(cells := Blank(GridWidth, GridHeight))
    case MenuPress(Some(OpenRleButton(Some(c)))) =>
      s.(cells := Rle.LoadedGrid(s.cells, GridWidth, GridHeight, c.lines, c.proceed))
    case _ => s
  }

  /** The editor state after a frame's events, in order. */
  function StateAfter(s: EditState, es: seq<Event<Button>>): (r: EditState)
    requires IsGrid(s.cells, GridWidth, GridHeight) && forall k :: 0 <= k < |es| ==> GridEvent(es[k])
    ensures IsGrid(r.cells, GridWidth, GridHeight)
    ensures ValidState(s) ==> ValidState(r)
  {
    if es == [] then s else EventState(StateAfter(s, es[..|es| - 1]), es[|es| - 1])
  }

  /** Key presses never touch the grid or the drag state. */
  lemma {:induction false} KeysKeepState(s: EditState, es: seq<Event<Button>>)
    requires IsGrid(s.cells, GridWidth, GridHeight) && forall k :: 0 <= k < |es| ==> es[k].KeyDown?
    ensures StateAfter(s, es) == s
  {
    if es != [] {
      KeysKeepState(s, es[..|es| - 1]);
    }
  }

  /** The step of a frame: one generation unless paused.  A 0/1 grid stays 0/1. */
  function Advance(s: EditState, paused: bool): (r: EditState)
    requires IsGrid(s.cells, GridWidth, GridHeight)
    ensures IsGrid(r.cells, GridWidth, GridHeight) && r.dragging == s.dragging && r.toggleTarget == s.toggleTarget
    ensures paused ==> r == s
    ensures ValidState(s) ==> ValidState(r)
  {
    if paused then s
    else
      StepKeepsValid(s);
      s.(cells := Step(s.cells, GridWidth, GridHeight))
  }

  /** A step keeps a valid state valid: B3/S23 yields 0/1 cells. */
  lemma StepKeepsValid(s: EditState)
    requires IsGrid(s.cells, GridWidth, GridHeight)
    ensures ValidState(s) ==> ValidState(s.(cells := Step(s.cells, GridWidth, GridHeight)))
  {
    if ValidState(s) {
      StepIsLife(s.cells, GridWidth, GridHeight);
    }
  }

  /** The editor state after a whole frame: the events, the drag repaint at the mouse's
      cell, then the step unless paused. */
  function FrameState(s: EditState, es: seq<Event<Button>>, cursor: Option<(int, int)>, paused: bool): (r: EditState)
    requires IsGrid(s.cells, GridWidth, GridHeight) && forall k :: 0 <= k < |es| ==> GridEvent(es[k])
    requires cursor.Some? ==> InGrid(GridWidth, GridHeight, cursor.value.0, cursor.value.1)
    ensures IsGrid(r.cells, GridWidth, GridHeight)
    ensures ValidState(s) ==> ValidState(r)
  {
    Advance(RepaintState(StateAfter(s, es), GridWidth, GridHeight, cursor), paused)
  }

  /** A paused frame with only key presses and the mouse off the grid changes nothing. */
  lemma IdleFrame(s: EditState, es: seq<Event<Button>>, cursor: Option<(int, int)>)
    requires IsGrid(s.cells, GridWidth, GridHeight) && forall k :: 0 <= k < |es| ==> es[k].KeyDown?
    requires cursor.Some? ==> InGrid(GridWidth, GridHeight, cursor.value.0, cursor.value.1)
    requires cursor.None? || !s.dragging
    ensures FrameState(s, es, cursor, true) == s
  {
    KeysKeepState(s, es);
  }

  /** One iteration of the event loop of main (Conway.py:227-249). */
  method HandleEvent(ed: Editor, clock: Clock, e: Event<Button>) returns (loaded: Option<Rle.Outcome>)
    requires ed.grid.Length0 == GridWidth && ed.grid.Length1 == GridHeight && clock.Valid()
    requires GridEvent(e)
    modifies ed`dragging, ed`toggleTarget, ed.grid, clock
    ensures clock.Valid()
    ensures clock.paused == PausedAfterEvent(old(clock.paused), e)
    ensures clock.speed == SpeedAfterEvent(old(clock.speed), e)
    ensures ed.State() == EventState(old(ed.State()), e)
    ensures match e
            case MenuPress(Some(OpenRleButton(Some(c)))) => loaded == Some(Rle.Verdict(c.lines, GridWidth, GridHeight, c.proceed))
            case _ => loaded == None
  {
    loaded := None;
    match e {
      case KeyDown(k) =>
        if k == Space {
          clock.TogglePause();
        } else if k == Plus || k == Equals {
          clock.SpeedUp();
        } else if k == Minus {
          clock.SlowDown();
        }
      case GridPress(x, y) =>
        ed.Press(x, y);
      case MenuPress(b) =>
        if b.Some? {
          match b.value {
            case StartButton =>
              clock.Start();
            case OpenRleButton(choice) =>
              if choice.Some? {
                var outcome := Rle.ParseRle(ed.grid, choice.value.lines, choice.value.proceed);
                loaded := Some(outcome);
              }
            case ClearButton =>
              ed.Clear();
            case HotkeysButton =>
          }
        }
      case MouseUp =>
        ed.Release();
    }
  }

  /** The per-frame step: exactly one generation when not paused, none when paused. */
  method Tick(ed: Editor, clock: Clock)
    requires ed.grid.Length0 == GridWidth && ed.grid.Length1 == GridHeight
    modifies ed`grid
    ensures ed.grid.Length0 == GridWidth && ed.grid.Length1 == GridHeight
    ensures clock.paused ==> ed.grid == old(ed.grid)
    ensures !clock.paused ==> fresh(ed.grid)
    ensures ed.State() == Advance(old(ed.State()), clock.paused)
  {
    if !clock.paused {
      ed.grid := UpdateGrid(ed.grid);
    }
  }

  /** The folds over the first k + 1 events are one more event applied to the folds over
      the first k. */
  lemma OneMoreEvent(s: EditState, p: bool, v: int, es: seq<Event<Button>>, k: int)
    requires IsGrid(s.cells, GridWidth, GridHeight) && forall i :: 0 <= i < |es| ==> GridEvent(es[i])
    requires 0 <= k < |es|
    ensures StateAfter(s, es[..k + 1]) == EventState(StateAfter(s, es[..k]), es[k])
    ensures PausedAfter(p, es[..k + 1]) == PausedAfterEvent(PausedAfter(p, es[..k]), es[k])
    ensures SpeedAfter(v, es[..k + 1]) == SpeedAfterEvent(SpeedAfter(v, es[..k]), es[k])
  {
    assert es[..k + 1][..k] == es[..k];
  }

  /** The event loop of one frame (Conway.py:227-249): each event in turn. */
  method HandleEvents(ed: Editor, clock: Clock, events: seq<Event<Button>>)
    requires ed.grid.Length0 == GridWidth && ed.grid.Length1 == GridHeight && clock.Valid()
    requires forall k :: 0 <= k < |events| ==> GridEvent(events[k])
    modifies ed`dragging, ed`toggleTarget, ed.grid, clock
    ensures clock.Valid()
    ensures clock.paused == PausedAfter(old(clock.paused), events)
    ensures clock.speed == SpeedAfter(old(clock.speed), events)
    ensures ed.State() == StateAfter(old(ed.State()), events)
  {
    ghost var s0, p0, v0 := ed.State(), clock.paused, clock.speed;
    var k := 0;
    while k < |events|
      invariant 0 <= k <= |events|
      invariant clock.Valid()
      invariant clock.paused == PausedAfter(p0, events[..k])
      invariant clock.speed == SpeedAfter(v0, events[..k])
      invariant ed.State() == StateAfter(s0, events[..k])
    {
      OneMoreEvent(s0, p0, v0, events, k);
      var _ := HandleEvent(ed, clock, events[k]);
      k := k + 1;
    }
    assert events[..k] == events;
  }

  /** One pass of the main loop (Conway.py:224-258): the frame's events in order, the
      drag repaint at the mouse's cell (None over the menu bar), then the step. */
  method Frame(ed: Editor, clock: Clock, events: seq<Event<Button>>, cursor: Option<(int, int)>)
    requires ed.grid.Length0 == GridWidth && ed.grid.Length1 == GridHeight && clock.Valid()
    requires forall k :: 0 <= k < |events| ==> GridEvent(events[k])
    requires cursor.Some? ==> InGrid(GridWidth, GridHeight, cursor.value.0, cursor.value.1)
    modifies ed, ed.grid, clock
    ensures ed.grid.Length0 == GridWidth && ed.grid.Length1 == GridHeight && clock.Valid()
    ensures clock.paused == PausedAfter(old(clock.paused), events)
    ensures clock.speed == SpeedAfter(old(clock.speed), events)
    ensures ed.State() == FrameState(old(ed.State()), events, cursor, clock.paused)
    ensures old(ed.Valid()) ==> ed.Valid()
  {
    HandleEvents(ed, clock, events);
    ed.Repaint(cursor);
    Tick(ed, clock);
  }
}
