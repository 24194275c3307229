/** The Game of Life grid shared by both programs (Conway.py and Conway_basic.py).

    A grid is the dense W x H numpy array of the source, indexed [x][y] with x along
    the width: a cell holds 1 (alive) or 0 (dead).  The array holds Python ints, so
    the model keeps cells as `int` and states the life rule for binary grids. */
module Life {

  datatype Option<T> = None | Some(value: T)

  type Grid = seq<seq<int>>

  predicate IsGrid(g: Grid, w: nat, h: nat)
  {
    |g| == w && forall x :: 0 <= x < w ==> |g[x]| == h
  }

  predicate InGrid(w: int, h: int, x: int, y: int)
  {
    0 <= x < w && 0 <= y < h
  }

  predicate Binary(g: Grid)
  {
    forall x, y :: 0 <= x < |g| && 0 <= y < |g[x]| ==> g[x][y] == 0 || g[x][y] == 1
  }

  predicate AllDead(g: Grid)
  {
    forall x, y :: 0 <= x < |g| && 0 <= y < |g[x]| ==> g[x][y] == 0
  }

  function Max(a: int, b: int): int { if a < b then b else a }

  function Min(a: int, b: int): int { if a < b then a else b }

  /** The value held by an array2, as a grid. */
  ghost function Cells(a: array2<int>): (g: Grid)
    reads a
    ensures IsGrid(g, a.Length0, a.Length1)
    ensures forall x, y :: InGrid(a.Length0, a.Length1, x, y) ==> g[x][y] == a[x, y]
  {
    seq(a.Length0, x requires 0 <= x < a.Length0 reads a =>
      seq(a.Length1, y requires 0 <= y < a.Length1 reads a => a[x, y]))
  }

  /** The all-dead W x H grid (np.zeros, grid.fill(0)). */
  function Blank(w: nat, h: nat): (r: Grid)
    ensures IsGrid(r, w, h) && AllDead(r) && Binary(r)
  {
    seq(w, x => seq(h, y => 0))
  }

  /** Two grids of one shape that agree on every cell are equal. */
  lemma SameGrid(g1: Grid, g2: Grid, w: nat, h: nat)
    requires IsGrid(g1, w, h) && IsGrid(g2, w, h)
    requires forall x, y :: InGrid(w, h, x, y) ==> g1[x][y] == g2[x][y]
    ensures g1 == g2
  {
    forall x | 0 <= x < w
      ensures g1[x] == g2[x]
    {
      assert forall y :: 0 <= y < h ==> g1[x][y] == g2[x][y] by {
        forall y | 0 <= y < h ensures g1[x][y] == g2[x][y] {
          assert InGrid(w, h, x, y);
        }
      }
    }
  }

  // ---------------------------------------------------------------------------
  // The per-cell rule

  /** The next state of one cell with value v and n live neighbours, in the branch
      form update_grid uses: a cell holding 1 dies below 2 or above 3 neighbours;
      any other cell becomes 1 on exactly 3 and otherwise keeps its value.
      On binary cells this is rule B3/S23: alive next iff n == 3, or alive now and n == 2. */
  function NextCell(v: int, n: int): (r: int)
    ensures (v == 0 || v == 1) ==> (r == 0 || r == 1)
    ensures (v == 0 || v == 1) ==> (r == 1 <==> n == 3 || (v == 1 && n == 2))
    ensures v != 1 && n != 3 ==> r == v
  {
    if v == 1 then (if n < 2 || n > 3 then 0 else 1)
    else if n == 3 then 1
    else v
  }

  // ---------------------------------------------------------------------------
  // np.sum over a rectangular slice of the grid

  /** The sum of col[y0..y1] (zero when the slice is empty). */
  function ColSum(col: seq<int>, y0: int, y1: int): int
    requires 0 <= y0 && y1 <= |col|
    decreases y1 - y0
  {
    if y1 <= y0 then 0 else ColSum(col, y0, y1 - 1) + col[y1 - 1]
  }

  /** The sum of g[x0..x1, y0..y1] (zero when either range is empty). */
  function WindowSum(g: Grid, w: nat, h: nat, x0: int, x1: int, y0: int, y1: int): int
    requires IsGrid(g, w, h) && 0 <= x0 && x1 <= w && 0 <= y0 && y1 <= h
    decreases x1 - x0
  {
    if x1 <= x0 then 0 else WindowSum(g, w, h, x0, x1 - 1, y0, y1) + ColSum(g[x1 - 1], y0, y1)
  }

  /** np.sum(a[x0:x1, y0:y1]) for bounds already normalised to the array's shape. */
  method WindowTotal(a: array2<int>, x0: nat, x1: nat, y0: nat, y1: nat) returns (s: int)
    requires x0 <= a.Length0 && x1 <= a.Length0 && y0 <= a.Length1 && y1 <= a.Length1
    ensures s == WindowSum(Cells(a), a.Length0, a.Length1, x0, x1, y0, y1)
  {
    ghost var g := Cells(a);
    s := 0;
    var x := x0;
    while x < x1
      invariant x0 <= x <= Max(x0, x1)
      invariant s == WindowSum(g, a.Length0, a.Length1, x0, x, y0, y1)
    {
      var t := 0;
      var y := y0;
      while y < y1
        invariant y0 <= y <= Max(y0, y1)
        invariant t == ColSum(g[x], y0, y)
      {
        t := t + a[x, y];
        y := y + 1;
      }
      s := s + t;
      x := x + 1;
    }
  }

  /** Any window of an all-dead grid sums to zero. */
  lemma {:induction false} EmptyWindow(g: Grid, w: nat, h: nat, x0: int, x1: int, y0: int, y1: int)
    requires IsGrid(g, w, h) && AllDead(g) && 0 <= x0 && x1 <= w && 0 <= y0 && y1 <= h
    ensures WindowSum(g, w, h, x0, x1, y0, y1) == 0
    decreases x1 - x0
  {
    if x0 < x1 {
      EmptyWindow(g, w, h, x0, x1 - 1, y0, y1);
      DeadColumn(g[x1 - 1], y0, y1);
    }
  }

  /** Any slice of an all-zero column sums to zero. */
  lemma {:induction false} DeadColumn(col: seq<int>, y0: int, y1: int)
    requires 0 <= y0 && y1 <= |col| && forall y :: 0 <= y < |col| ==> col[y] == 0
    ensures ColSum(col, y0, y1) == 0
    decreases y1 - y0
  {
    if y0 < y1 {
      DeadColumn(col, y0, y1 - 1);
    }
  }

  /** A window whose row range is empty sums to zero. */
  lemma {:induction false} EmptyRowsWindow(g: Grid, w: nat, h: nat, x0: int, x1: int, y0: int, y1: int)
    requires IsGrid(g, w, h) && 0 <= x0 && x1 <= w && 0 <= y0 && y1 <= h
    requires y1 <= y0
    ensures WindowSum(g, w, h, x0, x1, y0, y1) == 0
    decreases x1 - x0
  {
    if x0 < x1 {
      EmptyRowsWindow(g, w, h, x0, x1 - 1, y0, y1);
    }
  }

  // ---------------------------------------------------------------------------
  // Neighbour counts

  /** The neighbour count of Conway.py: the window [x-1, x+2) x [y-1, y+2) clipped to
      the grid with max/min (no wrap-around), minus the cell itself. */
  function ClippedCount(g: Grid, w: nat, h: nat, x: int, y: int): int
    requires IsGrid(g, w, h) && InGrid(w, h, x, y)
  {
    WindowSum(g, w, h, Max(x - 1, 0), Min(x + 2, w), Max(y - 1, 0), Min(y + 2, h)) - g[x][y]
  }

  /** 1 when (x, y) is inside the grid and alive, 0 otherwise. */
  function Live(g: Grid, w: nat, h: nat, x: int, y: int): int
    requires IsGrid(g, w, h)
  {
    if InGrid(w, h, x, y) && g[x][y] == 1 then 1 else 0
  }

  /** The reference count: the live cells among the eight in-range Moore neighbours. */
  function MooreCount(g: Grid, w: nat, h: nat, x: int, y: int): (n: int)
    requires IsGrid(g, w, h)
    ensures 0 <= n <= 8
  {
    Live(g, w, h, x - 1, y - 1) + Live(g, w, h, x, y - 1) + Live(g, w, h, x + 1, y - 1)
    + Live(g, w, h, x - 1, y) + Live(g, w, h, x + 1, y)
    + Live(g, w, h, x - 1, y + 1) + Live(g, w, h, x, y + 1) + Live(g, w, h, x + 1, y + 1)
  }

  /** The clipped slice of one in-range column around y sums the cells y-1, y, y+1 that exist. */
  lemma ColumnWindow(g: Grid, w: nat, h: nat, x: int, y: int)
    requires IsGrid(g, w, h) && Binary(g) && InGrid(w, h, x, y)
    ensures ColSum(g[x], Max(y - 1, 0), Min(y + 2, h))
         == Live(g, w, h, x, y - 1) + Live(g, w, h, x, y) + Live(g, w, h, x, y + 1)
  {
    var col := g[x];
    var y0, y1 := Max(y - 1, 0), Min(y + 2, h);
    forall k | 0 <= k < h
      ensures col[k] == Live(g, w, h, x, k)
    {
      assert g[x][k] == 0 || g[x][k] == 1;
    }
    assert ColSum(col, y0, y0) == 0;
    if y0 + 1 <= y1 { assert ColSum(col, y0, y0 + 1) == col[y0]; }
    if y0 + 2 <= y1 { assert ColSum(col, y0, y0 + 2) == col[y0] + col[y0 + 1]; }
    if y0 + 3 <= y1 { assert ColSum(col, y0, y0 + 3) == col[y0] + col[y0 + 1] + col[y0 + 2]; }
  }

  /** The column sum of column x over [y0, y1), or 0 when x is outside the grid. */
  function ColumnOrZero(g: Grid, w: nat, h: nat, x: int, y0: int, y1: int): int
    requires IsGrid(g, w, h) && 0 <= y0 && y1 <= h
  {
    if 0 <= x < w then ColSum(g[x], y0, y1) else 0
  }

  /** The clipped column range around x sums the columns x-1, x, x+1 that exist. */
  lemma RowWindow(g: Grid, w: nat, h: nat, x: int, y0: int, y1: int)
    requires IsGrid(g, w, h) && 0 <= x < w && 0 <= y0 && y1 <= h
    ensures WindowSum(g, w, h, Max(x - 1, 0), Min(x + 2, w), y0, y1)
         == ColumnOrZero(g, w, h, x - 1, y0, y1) + ColumnOrZero(g, w, h, x, y0, y1)
          + ColumnOrZero(g, w, h, x + 1, y0, y1)
  {
    var x0, x1 := Max(x - 1, 0), Min(x + 2, w);
    assert WindowSum(g, w, h, x0, x0, y0, y1) == 0;
    if x0 + 1 <= x1 {
      assert WindowSum(g, w, h, x0, x0 + 1, y0, y1) == ColSum(g[x0], y0, y1);
    }
    if x0 + 2 <= x1 {
      assert WindowSum(g, w, h, x0, x0 + 2, y0, y1) == ColSum(g[x0], y0, y1) + ColSum(g[x0 + 1], y0, y1);
    }
    if x0 + 3 <= x1 {
      assert WindowSum(g, w, h, x0, x0 + 3, y0, y1)
          == ColSum(g[x0], y0, y1) + ColSum(g[x0 + 1], y0, y1) + ColSum(g[x0 + 2], y0, y1);
    }
  }

  /** On a binary grid the clipped window count of Conway.py is the number of live
      in-range Moore neighbours: the clipping drops exactly the missing neighbours. */
  lemma ClippedCountIsMoore(g: Grid, w: nat, h: nat, x: int, y: int)
    requires IsGrid(g, w, h) && Binary(g) && InGrid(w, h, x, y)
    ensures ClippedCount(g, w, h, x, y) == MooreCount(g, w, h, x, y)
  {
    var y0, y1 := Max(y - 1, 0), Min(y + 2, h);
    RowWindow(g, w, h, x, y0, y1);
    if 0 <= x - 1 { ColumnWindow(g, w, h, x - 1, y); }
    ColumnWindow(g, w, h, x, y);
    if x + 1 < w { ColumnWindow(g, w, h, x + 1, y); }
    assert g[x][y] == Live(g, w, h, x, y) by {
      assert g[x][y] == 0 || g[x][y] == 1;
    }
  }

  // ---------------------------------------------------------------------------
  // Stamping a pattern onto the grid

  /** The grid g with every in-range cell (sx + px, sy + py), (px, py) in live, set to 1:
      how the RLE loader and the preset buttons place a pattern (an overlay that writes
      only 1s and only inside the grid). */
  function Overlay(g: Grid, w: nat, h: nat, live: set<(int, int)>, sx: int, sy: int): (r: Grid)
    requires IsGrid(g, w, h)
    ensures IsGrid(r, w, h)
    ensures forall x, y :: InGrid(w, h, x, y) && g[x][y] == 1 ==> r[x][y] == 1
    ensures forall x, y :: InGrid(w, h, x, y) && r[x][y] != g[x][y] ==> r[x][y] == 1 && (x - sx, y - sy) in live
    ensures forall px, py :: (px, py) in live && InGrid(w, h, sx + px, sy + py) ==> r[sx + px][sy + py] == 1
    ensures Binary(g) ==> Binary(r)
  {
    seq(w, x requires 0 <= x < w =>
      seq(h, y requires 0 <= y < h => if (x - sx, y - sy) in live then 1 else g[x][y]))
  }
}
