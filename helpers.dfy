/** Grid algebra of the histogram filter (3_3_2D_Histogram_Filter/helpers.py):
    in-place normalisation, the 3x3 wrap-around blur, the localisation
    verdict and the tolerance comparison used by the tests. */
module Helpers {
  import opened Outcomes
  import opened Grid
  import Modular

  // ---------------------------------------------------------------------
  // normalize
  // ---------------------------------------------------------------------

  /** A row with every cell divided by t. */
  function DivRow(r: seq<real>, t: real): (q: seq<real>)
    requires t != 0.0 || |r| == 0
    ensures |q| == |r| && forall j :: 0 <= j < |r| ==> q[j] == r[j] / t
  {
    seq(|r|, j requires 0 <= j < |r| => r[j] / t)
  }

  /** A grid with every cell divided by t (t may be 0 only if there is no cell). */
  function Scale(g: Grid, t: real): (r: Grid)
    requires t != 0.0 || NoCells(g)
    ensures |r| == |g| && forall i :: 0 <= i < |g| ==> r[i] == DivRow(g[i], t)
  {
    seq(|g|, i requires 0 <= i < |g| => DivRow(g[i], t))
  }

  /** What `normalize` leaves in the grid when it does not raise. */
  function NormalizeSpec(g: Grid): (r: Grid)
    requires Total(g) != 0.0 || NoCells(g)
    ensures |r| == |g| && forall i :: 0 <= i < |g| ==> |r[i]| == |g[i]|
  {
    Scale(g, Total(g))
  }

  lemma DivAdd(x: real, y: real, t: real)
    requires t != 0.0
    ensures x / t + y / t == (x + y) / t
  {
  }

  lemma {:induction false} RowSumDiv(r: seq<real>, t: real)
    requires t != 0.0
    ensures RowSum(DivRow(r, t)) == RowSum(r) / t
  {
    var n := |r|;
    if n > 0 {
      assert DivRow(r, t)[..n - 1] == DivRow(r[..n - 1], t);
      RowSumDiv(r[..n - 1], t);
      DivAdd(RowSum(r[..n - 1]), r[n - 1], t);
    }
  }

  lemma {:induction false} ScaleTotal(g: Grid, t: real)
    requires t != 0.0
    ensures Total(Scale(g, t)) == Total(g) / t
  {
    var n := |g|;
    if n > 0 {
      assert Scale(g, t)[..n - 1] == Scale(g[..n - 1], t);
      ScaleTotal(g[..n - 1], t);
      RowSumDiv(g[n - 1], t);
      DivAdd(Total(g[..n - 1]), RowSum(g[n - 1]), t);
    }
  }

  /** After a successful normalisation of a grid with non-zero mass the cells sum to exactly 1. */
  lemma NormalizeTotal(g: Grid)
    requires Total(g) != 0.0
    ensures Total(NormalizeSpec(g)) == 1.0
  {
    var t := Total(g);
    ScaleTotal(g, t);
    assert NormalizeSpec(g) == Scale(g, t);
    DivSelf(t);
  }

  lemma DivSelf(t: real)
    requires t != 0.0
    ensures t / t == 1.0
  {
  }

  lemma DivUnit(x: real, t: real)
    requires 0.0 <= x <= t && t > 0.0
    ensures 0.0 <= x / t <= 1.0
  {
    assert x / t * t == x;
  }

  /** Normalising a non-negative grid with non-zero mass gives cells in [0, 1]. */
  lemma NormalizeBounds(g: Grid)
    requires NonNegative(g) && Total(g) != 0.0
    ensures NonNegative(NormalizeSpec(g))
    ensures forall i, j :: 0 <= i < |g| && 0 <= j < |g[i]| ==> NormalizeSpec(g)[i][j] <= 1.0
  {
    var t := Total(g);
    var r := NormalizeSpec(g);
    TotalNonNegative(g);
    forall i, j | 0 <= i < |g| && 0 <= j < |g[i]|
      ensures 0.0 <= r[i][j] <= 1.0
    {
      CellLeTotal(g, i, j);
      DivUnit(g[i][j], t);
    }
  }

  /** A grid whose mass is already 1 is left as it is. */
  lemma NormalizeOfNormalized(g: Grid)
    requires Total(g) == 1.0
    ensures NormalizeSpec(g) == g
  {
    GridEq(NormalizeSpec(g), g);
  }

  /** `normalize(grid)`: sums the cells, then divides every cell in place by
      the sum and returns the same grid. A zero sum over at least one cell
      raises ZeroDivisionError at the first division, before any store. */
  method Normalize(grid: array2<real>) returns (res: Result<array2<real>>)
    modifies grid
    ensures res.Ok? <==> Total(old(ToSeq(grid))) != 0.0 || NoCells(old(ToSeq(grid)))
    ensures res.Ok? ==> res.value == grid && ToSeq(grid) == NormalizeSpec(old(ToSeq(grid)))
    ensures res.Err? ==> res.error == ZeroDivisionError && ToSeq(grid) == old(ToSeq(grid))
  {
    var total := SumCells(grid);
    var ok := DivideCells(grid, total);
    if !ok {
      return Err(ZeroDivisionError);
    }
    res := Ok(grid);
  }

  /** The first double loop of `normalize`: the sum of every cell. */
  method SumCells(grid: array2<real>) returns (total: real)
    ensures total == Total(ToSeq(grid))
  {
    ghost var g := ToSeq(grid);
    var height, width := grid.Length0, grid.Length1;
    total := 0.0;
    for i := 0 to height
      invariant total == Total(g[..i])
    {
      for j := 0 to width
        invariant total == Total(g[..i]) + RowSum(g[i][..j])
      {
        RowSumPrefix(g[i], j);
        total := total + grid[i, j];
      }
      assert g[i][..width] == g[i];
      TotalPrefix(g, i);
    }
    assert g[..height] == g;
  }

  /** The second double loop of `normalize`: divides every cell in place by
      total. A zero total over at least one cell raises at the first
      division, before any store, which is reported as false. */
  method DivideCells(grid: array2<real>, total: real) returns (ok: bool)
    modifies grid
    ensures ok <==> total != 0.0 || NoCells(old(ToSeq(grid)))
    ensures ok ==> ToSeq(grid) == Scale(old(ToSeq(grid)), total)
    ensures !ok ==> ToSeq(grid) == old(ToSeq(grid))
  {
    ghost var g := ToSeq(grid);
    var height, width := grid.Length0, grid.Length1;
    for i := 0 to height
      invariant total == 0.0 ==> i == 0 || width == 0
      invariant forall a, c :: 0 <= a < i && 0 <= c < width ==> grid[a, c] == g[a][c] / total
      invariant forall a, c :: i <= a < height && 0 <= c < width ==> grid[a, c] == g[a][c]
    {
      for j := 0 to width
        invariant total == 0.0 ==> j == 0
        invariant forall a, c :: 0 <= a < i && 0 <= c < width ==> grid[a, c] == g[a][c] / total
        invariant forall c :: 0 <= c < j ==> grid[i, c] == g[i][c] / total
        invariant forall c :: j <= c < width ==> grid[i, c] == g[i][c]
        invariant forall a, c :: i < a < height && 0 <= c < width ==> grid[a, c] == g[a][c]
      {
        if total == 0.0 {
          GridEq(ToSeq(grid), g);
          assert |g[i]| > 0;
          return false;
        }
        grid[i, j] := grid[i, j] / total;
      }
    }
    if total == 0.0 {
      assert NoCells(g);
    }
    GridEq(ToSeq(grid), Scale(g, total));
    ok := true;
  }

  // ---------------------------------------------------------------------
  // blur
  // ---------------------------------------------------------------------

  /** The 3x3 smoothing window, indexed window[dx + 1][dy + 1]. */
  function Window(blurring: real): (win: seq<seq<real>>)
    ensures Shape(win, 3, 3)
  {
    var centerProb := 1.0 - blurring;
    var cornerProb := blurring / 12.0;
    var adjacentProb := blurring / 6.0;
    [[cornerProb, adjacentProb, cornerProb],
     [adjacentProb, centerProb, adjacentProb],
     [cornerProb, adjacentProb, cornerProb]]
  }

  /** The window weights sum to 1 whatever the blurring factor. */
  lemma WindowTotal(blurring: real)
    ensures Total(Window(blurring)) == 1.0
  {
    var win := Window(blurring);
    Total3(win);
    RowSum3(win[0]);
    RowSum3(win[1]);
    RowSum3(win[2]);
  }

  lemma RowSum3(r: seq<real>)
    requires |r| == 3
    ensures RowSum(r) == r[0] + r[1] + r[2]
  {
    assert r[..0] == [];
    RowSumPrefix(r, 0);
    RowSumPrefix(r, 1);
    RowSumPrefix(r, 2);
    assert r[..3] == r;
  }

  lemma Total3(g: Grid)
    requires |g| == 3
    ensures Total(g) == RowSum(g[0]) + RowSum(g[1]) + RowSum(g[2])
  {
    assert g[..0] == [];
    TotalPrefix(g, 0);
    TotalPrefix(g, 1);
    TotalPrefix(g, 2);
    assert g[..3] == g;
  }


  /** The window is symmetric, so the roles of dx and dy may be swapped. */
  lemma WindowSymmetric(blurring: real, p: int, q: int)
    requires 0 <= p < 3 && 0 <= q < 3
    ensures Window(blurring)[p][q] == Window(blurring)[q][p]
  {
  }

  /** The window scaled by a cell's value: ww[dx + 1][dy + 1] is the share
      `mult * grid_val` that tap (dx, dy) of that cell contributes. */
  function Weighted(win: Grid, v: real): (ww: Grid)
    requires Shape(win, 3, 3)
    ensures Shape(ww, 3, 3)
    ensures forall p, q :: 0 <= p < 3 && 0 <= q < 3 ==> ww[p][q] == win[p][q] * v
  {
    seq(3, p requires 0 <= p < 3 => seq(3, q requires 0 <= q < 3 => win[p][q] * v))
  }

  /** Scaling the window by v scales its mass by v. */
  lemma WeightedTotal(win: Grid, v: real)
    requires Shape(win, 3, 3)
    ensures Total(Weighted(win, v)) == Total(win) * v
  {
    GridTimesOf(win, Weighted(win, v), v);
    TotalTimes(win, Weighted(win, v), v);
  }

  /** One tap of a cell: its share ww[dx + 1][dy + 1] is added at
      ((i + dy) % height, (j + dx) % width), wrapping at the edges. */
  function Tap(acc: Grid, ww: Grid, i: int, j: int, dx: int, dy: int): (r: Grid)
    requires |acc| > 0 && |acc[0]| > 0 && Shape(acc, |acc|, |acc[0]|) && Shape(ww, 3, 3)
    requires -1 <= dx <= 1 && -1 <= dy <= 1
    ensures Shape(r, |acc|, |acc[0]|)
  {
    AddAt(acc, (i + dy) % |acc|, (j + dx) % |acc[0]|, ww[dx + 1][dy + 1])
  }

  /** The first n iterations of the innermost loop (dy = -1, 0, 1) for a fixed dx. */
  function TapsDy(acc: Grid, ww: Grid, i: int, j: int, dx: int, n: nat): (r: Grid)
    requires |acc| > 0 && |acc[0]| > 0 && Shape(acc, |acc|, |acc[0]|) && Shape(ww, 3, 3)
    requires -1 <= dx <= 1 && n <= 3
    ensures Shape(r, |acc|, |acc[0]|)
  {
    if n == 0 then acc
    else Tap(TapsDy(acc, ww, i, j, dx, n - 1), ww, i, j, dx, n - 2)
  }

  /** The first n iterations of the dx loop (dx = -1, 0, 1) for cell (i, j). */
  function TapsDx(acc: Grid, ww: Grid, i: int, j: int, n: nat): (r: Grid)
    requires |acc| > 0 && |acc[0]| > 0 && Shape(acc, |acc|, |acc[0]|) && Shape(ww, 3, 3)
    requires n <= 3
    ensures Shape(r, |acc|, |acc[0]|)
  {
    if n == 0 then acc
    else TapsDy(TapsDx(acc, ww, i, j, n - 1), ww, i, j, n - 2, 3)
  }

  /** The first n iterations of the j loop for row i of g. */
  function BlurCells(acc: Grid, g: Grid, win: Grid, i: int, n: nat): (r: Grid)
    requires |acc| > 0 && Shape(acc, |acc|, |acc[0]|) && Shape(g, |acc|, |acc[0]|) && Shape(win, 3, 3)
    requires 0 <= i < |g| && n <= |acc[0]|
    ensures Shape(r, |acc|, |acc[0]|)
  {
    if n == 0 then acc
    else TapsDx(BlurCells(acc, g, win, i, n - 1), Weighted(win, g[i][n - 1]), i, n - 1, 3)
  }

  /** The first n iterations of the i loop, starting from the zero grid `new`. */
  function BlurRows(g: Grid, w: nat, win: Grid, n: nat): (r: Grid)
    requires |g| > 0 && Shape(g, |g|, w) && Shape(win, 3, 3) && n <= |g|
    ensures Shape(r, |g|, w)
  {
    if n == 0 then Zeroes(|g|, w)
    else BlurCells(BlurRows(g, w, win, n - 1), g, win, n - 1, w)
  }

  /** The accumulated, not yet normalised grid `new` of `blur`. */
  function BlurSum(g: Grid, w: nat, blurring: real): (r: Grid)
    requires |g| > 0 && Shape(g, |g|, w)
    ensures Shape(r, |g|, w)
  {
    BlurRows(g, w, Window(blurring), |g|)
  }

  /** What `blur` returns when it does not raise. */
  function BlurSpec(g: Grid, w: nat, blurring: real): (r: Grid)
    requires |g| > 0 && Shape(g, |g|, w)
    requires Total(g) != 0.0 || NoCells(g)
  {
    BlurMass(g, w, blurring);
    NormalizeSpec(BlurSum(g, w, blurring))
  }

  lemma {:induction false} TapsDyTotal(acc: Grid, ww: Grid, i: int, j: int, dx: int, n: nat)
    requires |acc| > 0 && |acc[0]| > 0 && Shape(acc, |acc|, |acc[0]|) && Shape(ww, 3, 3)
    requires -1 <= dx <= 1 && n <= 3
    ensures Total(TapsDy(acc, ww, i, j, dx, n)) == Total(acc) + RowSum(ww[dx + 1][..n])
  {
    var row := ww[dx + 1];
    if n == 0 {
      assert row[..0] == [];
    } else {
      var prev := TapsDy(acc, ww, i, j, dx, n - 1);
      TapsDyTotal(acc, ww, i, j, dx, n - 1);
      AddAtTotal(prev, (i + (n - 2)) % |prev|, (j + dx) % |prev[0]|, row[n - 1]);
      RowSumPrefix(row, n - 1);
    }
  }

  lemma {:induction false} TapsDxTotal(acc: Grid, ww: Grid, i: int, j: int, n: nat)
    requires |acc| > 0 && |acc[0]| > 0 && Shape(acc, |acc|, |acc[0]|) && Shape(ww, 3, 3)
    requires n <= 3
    ensures Total(TapsDx(acc, ww, i, j, n)) == Total(acc) + Total(ww[..n])
  {
    if n == 0 {
      assert ww[..0] == [];
    } else {
      var prev := TapsDx(acc, ww, i, j, n - 1);
      TapsDxTotal(acc, ww, i, j, n - 1);
      TapsDyTotal(prev, ww, i, j, n - 2, 3);
      assert ww[n - 1][..3] == ww[n - 1];
      TotalPrefix(ww, n - 1);
    }
  }

  /** All nine taps of one cell add exactly its value to the total when the
      window weights sum to 1. */
  lemma CellTapsTotal(acc: Grid, win: Grid, v: real, i: int, j: int)
    requires |acc| > 0 && |acc[0]| > 0 && Shape(acc, |acc|, |acc[0]|) && Shape(win, 3, 3)
    requires Total(win) == 1.0
    ensures Total(TapsDx(acc, Weighted(win, v), i, j, 3)) == Total(acc) + v
  {
    var ww := Weighted(win, v);
    TapsDxTotal(acc, ww, i, j, 3);
    assert ww[..3] == ww;
    WeightedTotal(win, v);
  }

  lemma {:induction false} BlurCellsTotal(acc: Grid, g: Grid, win: Grid, i: int, n: nat)
    requires |acc| > 0 && Shape(acc, |acc|, |acc[0]|) && Shape(g, |acc|, |acc[0]|) && Shape(win, 3, 3)
    requires Total(win) == 1.0
    requires 0 <= i < |g| && n <= |acc[0]|
    ensures Total(BlurCells(acc, g, win, i, n)) == Total(acc) + RowSum(g[i][..n])
  {
    if n > 0 {
      BlurCellsTotal(acc, g, win, i, n - 1);
      CellTapsTotal(BlurCells(acc, g, win, i, n - 1), win, g[i][n - 1], i, n - 1);
      RowSumPrefix(g[i], n - 1);
    }
  }

  lemma {:induction false} BlurRowsTotal(g: Grid, w: nat, win: Grid, n: nat)
    requires |g| > 0 && Shape(g, |g|, w) && Shape(win, 3, 3) && n <= |g|
    requires Total(win) == 1.0
    ensures Total(BlurRows(g, w, win, n)) == Total(g[..n])
  {
    if n == 0 {
      TotalZeroes(|g|, w);
    } else {
      BlurRowsTotal(g, w, win, n - 1);
      BlurCellsTotal(BlurRows(g, w, win, n - 1), g, win, n - 1, w);
      assert g[n - 1][..w] == g[n - 1];
      TotalPrefix(g, n - 1);
    }
  }

  /** Mass accounting: the accumulated grid `new` has the same total as the
      input, for every blurring factor (the window sums to 1). */
  lemma BlurMass(g: Grid, w: nat, blurring: real)
    requires |g| > 0 && Shape(g, |g|, w)
    ensures Total(BlurSum(g, w, blurring)) == Total(g)
    ensures NoCells(BlurSum(g, w, blurring)) <==> NoCells(g)
  {
    WindowTotal(blurring);
    BlurRowsTotal(g, w, Window(blurring), |g|);
    assert g[..|g|] == g;
  }

  /** With blurring 0 every tap but the centre one adds 0, and the centre tap
      adds the cell's value back at the same cell. */
  lemma ZeroBlurTaps(acc: Grid, v: real, i: int, j: int)
    requires |acc| > 0 && |acc[0]| > 0 && Shape(acc, |acc|, |acc[0]|)
    requires 0 <= i < |acc| && 0 <= j < |acc[0]|
    ensures TapsDx(acc, Weighted(Window(0.0), v), i, j, 3) == AddAt(acc, i, j, v)
  {
    var h, w := |acc|, |acc[0]|;
    var ww := Weighted(Window(0.0), v);
    Modular.ModSmall(i, h);
    Modular.ModSmall(j, w);
    assert ww[1][1] == v;
    forall g: Grid, dx: int, dy: int | |g| == h && Shape(g, h, w) && -1 <= dx <= 1 && -1 <= dy <= 1 && (dx != 0 || dy != 0)
      ensures Tap(g, ww, i, j, dx, dy) == g
    {
      var r := Tap(g, ww, i, j, dx, dy);
      assert ww[dx + 1][dy + 1] == 0.0;
      GridEq(r, g);
    }
    var a0 := TapsDx(acc, ww, i, j, 0);
    var a1 := TapsDx(acc, ww, i, j, 1);
    assert a1 == acc by {
      assert TapsDy(a0, ww, i, j, -1, 1) == acc;
      assert TapsDy(a0, ww, i, j, -1, 2) == acc;
    }
    var a2 := TapsDx(acc, ww, i, j, 2);
    assert a2 == AddAt(acc, i, j, v) by {
      assert TapsDy(a1, ww, i, j, 0, 1) == acc;
      assert TapsDy(a1, ww, i, j, 0, 2) == Tap(acc, ww, i, j, 0, 0);
    }
    assert TapsDy(a2, ww, i, j, 1, 1) == a2;
    assert TapsDy(a2, ww, i, j, 1, 2) == a2;
  }

  lemma {:induction false} ZeroBlurCells(acc: Grid, g: Grid, i: int, n: nat)
    requires |acc| > 0 && Shape(acc, |acc|, |acc[0]|) && Shape(g, |acc|, |acc[0]|)
    requires 0 <= i < |g| && n <= |acc[0]|
    ensures forall a, c :: 0 <= a < |acc| && 0 <= c < |acc[0]| ==>
      BlurCells(acc, g, Window(0.0), i, n)[a][c] == if a == i && c < n then acc[a][c] + g[a][c] else acc[a][c]
  {
    if n > 0 {
      ZeroBlurCells(acc, g, i, n - 1);
      ZeroBlurTaps(BlurCells(acc, g, Window(0.0), i, n - 1), g[i][n - 1], i, n - 1);
    }
  }

  lemma {:induction false} ZeroBlurRows(g: Grid, w: nat, n: nat)
    requires |g| > 0 && Shape(g, |g|, w) && n <= |g|
    ensures forall a, c :: 0 <= a < |g| && 0 <= c < w ==>
      BlurRows(g, w, Window(0.0), n)[a][c] == if a < n then g[a][c] else 0.0
  {
    if n > 0 {
      ZeroBlurRows(g, w, n - 1);
      ZeroBlurCells(BlurRows(g, w, Window(0.0), n - 1), g, n - 1, w);
    }
  }

  /** With blurring 0 the accumulated grid is the input itself, so `blur(g, 0)`
      equals `normalize(g)`: a blurring of 0 has no effect. */
  lemma BlurZeroIsNormalize(g: Grid, w: nat)
    requires |g| > 0 && Shape(g, |g|, w)
    requires Total(g) != 0.0 || NoCells(g)
    ensures BlurSum(g, w, 0.0) == g
    ensures BlurSpec(g, w, 0.0) == NormalizeSpec(g)
  {
    ZeroBlurRows(g, w, |g|);
    GridEq(BlurSum(g, w, 0.0), g);
  }

  /** The innermost loop of `blur` for one cell (i, j) of value gridVal and
      one column offset dx: three weighted taps added into `newGrid`. */
  method SpreadColumn(newGrid: array2<real>, win: Grid, gridVal: real, i: int, j: int, dx: int)
    requires newGrid.Length0 > 0 && newGrid.Length1 > 0 && Shape(win, 3, 3) && -1 <= dx <= 1
    modifies newGrid
    ensures ToSeq(newGrid) == TapsDy(old(ToSeq(newGrid)), Weighted(win, gridVal), i, j, dx, 3)
  {
    var height, width := newGrid.Length0, newGrid.Length1;
    ghost var ww := Weighted(win, gridVal);
    ghost var start := ToSeq(newGrid);
    for dy := -1 to 2
      invariant ToSeq(newGrid) == TapsDy(start, ww, i, j, dx, dy + 1)
    {
      var mult := win[dx + 1][dy + 1];
      var newI := (i + dy) % height;
      var newJ := (j + dx) % width;
      ghost var before := ToSeq(newGrid);
      newGrid[newI, newJ] := newGrid[newI, newJ] + mult * gridVal;
      GridEq(ToSeq(newGrid), AddAt(before, newI, newJ, ww[dx + 1][dy + 1]));
    }
  }

  /** The dx loop of `blur` for one cell (i, j) of value gridVal: its nine
      weighted taps added into `newGrid`. */
  method SpreadCell(newGrid: array2<real>, win: Grid, gridVal: real, i: int, j: int)
    requires newGrid.Length0 > 0 && newGrid.Length1 > 0 && Shape(win, 3, 3)
    modifies newGrid
    ensures ToSeq(newGrid) == TapsDx(old(ToSeq(newGrid)), Weighted(win, gridVal), i, j, 3)
  {
    ghost var start := ToSeq(newGrid);
    for dx := -1 to 2
      invariant ToSeq(newGrid) == TapsDx(start, Weighted(win, gridVal), i, j, dx + 1)
    {
      SpreadColumn(newGrid, win, gridVal, i, j, dx);
    }
  }

  /** The j loop of `blur` for row i: the taps of every cell of that row
      accumulated into `newGrid`. */
  method AccumulateRow(newGrid: array2<real>, grid: array2<real>, win: Grid, i: int)
    requires newGrid != grid && Shape(win, 3, 3)
    requires newGrid.Length0 == grid.Length0 && newGrid.Length1 == grid.Length1
    requires 0 <= i < grid.Length0
    modifies newGrid
    ensures ToSeq(newGrid) == BlurCells(old(ToSeq(newGrid)), ToSeq(grid), win, i, grid.Length1)
  {
    ghost var start := ToSeq(newGrid);
    for j := 0 to grid.Length1
      invariant ToSeq(newGrid) == BlurCells(start, ToSeq(grid), win, i, j)
    {
      SpreadCell(newGrid, win, grid[i, j], i, j);
    }
  }

  /** The four nested loops of `blur`: every cell's nine weighted taps
      accumulated into a fresh zero grid `new`. */
  method AccumulateTaps(grid: array2<real>, blurring: real) returns (newGrid: array2<real>)
    requires grid.Length0 >= 1
    ensures fresh(newGrid)
    ensures ToSeq(newGrid) == BlurSum(ToSeq(grid), grid.Length1, blurring)
  {
    var height := grid.Length0;
    var width := grid.Length1;
    var window := Window(blurring);
    newGrid := new real[height, width]((_, _) => 0.0);
    GridEq(ToSeq(newGrid), Zeroes(height, width));
    for i := 0 to height
      invariant ToSeq(newGrid) == BlurRows(ToSeq(grid), width, window, i)
    {
      AccumulateRow(newGrid, grid, window, i);
    }
  }

  /** `blur(grid, blurring)`: accumulates every cell's nine weighted taps into a
      fresh zero grid `new`, wrapping at the edges, then normalises `new`.
      An empty grid raises IndexError at `len(grid[0])`. */
  method Blur(grid: array2<real>, blurring: real) returns (res: Result<array2<real>>)
    ensures grid.Length0 == 0 ==> res == Err(IndexError)
    ensures grid.Length0 > 0 ==> (res.Ok? <==> Total(ToSeq(grid)) != 0.0 || NoCells(ToSeq(grid)))
    ensures grid.Length0 > 0 && res.Ok? ==>
      fresh(res.value) && ToSeq(res.value) == BlurSpec(ToSeq(grid), grid.Length1, blurring)
    ensures grid.Length0 > 0 && res.Err? ==> res.error == ZeroDivisionError
  {
    if grid.Length0 == 0 {
      return Err(IndexError);
    }
    var newGrid := AccumulateTaps(grid, blurring);
    BlurMass(ToSeq(grid), grid.Length1, blurring);
    res := Normalize(newGrid);
  }

  // ---------------------------------------------------------------------
  // is_robot_localized
  // ---------------------------------------------------------------------

  /** The scan state: best belief, second best belief, position of the best. */
  datatype Scan = Scan(best: real, second: real, pos: Option<Pos>)

  /** One iteration of the scan over belief v at position p. */
  function ScanStep(s: Scan, v: real, p: Pos): Scan
  {
    if v > s.best then Scan(v, s.best, Some(p))
    else if v > s.second then Scan(s.best, v, s.pos)
    else s
  }

  /** The scan after the first n cells of row y. */
  function ScanRow(s: Scan, row: seq<real>, y: int, n: nat): Scan
    requires n <= |row|
  {
    if n == 0 then s else ScanStep(ScanRow(s, row, y, n - 1), row[n - 1], (y, n - 1))
  }

  /** The scan after the first n rows, starting from best = second = 0 and no position. */
  function ScanRows(g: Grid, n: nat): Scan
    requires n <= |g|
  {
    if n == 0 then Scan(0.0, 0.0, None) else ScanRow(ScanRows(g, n - 1), g[n - 1], n - 1, |g[n - 1]|)
  }

  function BeliefScan(g: Grid): Scan
  {
    ScanRows(g, |g|)
  }

  /** Cell (a, c) comes before the scan point (y, x) in row-major order. */
  predicate Scanned(g: Grid, y: int, x: int, a: int, c: int)
  {
    (0 <= a < y && a < |g| && 0 <= c < |g[a]|) || (a == y && 0 <= a < |g| && 0 <= c < x && c < |g[a]|)
  }

  predicate Before(p: Pos, q: Pos)
  {
    p.0 < q.0 || (p.0 == q.0 && p.1 < q.1)
  }

  /** What the scan state means after visiting the cells before (y, x):
      best is the largest belief (or 0), pos is the first cell holding it
      (None if no belief exceeds 0), and second is the largest belief of the
      other cells (or 0), so that a tied maximum makes second == best. */
  ghost predicate Top2(g: Grid, y: int, x: int, s: Scan)
  {
    && 0.0 <= s.second <= s.best
    && (forall a, c :: Scanned(g, y, x, a, c) ==> g[a][c] <= s.best)
    && (s.pos.None? ==> s.best == 0.0)
    && (s.pos.Some? ==>
          && Scanned(g, y, x, s.pos.value.0, s.pos.value.1)
          && g[s.pos.value.0][s.pos.value.1] == s.best > 0.0
          && forall a, c :: Scanned(g, y, x, a, c) && Before((a, c), s.pos.value) ==> g[a][c] < s.best)
    && (forall a, c :: Scanned(g, y, x, a, c) && s.pos != Some((a, c)) ==> g[a][c] <= s.second)
    && (s.second == 0.0 || exists a, c :: Scanned(g, y, x, a, c) && s.pos != Some((a, c)) && g[a][c] == s.second)
  }

  lemma ScanStepTop2(g: Grid, y: int, x: int, s: Scan, t: Scan)
    requires 0 <= y < |g| && 0 <= x < |g[y]|
    requires Top2(g, y, x, s) && t == ScanStep(s, g[y][x], (y, x))
    ensures Top2(g, y, x + 1, t)
  {
    var v := g[y][x];
    assert forall a, c :: Scanned(g, y, x + 1, a, c) <==> Scanned(g, y, x, a, c) || (a == y && c == x);
    if v > s.best {
      if s.pos.Some? {
        var p := s.pos.value;
        assert Scanned(g, y, x + 1, p.0, p.1) && t.pos != Some(p) && g[p.0][p.1] == t.second;
      }
    } else if v > s.second {
      assert Scanned(g, y, x + 1, y, x) && t.pos != Some((y, x)) && g[y][x] == t.second;
    }
  }

  lemma {:induction false} ScanRowTop2(g: Grid, y: int, n: nat, s: Scan)
    requires 0 <= y < |g| && n <= |g[y]|
    requires Top2(g, y, 0, s)
    ensures Top2(g, y, n, ScanRow(s, g[y], y, n))
  {
    if n > 0 {
      ScanRowTop2(g, y, n - 1, s);
      ScanStepTop2(g, y, n - 1, ScanRow(s, g[y], y, n - 1), ScanRow(s, g[y], y, n));
    }
  }

  lemma {:induction false} ScanRowsTop2(g: Grid, n: nat)
    requires n <= |g|
    ensures Top2(g, n, 0, ScanRows(g, n))
  {
    if n > 0 {
      ScanRowsTop2(g, n - 1);
      var s := ScanRows(g, n - 1);
      ScanRowTop2(g, n - 1, |g[n - 1]|, s);
      assert forall a, c :: Scanned(g, n, 0, a, c) <==> Scanned(g, n - 1, |g[n - 1]|, a, c);
    }
  }

  /** The completed scan over the whole grid satisfies Top2: `best_pos` is the
      first row-major cell holding the strict maximum, None when no belief
      exceeds 0, and second_best is the best of the remaining cells. */
  lemma BeliefScanTop2(g: Grid)
    ensures Top2(g, |g|, 0, BeliefScan(g))
    ensures BeliefScan(g).pos.None? <==> forall a, c :: 0 <= a < |g| && 0 <= c < |g[a]| ==> g[a][c] <= 0.0
  {
    ScanRowsTop2(g, |g|);
    var s := BeliefScan(g);
    assert forall a, c :: Scanned(g, |g|, 0, a, c) <==> 0 <= a < |g| && 0 <= c < |g[a]|;
  }

  /** A maximum held by two distinct cells makes second_best equal best. */
  lemma ScanTie(g: Grid, p: Pos, q: Pos)
    requires p != q
    requires 0 <= p.0 < |g| && 0 <= p.1 < |g[p.0]| && 0 <= q.0 < |g| && 0 <= q.1 < |g[q.0]|
    requires g[p.0][p.1] == g[q.0][q.1] > 0.0
    requires forall a, c :: 0 <= a < |g| && 0 <= c < |g[a]| ==> g[a][c] <= g[p.0][p.1]
    ensures BeliefScan(g).second == BeliefScan(g).best == g[p.0][p.1]
  {
    BeliefScanTop2(g);
    assert Scanned(g, |g|, 0, p.0, p.1) && Scanned(g, |g|, 0, q.0, q.1);
  }

  /** The verdict: a strong opinion exists when the second best is at most
      1e-5 or the best is more than twice the second best; then the answer is
      whether the best position is the true one, otherwise None. */
  function Verdict(s: Scan, truePos: Pos): (r: (Option<bool>, Option<Pos>))
    ensures r.1 == s.pos
    ensures r.0 == Some(true) ==> s.pos == Some(truePos)
    ensures s.second <= 0.00001 ==> r.0 == Some(s.pos == Some(truePos))
    ensures 0.00001 < s.second == s.best ==> r.0 == None
  {
    if s.second <= 0.00001 || s.best / s.second > 2.0 then (Some(s.pos == Some(truePos)), s.pos)
    else (None, s.pos)
  }

  /** `is_robot_localized(beliefs, true_pos)`: one row-major scan for the best
      and second best beliefs, then the three-way verdict. */
  method IsRobotLocalized(beliefs: array2<real>, truePos: Pos) returns (localized: Option<bool>, bestPos: Option<Pos>)
    ensures (localized, bestPos) == Verdict(BeliefScan(ToSeq(beliefs)), truePos)
  {
    ghost var g := ToSeq(beliefs);
    var bestBelief := 0.0;
    var best: Option<Pos> := None;
    var secondBest := 0.0;
    for y := 0 to beliefs.Length0
      invariant Scan(bestBelief, secondBest, best) == ScanRows(g, y)
    {
      for x := 0 to beliefs.Length1
        invariant Scan(bestBelief, secondBest, best) == ScanRow(ScanRows(g, y), g[y], y, x)
      {
        var belief := beliefs[y, x];
        if belief > bestBelief {
          secondBest := bestBelief;
          bestBelief := belief;
          best := Some((y, x));
        } else if belief > secondBest {
          secondBest := belief;
        }
      }
    }
    if secondBest <= 0.00001 || bestBelief / secondBest > 2.0 {
      localized := Some(best == Some(truePos));
    } else {
      localized := None;
    }
    bestPos := best;
  }

  // ---------------------------------------------------------------------
  // close_enough
  // ---------------------------------------------------------------------

  function Abs(x: real): real
  {
    if x < 0.0 then -x else x
  }

  /** `close_enough(g1, g2)`: False for different heights, for empty grids and
      for different widths; otherwise True iff every pair of cells differs by
      at most 0.001. */
  method CloseEnough(g1: array2<real>, g2: array2<real>) returns (r: bool)
    ensures r <==> && g1.Length0 == g2.Length0 && g1.Length0 != 0 && g1.Length1 == g2.Length1
                   && forall i, j :: 0 <= i < g1.Length0 && 0 <= j < g1.Length1 ==> Abs(g1[i, j] - g2[i, j]) <= 0.001
  {
    if g1.Length0 != g2.Length0 {
      return false;
    }
    if g1.Length0 == 0 || g1.Length1 != g2.Length1 {
      return false;
    }
    for i := 0 to g1.Length0
      invariant forall a, c :: 0 <= a < i && 0 <= c < g1.Length1 ==> Abs(g1[a, c] - g2[a, c]) <= 0.001
    {
      for j := 0 to g1.Length1
        invariant forall a, c :: 0 <= a < i && 0 <= c < g1.Length1 ==> Abs(g1[a, c] - g2[a, c]) <= 0.001
        invariant forall c :: 0 <= c < j ==> Abs(g1[i, c] - g2[i, c]) <= 0.001
      {
        if Abs(g1[i, j] - g2[i, j]) > 0.001 {
          return false;
        }
      }
    }
    return true;
  }
}
