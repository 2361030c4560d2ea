/** The three steps of the histogram-filter localizer
    (3_3_2D_Histogram_Filter/localizer.py): the uniform prior, the sensor
    update and the motion update. */
module Localizer {
  import opened Outcomes
  import opened Grid
  import opened Helpers
  import Modular

  /** The robot world: one colour name per cell. */
  type World = seq<seq<string>>

  // ---------------------------------------------------------------------
  // initialize_beliefs
  // ---------------------------------------------------------------------

  function ConstRow(w: nat, c: real): (r: seq<real>)
    ensures |r| == w && forall j :: 0 <= j < w ==> r[j] == c
  {
    seq(w, _ => c)
  }

  function ConstGrid(h: nat, row: seq<real>): (g: Grid)
    ensures Shape(g, h, |row|) && forall i :: 0 <= i < h ==> g[i] == row
  {
    seq(h, _ => row)
  }

  /** The uniform prior: h rows of w cells, each 1 / (h * w). */
  function Uniform(h: nat, w: nat): (u: Grid)
    requires h > 0 && w > 0
    ensures Shape(u, h, w)
    ensures forall i, j :: 0 <= i < h && 0 <= j < w ==> u[i][j] == 1.0 / (h * w) as real
  {
    ConstGrid(h, ConstRow(w, 1.0 / (h * w) as real))
  }

  lemma {:induction false} RowSumConst(w: nat, c: real)
    ensures RowSum(ConstRow(w, c)) == (w as real) * c
  {
    if w > 0 {
      assert ConstRow(w, c)[..w - 1] == ConstRow(w - 1, c);
      RowSumConst(w - 1, c);
      MulAddDistrib((w - 1) as real, 1.0, c);
    }
  }

  lemma {:induction false} TotalConst(h: nat, row: seq<real>)
    ensures Total(ConstGrid(h, row)) == (h as real) * RowSum(row)
  {
    if h > 0 {
      assert ConstGrid(h, row)[..h - 1] == ConstGrid(h - 1, row);
      TotalConst(h - 1, row);
      MulAddDistrib((h - 1) as real, 1.0, RowSum(row));
    }
  }

  lemma UnitArea(h: nat, w: nat)
    requires h > 0 && w > 0
    ensures (h as real) * ((w as real) * (1.0 / (h * w) as real)) == 1.0
  {
    var x := (h * w) as real;
    assert x == (h as real) * (w as real);
    assert (h as real) * ((w as real) * (1.0 / x)) == x * (1.0 / x);
  }

  /** The uniform prior is a probability distribution: its cells sum to 1. */
  lemma UniformTotal(h: nat, w: nat)
    requires h > 0 && w > 0
    ensures Total(Uniform(h, w)) == 1.0
  {
    var c := 1.0 / (h * w) as real;
    TotalConst(h, ConstRow(w, c));
    RowSumConst(w, c);
    UnitArea(h, w);
  }

  /** `initialize_beliefs(grid)`: a fresh height x width grid holding the
      uniform prior. An empty world raises IndexError at `len(grid[0])`, and
      an area of 0 raises ZeroDivisionError. */
  method InitializeBeliefs(grid: World) returns (res: Result<array2<real>>)
    ensures |grid| == 0 ==> res == Err(IndexError)
    ensures |grid| > 0 && |grid[0]| == 0 ==> res == Err(ZeroDivisionError)
    ensures |grid| > 0 && |grid[0]| > 0 ==>
      res.Ok? && fresh(res.value) && ToSeq(res.value) == Uniform(|grid|, |grid[0]|)
  {
    if |grid| == 0 {
      return Err(IndexError);
    }
    var height := |grid|;
    var width := |grid[0]|;
    var area := height * width;
    if area == 0 {
      return Err(ZeroDivisionError);
    }
    var beliefPerCell := 1.0 / area as real;
    var beliefs := new real[height, width];
    for i := 0 to height
      invariant forall a, c :: 0 <= a < i && 0 <= c < width ==> beliefs[a, c] == beliefPerCell
    {
      for j := 0 to width
        invariant forall a, c :: 0 <= a < i && 0 <= c < width ==> beliefs[a, c] == beliefPerCell
        invariant forall c :: 0 <= c < j ==> beliefs[i, c] == beliefPerCell
      {
        beliefs[i, j] := beliefPerCell;
      }
    }
    GridEq(ToSeq(beliefs), Uniform(height, width));
    res := Ok(beliefs);
  }

  // ---------------------------------------------------------------------
  // sense
  // ---------------------------------------------------------------------

  /** The inputs `sense` reads without an IndexError: a non-empty world and,
      when its first row is non-empty, every world row at least that wide and
      beliefs covering height x width. */
  predicate SenseFits(grid: World, b: Grid)
  {
    && |grid| > 0
    && (|grid[0]| == 0 || ReadsFit(grid, b))
  }

  /** Every world row is at least as wide as the first, and the beliefs
      cover height x width. */
  predicate ReadsFit(grid: World, b: Grid)
    requires |grid| > 0
  {
    && (forall i :: 0 <= i < |grid| ==> |grid[i]| >= |grid[0]|)
    && |b| >= |grid|
    && forall i :: 0 <= i < |grid| ==> |b[i]| >= |grid[0]|
  }

  /** `hit` of the source: the comparison `grid[i][j] == color` used as 0 or 1. */
  function Hit(grid: World, color: string, i: int, j: int): real
    requires 0 <= i < |grid| && 0 <= j < |grid[i]|
  {
    if grid[i][j] == color then 1.0 else 0.0
  }

  /** The unnormalised posterior of one cell, `prior * (hit * p_hit + (1 - hit) * p_miss)`:
      prior * p_hit on a cell of the sensed colour and prior * p_miss elsewhere. */
  function PosteriorCell(color: string, grid: World, b: Grid, pHit: real, pMiss: real, i: int, j: int): (r: real)
    requires 0 <= i < |grid| && 0 <= j < |grid[i]| && i < |b| && j < |b[i]|
    ensures r == if grid[i][j] == color then b[i][j] * pHit else b[i][j] * pMiss
  {
    var hit := Hit(grid, color, i, j);
    b[i][j] * (hit * pHit + (1.0 - hit) * pMiss)
  }

  /** The grid `new_beliefs` that `sense` builds before normalising. */
  function Posterior(color: string, grid: World, b: Grid, pHit: real, pMiss: real): (post: Grid)
    requires SenseFits(grid, b)
    ensures Shape(post, |grid|, |grid[0]|)
  {
    seq(|grid|, i requires 0 <= i < |grid| =>
      seq(|grid[0]|, j requires 0 <= j < |grid[0]| => PosteriorCell(color, grid, b, pHit, pMiss, i, j)))
  }

  /** What `sense` returns when it does not raise. */
  function SenseSpec(color: string, grid: World, b: Grid, pHit: real, pMiss: real): Grid
    requires SenseFits(grid, b)
    requires Total(Posterior(color, grid, b, pHit, pMiss)) != 0.0 || NoCells(Posterior(color, grid, b, pHit, pMiss))
  {
    NormalizeSpec(Posterior(color, grid, b, pHit, pMiss))
  }

  /** A successful sensor update is a probability distribution. */
  lemma SenseTotal(color: string, grid: World, b: Grid, pHit: real, pMiss: real)
    requires SenseFits(grid, b) && |grid[0]| > 0
    requires Total(Posterior(color, grid, b, pHit, pMiss)) != 0.0
    ensures Total(SenseSpec(color, grid, b, pHit, pMiss)) == 1.0
  {
    NormalizeTotal(Posterior(color, grid, b, pHit, pMiss));
  }

  /** A common non-zero factor cancels: (x * p) / (t * p) == x / t. */
  lemma CancelFactor(y: real, s: real, x: real, t: real, p: real)
    requires t != 0.0 && p != 0.0 && y == x * p && s == t * p
    ensures s != 0.0 && y / s == x / t
  {
    assert y / s * s == y;
    assert x / t * t == x;
  }

  /** With p_hit == p_miss every cell is scaled by the same factor. */
  lemma PosteriorEqual(color: string, grid: World, b: Grid, p: real, i: int, j: int)
    requires SenseFits(grid, b) && 0 <= i < |grid| && 0 <= j < |grid[0]|
    ensures Posterior(color, grid, b, p, p)[i][j] == b[i][j] * p
  {
    var c := PosteriorCell(color, grid, b, p, p, i, j);
    assert c == b[i][j] * p;
  }

  lemma DivRowTimes(r: seq<real>, s: seq<real>, p: real, tr: real, ts: real)
    requires |s| == |r| && forall j :: 0 <= j < |r| ==> s[j] == r[j] * p
    requires p != 0.0 && tr != 0.0 && ts == tr * p
    ensures ts != 0.0 && DivRow(s, ts) == DivRow(r, tr)
  {
    CancelFactor(0.0, ts, 0.0, tr, p);
    forall j | 0 <= j < |r|
      ensures DivRow(s, ts)[j] == DivRow(r, tr)[j]
    {
      CancelFactor(s[j], ts, r[j], tr, p);
    }
  }

  /** Scaling every cell by a non-zero factor does not change the normalised grid. */
  lemma NormalizeTimes(g: Grid, t: Grid, p: real)
    requires |t| == |g| && forall i :: 0 <= i < |g| ==> |t[i]| == |g[i]|
    requires forall i, j :: 0 <= i < |g| && 0 <= j < |g[i]| ==> t[i][j] == g[i][j] * p
    requires p != 0.0 && Total(g) != 0.0
    ensures Total(t) != 0.0
    ensures NormalizeSpec(t) == NormalizeSpec(g)
  {
    NormalizeRows(g, t, p);
  }

  lemma NormalizeRows(g: Grid, t: Grid, p: real)
    requires |t| == |g| && forall i :: 0 <= i < |g| ==> |t[i]| == |g[i]|
    requires forall i, j :: 0 <= i < |g| && 0 <= j < |g[i]| ==> t[i][j] == g[i][j] * p
    requires p != 0.0 && Total(g) != 0.0
    ensures Total(t) != 0.0 && Scale(t, Total(t)) == Scale(g, Total(g))
  {
    TotalTimesOf(g, t, p);
    CancelFactor(0.0, Total(t), 0.0, Total(g), p);
    ScaleTimes(g, t, p, Total(g), Total(t));
  }

  lemma TotalTimesOf(g: Grid, t: Grid, p: real)
    requires |t| == |g| && forall i :: 0 <= i < |g| ==> |t[i]| == |g[i]|
    requires forall i, j :: 0 <= i < |g| && 0 <= j < |g[i]| ==> t[i][j] == g[i][j] * p
    ensures Total(t) == Total(g) * p
  {
    GridTimesOf(g, t, p);
    TotalTimes(g, t, p);
  }

  lemma ScaleTimes(g: Grid, t: Grid, p: real, tg: real, tt: real)
    requires |t| == |g| && forall i :: 0 <= i < |g| ==> |t[i]| == |g[i]|
    requires forall i, j :: 0 <= i < |g| && 0 <= j < |g[i]| ==> t[i][j] == g[i][j] * p
    requires p != 0.0 && tg != 0.0 && tt == tg * p && tt != 0.0
    ensures Scale(t, tt) == Scale(g, tg)
  {
    forall i | 0 <= i < |g|
      ensures Scale(t, tt)[i] == Scale(g, tg)[i]
    {
      DivRowTimes(g[i], t[i], p, tg, tt);
    }
  }

  /** With p_hit == p_miss the measurement carries no information: a world
      sized belief grid of non-zero mass comes back merely normalised. */
  lemma SenseUninformative(color: string, grid: World, b: Grid, p: real)
    requires SenseFits(grid, b) && |grid[0]| > 0 && Shape(b, |grid|, |grid[0]|)
    requires p != 0.0 && Total(b) != 0.0
    ensures Total(Posterior(color, grid, b, p, p)) != 0.0
    ensures SenseSpec(color, grid, b, p, p) == NormalizeSpec(b)
  {
    var post := Posterior(color, grid, b, p, p);
    forall i, j | 0 <= i < |b| && 0 <= j < |b[i]|
      ensures post[i][j] == b[i][j] * p
    {
      PosteriorEqual(color, grid, b, p, i, j);
    }
    NormalizeTimes(b, post, p);
  }

  /** `sense(color, grid, beliefs, p_hit, p_miss)`: builds the fresh grid of
      unnormalised posteriors row by row, then normalises it. The beliefs
      argument is only read. A read past a row of the world or past the belief
      grid raises IndexError; a zero posterior mass raises ZeroDivisionError. */
  method Sense(color: string, grid: World, beliefs: array2<real>, pHit: real, pMiss: real) returns (res: Result<array2<real>>)
    ensures !SenseFits(grid, ToSeq(beliefs)) ==> res == Err(IndexError)
    ensures SenseFits(grid, ToSeq(beliefs)) ==>
      var post := Posterior(color, grid, ToSeq(beliefs), pHit, pMiss);
      && (res.Ok? <==> Total(post) != 0.0 || NoCells(post))
      && (res.Ok? ==> fresh(res.value) && ToSeq(res.value) == SenseSpec(color, grid, ToSeq(beliefs), pHit, pMiss))
      && (res.Err? ==> res.error == ZeroDivisionError)
    ensures SenseFits(grid, ToSeq(beliefs)) && |grid[0]| > 0 && res.Ok? ==>
      && Total(Posterior(color, grid, ToSeq(beliefs), pHit, pMiss)) != 0.0
      && res.value.Length0 == |grid| && res.value.Length1 == |grid[0]|
      && Total(ToSeq(res.value)) == 1.0
  {
    ghost var b := ToSeq(beliefs);
    if |grid| == 0 {
      return Err(IndexError);
    }
    var height := |grid|;
    var width := |grid[0]|;
    var newBeliefs := new real[height, width];
    for i := 0 to height
      invariant forall a :: 0 <= a < i ==> |grid[a]| >= width
      invariant width > 0 && i > 0 ==> beliefs.Length0 >= i && beliefs.Length1 >= width
      invariant forall a, c :: 0 <= a < i && 0 <= c < width ==>
        newBeliefs[a, c] == PosteriorCell(color, grid, b, pHit, pMiss, a, c)
    {
      for j := 0 to width
        invariant j > 0 ==> |grid[i]| >= j && beliefs.Length0 > i && beliefs.Length1 >= j
        invariant forall a, c :: 0 <= a < i && 0 <= c < width ==>
          newBeliefs[a, c] == PosteriorCell(color, grid, b, pHit, pMiss, a, c)
        invariant forall c :: 0 <= c < j ==> newBeliefs[i, c] == PosteriorCell(color, grid, b, pHit, pMiss, i, c)
      {
        if j >= |grid[i]| || i >= beliefs.Length0 || j >= beliefs.Length1 {
          assert !ReadsFit(grid, b) by {
            if i < beliefs.Length0 {
              assert |b[i]| == beliefs.Length1;
            }
          }
          return Err(IndexError);
        }
        var hit := if grid[i][j] == color then 1.0 else 0.0;
        var prior := beliefs[i, j];
        var posterior := prior * (hit * pHit + (1.0 - hit) * pMiss);
        newBeliefs[i, j] := posterior;
      }
    }
    assert SenseFits(grid, b);
    ghost var post := Posterior(color, grid, b, pHit, pMiss);
    GridEq(ToSeq(newBeliefs), post);
    res := Normalize(newBeliefs);
    if width > 0 && res.Ok? {
      assert !NoCells(post) by {
        assert |post[0]| == width;
      }
      SenseTotal(color, grid, b, pHit, pMiss);
    }
  }

  // ---------------------------------------------------------------------
  // move
  // ---------------------------------------------------------------------

  /** The exact shift of `move`: cell (a, c) of the result holds the cell of
      g that `(i + dy) % height`, `(j + dx) % width` sends there. */
  function Shift(g: Grid, w: nat, dy: int, dx: int): (r: Grid)
    requires |g| > 0 && Shape(g, |g|, w)
    ensures Shape(r, |g|, w)
  {
    seq(|g|, a requires 0 <= a < |g| =>
      seq(w, c requires 0 <= c < w => g[(a - dy) % |g|][(c - dx) % w]))
  }

  /** The writes of `move`: `new_G[(i + dy) % h][(j + dx) % w] == beliefs[i][j]`. */
  lemma ShiftSource(g: Grid, w: nat, dy: int, dx: int, i: int, j: int)
    requires |g| > 0 && Shape(g, |g|, w) && 0 <= i < |g| && 0 <= j < w
    ensures Shift(g, w, dy, dx)[(i + dy) % |g|][(j + dx) % w] == g[i][j]
  {
    Modular.ModShiftBack(i, dy, |g|);
    Modular.ModShiftBack(j, dx, w);
  }

  /** Shifting back by (backY, backX) == (-dy, -dx) restores the grid. */
  lemma ShiftInverse(g: Grid, w: nat, dy: int, dx: int, backY: int, backX: int)
    requires |g| > 0 && Shape(g, |g|, w)
    requires backY == -dy && backX == -dx
    ensures Shift(Shift(g, w, dy, dx), w, backY, backX) == g
  {
    var h := |g|;
    var s := Shift(g, w, dy, dx);
    var r := Shift(s, w, backY, backX);
    forall a, c | 0 <= a < h && 0 <= c < w
      ensures r[a][c] == g[a][c]
    {
      var a1, c1 := (a + dy) % h, (c + dx) % w;
      assert r[a][c] == s[a1][c1];
      Modular.ModShiftBack(a, dy, h);
      Modular.ModShiftBack(c, dx, w);
      assert s[a1][c1] == g[(a1 - dy) % h][(c1 - dx) % w];
    }
    GridEq(r, g);
  }

  /** A cyclic rotation of a sequence: element c comes from (c - d) % n. */
  function Rot<T>(s: seq<T>, d: int): (r: seq<T>)
    ensures |r| == |s|
  {
    seq(|s|, c requires 0 <= c < |s| => s[(c - d) % |s|])
  }

  lemma RotIndex(c: int, d: int, n: int)
    requires n > 0 && 0 <= c < n
    ensures (c - d) % n == if c < d % n then c - d % n + n else c - d % n
  {
    var k := d % n;
    var q := d / n;
    if c < k {
      Modular.ModUnique(c - d, n, -q - 1, c - k + n);
    } else {
      Modular.ModUnique(c - d, n, -q, c - k);
    }
  }

  /** A rotation is the tail followed by the head. */
  lemma RotSplit<T>(s: seq<T>, d: int)
    requires |s| > 0
    ensures Rot(s, d) == s[|s| - d % |s|..] + s[..|s| - d % |s|]
  {
    var n := |s|;
    var k := d % n;
    forall c | 0 <= c < n
      ensures Rot(s, d)[c] == (s[n - k..] + s[..n - k])[c]
    {
      RotIndex(c, d, n);
    }
  }

  lemma RowSumRot(r: seq<real>, d: int)
    ensures RowSum(Rot(r, d)) == RowSum(r)
  {
    if |r| > 0 {
      var k := d % |r|;
      RotSplit(r, d);
      RowSumConcat(r[|r| - k..], r[..|r| - k]);
      RowSumConcat(r[..|r| - k], r[|r| - k..]);
      assert r[..|r| - k] + r[|r| - k..] == r;
    }
  }

  lemma TotalRot(g: Grid, d: int)
    ensures Total(Rot(g, d)) == Total(g)
  {
    if |g| > 0 {
      var k := d % |g|;
      RotSplit(g, d);
      TotalConcat(g[|g| - k..], g[..|g| - k]);
      TotalConcat(g[..|g| - k], g[|g| - k..]);
      assert g[..|g| - k] + g[|g| - k..] == g;
    }
  }

  /** Every row rotated by d. */
  function RotRows(g: Grid, d: int): (r: Grid)
    ensures |r| == |g| && forall a :: 0 <= a < |g| ==> r[a] == Rot(g[a], d)
  {
    seq(|g|, a requires 0 <= a < |g| => Rot(g[a], d))
  }

  lemma RotRowsTotal(g: Grid, d: int)
    ensures Total(RotRows(g, d)) == Total(g)
  {
    var rows := RotRows(g, d);
    forall a | 0 <= a < |g|
      ensures RowSum(rows[a]) == RowSum(g[a])
    {
      RowSumRot(g[a], d);
    }
    TotalRowwise(rows, g);
  }

  /** The shift rotates every row by dx and then the rows by dy. */
  lemma ShiftAsRot(g: Grid, w: nat, dy: int, dx: int)
    requires |g| > 0 && Shape(g, |g|, w)
    ensures Shift(g, w, dy, dx) == Rot(RotRows(g, dx), dy)
  {
    GridEq(Shift(g, w, dy, dx), Rot(RotRows(g, dx), dy));
  }

  /** The shift is a bijection on cells, so it keeps the total mass. */
  lemma ShiftTotal(g: Grid, w: nat, dy: int, dx: int)
    requires |g| > 0 && Shape(g, |g|, w)
    ensures Total(Shift(g, w, dy, dx)) == Total(g)
    ensures NoCells(Shift(g, w, dy, dx)) <==> NoCells(g)
  {
    ShiftAsRot(g, w, dy, dx);
    RotRowsTotal(g, dx);
    TotalRot(RotRows(g, dx), dy);
    assert |Shift(g, w, dy, dx)[0]| == |g[0]|;
  }

  /** The grid `new_G` after the (i, j) loops have visited every cell before
      (i, j) in row-major order: a cell holds its source value once its source
      has been visited and 0.0 before. */
  function Partial(g: Grid, w: nat, dy: int, dx: int, i: int, j: int): (r: Grid)
    requires |g| > 0 && Shape(g, |g|, w)
    ensures Shape(r, |g|, w)
  {
    seq(|g|, a requires 0 <= a < |g| =>
      seq(w, c requires 0 <= c < w =>
        var p, q := (a - dy) % |g|, (c - dx) % w;
        if p < i || (p == i && q < j) then g[p][q] else 0.0))
  }

  lemma PartialStart(g: Grid, w: nat, dy: int, dx: int)
    requires |g| > 0 && Shape(g, |g|, w)
    ensures Partial(g, w, dy, dx, 0, 0) == Zeroes(|g|, w)
  {
    GridEq(Partial(g, w, dy, dx, 0, 0), Zeroes(|g|, w));
  }

  lemma PartialEnd(g: Grid, w: nat, dy: int, dx: int)
    requires |g| > 0 && Shape(g, |g|, w)
    ensures Partial(g, w, dy, dx, |g|, 0) == Shift(g, w, dy, dx)
  {
    GridEq(Partial(g, w, dy, dx, |g|, 0), Shift(g, w, dy, dx));
  }

  lemma PartialRow(g: Grid, w: nat, dy: int, dx: int, i: int)
    requires |g| > 0 && Shape(g, |g|, w)
    ensures Partial(g, w, dy, dx, i, w) == Partial(g, w, dy, dx, i + 1, 0)
  {
    GridEq(Partial(g, w, dy, dx, i, w), Partial(g, w, dy, dx, i + 1, 0));
  }

  /** Visiting cell (i, j) writes its value at its target and nowhere else. */
  lemma PartialStep(g: Grid, w: nat, dy: int, dx: int, i: int, j: int)
    requires |g| > 0 && Shape(g, |g|, w) && 0 <= i < |g| && 0 <= j < w
    ensures SetAt(Partial(g, w, dy, dx, i, j), (i + dy) % |g|, (j + dx) % w, g[i][j]) == Partial(g, w, dy, dx, i, j + 1)
  {
    var h := |g|;
    var s := SetAt(Partial(g, w, dy, dx, i, j), (i + dy) % h, (j + dx) % w, g[i][j]);
    var t := Partial(g, w, dy, dx, i, j + 1);
    forall a, c | 0 <= a < h && 0 <= c < w
      ensures s[a][c] == t[a][c]
    {
      Modular.ModShiftIff(a, i, dy, h);
      Modular.ModShiftIff(c, j, dx, w);
    }
    GridEq(s, t);
  }

  /** The nested loops of `move`: a fresh zero grid `new_G` receiving every
      belief at its shifted position. */
  method ShiftGrid(beliefs: array2<real>, dy: int, dx: int) returns (newG: array2<real>)
    requires beliefs.Length0 > 0
    ensures fresh(newG)
    ensures ToSeq(newG) == Shift(ToSeq(beliefs), beliefs.Length1, dy, dx)
  {
    ghost var g := ToSeq(beliefs);
    var height := beliefs.Length0;
    var width := beliefs.Length1;
    newG := new real[height, width]((_, _) => 0.0);
    PartialStart(g, width, dy, dx);
    GridEq(ToSeq(newG), Zeroes(height, width));
    for i := 0 to height
      invariant ToSeq(newG) == Partial(g, width, dy, dx, i, 0)
    {
      for j := 0 to width
        invariant ToSeq(newG) == Partial(g, width, dy, dx, i, j)
      {
        ShiftCell(beliefs, newG, dy, dx, i, j);
      }
      PartialRow(g, width, dy, dx, i);
    }
    PartialEnd(g, width, dy, dx);
  }

  /** One pass of the inner loop of `move`: copies beliefs[i][j] to its
      shifted position in new_G. */
  method ShiftCell(beliefs: array2<real>, newG: array2<real>, dy: int, dx: int, i: int, j: int)
    requires beliefs.Length0 > 0 && newG != beliefs
    requires newG.Length0 == beliefs.Length0 && newG.Length1 == beliefs.Length1
    requires 0 <= i < beliefs.Length0 && 0 <= j < beliefs.Length1
    requires ToSeq(newG) == Partial(ToSeq(beliefs), beliefs.Length1, dy, dx, i, j)
    modifies newG
    ensures ToSeq(newG) == Partial(ToSeq(beliefs), beliefs.Length1, dy, dx, i, j + 1)
  {
    ghost var g := ToSeq(beliefs);
    var cell := beliefs[i, j];
    var newI := (i + dy) % beliefs.Length0;
    var newJ := (j + dx) % beliefs.Length1;
    ghost var before := ToSeq(newG);
    newG[newI, newJ] := cell;
    GridEq(ToSeq(newG), SetAt(before, newI, newJ, cell));
    PartialStep(g, beliefs.Length1, dy, dx, i, j);
  }

  /** What `move` returns when it does not raise: the blurred shift. */
  function MoveSpec(g: Grid, w: nat, dy: int, dx: int, blurring: real): Grid
    requires |g| > 0 && Shape(g, |g|, w)
    requires Total(g) != 0.0 || NoCells(g)
  {
    ShiftTotal(g, w, dy, dx);
    BlurSpec(Shift(g, w, dy, dx), w, blurring)
  }

  /** Moving a normalised belief grid gives a normalised grid of the same shape. */
  lemma MoveTotal(g: Grid, w: nat, dy: int, dx: int, blurring: real)
    requires |g| > 0 && w > 0 && Shape(g, |g|, w) && Total(g) == 1.0
    ensures Shape(MoveSpec(g, w, dy, dx, blurring), |g|, w)
    ensures Total(MoveSpec(g, w, dy, dx, blurring)) == 1.0
  {
    var s := Shift(g, w, dy, dx);
    ShiftTotal(g, w, dy, dx);
    BlurMass(s, w, blurring);
    NormalizeTotal(BlurSum(s, w, blurring));
  }

  /** Without blurring, moving a normalised belief grid is its exact shift. */
  lemma MoveZeroIsShift(g: Grid, w: nat, dy: int, dx: int)
    requires |g| > 0 && Shape(g, |g|, w) && Total(g) == 1.0
    ensures MoveSpec(g, w, dy, dx, 0.0) == Shift(g, w, dy, dx)
    ensures Total(Shift(g, w, dy, dx)) == 1.0
  {
    var s := Shift(g, w, dy, dx);
    ShiftTotal(g, w, dy, dx);
    BlurZeroIsNormalize(s, w);
    NormalizeOfNormalized(s);
  }

  /** Without blurring, moving a normalised belief grid by (dy, dx) and then
      back by (backY, backX) == (-dy, -dx) gives the original grid back. */
  lemma MoveRoundTrip(g: Grid, w: nat, dy: int, dx: int, backY: int, backX: int)
    requires |g| > 0 && Shape(g, |g|, w) && Total(g) == 1.0
    requires backY == -dy && backX == -dx
    ensures Total(MoveSpec(g, w, dy, dx, 0.0)) == 1.0
    ensures MoveSpec(MoveSpec(g, w, dy, dx, 0.0), w, backY, backX, 0.0) == g
  {
    MoveZeroIsShift(g, w, dy, dx);
    var s := Shift(g, w, dy, dx);
    calc {
      MoveSpec(MoveSpec(g, w, dy, dx, 0.0), w, backY, backX, 0.0);
      MoveSpec(s, w, backY, backX, 0.0);
      { MoveZeroIsShift(s, w, backY, backX); }
      Shift(s, w, backY, backX);
      { ShiftInverse(g, w, dy, dx, backY, backX); }
      g;
    }
  }

  /** `move(dy, dx, beliefs, blurring)`: shifts every belief into a fresh grid
      with wrap-around, then blurs it. The beliefs argument is only read. An
      empty belief grid raises IndexError at `len(beliefs[0])`; a zero mass
      raises ZeroDivisionError inside the blur. */
  method Move(dy: int, dx: int, beliefs: array2<real>, blurring: real) returns (res: Result<array2<real>>)
    ensures beliefs.Length0 == 0 ==> res == Err(IndexError)
    ensures beliefs.Length0 > 0 ==> (res.Ok? <==> Total(ToSeq(beliefs)) != 0.0 || NoCells(ToSeq(beliefs)))
    ensures beliefs.Length0 > 0 && res.Ok? ==>
      fresh(res.value) && ToSeq(res.value) == MoveSpec(ToSeq(beliefs), beliefs.Length1, dy, dx, blurring)
    ensures beliefs.Length0 > 0 && res.Err? ==> res.error == ZeroDivisionError
    ensures beliefs.Length0 > 0 && beliefs.Length1 > 0 && Total(ToSeq(beliefs)) == 1.0 ==>
      && res.Ok? && res.value.Length0 == beliefs.Length0 && res.value.Length1 == beliefs.Length1
      && Total(ToSeq(res.value)) == 1.0
  {
    if beliefs.Length0 == 0 {
      return Err(IndexError);
    }
    var newG := ShiftGrid(beliefs, dy, dx);
    ShiftTotal(ToSeq(beliefs), beliefs.Length1, dy, dx);
    res := Blur(newG, blurring);
    if beliefs.Length1 > 0 && Total(ToSeq(beliefs)) == 1.0 {
      MoveTotal(ToSeq(beliefs), beliefs.Length1, dy, dx, blurring);
    }
  }
}
