/** Two-dimensional grids of reals (the Python `List[List[float]]` of the
    histogram filter), their total mass, and the bridge from `array2<real>`
    to grid values. */
module Grid {

  type Grid = seq<seq<real>>

  /** A (row, column) pair of grid indices, the Python `Tuple[int, int]`. */
  type Pos = (int, int)

  /** g has h rows, each of w cells. */
  predicate Shape(g: Grid, h: int, w: int)
  {
    |g| == h && forall i :: 0 <= i < |g| ==> |g[i]| == w
  }

  /** g holds no cell at all (no rows, or only empty rows). */
  predicate NoCells(g: Grid)
  {
    forall i :: 0 <= i < |g| ==> |g[i]| == 0
  }

  predicate NonNegative(g: Grid)
  {
    forall i, j :: 0 <= i < |g| && 0 <= j < |g[i]| ==> g[i][j] >= 0.0
  }

  /** Sum of a row, accumulated left to right as the source's loops do. */
  function RowSum(r: seq<real>): real
  {
    if |r| == 0 then 0.0 else RowSum(r[..|r| - 1]) + r[|r| - 1]
  }

  /** Sum of all cells, accumulated in row-major order. */
  function Total(g: Grid): real
  {
    if |g| == 0 then 0.0 else Total(g[..|g| - 1]) + RowSum(g[|g| - 1])
  }

  function Zeroes(h: nat, w: nat): (z: Grid)
    ensures Shape(z, h, w)
    ensures forall i, j :: 0 <= i < h && 0 <= j < w ==> z[i][j] == 0.0
  {
    seq(h, _ => seq(w, _ => 0.0))
  }

  /** The grid value currently held by a two-dimensional array. */
  function ToSeq(a: array2<real>): (s: Grid)
    reads a
    ensures Shape(s, a.Length0, a.Length1)
    ensures forall i, j :: 0 <= i < a.Length0 && 0 <= j < a.Length1 ==> s[i][j] == a[i, j]
  {
    seq(a.Length0, i requires 0 <= i < a.Length0 reads a =>
      seq(a.Length1, j requires 0 <= j < a.Length1 reads a => a[i, j]))
  }

  /** g with cell (a, c) replaced by v. */
  function SetAt(g: Grid, a: int, c: int, v: real): (r: Grid)
    requires 0 <= a < |g| && 0 <= c < |g[a]|
    ensures |r| == |g| && forall i :: 0 <= i < |g| ==> |r[i]| == |g[i]|
    ensures r[a][c] == v
    ensures forall i, j :: 0 <= i < |g| && 0 <= j < |g[i]| && (i != a || j != c) ==> r[i][j] == g[i][j]
  {
    g[a := g[a][c := v]]
  }

  /** g with d added to cell (a, c): the source's `new[a][c] += d`. */
  function AddAt(g: Grid, a: int, c: int, d: real): (r: Grid)
    requires 0 <= a < |g| && 0 <= c < |g[a]|
    ensures |r| == |g| && forall i :: 0 <= i < |g| ==> |r[i]| == |g[i]|
    ensures r[a][c] == g[a][c] + d
    ensures forall i, j :: 0 <= i < |g| && 0 <= j < |g[i]| && (i != a || j != c) ==> r[i][j] == g[i][j]
  {
    SetAt(g, a, c, g[a][c] + d)
  }

  /** Two grids with the same row lengths and the same cells are equal. */
  lemma GridEq(s: Grid, t: Grid)
    requires |s| == |t| && forall i :: 0 <= i < |s| ==> |s[i]| == |t[i]|
    requires forall i, j :: 0 <= i < |s| && 0 <= j < |s[i]| ==> s[i][j] == t[i][j]
    ensures s == t
  {
    forall i | 0 <= i < |s|
      ensures s[i] == t[i]
    {
      assert forall j :: 0 <= j < |s[i]| ==> s[i][j] == t[i][j];
    }
  }

  lemma {:induction false} RowSumSet(r: seq<real>, c: int, v: real)
    requires 0 <= c < |r|
    ensures RowSum(r[c := v]) == RowSum(r) - r[c] + v
  {
    var n := |r|;
    if c == n - 1 {
      assert r[c := v][..n - 1] == r[..n - 1];
    } else {
      assert r[c := v][..n - 1] == r[..n - 1][c := v];
      RowSumSet(r[..n - 1], c, v);
    }
  }

  lemma {:induction false} TotalSetRow(g: Grid, a: int, row: seq<real>)
    requires 0 <= a < |g|
    ensures Total(g[a := row]) == Total(g) - RowSum(g[a]) + RowSum(row)
  {
    var n := |g|;
    if a == n - 1 {
      assert g[a := row][..n - 1] == g[..n - 1];
    } else {
      assert g[a := row][..n - 1] == g[..n - 1][a := row];
      TotalSetRow(g[..n - 1], a, row);
    }
  }

  /** Changing one cell changes the total by exactly the change of that cell. */
  lemma SetAtTotal(g: Grid, a: int, c: int, v: real)
    requires 0 <= a < |g| && 0 <= c < |g[a]|
    ensures Total(SetAt(g, a, c, v)) == Total(g) - g[a][c] + v
  {
    RowSumSet(g[a], c, v);
    TotalSetRow(g, a, g[a][c := v]);
  }

  lemma AddAtTotal(g: Grid, a: int, c: int, d: real)
    requires 0 <= a < |g| && 0 <= c < |g[a]|
    ensures Total(AddAt(g, a, c, d)) == Total(g) + d
  {
    var v := g[a][c] + d;
    assert AddAt(g, a, c, d) == SetAt(g, a, c, v);
    SetAtTotal(g, a, c, v);
  }

  /** Summing a row one cell further extends the prefix sum by that cell. */
  lemma RowSumPrefix(r: seq<real>, j: int)
    requires 0 <= j < |r|
    ensures RowSum(r[..j + 1]) == RowSum(r[..j]) + r[j]
  {
    assert r[..j + 1][..j] == r[..j];
  }

  lemma TotalPrefix(g: Grid, i: int)
    requires 0 <= i < |g|
    ensures Total(g[..i + 1]) == Total(g[..i]) + RowSum(g[i])
  {
    assert g[..i + 1][..i] == g[..i];
  }

  /** In a non-negative row every cell is at most the row sum. */
  lemma {:induction false} CellLeRowSum(r: seq<real>, c: int)
    requires 0 <= c < |r|
    requires forall j :: 0 <= j < |r| ==> r[j] >= 0.0
    ensures 0.0 <= r[c] <= RowSum(r)
  {
    var n := |r|;
    RowSumNonNegative(r[..n - 1]);
    if c < n - 1 {
      CellLeRowSum(r[..n - 1], c);
    }
  }

  lemma {:induction false} RowSumNonNegative(r: seq<real>)
    requires forall j :: 0 <= j < |r| ==> r[j] >= 0.0
    ensures RowSum(r) >= 0.0
  {
    if |r| > 0 {
      RowSumNonNegative(r[..|r| - 1]);
    }
  }

  /** In a non-negative grid every cell is at most the total. */
  lemma {:induction false} CellLeTotal(g: Grid, a: int, c: int)
    requires NonNegative(g)
    requires 0 <= a < |g| && 0 <= c < |g[a]|
    ensures g[a][c] <= Total(g)
  {
    var n := |g|;
    TotalNonNegative(g[..n - 1]);
    if a == n - 1 {
      CellLeRowSum(g[a], c);
    } else {
      RowSumNonNegative(g[n - 1]);
      CellLeTotal(g[..n - 1], a, c);
    }
  }

  lemma {:induction false} TotalNonNegative(g: Grid)
    requires NonNegative(g)
    ensures Total(g) >= 0.0
  {
    if |g| > 0 {
      TotalNonNegative(g[..|g| - 1]);
      RowSumNonNegative(g[|g| - 1]);
    }
  }

  lemma {:induction false} TotalNoCells(g: Grid)
    requires NoCells(g)
    ensures Total(g) == 0.0
  {
    if |g| > 0 {
      TotalNoCells(g[..|g| - 1]);
    }
  }

  lemma {:induction false} TotalZeroes(h: nat, w: nat)
    ensures Total(Zeroes(h, w)) == 0.0
  {
    if h > 0 {
      assert Zeroes(h, w)[..h - 1] == Zeroes(h - 1, w);
      TotalZeroes(h - 1, w);
      RowSumZeroes(w);
    }
  }

  lemma {:induction false} RowSumZeroes(w: nat)
    ensures RowSum(seq(w, _ => 0.0)) == 0.0
  {
    if w > 0 {
      assert seq(w, _ => 0.0)[..w - 1] == seq(w - 1, _ => 0.0);
      RowSumZeroes(w - 1);
    }
  }

  /** Sums split over concatenation. */
  lemma {:induction false} RowSumConcat(a: seq<real>, b: seq<real>)
    ensures RowSum(a + b) == RowSum(a) + RowSum(b)
  {
    if |b| == 0 {
      assert a + b == a;
    } else {
      assert (a + b)[..|a + b| - 1] == a + b[..|b| - 1];
      RowSumConcat(a, b[..|b| - 1]);
    }
  }

  lemma {:induction false} TotalConcat(a: Grid, b: Grid)
    ensures Total(a + b) == Total(a) + Total(b)
  {
    if |b| == 0 {
      assert a + b == a;
    } else {
      assert (a + b)[..|a + b| - 1] == a + b[..|b| - 1];
      TotalConcat(a, b[..|b| - 1]);
    }
  }

  /** Grids whose rows have pairwise equal sums have equal totals. */
  lemma {:induction false} TotalRowwise(s: Grid, t: Grid)
    requires |s| == |t| && forall a :: 0 <= a < |s| ==> RowSum(s[a]) == RowSum(t[a])
    ensures Total(s) == Total(t)
  {
    if |s| > 0 {
      TotalRowwise(s[..|s| - 1], t[..|t| - 1]);
    }
  }

  /** Multiplication distributes over a sum. */
  lemma MulAddDistrib(a: real, b: real, v: real)
    ensures (a + b) * v == a * v + b * v
  {
  }

  /** Row s is row r with every cell scaled by p (stated recursively, so
      that no quantified product enters the proofs below). */
  predicate RowTimes(r: seq<real>, s: seq<real>, p: real)
  {
    |s| == |r| && (|r| == 0 || (RowTimes(r[..|r| - 1], s[..|r| - 1], p) && s[|r| - 1] == r[|r| - 1] * p))
  }

  /** Grid t is grid g with every cell scaled by p. */
  predicate GridTimes(g: Grid, t: Grid, p: real)
  {
    |t| == |g| && (|g| == 0 || (GridTimes(g[..|g| - 1], t[..|g| - 1], p) && RowTimes(g[|g| - 1], t[|g| - 1], p)))
  }

  lemma {:induction false} RowTimesOf(r: seq<real>, s: seq<real>, p: real)
    requires |s| == |r| && forall j :: 0 <= j < |r| ==> s[j] == r[j] * p
    ensures RowTimes(r, s, p)
  {
    var n := |r|;
    if n > 0 {
      RowTimesOf(r[..n - 1], s[..n - 1], p);
    }
  }

  lemma {:induction false} GridTimesOf(g: Grid, t: Grid, p: real)
    requires |t| == |g| && forall i :: 0 <= i < |g| ==> |t[i]| == |g[i]|
    requires forall i, j :: 0 <= i < |g| && 0 <= j < |g[i]| ==> t[i][j] == g[i][j] * p
    ensures GridTimes(g, t, p)
  {
    var n := |g|;
    if n > 0 {
      GridTimesOf(g[..n - 1], t[..n - 1], p);
      RowTimesOf(g[n - 1], t[n - 1], p);
    }
  }

  /** The inductive step of the scaling lemmas, on plain numbers. */
  lemma SumTimes(st: real, sg: real, a: real, b: real, ta: real, tb: real, p: real)
    requires st == ta + tb && sg == a + b && ta == a * p && tb == b * p
    ensures st == sg * p
  {
    MulAddDistrib(a, b, p);
  }

  lemma {:induction false} RowSumTimes(r: seq<real>, s: seq<real>, p: real)
    requires RowTimes(r, s, p)
    ensures RowSum(s) == RowSum(r) * p
  {
    var n := |r|;
    if n > 0 {
      RowSumTimes(r[..n - 1], s[..n - 1], p);
      SumTimes(RowSum(s), RowSum(r), RowSum(r[..n - 1]), r[n - 1], RowSum(s[..n - 1]), s[n - 1], p);
    }
  }

  /** Scaling every cell by p scales the total by p. */
  lemma {:induction false} TotalTimes(g: Grid, t: Grid, p: real)
    requires GridTimes(g, t, p)
    ensures Total(t) == Total(g) * p
    decreases |g|, 1
  {
    if |g| > 0 {
      var a, b, ta, tb := TotalTimesParts(g, t, p);
      SumTimes(Total(t), Total(g), a, b, ta, tb, p);
    }
  }

  /** The totals of the leading rows and the sums of the last rows, scaled. */
  lemma {:induction false} TotalTimesParts(g: Grid, t: Grid, p: real) returns (a: real, b: real, ta: real, tb: real)
    requires GridTimes(g, t, p) && |g| > 0
    ensures Total(t) == ta + tb && Total(g) == a + b && ta == a * p && tb == b * p
    decreases |g|, 0
  {
    var n := |g|;
    TotalTimes(g[..n - 1], t[..n - 1], p);
    RowSumTimes(g[n - 1], t[n - 1], p);
    a, b, ta, tb := Total(g[..n - 1]), RowSum(g[n - 1]), Total(t[..n - 1]), RowSum(t[n - 1]);
  }
}
