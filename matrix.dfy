/** The matrix type of 3_5_State_and_Motion/matrix.py: a grid of reals with
    its row and column counts, row indexing, and the triple-loop product. */
module Matrices {
  import opened Outcomes
  import opened Grid

  /** A `Matrix` object: its grid and the counts its constructor records. */
  datatype Matrix = Matrix(grid: Grid, rows: int, cols: int)

  /** The matrices the constructor builds: `rows` is the number of rows and
      `cols` the length of the first row. */
  predicate Wellformed(m: Matrix)
  {
    m.rows == |m.grid| > 0 && m.cols == |m.grid[0]|
  }

  /** `Matrix(grid)`; an empty grid raises IndexError at `len(grid[0])`. */
  function NewMatrix(grid: Grid): (r: Result<Matrix>)
    ensures r.Err? <==> |grid| == 0
    ensures r.Err? ==> r.error == IndexError
    ensures r.Ok? ==> Wellformed(r.value) && r.value.grid == grid
  {
    if |grid| == 0 then Err(IndexError) else Ok(Matrix(grid, |grid|, |grid[0]|))
  }

  /** `m[index]`: row `index` of the grid, with Python's negative indices
      counting from the end; anything else raises IndexError. */
  function Get(m: Matrix, index: int): (r: Result<seq<real>>)
    ensures r.Ok? <==> -|m.grid| <= index < |m.grid|
    ensures r.Err? ==> r.error == IndexError
    ensures r.Ok? ==> r.value == m.grid[if index < 0 then index + |m.grid| else index]
  {
    if 0 <= index < |m.grid| then Ok(m.grid[index])
    else if -|m.grid| <= index < 0 then Ok(m.grid[|m.grid| + index])
    else Err(IndexError)
  }

  /** A negative index names the same row as its non-negative partner. */
  lemma GetNegative(m: Matrix, index: int)
    requires 0 <= index < |m.grid|
    ensures Get(m, index - |m.grid|) == Get(m, index)
  {
  }

  /** The sum over k < n of a[i][k] * b[k][j]. */
  function Dot(a: Grid, b: Grid, i: int, j: int, n: nat): (r: real)
    requires 0 <= i < |a| && n <= |a[i]| && n <= |b|
    requires 0 <= j && forall k :: 0 <= k < n ==> j < |b[k]|
    ensures (forall k :: 0 <= k < n ==> a[i][k] == 0.0) ==> r == 0.0
    ensures (forall k :: 0 <= k < n ==> b[k][j] == 0.0) ==> r == 0.0
  {
    if n == 0 then 0.0 else Dot(a, b, i, j, n - 1) + a[i][n - 1] * b[n - 1][j]
  }

  /** The reads of the product loops stay inside both grids: with at least
      one result column, every row of a has b.rows entries and every row of
      b has b.cols entries. */
  predicate MulFits(a: Matrix, b: Matrix)
    requires Wellformed(a) && Wellformed(b)
  {
    b.cols == 0 ||
    ((forall i :: 0 <= i < a.rows ==> |a.grid[i]| >= b.rows)
     && (forall k :: 0 <= k < b.rows ==> |b.grid[k]| >= b.cols))
  }

  /** The product grid: a.rows x b.cols entries, entry (i, j) the sum over
      k < b.rows of a[i][k] * b[k][j]. */
  function Product(a: Matrix, b: Matrix): (p: Grid)
    requires Wellformed(a) && Wellformed(b) && a.cols == b.rows && MulFits(a, b)
    ensures Shape(p, a.rows, b.cols)
    ensures forall i, j :: 0 <= i < a.rows && 0 <= j < b.cols ==>
      p[i][j] == Dot(a.grid, b.grid, i, j, b.rows)
  {
    seq(a.rows, i requires 0 <= i < a.rows =>
      seq(b.cols, j requires 0 <= j < b.cols => Dot(a.grid, b.grid, i, j, b.rows)))
  }

  /** The n x n identity. */
  function Identity(n: nat): (m: Matrix)
    requires n > 0
    ensures Wellformed(m) && m.rows == n && m.cols == n && Shape(m.grid, n, n)
    ensures forall i, j :: 0 <= i < n && 0 <= j < n ==> m.grid[i][j] == if i == j then 1.0 else 0.0
  {
    Matrix(seq(n, i => seq(n, j => if i == j then 1.0 else 0.0)), n, n)
  }

  lemma {:induction false} DotIdentityLeft(b: Grid, size: nat, i: int, j: int, n: nat)
    requires size > 0 && 0 <= i < size && n <= size && n <= |b|
    requires 0 <= j && forall k :: 0 <= k < n ==> j < |b[k]|
    ensures Dot(Identity(size).grid, b, i, j, n) == if i < n then b[i][j] else 0.0
  {
    if n > 0 {
      DotIdentityLeft(b, size, i, j, n - 1);
    }
  }

  lemma {:induction false} DotIdentityRight(a: Grid, size: nat, i: int, j: int, n: nat)
    requires size > 0 && 0 <= j < size && n <= size && 0 <= i < |a| && n <= |a[i]|
    ensures Dot(a, Identity(size).grid, i, j, n) == if j < n then a[i][j] else 0.0
  {
    if n > 0 {
      DotIdentityRight(a, size, i, j, n - 1);
    }
  }

  /** The identity is neutral on both sides of the product. */
  lemma ProductIdentity(m: Matrix)
    requires Wellformed(m) && Shape(m.grid, m.rows, m.cols) && m.cols > 0
    ensures Product(Identity(m.rows), m) == m.grid
    ensures Product(m, Identity(m.cols)) == m.grid
  {
    var left := Product(Identity(m.rows), m);
    forall i, j | 0 <= i < m.rows && 0 <= j < m.cols
      ensures left[i][j] == m.grid[i][j]
    {
      DotIdentityLeft(m.grid, m.rows, i, j, m.rows);
    }
    GridEq(left, m.grid);
    var right := Product(m, Identity(m.cols));
    forall i, j | 0 <= i < m.rows && 0 <= j < m.cols
      ensures right[i][j] == m.grid[i][j]
    {
      DotIdentityRight(m.grid, m.cols, i, j, m.cols);
    }
    GridEq(right, m.grid);
  }

  /** The innermost k loop for entry (i, j): adds a[i][k] * b[k][j] for every
      k < b.rows onto the zero entry, or stops with IndexError at the first
      read past the end of a row. */
  method AccumulateEntry(product: array2<real>, a: Matrix, b: Matrix, i: int, j: int) returns (ok: bool)
    requires Wellformed(a) && Wellformed(b)
    requires 0 <= i < a.rows && 0 <= j < b.cols
    requires product.Length0 == a.rows && product.Length1 == b.cols
    modifies product
    ensures ok <==> |a.grid[i]| >= b.rows && forall k :: 0 <= k < b.rows ==> |b.grid[k]| > j
    ensures ok ==> product[i, j] == old(product[i, j]) + Dot(a.grid, b.grid, i, j, b.rows)
    ensures forall p, q :: 0 <= p < a.rows && 0 <= q < b.cols && (p != i || q != j) ==>
      product[p, q] == old(product[p, q])
  {
    for k := 0 to b.rows
      invariant |a.grid[i]| >= k && forall k' :: 0 <= k' < k ==> |b.grid[k']| > j
      invariant product[i, j] == old(product[i, j]) + Dot(a.grid, b.grid, i, j, k)
      invariant forall p, q :: 0 <= p < a.rows && 0 <= q < b.cols && (p != i || q != j) ==>
        product[p, q] == old(product[p, q])
    {
      if k >= |a.grid[i]| || j >= |b.grid[k]| {
        return false;
      }
      product[i, j] := product[i, j] + a.grid[i][k] * b.grid[k][j];
    }
    ok := true;
  }

  /** `a * b` (`__mul__`): with a.cols == b.rows, fills a fresh a.rows x
      b.cols zero grid by the triple loop and wraps it in a new Matrix;
      otherwise raises RuntimeError. Neither operand changes (they are
      values). */
  method Mul(a: Matrix, b: Matrix) returns (res: Result<Matrix>)
    requires Wellformed(a) && Wellformed(b)
    ensures a.cols != b.rows ==> res == Err(RuntimeError)
    ensures a.cols == b.rows && !MulFits(a, b) ==> res == Err(IndexError)
    ensures a.cols == b.rows && MulFits(a, b) ==>
      res.Ok? && Wellformed(res.value) && res.value.rows == a.rows && res.value.cols == b.cols
      && res.value.grid == Product(a, b)
  {
    if a.cols != b.rows {
      return Err(RuntimeError);
    }
    var product := new real[a.rows, b.cols]((_, _) => 0.0);
    for i := 0 to a.rows
      invariant b.cols > 0 ==> forall p :: 0 <= p < i ==> |a.grid[p]| >= b.rows
      invariant b.cols > 0 && i > 0 ==> forall k :: 0 <= k < b.rows ==> |b.grid[k]| >= b.cols
      invariant forall p, q :: 0 <= p < i && 0 <= q < b.cols ==>
        product[p, q] == Dot(a.grid, b.grid, p, q, b.rows)
      invariant forall p, q :: i <= p < a.rows && 0 <= q < b.cols ==> product[p, q] == 0.0
    {
      for j := 0 to b.cols
        invariant j > 0 ==> |a.grid[i]| >= b.rows && forall k :: 0 <= k < b.rows ==> |b.grid[k]| >= j
        invariant forall p, q :: 0 <= p < i && 0 <= q < b.cols ==>
          product[p, q] == Dot(a.grid, b.grid, p, q, b.rows)
        invariant forall q :: 0 <= q < j ==> product[i, q] == Dot(a.grid, b.grid, i, q, b.rows)
        invariant forall p, q :: 0 <= p < a.rows && 0 <= q < b.cols && (p > i || (p == i && q >= j)) ==>
          product[p, q] == 0.0
      {
        var ok := AccumulateEntry(product, a, b, i, j);
        if !ok {
          return Err(IndexError);
        }
      }
    }
    var g := ToSeq(product);
    assert MulFits(a, b);
    GridEq(g, Product(a, b));
    res := Ok(Matrix(g, a.rows, b.cols));
  }
}
