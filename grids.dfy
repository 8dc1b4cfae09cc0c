/** Two-dimensional real grids in row-major order, the sums numpy takes over
    them, and the flatten/reshape pair the optimiser's flat vectors go through. */
module Grids {

  /** A row-major grid: g[i][j] is row i (numpy axis 0), column j (axis 1). */
  type Grid = seq<seq<real>>

  /** The number of columns: the length of the first row (0 for no rows). */
  function Width(g: Grid): nat {
    if |g| == 0 then 0 else |g[0]|
  }

  /** g has h rows of w cells each. */
  predicate Shape(g: Grid, h: nat, w: nat) {
    |g| == h && forall i :: 0 <= i < h ==> |g[i]| == w
  }

  /** g is rectangular, as every numpy 2-D array is. */
  predicate IsGrid(g: Grid) {
    Shape(g, |g|, Width(g))
  }

  /** The cell at (i, j), or 0 anywhere off the grid (zero padding). */
  function At(g: Grid, i: int, j: int): real {
    if 0 <= i < |g| && 0 <= j < |g[i]| then g[i][j] else 0.0
  }

  /** Column j of g, top to bottom. */
  function Column(g: Grid, j: int): (c: seq<real>)
    ensures |c| == |g|
  {
    seq(|g|, i => At(g, i, j))
  }

  /** g has the value c in every cell. */
  predicate IsConstant(g: Grid, c: real) {
    IsGrid(g) && forall i, j :: 0 <= i < |g| && 0 <= j < Width(g) ==> g[i][j] == c
  }

  /** The h-by-w grid whose cell (i, j) is f(i, j). */
  function Tabulate(h: nat, w: nat, f: (int, int) -> real): (r: Grid)
    ensures Shape(r, h, w)
  {
    seq(h, i => seq(w, j => f(i, j)))
  }

  lemma AtTabulate(h: nat, w: nat, f: (int, int) -> real, i: int, j: int)
    ensures At(Tabulate(h, w, f), i, j) == if 0 <= i < h && 0 <= j < w then f(i, j) else 0.0
  {
  }

  /** A grid of the given shape filled with c. */
  function Const(h: nat, w: nat, c: real): (r: Grid)
    ensures Shape(r, h, w)
  {
    Tabulate(h, w, (i, j) => c)
  }

  /** np.zeros(shape). */
  function Zeros(h: nat, w: nat): (r: Grid)
    ensures Shape(r, h, w)
    ensures forall i, j :: At(r, i, j) == 0.0
  {
    Const(h, w, 0.0)
  }

  // ---------------------------------------------------------------------
  // Sums

  /** f(lo) + ... + f(hi - 1). */
  function Sum(lo: int, hi: int, f: int -> real): real
    decreases hi - lo, 1
  {
    if lo >= hi then 0.0 else SumFrom(lo, hi, f)
  }

  /** The non-empty case of Sum: the first term plus the rest. A function of
      its own, so that a sum is opened one term at a time, by SumStep, and
      only where a proof asks for it. */
  function SumFrom(lo: int, hi: int, f: int -> real): real
    requires lo < hi
    decreases hi - lo, 0
  {
    f(lo) + Sum(lo + 1, hi, f)
  }

  lemma SumStep(lo: int, hi: int, f: int -> real)
    requires lo < hi
    ensures Sum(lo, hi, f) == f(lo) + Sum(lo + 1, hi, f)
  {
    assert Sum(lo, hi, f) == SumFrom(lo, hi, f);
  }

  /** The sum of f(i, j) over the columns 0 <= j < w of row i. */
  function RowSum(w: nat, f: (int, int) -> real, i: int): real {
    Sum(0, w, Row(f, i))
  }

  /** Row i of a cell function, as a function of the column. */
  function Row(f: (int, int) -> real, i: int): int -> real {
    j => f(i, j)
  }

  /** The row sums of a cell function, as a function of the row. */
  function RowSums(w: nat, f: (int, int) -> real): int -> real {
    i => RowSum(w, f, i)
  }

  /** The sum of f(i, j) over the h-by-w index rectangle, row by row. */
  function Sum2(h: nat, w: nat, f: (int, int) -> real): real {
    Sum(0, h, RowSums(w, f))
  }

  /** np.sum: the sum of all cells. */
  function GridSum(g: Grid): real {
    Sum2(|g|, Width(g), CellsOf(g))
  }

  /** The cell function of g, zero off the grid. */
  function CellsOf(g: Grid): (int, int) -> real {
    (i, j) => At(g, i, j)
  }

  /** The cell function that is c everywhere. */
  function Constant(c: real): (int, int) -> real {
    (i, j) => c
  }

  /** The cell function a(i + di, j + dj) * b(i, j): b against a shifted by
      (di, dj), off-grid cells of either read as 0. */
  function ShiftedProduct(a: Grid, di: int, dj: int, b: Grid): (int, int) -> real {
    (i, j) => At(a, i + di, j + dj) * At(b, i, j)
  }

  /** The cell-by-cell inner product over a's shape: np.sum(a * b). */
  function Inner(a: Grid, b: Grid): real {
    Sum2(|a|, Width(a), ShiftedProduct(a, 0, 0, b))
  }

  /** np.sum(g**2). */
  function SumSq(g: Grid): real {
    Inner(g, g)
  }

  lemma {:induction false} SumExt(lo: int, hi: int, f: int -> real, g: int -> real)
    requires forall i :: lo <= i < hi ==> f(i) == g(i)
    ensures Sum(lo, hi, f) == Sum(lo, hi, g)
    decreases hi - lo
  {
    if lo < hi {
      SumStep(lo, hi, f);
      SumStep(lo, hi, g);
      SumExt(lo + 1, hi, f, g);
    }
  }

  /** Summation is linear. */
  lemma {:induction false} SumLinear(lo: int, hi: int, f: int -> real, g: int -> real,
                                     r: int -> real, a: real, b: real)
    requires forall i :: lo <= i < hi ==> r(i) == a * f(i) + b * g(i)
    ensures Sum(lo, hi, r) == a * Sum(lo, hi, f) + b * Sum(lo, hi, g)
    decreases hi - lo
  {
    if lo < hi {
      SumStep(lo, hi, f);
      SumStep(lo, hi, g);
      SumStep(lo, hi, r);
      SumLinear(lo + 1, hi, f, g, r, a, b);
    }
  }

  /** A sum of five-point-stencil shape splits into its five sums. */
  lemma {:induction false} SumStencil(lo: int, hi: int, r: int -> real, n: int -> real, s: int -> real,
                                      w: int -> real, e: int -> real, c: int -> real)
    requires forall i :: lo <= i < hi ==> r(i) == n(i) + s(i) + w(i) + e(i) - 4.0 * c(i)
    ensures Sum(lo, hi, r) == Sum(lo, hi, n) + Sum(lo, hi, s) + Sum(lo, hi, w) + Sum(lo, hi, e)
                              - 4.0 * Sum(lo, hi, c)
    decreases hi - lo
  {
    if lo < hi {
      SumStep(lo, hi, r);
      SumStep(lo, hi, n);
      SumStep(lo, hi, s);
      SumStep(lo, hi, w);
      SumStep(lo, hi, e);
      SumStep(lo, hi, c);
      SumStencil(lo + 1, hi, r, n, s, w, e, c);
    }
  }

  lemma {:induction false} SumNonnegative(lo: int, hi: int, f: int -> real)
    requires forall i :: lo <= i < hi ==> f(i) >= 0.0
    ensures Sum(lo, hi, f) >= 0.0
    decreases hi - lo
  {
    if lo < hi {
      SumStep(lo, hi, f);
      SumNonnegative(lo + 1, hi, f);
    }
  }

  /** A sum of non-negative terms is at least each of its terms. */
  lemma {:induction false} SumAtLeastTerm(lo: int, hi: int, f: int -> real, k: int)
    requires forall i :: lo <= i < hi ==> f(i) >= 0.0
    requires lo <= k < hi
    ensures Sum(lo, hi, f) >= f(k)
    decreases hi - lo
  {
    SumStep(lo, hi, f);
    if k == lo {
      SumNonnegative(lo + 1, hi, f);
    } else {
      SumAtLeastTerm(lo + 1, hi, f, k);
    }
  }

  lemma {:induction false} SumOfConstant(lo: int, hi: int, f: int -> real, c: real)
    requires lo <= hi
    requires forall i :: lo <= i < hi ==> f(i) == c
    ensures Sum(lo, hi, f) == (hi - lo) as real * c
    decreases hi - lo
  {
    if lo < hi {
      SumStep(lo, hi, f);
      SumOfConstant(lo + 1, hi, f, c);
    }
  }

  /** Re-indexing: a sum over [lo, hi) of g(i - 1) is the sum of g over [lo - 1, hi - 1). */
  lemma {:induction false} SumShift(lo: int, hi: int, f: int -> real, g: int -> real)
    requires forall i :: lo <= i < hi ==> f(i) == g(i - 1)
    ensures Sum(lo, hi, f) == Sum(lo - 1, hi - 1, g)
    decreases hi - lo
  {
    if lo < hi {
      SumStep(lo, hi, f);
      SumStep(lo - 1, hi - 1, g);
      SumShift(lo + 1, hi, f, g);
    }
  }

  lemma {:induction false} SumSplitLast(lo: int, hi: int, f: int -> real)
    requires lo < hi
    ensures Sum(lo, hi, f) == Sum(lo, hi - 1, f) + f(hi - 1)
    decreases hi - lo
  {
    SumStep(lo, hi, f);
    if lo + 1 < hi {
      SumStep(lo, hi - 1, f);
      SumSplitLast(lo + 1, hi, f);
    }
  }

  /** The summation-by-parts step behind the symmetry of zero-padded stencils:
      if t vanishes just before and at the end of [0, n), then shifting its
      argument by one does not change its sum over [0, n). */
  lemma ShiftWithZeroEnds(n: nat, f: int -> real, t: int -> real)
    requires forall i :: 0 <= i < n ==> f(i) == t(i - 1)
    requires t(-1) == 0.0 && t(n - 1) == 0.0
    ensures Sum(0, n, f) == Sum(0, n, t)
  {
    SumShift(0, n, f, t);
    if n > 0 {
      SumSplitLast(0, n, t);
    }
  }

  // ---------------------------------------------------------------------
  // The same facts for double sums

  lemma Sum2Ext(h: nat, w: nat, f: (int, int) -> real, g: (int, int) -> real)
    requires forall i, j :: 0 <= i < h && 0 <= j < w ==> f(i, j) == g(i, j)
    ensures Sum2(h, w, f) == Sum2(h, w, g)
  {
    forall i | 0 <= i < h
      ensures RowSum(w, f, i) == RowSum(w, g, i)
    {
      SumExt(0, w, Row(f, i), Row(g, i));
    }
    SumExt(0, h, RowSums(w, f), RowSums(w, g));
  }

  lemma Sum2Linear(h: nat, w: nat, f: (int, int) -> real, g: (int, int) -> real,
                   r: (int, int) -> real, a: real, b: real)
    requires forall i, j :: 0 <= i < h && 0 <= j < w ==> r(i, j) == a * f(i, j) + b * g(i, j)
    ensures Sum2(h, w, r) == a * Sum2(h, w, f) + b * Sum2(h, w, g)
  {
    forall i | 0 <= i < h
      ensures RowSum(w, r, i) == a * RowSum(w, f, i) + b * RowSum(w, g, i)
    {
      SumLinear(0, w, Row(f, i), Row(g, i), Row(r, i), a, b);
    }
    SumLinear(0, h, RowSums(w, f), RowSums(w, g), RowSums(w, r), a, b);
  }

  lemma Sum2Stencil(h: nat, wd: nat, r: (int, int) -> real, n: (int, int) -> real, s: (int, int) -> real,
                    w: (int, int) -> real, e: (int, int) -> real, c: (int, int) -> real)
    requires forall i, j :: 0 <= i < h && 0 <= j < wd ==>
      r(i, j) == n(i, j) + s(i, j) + w(i, j) + e(i, j) - 4.0 * c(i, j)
    ensures Sum2(h, wd, r) == Sum2(h, wd, n) + Sum2(h, wd, s) + Sum2(h, wd, w) + Sum2(h, wd, e)
                              - 4.0 * Sum2(h, wd, c)
  {
    forall i | 0 <= i < h
      ensures RowSum(wd, r, i) == RowSum(wd, n, i) + RowSum(wd, s, i) + RowSum(wd, w, i)
                                  + RowSum(wd, e, i) - 4.0 * RowSum(wd, c, i)
    {
      SumStencil(0, wd, Row(r, i), Row(n, i), Row(s, i), Row(w, i), Row(e, i), Row(c, i));
    }
    SumStencil(0, h, RowSums(wd, r), RowSums(wd, n), RowSums(wd, s),
               RowSums(wd, w), RowSums(wd, e), RowSums(wd, c));
  }

  lemma Sum2Nonnegative(h: nat, w: nat, f: (int, int) -> real)
    requires forall i, j :: 0 <= i < h && 0 <= j < w ==> f(i, j) >= 0.0
    ensures Sum2(h, w, f) >= 0.0
  {
    forall i | 0 <= i < h
      ensures RowSum(w, f, i) >= 0.0
    {
      SumNonnegative(0, w, Row(f, i));
    }
    SumNonnegative(0, h, RowSums(w, f));
  }

  lemma Sum2AtLeastTerm(h: nat, w: nat, f: (int, int) -> real, k: int, l: int)
    requires forall i, j :: 0 <= i < h && 0 <= j < w ==> f(i, j) >= 0.0
    requires 0 <= k < h && 0 <= l < w
    ensures Sum2(h, w, f) >= f(k, l)
  {
    forall i | 0 <= i < h
      ensures RowSum(w, f, i) >= 0.0
    {
      SumNonnegative(0, w, Row(f, i));
    }
    SumAtLeastTerm(0, h, RowSums(w, f), k);
    SumAtLeastTerm(0, w, Row(f, k), l);
  }

  lemma Sum2OfConstant(h: nat, w: nat, f: (int, int) -> real, c: real)
    requires forall i, j :: 0 <= i < h && 0 <= j < w ==> f(i, j) == c
    ensures Sum2(h, w, f) == (h * w) as real * c
  {
    forall i | 0 <= i < h
      ensures RowSum(w, f, i) == w as real * c
    {
      SumOfConstant(0, w, Row(f, i), c);
    }
    SumOfConstant(0, h, RowSums(w, f), w as real * c);
    assert (h * w) as real == h as real * w as real;
  }

  /** Summing a(i - 1, j) * b(i, j) over a grid equals summing b(i + 1, j) * a(i, j):
      the row above the first and the row below the last are zero padding. */
  lemma Sum2ShiftRows(h: nat, w: nat, a: Grid, b: Grid)
    requires Shape(a, h, w) && Shape(b, h, w)
    ensures Sum2(h, w, ShiftedProduct(a, -1, 0, b)) == Sum2(h, w, ShiftedProduct(b, 1, 0, a))
  {
    var up := ShiftedProduct(a, -1, 0, b);
    var down := ShiftedProduct(b, 1, 0, a);
    forall i | 0 <= i < h
      ensures RowSum(w, up, i) == RowSum(w, down, i - 1)
    {
      SumExt(0, w, Row(up, i), Row(down, i - 1));
    }
    SumOfConstant(0, w, Row(down, -1), 0.0);
    SumOfConstant(0, w, Row(down, h - 1), 0.0);
    ShiftWithZeroEnds(h, RowSums(w, up), RowSums(w, down));
  }

  /** The same step along a row: a(i, j - 1) * b(i, j) against b(i, j + 1) * a(i, j). */
  lemma Sum2ShiftColumns(h: nat, w: nat, a: Grid, b: Grid)
    requires Shape(a, h, w) && Shape(b, h, w)
    ensures Sum2(h, w, ShiftedProduct(a, 0, -1, b)) == Sum2(h, w, ShiftedProduct(b, 0, 1, a))
  {
    var left := ShiftedProduct(a, 0, -1, b);
    var right := ShiftedProduct(b, 0, 1, a);
    forall i | 0 <= i < h
      ensures RowSum(w, left, i) == RowSum(w, right, i)
    {
      ShiftWithZeroEnds(w, Row(left, i), Row(right, i));
    }
    SumExt(0, h, RowSums(w, left), RowSums(w, right));
  }

  /** The inner product of two grids of one shape is symmetric. */
  lemma InnerSymmetric(a: Grid, b: Grid)
    requires IsGrid(a) && Shape(b, |a|, Width(a))
    ensures Inner(a, b) == Inner(b, a)
  {
    assert Width(b) == Width(a);
    Sum2Ext(|a|, Width(a), ShiftedProduct(a, 0, 0, b), ShiftedProduct(b, 0, 0, a));
  }

  /** A sum of squares is never negative. */
  lemma SumSqNonnegative(g: Grid)
    ensures SumSq(g) >= 0.0
  {
    var sq := ShiftedProduct(g, 0, 0, g);
    forall i, j | 0 <= i < |g| && 0 <= j < Width(g)
      ensures sq(i, j) >= 0.0
    {
      Square(At(g, i, j));
    }
    Sum2Nonnegative(|g|, Width(g), sq);
  }

  /** A sum of squares is at least the square of any one cell. */
  lemma SumSqAtLeastCell(g: Grid, k: nat, l: nat)
    requires k < |g| && l < Width(g)
    ensures SumSq(g) >= At(g, k, l) * At(g, k, l)
  {
    var sq := ShiftedProduct(g, 0, 0, g);
    forall i, j | 0 <= i < |g| && 0 <= j < Width(g)
      ensures sq(i, j) >= 0.0
    {
      Square(At(g, i, j));
    }
    Sum2AtLeastTerm(|g|, Width(g), sq, k, l);
  }

  /** The cell function a * f(i, j) + b * g(i, j). */
  function Combination(a: real, f: (int, int) -> real, b: real, g: (int, int) -> real): (int, int) -> real {
    (i, j) => a * f(i, j) + b * g(i, j)
  }

  /** x * x is never negative, and positive unless x is 0. */
  lemma Square(x: real)
    ensures x * x >= 0.0
    ensures x != 0.0 ==> x * x > 0.0
  {
  }

  /** a + t * b, cell by cell, over a's shape. */
  function AddScaled(a: Grid, t: real, b: Grid): (r: Grid)
    requires IsGrid(a)
    ensures Shape(r, |a|, Width(a))
  {
    Tabulate(|a|, Width(a), (i, j) => At(a, i, j) + t * At(b, i, j))
  }

  lemma AtAddScaled(a: Grid, t: real, b: Grid, i: int, j: int)
    requires IsGrid(a) && Shape(b, |a|, Width(a))
    ensures At(AddScaled(a, t, b), i, j) == At(a, i, j) + t * At(b, i, j)
  {
    AtTabulate(|a|, Width(a), (i, j) => At(a, i, j) + t * At(b, i, j), i, j);
  }

  /** Zero plus t times zero is zero. */
  lemma AddScaledOfZeros(h: nat, w: nat, t: real)
    ensures AddScaled(Zeros(h, w), t, Zeros(h, w)) == Zeros(h, w)
  {
    var z := Zeros(h, w);
    forall i, j | 0 <= i < h && 0 <= j < w
      ensures AddScaled(z, t, z)[i][j] == z[i][j]
    {
      AtAddScaled(z, t, z, i, j);
    }
    GridExt(AddScaled(z, t, z), z);
  }

  /** Two grids of one shape that agree on every cell are equal. */
  lemma GridExt(a: Grid, b: Grid)
    requires IsGrid(a) && Shape(b, |a|, Width(a))
    requires forall i, j :: 0 <= i < |a| && 0 <= j < Width(a) ==> a[i][j] == b[i][j]
    ensures a == b
  {
    forall i | 0 <= i < |a|
      ensures a[i] == b[i]
    {
      assert forall j :: 0 <= j < Width(a) ==> a[i][j] == b[i][j];
    }
  }

  /** The sum of squares of a + t * b, expanded: the quadratic in t. */
  lemma SumSqExpand(a: Grid, b: Grid, t: real)
    requires IsGrid(a) && Shape(b, |a|, Width(a))
    ensures SumSq(AddScaled(a, t, b)) == SumSq(a) + 2.0 * t * Inner(a, b) + t * t * SumSq(b)
  {
    var h, w := |a|, Width(a);
    var g := AddScaled(a, t, b);
    assert Width(g) == w;
    var aa, ab, bb, gg := ShiftedProduct(a, 0, 0, a), ShiftedProduct(a, 0, 0, b), ShiftedProduct(b, 0, 0, b), ShiftedProduct(g, 0, 0, g);
    forall i, j | 0 <= i < h && 0 <= j < w
      ensures gg(i, j) == aa(i, j) + 2.0 * t * ab(i, j) + t * t * bb(i, j)
    {
      AtAddScaled(a, t, b, i, j);
      ExpandSquare(At(a, i, j), At(b, i, j), t);
    }
    Sum2Quadratic(h, w, gg, aa, ab, bb, t);
    assert SumSq(g) == Sum2(h, w, gg);
    assert SumSq(a) == Sum2(h, w, aa);
    assert Inner(a, b) == Sum2(h, w, ab);
    assert SumSq(b) == Sum2(h, w, bb);
  }

  lemma ExpandSquare(x: real, y: real, t: real)
    ensures (x + t * y) * (x + t * y) == x * x + 2.0 * t * (x * y) + t * t * (y * y)
  {
  }

  /** Summing a quadratic in t cell by cell gives the quadratic of the sums. */
  lemma Sum2Quadratic(h: nat, w: nat, r: (int, int) -> real, f: (int, int) -> real, g: (int, int) -> real,
                      k: (int, int) -> real, t: real)
    requires forall i, j :: 0 <= i < h && 0 <= j < w ==> r(i, j) == f(i, j) + 2.0 * t * g(i, j) + t * t * k(i, j)
    ensures Sum2(h, w, r) == Sum2(h, w, f) + 2.0 * t * Sum2(h, w, g) + t * t * Sum2(h, w, k)
  {
    var first := Combination(1.0, f, 2.0 * t, g);
    Sum2Linear(h, w, first, k, r, 1.0, t * t);
    Sum2Linear(h, w, f, g, first, 1.0, 2.0 * t);
  }

  /** The cells of a 2-D array as a grid. */
  function Cells(a: array2<real>): (g: Grid)
    reads a
    ensures Shape(g, a.Length0, a.Length1)
  {
    seq(a.Length0, i requires 0 <= i < a.Length0 reads a => seq(a.Length1, j requires 0 <= j < a.Length1 reads a => a[i, j]))
  }

  /** An array whose every cell agrees with g has g as its cells. */
  lemma GridOfCells(a: array2<real>, g: Grid)
    requires Shape(g, a.Length0, a.Length1)
    requires forall i, j :: 0 <= i < a.Length0 && 0 <= j < a.Length1 ==> a[i, j] == g[i][j]
    ensures Cells(a) == g
  {
    var c := Cells(a);
    forall i | 0 <= i < a.Length0
      ensures c[i] == g[i]
    {
      assert forall j :: 0 <= j < a.Length1 ==> c[i][j] == g[i][j];
    }
  }

  // ---------------------------------------------------------------------
  // Row-major flattening

  /** ndarray.flatten(): the rows one after another. */
  function Flatten(g: Grid): (v: seq<real>)
  {
    if |g| == 0 then [] else g[0] + Flatten(g[1..])
  }

  /** ndarray.reshape((h, w)) of a flat vector of h * w values. */
  function Reshape(v: seq<real>, h: nat, w: nat): (g: Grid)
    requires |v| == h * w
    ensures Shape(g, h, w)
    decreases h
  {
    if h == 0 then []
    else
      assert |v| == w + (h - 1) * w;
      [v[..w]] + Reshape(v[w..], h - 1, w)
  }

  lemma {:induction false} FlattenLength(g: Grid, h: nat, w: nat)
    requires Shape(g, h, w)
    ensures |Flatten(g)| == h * w
    decreases h
  {
    if h > 0 {
      FlattenLength(g[1..], h - 1, w);
      assert h * w == w + (h - 1) * w;
    }
  }

  /** Cell (i, j) sits at position i * w + j of the flat vector. */
  lemma {:induction false} FlattenIndex(g: Grid, h: nat, w: nat, i: nat, j: nat)
    requires Shape(g, h, w) && i < h && j < w
    ensures i * w + j < |Flatten(g)| && Flatten(g)[i * w + j] == g[i][j]
    decreases i
  {
    FlattenLength(g, h, w);
    FlattenLength(g[1..], h - 1, w);
    if i > 0 {
      FlattenIndex(g[1..], h - 1, w, i - 1, j);
      assert i * w + j == w + ((i - 1) * w + j);
    }
  }

  /** A grid of one value flattens to a vector of that value. */
  lemma {:induction false} FlattenConstant(g: Grid, h: nat, w: nat, c: real)
    requires Shape(g, h, w) && forall i, j :: 0 <= i < h && 0 <= j < w ==> g[i][j] == c
    ensures |Flatten(g)| == h * w
    ensures forall k :: 0 <= k < h * w ==> Flatten(g)[k] == c
    decreases h
  {
    FlattenLength(g, h, w);
    if h > 0 {
      FlattenConstant(g[1..], h - 1, w, c);
      forall k | 0 <= k < h * w
        ensures Flatten(g)[k] == c
      {
        if k >= w {
          assert Flatten(g)[k] == Flatten(g[1..])[k - w];
        }
      }
    }
  }

  /** Flattening a reshaped vector gives the vector back. */
  lemma {:induction false} FlattenReshape(v: seq<real>, h: nat, w: nat)
    requires |v| == h * w
    ensures Flatten(Reshape(v, h, w)) == v
    decreases h
  {
    if h > 0 {
      assert |v| == w + (h - 1) * w;
      var g := Reshape(v, h, w);
      assert g[1..] == Reshape(v[w..], h - 1, w);
      FlattenReshape(v[w..], h - 1, w);
      assert v == v[..w] + v[w..];
    }
  }

  /** Reshaping a flattened grid to its own shape gives the grid back. */
  lemma {:induction false} ReshapeFlatten(g: Grid, h: nat, w: nat)
    requires Shape(g, h, w)
    ensures |Flatten(g)| == h * w && Reshape(Flatten(g), h, w) == g
    decreases h
  {
    FlattenLength(g, h, w);
    if h > 0 {
      FlattenLength(g[1..], h - 1, w);
      var v := Flatten(g);
      assert v[..w] == g[0] && v[w..] == Flatten(g[1..]);
      ReshapeFlatten(g[1..], h - 1, w);
      assert g == [g[0]] + g[1..];
    }
  }
}
