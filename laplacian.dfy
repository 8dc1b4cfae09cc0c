/** The five-point Laplacian with zero padding that core.py takes from
    scipy.ndimage.laplace(..., mode='constant', cval=0.0), and the symmetry
    that makes the bi-Laplacian the gradient of the smoothness cost. */
module Laplacian {
  import opened Grids

  /** The stencil at (i, j): the four neighbours minus four times the centre,
      every off-grid neighbour read as 0. */
  function Stencil(x: Grid, i: int, j: int): real {
    At(x, i - 1, j) + At(x, i + 1, j) + At(x, i, j - 1) + At(x, i, j + 1) - 4.0 * At(x, i, j)
  }

  /** laplace(x, mode='constant', cval=0.0). */
  function Laplace(x: Grid): (r: Grid)
    requires IsGrid(x)
    ensures Shape(r, |x|, Width(x))
  {
    Tabulate(|x|, Width(x), (i, j) => Stencil(x, i, j))
  }

  /** f[k - 1] - 2 f[k] + f[k + 1] with zero padding: scipy's one-axis second
      derivative, the correlation with [1, -2, 1]. */
  function SecondDifference(f: seq<real>, k: int): real
    requires 0 <= k < |f|
  {
    (if k > 0 then f[k - 1] else 0.0) - 2.0 * f[k] + (if k + 1 < |f| then f[k + 1] else 0.0)
  }

  /** scipy builds laplace as the sum over both axes of the second derivative
      along that axis; the five-point stencil is that sum, cell by cell. */
  lemma LaplaceIsSumOfAxisSecondDifferences(x: Grid, i: int, j: int)
    requires IsGrid(x) && 0 <= i < |x| && 0 <= j < Width(x)
    ensures Laplace(x)[i][j] == SecondDifference(Column(x, j), i) + SecondDifference(x[i], j)
  {
  }

  /** The Laplacian of a constant grid c at the top-left corner: only the
      neighbours inside the grid count, so the value is never 0 when c is not. */
  lemma LaplaceOfConstantAtCorner(x: Grid, c: real)
    requires IsConstant(x, c) && |x| >= 1 && Width(x) >= 1
    ensures Laplace(x)[0][0] == (if |x| >= 2 then c else 0.0) + (if Width(x) >= 2 then c else 0.0) - 4.0 * c
    ensures c != 0.0 ==> Laplace(x)[0][0] != 0.0
  {
    assert Laplace(x)[0][0] == Stencil(x, 0, 0);
  }

  /** The Laplacian of the all-zero grid is the all-zero grid. */
  lemma LaplaceOfZeros(h: nat, w: nat)
    ensures Laplace(Zeros(h, w)) == Zeros(h, w)
  {
    var z := Zeros(h, w);
    forall i | 0 <= i < h
      ensures Laplace(z)[i] == z[i]
    {
      assert forall j :: 0 <= j < w ==> Laplace(z)[i][j] == Stencil(z, i, j) == 0.0;
    }
  }

  lemma AtLaplace(x: Grid, i: int, j: int)
    requires IsGrid(x)
    ensures At(Laplace(x), i, j) == if 0 <= i < |x| && 0 <= j < Width(x) then Stencil(x, i, j) else 0.0
  {
    AtTabulate(|x|, Width(x), (i, j) => Stencil(x, i, j), i, j);
  }

  /** One cell of laplace(x) * y, split into its five stencil products. */
  lemma LaplaceTimesCell(x: Grid, y: Grid, i: int, j: int)
    requires IsGrid(x) && 0 <= i < |x| && 0 <= j < Width(x)
    ensures ShiftedProduct(Laplace(x), 0, 0, y)(i, j)
         == ShiftedProduct(x, -1, 0, y)(i, j) + ShiftedProduct(x, 1, 0, y)(i, j)
          + ShiftedProduct(x, 0, -1, y)(i, j) + ShiftedProduct(x, 0, 1, y)(i, j)
          - 4.0 * ShiftedProduct(x, 0, 0, y)(i, j)
  {
    AtLaplace(x, i, j);
    Distribute(At(x, i - 1, j), At(x, i + 1, j), At(x, i, j - 1), At(x, i, j + 1), At(x, i, j), At(y, i, j));
  }

  lemma Distribute(n: real, s: real, w: real, e: real, c: real, y: real)
    ensures (n + s + w + e - 4.0 * c) * y == n * y + s * y + w * y + e * y - 4.0 * (c * y)
  {
  }

  /** sum(laplace(x) * y), split into its five stencil terms. */
  lemma InnerLaplaceLeft(x: Grid, y: Grid)
    requires IsGrid(x) && Shape(y, |x|, Width(x))
    ensures Inner(Laplace(x), y)
         == Sum2(|x|, Width(x), ShiftedProduct(x, -1, 0, y)) + Sum2(|x|, Width(x), ShiftedProduct(x, 1, 0, y))
          + Sum2(|x|, Width(x), ShiftedProduct(x, 0, -1, y)) + Sum2(|x|, Width(x), ShiftedProduct(x, 0, 1, y))
          - 4.0 * Inner(x, y)
  {
    var h, w := |x|, Width(x);
    forall i: int, j: int | 0 <= i < h && 0 <= j < w
      ensures ShiftedProduct(Laplace(x), 0, 0, y)(i, j)
           == ShiftedProduct(x, -1, 0, y)(i, j) + ShiftedProduct(x, 1, 0, y)(i, j)
            + ShiftedProduct(x, 0, -1, y)(i, j) + ShiftedProduct(x, 0, 1, y)(i, j)
            - 4.0 * ShiftedProduct(x, 0, 0, y)(i, j)
    {
      LaplaceTimesCell(x, y, i, j);
    }
    Sum2Stencil(h, w, ShiftedProduct(Laplace(x), 0, 0, y), ShiftedProduct(x, -1, 0, y), ShiftedProduct(x, 1, 0, y),
                ShiftedProduct(x, 0, -1, y), ShiftedProduct(x, 0, 1, y), ShiftedProduct(x, 0, 0, y));
  }

  /** Self-adjointness: sum(laplace(x) * y) == sum(x * laplace(y)) for grids of one shape. */
  lemma LaplaceSelfAdjoint(x: Grid, y: Grid)
    requires IsGrid(x) && Shape(y, |x|, Width(x))
    ensures Inner(Laplace(x), y) == Inner(x, Laplace(y))
  {
    var h, w := |x|, Width(x);
    assert Width(y) == w && IsGrid(y);
    InnerLaplaceLeft(x, y);
    InnerLaplaceLeft(y, x);
    InnerSymmetric(x, Laplace(y));
    InnerSymmetric(x, y);
    // Each neighbour term of one side is the opposite neighbour term of the other.
    Sum2ShiftRows(h, w, x, y);
    Sum2ShiftColumns(h, w, x, y);
    Sum2ShiftRows(h, w, y, x);
    Sum2ShiftColumns(h, w, y, x);
  }

  /** The Laplacian is linear. */
  lemma LaplaceLinear(x: Grid, t: real, v: Grid)
    requires IsGrid(x) && Shape(v, |x|, Width(x))
    ensures Laplace(AddScaled(x, t, v)) == AddScaled(Laplace(x), t, Laplace(v))
  {
    var l, r := Laplace(AddScaled(x, t, v)), AddScaled(Laplace(x), t, Laplace(v));
    forall i, j | 0 <= i < |x| && 0 <= j < Width(x)
      ensures l[i][j] == r[i][j]
    {
      LaplaceLinearIndex(x, t, v, i, j);
    }
    GridExt(l, r);
  }

  lemma LaplaceLinearIndex(x: Grid, t: real, v: Grid, i: int, j: int)
    requires IsGrid(x) && Shape(v, |x|, Width(x)) && 0 <= i < |x| && 0 <= j < Width(x)
    ensures Laplace(AddScaled(x, t, v))[i][j] == AddScaled(Laplace(x), t, Laplace(v))[i][j]
  {
    LaplaceLinearCell(x, t, v, i, j);
    AtAddScaled(Laplace(x), t, Laplace(v), i, j);
  }

  lemma LaplaceLinearCell(x: Grid, t: real, v: Grid, i: int, j: int)
    requires IsGrid(x) && Shape(v, |x|, Width(x))
    ensures At(Laplace(AddScaled(x, t, v)), i, j) == At(Laplace(x), i, j) + t * At(Laplace(v), i, j)
  {
    AtLaplace(AddScaled(x, t, v), i, j);
    AtLaplace(x, i, j);
    AtLaplace(v, i, j);
    if 0 <= i < |x| && 0 <= j < Width(x) {
      StencilLinear(x, t, v, i, j);
    }
  }

  /** The stencil is linear. */
  lemma StencilLinear(x: Grid, t: real, v: Grid, i: int, j: int)
    requires IsGrid(x) && Shape(v, |x|, Width(x))
    ensures Stencil(AddScaled(x, t, v), i, j) == Stencil(x, i, j) + t * Stencil(v, i, j)
  {
    AtAddScaled(x, t, v, i - 1, j);
    AtAddScaled(x, t, v, i + 1, j);
    AtAddScaled(x, t, v, i, j - 1);
    AtAddScaled(x, t, v, i, j + 1);
    AtAddScaled(x, t, v, i, j);
    CombineStencils(At(x, i - 1, j), At(x, i + 1, j), At(x, i, j - 1), At(x, i, j + 1), At(x, i, j),
                    At(v, i - 1, j), At(v, i + 1, j), At(v, i, j - 1), At(v, i, j + 1), At(v, i, j), t);
  }

  lemma CombineStencils(n: real, s: real, w: real, e: real, c: real,
                        n': real, s': real, w': real, e': real, c': real, t: real)
    ensures (n + t * n') + (s + t * s') + (w + t * w') + (e + t * e') - 4.0 * (c + t * c')
         == (n + s + w + e - 4.0 * c) + t * (n' + s' + w' + e' - 4.0 * c')
  {
  }
}
