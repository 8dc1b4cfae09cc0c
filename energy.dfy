/** The energy the optimiser minimises (sfs_cost_and_gradient): the brightness
    misfit of the Lambertian prediction plus lambda times the squared Laplacian,
    and the gradient assembled from the slope partials and the bi-Laplacian. */
module Energy {
  import opened Grids
  import opened Elementary
  import opened Utils
  import opened Laplacian

  // ---------------------------------------------------------------------
  // Costs

  /** observed_image - predicted_image, cell by cell. */
  function BrightnessError(e: Ops, z: Grid, observed: Grid, light: Vec3): (err: Grid)
    requires GradientReady(z) && Shape(observed, |z|, Width(z))
    ensures Shape(err, |z|, Width(z))
  {
    var img := PredictedImage(e, z, light);
    seq(|z|, i requires 0 <= i < |z| => seq(Width(z), j requires 0 <= j < Width(z) => observed[i][j] - img[i][j]))
  }

  /** 0.5 * np.sum(brightness_error**2). */
  function BrightnessCost(e: Ops, z: Grid, observed: Grid, light: Vec3): (c: real)
    requires GradientReady(z) && Shape(observed, |z|, Width(z))
    ensures c >= 0.0
  {
    HalfSumSq(BrightnessError(e, z, observed, light))
  }

  /** 0.5 * np.sum(laplace(Z)**2). */
  function SmoothnessCost(z: Grid): (c: real)
    requires IsGrid(z)
    ensures c >= 0.0
  {
    HalfSumSq(Laplace(z))
  }

  /** 0.5 * np.sum(g**2), the form both cost terms take. */
  function HalfSumSq(g: Grid): (c: real)
    ensures c >= 0.0
  {
    SumSqNonnegative(g);
    0.5 * SumSq(g)
  }

  /** brightness_cost + lambda_reg * smoothness_cost. */
  function TotalCost(e: Ops, z: Grid, observed: Grid, light: Vec3, lambdaReg: real): (c: real)
    requires GradientReady(z) && Shape(observed, |z|, Width(z))
    ensures lambdaReg >= 0.0 ==> c >= 0.0
  {
    var s := SmoothnessCost(z);
    NonnegativeProduct(lambdaReg, s);
    BrightnessCost(e, z, observed, light) + lambdaReg * s
  }

  lemma ZeroProduct(a: real, b: real)
    ensures b == 0.0 ==> a * b == 0.0
  {
  }

  lemma NonnegativeProduct(a: real, b: real)
    ensures a >= 0.0 && b >= 0.0 ==> a * b >= 0.0
  {
  }

  // ---------------------------------------------------------------------
  // The slope denominator and its floor

  /** The value below which denom is overwritten. */
  const DenomFloor: real := 0.000000001

  /** One cell of `denom[denom < 1e-9] = 1e-9`. */
  function FloorCell(d: real): real {
    if d < DenomFloor then DenomFloor else d
  }

  /** (1 + p**2 + q**2)**1.5 at one pixel. */
  function DenominatorCell(e: Ops, p: real, q: real): real {
    Pow15(e, 1.0 + p * p + q * q)
  }

  /** (1 + p**2 + q**2)**1.5, before the floor. */
  function RawDenominator(e: Ops, p: Grid, q: Grid): (d: Grid)
    requires IsGrid(p) && Shape(q, |p|, Width(p))
    ensures Shape(d, |p|, Width(p))
  {
    seq(|p|, i requires 0 <= i < |p| => seq(Width(p), j requires 0 <= j < Width(p) => DenominatorCell(e, p[i][j], q[i][j])))
  }

  /** A raw denominator is at least 1, since 1 + p^2 + q^2 >= 1. */
  lemma DenominatorCellAtLeastOne(e: Ops, p: real, q: real)
    requires Lawful(e)
    ensures DenominatorCell(e, p, q) >= 1.0
  {
    Square(p);
    Square(q);
    Pow15AtLeastOne(e, 1.0 + p * p + q * q);
  }

  /** The masked assignment at line 47: every entry below the floor becomes the
      floor and every other entry is kept, so afterwards no entry is below it. */
  function FloorGrid(d: Grid): (r: Grid)
    requires IsGrid(d)
    ensures Shape(r, |d|, Width(d))
    ensures forall i, j :: 0 <= i < |d| && 0 <= j < Width(d) ==> r[i][j] >= DenomFloor
    ensures forall i, j :: 0 <= i < |d| && 0 <= j < Width(d) ==> (d[i][j] >= DenomFloor <==> r[i][j] == d[i][j])
    ensures forall i, j :: 0 <= i < |d| && 0 <= j < Width(d) ==> (d[i][j] < DenomFloor ==> r[i][j] == DenomFloor)
  {
    seq(|d|, i requires 0 <= i < |d| => seq(Width(d), j requires 0 <= j < Width(d) => FloorCell(d[i][j])))
  }

  /** Every raw denominator is at least 1. */
  lemma RawDenominatorAtLeastOne(e: Ops, p: Grid, q: Grid)
    requires Lawful(e) && IsGrid(p) && Shape(q, |p|, Width(p))
    ensures forall i, j :: 0 <= i < |p| && 0 <= j < Width(p) ==> RawDenominator(e, p, q)[i][j] >= 1.0
  {
    forall i, j | 0 <= i < |p| && 0 <= j < Width(p)
      ensures RawDenominator(e, p, q)[i][j] >= 1.0
    {
      DenominatorCellAtLeastOne(e, p[i][j], q[i][j]);
    }
  }

  /** Hence the floor at line 47 never changes an entry. */
  lemma FloorNeverFires(e: Ops, p: Grid, q: Grid)
    requires Lawful(e) && IsGrid(p) && Shape(q, |p|, Width(p))
    ensures FloorGrid(RawDenominator(e, p, q)) == RawDenominator(e, p, q)
  {
    var d := RawDenominator(e, p, q);
    RawDenominatorAtLeastOne(e, p, q);
    var r := FloorGrid(d);
    forall i | 0 <= i < |d|
      ensures r[i] == d[i]
    {
      assert forall j :: 0 <= j < Width(d) ==> r[i][j] == d[i][j];
    }
  }

  /** `denom[denom < 1e-9] = 1e-9`, in place on the array. */
  method FloorDenominator(d: array2<real>)
    modifies d
    ensures Cells(d) == FloorGrid(old(Cells(d)))
  {
    ghost var d0 := Cells(d);
    var i := 0;
    while i < d.Length0
      invariant 0 <= i <= d.Length0
      invariant forall a, b :: 0 <= a < i && 0 <= b < d.Length1 ==> d[a, b] == FloorCell(d0[a][b])
      invariant forall a, b :: i <= a < d.Length0 && 0 <= b < d.Length1 ==> d[a, b] == d0[a][b]
    {
      var j := 0;
      while j < d.Length1
        invariant 0 <= j <= d.Length1
        invariant forall a, b :: 0 <= a < i && 0 <= b < d.Length1 ==> d[a, b] == FloorCell(d0[a][b])
        invariant forall b :: 0 <= b < j ==> d[i, b] == FloorCell(d0[i][b])
        invariant forall b :: j <= b < d.Length1 ==> d[i, b] == d0[i][b]
        invariant forall a, b :: i < a < d.Length0 && 0 <= b < d.Length1 ==> d[a, b] == d0[a][b]
      {
        if d[i, j] < DenomFloor {
          d[i, j] := DenomFloor;
        }
        j := j + 1;
      }
      i := i + 1;
    }
    GridOfCells(d, FloorGrid(d0));
  }

  // ---------------------------------------------------------------------
  // Gradient

  /** dE_dp = brightness_error * ((L[0] - L[2] * p) / denom). */
  function PartialP(err: Grid, p: Grid, denom: Grid, light: Vec3): (r: Grid)
    requires IsGrid(err) && Shape(p, |err|, Width(err)) && Shape(denom, |err|, Width(err))
    requires forall i, j :: 0 <= i < |err| && 0 <= j < Width(err) ==> denom[i][j] >= DenomFloor
    ensures Shape(r, |err|, Width(err))
  {
    seq(|err|, i requires 0 <= i < |err| => seq(Width(err), j requires 0 <= j < Width(err) =>
      err[i][j] * ((light.x - light.z * p[i][j]) / denom[i][j])))
  }

  /** dE_dq = brightness_error * ((L[1] - L[2] * q) / denom). */
  function PartialQ(err: Grid, q: Grid, denom: Grid, light: Vec3): (r: Grid)
    requires IsGrid(err) && Shape(q, |err|, Width(err)) && Shape(denom, |err|, Width(err))
    requires forall i, j :: 0 <= i < |err| && 0 <= j < Width(err) ==> denom[i][j] >= DenomFloor
    ensures Shape(r, |err|, Width(err))
  {
    seq(|err|, i requires 0 <= i < |err| => seq(Width(err), j requires 0 <= j < Width(err) =>
      err[i][j] * ((light.y - light.z * q[i][j]) / denom[i][j])))
  }

  /** -(d_dx + d_dy), where d_dx is the axis-1 derivative of dE_dp and d_dy the
      axis-0 derivative of dE_dq (lines 58-60). */
  function NegatedDivergence(dEdp: Grid, dEdq: Grid): (r: Grid)
    requires GradientReady(dEdp) && Shape(dEdq, |dEdp|, Width(dEdp))
    ensures Shape(r, |dEdp|, Width(dEdp))
  {
    var dx := Gradient(dEdp).1;
    var dy := Gradient(dEdq).0;
    seq(|dEdp|, i requires 0 <= i < |dEdp| => seq(Width(dEdp), j requires 0 <= j < Width(dEdp) =>
      -(dx[i][j] + dy[i][j])))
  }

  /** The brightness part of the gradient. Here p is the axis-0 derivative of Z
      and q the axis-1 derivative (line 44), the opposite of the binding the
      surface normals use. */
  function BrightnessGradient(e: Ops, z: Grid, observed: Grid, light: Vec3): (g: Grid)
    requires GradientReady(z) && Shape(observed, |z|, Width(z))
    ensures Shape(g, |z|, Width(z))
  {
    var err := BrightnessError(e, z, observed, light);
    var (p, q) := Gradient(z);
    var denom := FloorGrid(RawDenominator(e, p, q));
    NegatedDivergence(PartialP(err, p, denom, light), PartialQ(err, q, denom, light))
  }

  /** laplace(laplace(Z)): the bi-Laplacian. */
  function SmoothnessGradient(z: Grid): (g: Grid)
    requires IsGrid(z)
    ensures Shape(g, |z|, Width(z))
  {
    Laplace(Laplace(z))
  }

  /** brightness_gradient + lambda_reg * smoothness_gradient. */
  function TotalGradient(e: Ops, z: Grid, observed: Grid, light: Vec3, lambdaReg: real): (g: Grid)
    requires GradientReady(z) && Shape(observed, |z|, Width(z))
    ensures Shape(g, |z|, Width(z))
  {
    AddScaled(BrightnessGradient(e, z, observed, light), lambdaReg, SmoothnessGradient(z))
  }

  /** sfs_cost_and_gradient on the optimiser's flat vector: reshape, evaluate,
      flatten. np.gradient needs at least two samples along each axis. */
  function CostAndGradient(e: Ops, zFlat: seq<real>, observed: Grid, light: Vec3, lambdaReg: real, shape: (nat, nat))
    : (r: (real, seq<real>))
    requires shape.0 >= 2 && shape.1 >= 2 && |zFlat| == shape.0 * shape.1
    requires Shape(observed, shape.0, shape.1)
    ensures |r.1| == |zFlat|
    ensures lambdaReg >= 0.0 ==> r.0 >= 0.0
    ensures r.0 == TotalCost(e, Reshape(zFlat, shape.0, shape.1), observed, light, lambdaReg)
    ensures Reshape(r.1, shape.0, shape.1) == TotalGradient(e, Reshape(zFlat, shape.0, shape.1), observed, light, lambdaReg)
  {
    var (h, w) := shape;
    var z := Reshape(zFlat, h, w);
    var g := TotalGradient(e, z, observed, light, lambdaReg);
    ReshapeFlatten(g, h, w);
    (TotalCost(e, z, observed, light, lambdaReg), Flatten(g))
  }

  // ---------------------------------------------------------------------
  // Properties of the energy

  /** The bi-Laplacian is exactly the gradient of the smoothness cost: moving Z
      by t * V changes the cost by t * sum(laplace(laplace(Z)) * V) plus a term
      quadratic in t. */
  lemma SmoothnessGradientIsExact(z: Grid, v: Grid, t: real)
    requires IsGrid(z) && Shape(v, |z|, Width(z))
    ensures SmoothnessCost(AddScaled(z, t, v))
         == SmoothnessCost(z) + t * Inner(SmoothnessGradient(z), v) + t * t * SmoothnessCost(v)
  {
    SmoothnessCostOfStep(z, v, t);
    BiLaplacianCrossTerm(z, v);
    HalfEnergyExpand(Laplace(z), Laplace(v), t);
  }

  /** By linearity, the smoothness cost of Z + t * V is half the squared sum
      of laplace(Z) + t * laplace(V). */
  lemma SmoothnessCostOfStep(z: Grid, v: Grid, t: real)
    requires IsGrid(z) && Shape(v, |z|, Width(z))
    ensures SmoothnessCost(AddScaled(z, t, v)) == HalfSumSq(AddScaled(Laplace(z), t, Laplace(v)))
  {
    LaplaceLinear(z, t, v);
  }

  /** By self-adjointness, sum(laplace(laplace(Z)) * V) == sum(laplace(Z) * laplace(V)). */
  lemma BiLaplacianCrossTerm(z: Grid, v: Grid)
    requires IsGrid(z) && Shape(v, |z|, Width(z))
    ensures Inner(SmoothnessGradient(z), v) == Inner(Laplace(z), Laplace(v))
  {
    LaplaceSelfAdjoint(Laplace(z), v);
  }

  /** Half the sum of squares of a + t * b. */
  lemma HalfEnergyExpand(a: Grid, b: Grid, t: real)
    requires IsGrid(a) && Shape(b, |a|, Width(a))
    ensures HalfSumSq(AddScaled(a, t, b)) == HalfSumSq(a) + t * Inner(a, b) + t * t * HalfSumSq(b)
  {
    SumSqExpand(a, b, t);
    HalveQuadratic(SumSq(AddScaled(a, t, b)), SumSq(a), Inner(a, b), SumSq(b), t);
  }

  lemma HalveQuadratic(s: real, a: real, b: real, c: real, t: real)
    requires s == a + 2.0 * t * b + t * t * c
    ensures 0.5 * s == 0.5 * a + t * b + t * t * (0.5 * c)
  {
  }

  /** At the all-zero start surface the Laplacian, the smoothness cost and the
      smoothness gradient all vanish. */
  lemma FlatStartIsSmooth(h: nat, w: nat)
    ensures Laplace(Zeros(h, w)) == Zeros(h, w)
    ensures SmoothnessCost(Zeros(h, w)) == 0.0
    ensures SmoothnessGradient(Zeros(h, w)) == Zeros(h, w)
  {
    LaplaceOfZeros(h, w);
    SumSqOfZeros(h, w);
  }

  lemma SumSqOfZeros(h: nat, w: nat)
    ensures SumSq(Zeros(h, w)) == 0.0
  {
    var z := Zeros(h, w);
    Sum2OfConstant(h, w, ShiftedProduct(z, 0, 0, z), 0.0);
  }

  /** A nonzero constant surface is not smooth in this energy: the zero padding
      puts a step at the border, so its smoothness cost is positive. */
  lemma ConstantSurfaceIsNotSmooth(z: Grid, c: real)
    requires IsConstant(z, c) && c != 0.0 && |z| >= 1 && Width(z) >= 1
    ensures SmoothnessCost(z) > 0.0
  {
    LaplaceOfConstantAtCorner(z, c);
    SumSqAtLeastCell(Laplace(z), 0, 0);
    assert At(Laplace(z), 0, 0) == Laplace(z)[0][0];
    Square(At(Laplace(z), 0, 0));
    AboveProduct(SumSq(Laplace(z)), At(Laplace(z), 0, 0), At(Laplace(z), 0, 0));
  }

  lemma AboveProduct(s: real, x: real, y: real)
    requires s >= x * y && x * y > 0.0
    ensures s > 0.0
  {
  }

  /** Where the prediction matches the observed image, the brightness term
      contributes neither cost nor gradient. */
  lemma PerfectFitHasNoBrightnessTerm(e: Ops, z: Grid, observed: Grid, light: Vec3)
    requires GradientReady(z) && observed == PredictedImage(e, z, light)
    ensures BrightnessCost(e, z, observed, light) == 0.0
    ensures BrightnessGradient(e, z, observed, light) == Zeros(|z|, Width(z))
  {
    var h, w := |z|, Width(z);
    PerfectFitLeavesNoError(e, z, observed, light);
    SumSqOfZeros(h, w);
    var (p, q) := Gradient(z);
    ZeroErrorHasNoGradient(BrightnessError(e, z, observed, light), p, q, FloorGrid(RawDenominator(e, p, q)), light);
  }

  lemma PerfectFitLeavesNoError(e: Ops, z: Grid, observed: Grid, light: Vec3)
    requires GradientReady(z) && observed == PredictedImage(e, z, light)
    ensures BrightnessError(e, z, observed, light) == Zeros(|z|, Width(z))
  {
    var h, w := |z|, Width(z);
    var err := BrightnessError(e, z, observed, light);
    forall i | 0 <= i < h
      ensures err[i] == Zeros(h, w)[i]
    {
      assert forall j :: 0 <= j < w ==> err[i][j] == At(Zeros(h, w), i, j);
    }
  }

  /** An all-zero brightness error gives an all-zero brightness gradient,
      whatever the slopes and denominators. */
  lemma ZeroErrorHasNoGradient(err: Grid, p: Grid, q: Grid, denom: Grid, light: Vec3)
    requires GradientReady(err) && Shape(p, |err|, Width(err)) && Shape(q, |err|, Width(err))
    requires Shape(denom, |err|, Width(err))
    requires forall i, j :: 0 <= i < |err| && 0 <= j < Width(err) ==> denom[i][j] >= DenomFloor
    requires err == Zeros(|err|, Width(err))
    ensures NegatedDivergence(PartialP(err, p, denom, light), PartialQ(err, q, denom, light)) == Zeros(|err|, Width(err))
  {
    var h, w := |err|, Width(err);
    var dEdp, dEdq := PartialP(err, p, denom, light), PartialQ(err, q, denom, light);
    assert forall i, j :: 0 <= i < h && 0 <= j < w ==> err[i][j] == At(Zeros(h, w), i, j);
    assert IsConstant(dEdp, 0.0);
    assert IsConstant(dEdq, 0.0);
    GradientOfConstant(dEdp, 0.0);
    GradientOfConstant(dEdq, 0.0);
    var g := NegatedDivergence(dEdp, dEdq);
    forall i | 0 <= i < h
      ensures g[i] == Zeros(h, w)[i]
    {
      assert forall j :: 0 <= j < w ==> g[i][j] == At(Zeros(h, w), i, j);
    }
  }

  /** Hence the flat start is a stationary point of the whole energy, for any
      lambda, when the observed image is the one it predicts. */
  lemma FlatStartIsStationary(e: Ops, h: nat, w: nat, observed: Grid, light: Vec3, lambdaReg: real)
    requires h >= 2 && w >= 2 && observed == PredictedImage(e, Zeros(h, w), light)
    ensures TotalCost(e, Zeros(h, w), observed, light, lambdaReg) == 0.0
    ensures TotalGradient(e, Zeros(h, w), observed, light, lambdaReg) == Zeros(h, w)
  {
    var z := Zeros(h, w);
    PerfectFitHasNoBrightnessTerm(e, z, observed, light);
    FlatStartIsSmooth(h, w);
    ZeroProduct(lambdaReg, SmoothnessCost(z));
    AddScaledOfZeros(h, w, lambdaReg);
  }

  /** An image of uniform brightness max(0, L[2]) is the one the flat start
      predicts, so for it the flat start is already stationary. */
  lemma UniformImageFitsFlatStart(e: Ops, h: nat, w: nat, light: Vec3)
    requires Lawful(e) && h >= 2 && w >= 2
    ensures PredictedImage(e, Zeros(h, w), light) == Const(h, w, Max(0.0, light.z))
  {
    var z := Zeros(h, w);
    assert IsConstant(z, 0.0);
    PredictedImageOfConstant(e, z, 0.0, light);
    var img := PredictedImage(e, z, light);
    forall i | 0 <= i < h
      ensures img[i] == Const(h, w, Max(0.0, light.z))[i]
    {
      assert forall j :: 0 <= j < w ==> img[i][j] == Const(h, w, Max(0.0, light.z))[i][j];
    }
  }
}
