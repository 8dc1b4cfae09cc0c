/** scale_dem_to_meters: the pixel scale from the camera geometry, the
    multiplication of the relative DEM by it, and the in-place centring on the
    mean height. */
module Scaling {
  import opened Grids
  import opened Driver

  /** (pixel width in um * 1e-6) * (altitude in km * 1000) / (focal length in
      mm * 1e-3), in metres per pixel; Python raises on a zero focal length. */
  function PixelSizeM(config: Config): (r: Result<real>)
    ensures r.Err? <==> config.focalLengthMm == 0.0
    ensures r.Err? ==> r.error == ZeroDivision
    ensures r.Ok? ==>
      r.value * (config.focalLengthMm * 0.001) == (config.detectorPixelWidthUm * 0.000001) * (config.spacecraftAltitudeKm * 1000.0)
  {
    var denominator := config.focalLengthMm * 0.001;
    if denominator == 0.0 then Err(ZeroDivision)
    else
      var numerator := (config.detectorPixelWidthUm * 0.000001) * (config.spacecraftAltitudeKm * 1000.0);
      DivisionCancels(numerator, denominator);
      Ok(numerator / denominator)
  }

  lemma DivisionCancels(n: real, d: real)
    requires d != 0.0
    ensures n / d * d == n
  {
  }

  /** With the driver's camera (7 um pixels, 95.85 km altitude, 140 mm focal
      length) one pixel is 4.7925 m. */
  lemma DriverPixelSize()
    ensures PixelSizeM(DriverInputs) == Ok(4.7925)
  {
    var r := PixelSizeM(DriverInputs);
    assert r.value * 0.14 == 0.67095;
  }

  /** np.mean. An empty grid has no mean; any value will do for it, since
      subtracting it from no cells changes nothing. */
  function Mean(g: Grid): (m: real)
    ensures |g| * Width(g) > 0 ==> m * (|g| * Width(g)) as real == GridSum(g)
  {
    if |g| * Width(g) == 0 then 0.0
    else
      DivisionCancels(GridSum(g), (|g| * Width(g)) as real);
      GridSum(g) / (|g| * Width(g)) as real
  }

  /** The cell function a(i, j) * px. */
  function Scaled(g: Grid, px: real): (int, int) -> real {
    (i, j) => At(g, i, j) * px
  }

  /** The cell function a(i, j) - c. */
  function Offset(g: Grid, c: real): (int, int) -> real {
    (i, j) => At(g, i, j) - c
  }

  /** dem * pixel_size_m. */
  function Scale(g: Grid, px: real): (r: Grid)
    requires IsGrid(g)
    ensures Shape(r, |g|, Width(g))
  {
    Tabulate(|g|, Width(g), Scaled(g, px))
  }

  /** scaled_dem - np.mean(scaled_dem). */
  function Centre(g: Grid): (r: Grid)
    requires IsGrid(g)
    ensures Shape(r, |g|, Width(g))
  {
    Tabulate(|g|, Width(g), Offset(g, Mean(g)))
  }

  /** The whole transformation on a grid: scale, then centre. */
  function ScaledDem(g: Grid, px: real): (r: Grid)
    requires IsGrid(g)
    ensures Shape(r, |g|, Width(g))
  {
    Centre(Scale(g, px))
  }

  lemma CellOfCentre(g: Grid, i: int, j: int)
    requires IsGrid(g) && 0 <= i < |g| && 0 <= j < Width(g)
    ensures Centre(g)[i][j] == g[i][j] - Mean(g)
  {
    assert Centre(g)[i][j] == Offset(g, Mean(g))(i, j);
  }

  lemma CellOfScale(g: Grid, px: real, i: int, j: int)
    requires IsGrid(g) && 0 <= i < |g| && 0 <= j < Width(g)
    ensures Scale(g, px)[i][j] == g[i][j] * px
  {
    assert Scale(g, px)[i][j] == Scaled(g, px)(i, j);
  }

  /** A centred grid sums to 0, so its mean is 0. */
  lemma CentredSumIsZero(g: Grid)
    requires IsGrid(g)
    ensures GridSum(Centre(g)) == 0.0
    ensures Mean(Centre(g)) == 0.0
  {
    var h, w, m := |g|, Width(g), Mean(g);
    var c := Centre(g);
    assert Width(c) == w;
    forall i, j | 0 <= i < h && 0 <= j < w
      ensures CellsOf(c)(i, j) == 1.0 * CellsOf(g)(i, j) + -m * Constant(1.0)(i, j)
    {
      CellOfCentre(g, i, j);
    }
    Sum2Linear(h, w, CellsOf(g), Constant(1.0), CellsOf(c), 1.0, -m);
    Sum2OfConstant(h, w, Constant(1.0), 1.0);
    if h * w == 0 {
      Sum2OfConstant(h, w, CellsOf(g), 0.0);
    }
  }

  /** Scaling then centring multiplies every height difference by the pixel
      size: the mean it subtracts cancels. */
  lemma ScaledDifferences(g: Grid, px: real, i: int, j: int, k: int, l: int)
    requires IsGrid(g) && 0 <= i < |g| && 0 <= j < Width(g) && 0 <= k < |g| && 0 <= l < Width(g)
    ensures ScaledDem(g, px)[i][j] - ScaledDem(g, px)[k][l] == px * (g[i][j] - g[k][l])
  {
    var s := Scale(g, px);
    CellOfCentre(s, i, j);
    CellOfCentre(s, k, l);
    CellOfScale(g, px, i, j);
    CellOfScale(g, px, k, l);
    Factor(g[i][j], g[k][l], px);
  }

  lemma Factor(a: real, b: real, px: real)
    ensures a * px - b * px == px * (a - b)
  {
  }

  /** The rescaled DEM has mean height 0. */
  lemma ScaledDemHasMeanZero(g: Grid, px: real)
    requires IsGrid(g)
    ensures Mean(ScaledDem(g, px)) == 0.0
  {
    CentredSumIsZero(Scale(g, px));
  }

  /** dem * pixel_size_m, into a new array. */
  method ScaledCopy(dem: array2<real>, px: real) returns (s: array2<real>)
    ensures fresh(s)
    ensures Cells(s) == Scale(Cells(dem), px)
  {
    s := new real[dem.Length0, dem.Length1];
    var i := 0;
    while i < dem.Length0
      invariant 0 <= i <= dem.Length0
      invariant forall a, b :: 0 <= a < i && 0 <= b < dem.Length1 ==> s[a, b] == dem[a, b] * px
    {
      var j := 0;
      while j < dem.Length1
        invariant 0 <= j <= dem.Length1
        invariant forall a, b :: 0 <= a < i && 0 <= b < dem.Length1 ==> s[a, b] == dem[a, b] * px
        invariant forall b :: 0 <= b < j ==> s[i, b] == dem[i, b] * px
      {
        s[i, j] := dem[i, j] * px;
        j := j + 1;
      }
      i := i + 1;
    }
    ghost var g := Cells(dem);
    forall a, b | 0 <= a < dem.Length0 && 0 <= b < dem.Length1
      ensures s[a, b] == Scale(g, px)[a][b]
    {
      CellOfScale(g, px, a, b);
    }
    GridOfCells(s, Scale(g, px));
  }

  /** scaled_dem -= np.mean(scaled_dem), in place. */
  method SubtractMean(a: array2<real>)
    modifies a
    ensures Cells(a) == Centre(old(Cells(a)))
  {
    ghost var a0 := Cells(a);
    var m := Mean(Cells(a));
    var i := 0;
    while i < a.Length0
      invariant 0 <= i <= a.Length0
      invariant forall r, c :: 0 <= r < i && 0 <= c < a.Length1 ==> a[r, c] == a0[r][c] - m
      invariant forall r, c :: i <= r < a.Length0 && 0 <= c < a.Length1 ==> a[r, c] == a0[r][c]
    {
      var j := 0;
      while j < a.Length1
        invariant 0 <= j <= a.Length1
        invariant forall r, c :: 0 <= r < i && 0 <= c < a.Length1 ==> a[r, c] == a0[r][c] - m
        invariant forall c :: 0 <= c < j ==> a[i, c] == a0[i][c] - m
        invariant forall c :: j <= c < a.Length1 ==> a[i, c] == a0[i][c]
        invariant forall r, c :: i < r < a.Length0 && 0 <= c < a.Length1 ==> a[r, c] == a0[r][c]
      {
        a[i, j] := a[i, j] - m;
        j := j + 1;
      }
      i := i + 1;
    }
    forall r, c | 0 <= r < a.Length0 && 0 <= c < a.Length1
      ensures a[r, c] == Centre(a0)[r][c]
    {
      CellOfCentre(a0, r, c);
    }
    GridOfCells(a, Centre(a0));
  }

  /** scale_dem_to_meters. The `shape` argument is accepted and never read:
      the result depends on the DEM and the configuration alone. */
  method ScaleDemToMeters(dem: array2<real>, shape: (nat, nat), config: Config) returns (r: Result<array2<real>>)
    ensures r.Err? <==> config.focalLengthMm == 0.0
    ensures r.Err? ==> r.error == ZeroDivision
    ensures r.Ok? ==> fresh(r.value) && Cells(r.value) == ScaledDem(Cells(dem), PixelSizeM(config).value)
    ensures r.Ok? ==> Mean(Cells(r.value)) == 0.0
  {
    var px := PixelSizeM(config);
    if px.Err? {
      return Err(px.error);
    }
    var s := ScaledCopy(dem, px.value);
    SubtractMean(s);
    ScaledDemHasMeanZero(Cells(dem), px.value);
    return Ok(s);
  }
}
