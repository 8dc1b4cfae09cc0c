/** Per-pixel image formation (sfs_photoclinometry/utils.py): the light
    direction from sun angles, finite-difference slopes with the semantics of
    np.gradient, surface normals, and the Lambertian predicted image. */
module Utils {
  import opened Grids
  import opened Elementary

  /** A 3-vector: the East, North and Up components of a direction. */
  datatype Vec3 = Vec3(x: real, y: real, z: real)

  function Dot(a: Vec3, b: Vec3): real {
    a.x * b.x + a.y * b.y + a.z * b.z
  }

  function SqNorm(a: Vec3): real {
    Dot(a, a)
  }

  /** np.linalg.norm of a 3-vector. */
  function Norm(e: Ops, a: Vec3): real {
    e.sqrt(SqNorm(a))
  }

  /** np.maximum of two scalars. */
  function Max(a: real, b: real): (m: real)
    ensures m >= a && m >= b && (m == a || m == b)
  {
    if a >= b then a else b
  }

  // ---------------------------------------------------------------------
  // Illumination geometry

  /** The light direction before normalisation: Up is sin(elevation), the
      horizontal projection cos(elevation) splits into East = sin(azimuth) and
      North = cos(azimuth) (azimuth clockwise from North). Angles in radians. */
  function RawLightDirection(e: Ops, azRad: real, elRad: real): Vec3 {
    var xyProj := e.cos(elRad);
    Vec3(xyProj * e.sin(azRad), xyProj * e.cos(azRad), e.sin(elRad))
  }

  /** Given sin^2 + cos^2 = 1, the raw light direction is already a unit vector. */
  lemma RawLightDirectionIsUnit(e: Ops, azRad: real, elRad: real)
    requires Lawful(e)
    ensures SqNorm(RawLightDirection(e, azRad, elRad)) == 1.0
  {
    var c, sa, ca, se := e.cos(elRad), e.sin(azRad), e.cos(azRad), e.sin(elRad);
    assert sa * sa + ca * ca == 1.0;
    assert se * se + c * c == 1.0;
    assert (c * sa) * (c * sa) + (c * ca) * (c * ca) == (c * c) * (sa * sa + ca * ca);
  }

  /** get_light_vector: the direction for the given sun azimuth and elevation
      (degrees), divided by its norm. The result is a unit vector, and the
      division leaves the raw direction unchanged. */
  function LightVector(e: Ops, sunAzimuthDeg: real, sunElevationDeg: real): (l: Vec3)
    requires Lawful(e)
    ensures SqNorm(l) == 1.0
    ensures l == RawLightDirection(e, Deg2Rad(sunAzimuthDeg), Deg2Rad(sunElevationDeg))
  {
    var v := RawLightDirection(e, Deg2Rad(sunAzimuthDeg), Deg2Rad(sunElevationDeg));
    RawLightDirectionIsUnit(e, Deg2Rad(sunAzimuthDeg), Deg2Rad(sunElevationDeg));
    SqrtOfOne(e);
    var n := Norm(e, v);
    Vec3(v.x / n, v.y / n, v.z / n)
  }

  // ---------------------------------------------------------------------
  // Slopes: np.gradient with unit spacing and first-order edges

  /** The derivative estimate np.gradient gives for sample k of f: one-sided at
      the two ends, the halved central difference inside. numpy refuses a line
      of fewer than two samples. */
  function Diff(f: seq<real>, k: int): real
    requires |f| >= 2 && 0 <= k < |f|
  {
    if k == 0 then f[1] - f[0]
    else if k == |f| - 1 then f[k] - f[k - 1]
    else (f[k + 1] - f[k - 1]) / 2.0
  }

  /** np.gradient is exact on equally spaced samples of a line. */
  lemma DiffOfLine(f: seq<real>, a: real, b: real, k: int)
    requires |f| >= 2 && 0 <= k < |f|
    requires forall m :: 0 <= m < |f| ==> f[m] == a + b * m as real
    ensures Diff(f, k) == b
  {
    if k == 0 {
      assert f[1] - f[0] == b;
    } else if k == |f| - 1 {
      assert f[k] - f[k - 1] == b;
    } else {
      assert f[k + 1] - f[k - 1] == 2.0 * b;
    }
  }

  /** Enough rows and columns for np.gradient along both axes. */
  predicate GradientReady(g: Grid) {
    IsGrid(g) && |g| >= 2 && Width(g) >= 2
  }

  /** np.gradient(g): the pair (derivative along axis 0, derivative along
      axis 1), each of g's shape. Axis 0 runs down a column, axis 1 along a row. */
  function Gradient(g: Grid): (d: (Grid, Grid))
    requires GradientReady(g)
    ensures Shape(d.0, |g|, Width(g)) && Shape(d.1, |g|, Width(g))
  {
    var h, w := |g|, Width(g);
    (seq(h, i requires 0 <= i < h => seq(w, j requires 0 <= j < w => Diff(Column(g, j), i))),
     seq(h, i requires 0 <= i < h => seq(w, j requires 0 <= j < w => Diff(g[i], j))))
  }

  /** On a plane g[i][j] = c + a*i + b*j (i the row, j the column), the axis-0
      derivative is a and the axis-1 derivative is b at every cell. */
  lemma GradientOfPlane(g: Grid, a: real, b: real, c: real)
    requires GradientReady(g)
    requires forall i, j :: 0 <= i < |g| && 0 <= j < Width(g) ==> g[i][j] == c + a * i as real + b * j as real
    ensures forall i, j :: 0 <= i < |g| && 0 <= j < Width(g) ==> Gradient(g).0[i][j] == a && Gradient(g).1[i][j] == b
  {
    var h, w := |g|, Width(g);
    forall i, j | 0 <= i < h && 0 <= j < w
      ensures Gradient(g).0[i][j] == a && Gradient(g).1[i][j] == b
    {
      DiffOfLine(Column(g, j), c + b * j as real, a, i);
      DiffOfLine(g[i], c + a * i as real, b, j);
    }
  }

  /** A constant height field has zero slope everywhere. */
  lemma GradientOfConstant(g: Grid, c: real)
    requires GradientReady(g) && IsConstant(g, c)
    ensures forall i, j :: 0 <= i < |g| && 0 <= j < Width(g) ==> Gradient(g).0[i][j] == 0.0 && Gradient(g).1[i][j] == 0.0
  {
    GradientOfPlane(g, 0.0, 0.0, c);
  }

  // ---------------------------------------------------------------------
  // Surface normals

  /** A grid of 3-vectors, one per pixel. */
  type NormalField = seq<seq<Vec3>>

  predicate FieldShape(n: NormalField, h: nat, w: nat) {
    |n| == h && forall i :: 0 <= i < h ==> |n[i]| == w
  }

  /** The normal (-p, -q, 1) of a pixel with x-slope p and y-slope q, before normalisation. */
  function RawNormal(p: real, q: real): Vec3 {
    Vec3(-p, -q, 1.0)
  }

  /** The floor np.maximum(norms, 1e-9) puts under every norm. */
  const NormFloor: real := 0.000000001

  /** One pixel of calculate_surface_normals: the raw normal divided by its norm
      floored at 1e-9. */
  function UnitNormal(e: Ops, p: real, q: real): Vec3 {
    var n := RawNormal(p, q);
    var safe := Max(Norm(e, n), NormFloor);
    Vec3(n.x / safe, n.y / safe, n.z / safe)
  }

  /** calculate_surface_normals: q is the axis-0 and p the axis-1 derivative of z. */
  function SurfaceNormals(e: Ops, z: Grid): (n: NormalField)
    requires GradientReady(z)
    ensures FieldShape(n, |z|, Width(z))
  {
    var (q, p) := Gradient(z);
    seq(|z|, i requires 0 <= i < |z| => seq(Width(z), j requires 0 <= j < Width(z) => UnitNormal(e, p[i][j], q[i][j])))
  }

  /** The norm of (-p, -q, 1) is at least 1, so the 1e-9 floor returns it unchanged. */
  lemma NormFloorNeverApplies(e: Ops, p: real, q: real)
    requires Lawful(e)
    ensures Norm(e, RawNormal(p, q)) >= 1.0
    ensures Max(Norm(e, RawNormal(p, q)), NormFloor) == Norm(e, RawNormal(p, q))
  {
    assert SqNorm(RawNormal(p, q)) == p * p + q * q + 1.0;
    SqrtAtLeastOne(e, p * p + q * q + 1.0);
  }

  /** Every pixel's normal has unit length and an Up component in (0, 1]. */
  lemma UnitNormalIsUnit(e: Ops, p: real, q: real)
    requires Lawful(e)
    ensures SqNorm(UnitNormal(e, p, q)) == 1.0
    ensures 0.0 < UnitNormal(e, p, q).z <= 1.0
  {
    var s := p * p + q * q + 1.0;
    NormFloorNeverApplies(e, p, q);
    var r := Norm(e, RawNormal(p, q));
    assert SqNorm(RawNormal(p, q)) == s;
    assert r >= 1.0 && r * r == s;
    var u := UnitNormal(e, p, q);
    assert u == Vec3(-p / r, -q / r, 1.0 / r);
    assert SqNorm(u) == s / (r * r);
  }

  lemma SurfaceNormalsAreUnit(e: Ops, z: Grid)
    requires Lawful(e) && GradientReady(z)
    ensures forall i, j :: 0 <= i < |z| && 0 <= j < Width(z) ==>
      SqNorm(SurfaceNormals(e, z)[i][j]) == 1.0 && 0.0 < SurfaceNormals(e, z)[i][j].z <= 1.0
  {
    var (q, p) := Gradient(z);
    forall i, j | 0 <= i < |z| && 0 <= j < Width(z)
      ensures SqNorm(SurfaceNormals(e, z)[i][j]) == 1.0 && 0.0 < SurfaceNormals(e, z)[i][j].z <= 1.0
    {
      UnitNormalIsUnit(e, p[i][j], q[i][j]);
    }
  }

  /** A constant height field has the normal (0, 0, 1) at every pixel. */
  lemma SurfaceNormalsOfConstant(e: Ops, z: Grid, c: real)
    requires Lawful(e) && GradientReady(z) && IsConstant(z, c)
    ensures forall i, j :: 0 <= i < |z| && 0 <= j < Width(z) ==> SurfaceNormals(e, z)[i][j] == Vec3(0.0, 0.0, 1.0)
  {
    GradientOfConstant(z, c);
    SqrtOfOne(e);
    assert SqNorm(RawNormal(0.0, 0.0)) == 1.0;
    assert UnitNormal(e, 0.0, 0.0) == Vec3(0.0, 0.0, 1.0);
  }

  // ---------------------------------------------------------------------
  // Lambertian image formation

  /** calculate_predicted_image: max(0, N . L) at every pixel. */
  function PredictedImage(e: Ops, z: Grid, light: Vec3): (img: Grid)
    requires GradientReady(z)
    ensures Shape(img, |z|, Width(z))
    ensures forall i, j :: 0 <= i < |z| && 0 <= j < Width(z) ==> img[i][j] >= 0.0
  {
    var n := SurfaceNormals(e, z);
    seq(|z|, i requires 0 <= i < |z| => seq(Width(z), j requires 0 <= j < Width(z) => Max(0.0, Dot(n[i][j], light))))
  }

  /** A constant height field is predicted as max(0, Up component of the light) everywhere. */
  lemma PredictedImageOfConstant(e: Ops, z: Grid, c: real, light: Vec3)
    requires Lawful(e) && GradientReady(z) && IsConstant(z, c)
    ensures forall i, j :: 0 <= i < |z| && 0 <= j < Width(z) ==> PredictedImage(e, z, light)[i][j] == Max(0.0, light.z)
  {
    SurfaceNormalsOfConstant(e, z, c);
  }

  /** Two unit vectors have a dot product of at most 1. */
  lemma DotOfUnitVectors(a: Vec3, b: Vec3)
    requires SqNorm(a) == 1.0 && SqNorm(b) == 1.0
    ensures Dot(a, b) <= 1.0
  {
    var d := Vec3(a.x - b.x, a.y - b.y, a.z - b.z);
    assert SqNorm(d) == SqNorm(a) + SqNorm(b) - 2.0 * Dot(a, b);
    assert SqNorm(d) >= 0.0;
  }

  /** Under a unit light vector every predicted pixel is a reflectance in [0, 1]. */
  lemma PredictedImageIsReflectance(e: Ops, z: Grid, light: Vec3)
    requires Lawful(e) && GradientReady(z) && SqNorm(light) == 1.0
    ensures forall i, j :: 0 <= i < |z| && 0 <= j < Width(z) ==> 0.0 <= PredictedImage(e, z, light)[i][j] <= 1.0
  {
    SurfaceNormalsAreUnit(e, z);
    forall i, j | 0 <= i < |z| && 0 <= j < Width(z)
      ensures PredictedImage(e, z, light)[i][j] <= 1.0
    {
      DotOfUnitVectors(SurfaceNormals(e, z)[i][j], light);
    }
  }
}
