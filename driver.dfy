/** run_sfs_optimization: the configuration it reads, the initial-surface
    check, the iteration counter handed to the optimiser as its callback, and
    the flatten / reshape around the optimiser, which itself stays opaque. */
module Driver {
  import opened Grids
  import opened Elementary
  import opened Utils
  import opened Energy

  /** The entries of the configuration dictionary the core reads. */
  datatype Config = Config(
    sunAzimuthDeg: real,
    sunElevationDeg: real,
    initialSurface: string,
    regularizationLambda: real,
    maxIterations: nat,
    spacecraftAltitudeKm: real,
    focalLengthMm: real,
    detectorPixelWidthUm: real)

  /** The exceptions the core can raise on its own inputs. */
  datatype SfsError =
    | NotImplemented    // an initial surface other than "flat"
    | GradientTooSmall  // np.gradient on an axis with fewer than two samples
    | ReshapeMismatch   // result.x does not hold height * width values
    | ZeroDivision      // a focal length of 0

  datatype Result<T> = Ok(value: T) | Err(error: SfsError)

  /** The configuration literals of the command-line driver. */
  const DriverInputs: Config := Config(101.554510, 34.802249, "flat", 0.005, 150, 95.85, 140.0, 7.0)

  /** SFSCallback without its progress bar: a counter of optimiser iterations. */
  class SfsCallback {
    const total: nat
    var iteration: nat

    constructor (maxIter: nat)
      ensures total == maxIter && iteration == 0
    {
      total := maxIter;
      iteration := 0;
    }

    /** Called by the optimiser once per iteration with the current iterate. */
    method Call(xk: seq<real>)
      modifies this
      ensures iteration == old(iteration) + 1
    {
      iteration := iteration + 1;
    }
  }

  /** The initial-surface check: "flat" gives the all-zero surface of the
      image's shape, anything else raises before the optimiser starts. */
  function InitialSurface(config: Config, h: nat, w: nat): (r: Result<Grid>)
    ensures r.Ok? <==> config.initialSurface == "flat"
    ensures r.Ok? ==> Shape(r.value, h, w) && IsConstant(r.value, 0.0)
    ensures r.Err? ==> r.error == NotImplemented
  {
    if config.initialSurface == "flat" then
      var z := Zeros(h, w);
      assert forall i, j :: 0 <= i < h && 0 <= j < w ==> z[i][j] == At(z, i, j);
      Ok(z)
    else
      Err(NotImplemented)
  }

  /** What the opaque optimiser reports: the iterates it passed to the
      callback, the final vector and its success flag. */
  datatype MinimizeResult = MinimizeResult(iterates: seq<seq<real>>, x: seq<real>, success: bool)

  /** The flattened start vector x0 is h * w zeros. */
  lemma FlatStartVector(h: nat, w: nat)
    ensures |Flatten(Zeros(h, w))| == h * w
    ensures forall k :: 0 <= k < h * w ==> Flatten(Zeros(h, w))[k] == 0.0
  {
    var z := Zeros(h, w);
    assert forall i, j :: 0 <= i < h && 0 <= j < w ==> z[i][j] == At(z, i, j);
    FlattenConstant(z, h, w, 0.0);
  }

  /** run_sfs_optimization. The minimiser is the parameter `minimize`, fed the
      start vector; the callback is invoked once per iterate it reports. The
      first evaluation of the cost raises from np.gradient when an axis has
      fewer than two samples. */
  method RunSfsOptimization(e: Ops, image: Grid, config: Config, minimize: seq<real> -> MinimizeResult)
    returns (light: Vec3, dem: Result<Grid>, iterations: nat)
    requires Lawful(e) && IsGrid(image)
    ensures SqNorm(light) == 1.0
    ensures light == LightVector(e, config.sunAzimuthDeg, config.sunElevationDeg)
    ensures config.initialSurface != "flat" ==> dem == Err(NotImplemented) && iterations == 0
    ensures config.initialSurface == "flat" && (|image| < 2 || Width(image) < 2) ==>
      dem == Err(GradientTooSmall) && iterations == 0
    ensures config.initialSurface == "flat" && |image| >= 2 && Width(image) >= 2 ==>
      var out := minimize(Flatten(Zeros(|image|, Width(image))));
      && iterations == |out.iterates|
      && (dem.Ok? <==> |out.x| == |image| * Width(image))
      && (dem.Ok? ==> Shape(dem.value, |image|, Width(image)) && Flatten(dem.value) == out.x)
  {
    var h, w := |image|, Width(image);
    light := LightVector(e, config.sunAzimuthDeg, config.sunElevationDeg);
    iterations := 0;
    var start := InitialSurface(config, h, w);
    if start.Err? {
      return light, Err(start.error), 0;
    }
    if h < 2 || w < 2 {
      return light, Err(GradientTooSmall), 0;
    }
    var x0 := Flatten(start.value);
    assert start.value == Zeros(h, w) by {
      forall i | 0 <= i < h
        ensures start.value[i] == Zeros(h, w)[i]
      {
        assert forall j :: 0 <= j < w ==> start.value[i][j] == At(Zeros(h, w), i, j);
      }
    }
    var callback := new SfsCallback(config.maxIterations);
    var out := minimize(x0);
    var k := 0;
    while k < |out.iterates|
      invariant 0 <= k <= |out.iterates|
      invariant callback.iteration == k
    {
      callback.Call(out.iterates[k]);
      k := k + 1;
    }
    iterations := callback.iteration;
    if |out.x| != h * w {
      return light, Err(ReshapeMismatch), iterations;
    }
    var final := Reshape(out.x, h, w);
    FlattenReshape(out.x, h, w);
    dem := Ok(final);
  }
}
