# Shape-from-shading energy engine, in Dafny

This project models the numerical core of the `sfs_photoclinometry` package.
That core reconstructs a height map (DEM) of a lunar surface from one image:

- it predicts the image of a height field Z under a Lambertian reflectance model lit by a sun vector;
- it scores the misfit against the observed image, plus λ times the squared Laplacian of Z;
- it hands that cost and its analytic gradient to an L-BFGS-B minimiser;
- it rescales the result to metres and centres it on zero mean height.

Every value is a Dafny `real`. A grid is a row-major `seq<seq<real>>`, and `Grids.At` reads 0 outside it. That zero is the padding `scipy.ndimage.laplace(..., mode='constant', cval=0.0)` uses.

The source changes state in three places:

- the denominator floor (`core.py:47`) is a method over `array2<real>`, proved equal to the pure grid function `Energy.FloorGrid` of the array's old contents;
- the centring `-=` (`core.py:122`) is a method over `array2<real>`, proved equal to the pure grid function `Scaling.Centre` of the array's old contents;
- the callback's iteration counter is the class `Driver.SfsCallback`, whose one mutable field each call increases by 1; it has no pure counterpart.

`sqrt`, `sin` and `cos` are uninterpreted. `Elementary.Ops` holds them as a parameter, and `Elementary.Lawful` states the only laws the proofs use:

- `sqrt(x) >= 0` and `sqrt(x)^2 = x` for `x >= 0`;
- `sin^2 + cos^2 = 1`.

`** 1.5` is `s * sqrt(s)`.

Modules:

| file | module | contents |
|---|---|---|
| grids.dfy | Grids | grids, zero-padded access, double sums, the inner product, flatten and reshape |
| elementary.dfy | Elementary | the transcendental oracle and its laws |
| utils.dfy | Utils | light vector, `np.gradient`, surface normals, predicted image (`utils.py`) |
| laplacian.dfy | Laplacian | the zero-padded five-point Laplacian and its self-adjointness |
| energy.dfy | Energy | `sfs_cost_and_gradient` and its properties |
| driver.dfy | Driver | configuration, errors, `SFSCallback`, `run_sfs_optimization` |
| scaling.dfy | Scaling | `scale_dem_to_meters` |

The code is followed as written, including its two opposite slope conventions:

- `calculate_surface_normals` binds `q, p` to the axis-0 and axis-1 derivatives (`utils.py:24`);
- `sfs_cost_and_gradient` binds `p, q` the other way round (`core.py:44`);
- the divergence takes the axis-1 derivative of `dE_dp` and the axis-0 derivative of `dE_dq` (`core.py:58-59`).

Three points where a reader might expect something other than what the code does. The model follows the code:

- A cost of squares suggests a cost that is never negative. The total cost, the brightness cost plus `lambda_reg` times the smoothness cost (`core.py:38`), is only guaranteed to be >= 0 when `lambda_reg >= 0`, and that is what `Energy.TotalCost` states.
- The comment at `utils.py:33-36` says a norm below a tiny epsilon is set to 1.0. The code at `utils.py:37` takes `np.maximum(norms, 1e-9)`, which sets it to 1e-9. The model takes the code's floor. `Utils.NormFloorNeverApplies` shows that the floor never changes a norm, because every norm of (-p, -q, 1) is at least 1.
- An initial surface other than `"flat"` raises `NotImplementedError` (`core.py:85`), and no other fallback exists. That error is `Driver.NotImplemented` here.

## Model

| member | source | states |
|---|---|---|
| Utils.RawLightDirectionIsUnit | sfs_photoclinometry/utils.py:12-17 | given sin²+cos²=1, the vector (cos el·sin az, cos el·cos az, sin el) already has squared norm 1 |
| Utils.LightVector | sfs_photoclinometry/utils.py:3-18 | the light vector has unit length; dividing by the norm leaves the un-normalised direction of the radian angles unchanged |
| Utils.DiffOfLine | sfs_photoclinometry/utils.py:24 | np.gradient along one line is exact on equally spaced samples of a line, at both one-sided ends and at every central-difference interior sample |
| Utils.GradientOfPlane | sfs_photoclinometry/utils.py:24 | on a plane c + a·row + b·column, the axis-0 derivative is a and the axis-1 derivative is b at every cell |
| Utils.GradientOfConstant | sfs_photoclinometry/utils.py:24 | a constant height field has slope 0 along both axes everywhere |
| Utils.Gradient | sfs_photoclinometry/utils.py:24 | np.gradient of a grid with at least two rows and two columns returns two grids of its shape, the axis-0 derivative first; their values are those of Utils.Diff along columns and rows, whose exactness is DiffOfLine and GradientOfPlane |
| Utils.NormFloorNeverApplies | sfs_photoclinometry/utils.py:27-37 | the norm of (-p,-q,1) is at least 1, so np.maximum(norm, 1e-9) returns the norm unchanged |
| Utils.UnitNormalIsUnit | sfs_photoclinometry/utils.py:27-42 | every normalised normal has unit length and a third component in (0, 1] |
| Utils.SurfaceNormalsAreUnit | sfs_photoclinometry/utils.py:21-44 | every normal of the field has unit length and a third component in (0, 1] |
| Utils.SurfaceNormals | sfs_photoclinometry/utils.py:21-44 | one normal per pixel, in the height field's shape, each Utils.UnitNormal of the pixel's slopes with q the axis-0 and p the axis-1 derivative; UnitNormalIsUnit and SurfaceNormalsAreUnit state what each normal is |
| Utils.SurfaceNormalsOfConstant | sfs_photoclinometry/utils.py:24-27 | for a constant height field every normal is exactly (0, 0, 1) |
| Utils.PredictedImage | sfs_photoclinometry/utils.py:46-52 | the predicted image has the height field's shape and every pixel is >= 0 |
| Utils.PredictedImageOfConstant | sfs_photoclinometry/utils.py:46-52 | for a constant height field every predicted pixel is max(0, light_vec[2]) |
| Utils.PredictedImageIsReflectance | sfs_photoclinometry/utils.py:51-52 | under a unit light vector every predicted pixel lies in [0, 1] |
| Laplacian.Laplace | sfs_photoclinometry/core.py:34 | laplace(Z) has Z's shape; it is defined cell by cell as the four neighbours minus 4·centre, with every off-grid neighbour read as 0 (mode='constant', cval=0.0). LaplaceIsSumOfAxisSecondDifferences checks that stencil against scipy's own per-axis [1,-2,1] definition |
| Laplacian.LaplaceIsSumOfAxisSecondDifferences | sfs_photoclinometry/core.py:34 | the five-point stencil equals scipy's sum over both axes of the zero-padded [1,-2,1] second difference |
| Laplacian.LaplaceOfConstantAtCorner | sfs_photoclinometry/core.py:34 | on a constant grid c, the corner value counts only its in-grid neighbours, so it is nonzero whenever c is |
| Laplacian.LaplaceOfZeros | sfs_photoclinometry/core.py:34 | the Laplacian of the all-zero grid is all zero |
| Laplacian.InnerLaplaceLeft | sfs_photoclinometry/core.py:34 | sum(laplace(X)·Y) splits into the four shifted products minus 4·sum(X·Y) |
| Laplacian.LaplaceSelfAdjoint | sfs_photoclinometry/core.py:62-63 | the zero-padded Laplacian is self-adjoint: sum(laplace(X)·Y) == sum(X·laplace(Y)) for grids of one shape |
| Laplacian.LaplaceLinear | sfs_photoclinometry/core.py:34 | laplace(X + t·V) == laplace(X) + t·laplace(V) |
| Energy.BrightnessError | sfs_photoclinometry/core.py:29-30 | observed - predicted has the height field's shape |
| Energy.BrightnessCost | sfs_photoclinometry/core.py:31 | 0.5·Σ error² is >= 0 |
| Energy.SmoothnessCost | sfs_photoclinometry/core.py:34-35 | 0.5·Σ laplace(Z)² is >= 0 |
| Energy.TotalCost | sfs_photoclinometry/core.py:38 | the total cost is >= 0 whenever lambda_reg >= 0 |
| Energy.DenominatorCellAtLeastOne | sfs_photoclinometry/core.py:45 | (1 + p² + q²)^1.5 >= 1 at every pixel |
| Energy.RawDenominator | sfs_photoclinometry/core.py:45 | (1 + p² + q²)^1.5 cell by cell has the slopes' shape; RawDenominatorAtLeastOne bounds its entries |
| Energy.RawDenominatorAtLeastOne | sfs_photoclinometry/core.py:44-45 | every entry of denom is >= 1 |
| Energy.FloorGrid | sfs_photoclinometry/core.py:47 | after the masked assignment every entry is >= 1e-9; an entry below 1e-9 becomes exactly 1e-9, and an entry is kept exactly when it was already >= 1e-9 |
| Energy.FloorNeverFires | sfs_photoclinometry/core.py:45-47 | the floor at line 47 changes no entry of denom |
| Energy.FloorDenominator | sfs_photoclinometry/core.py:47 | the in-place masked assignment on the array leaves exactly the floored grid of its old contents |
| Energy.PartialP | sfs_photoclinometry/core.py:49-53 | dE_dp = error·((L[0] - L[2]·p) / denom) has the error's shape, defined wherever every denominator is at least the floor |
| Energy.PartialQ | sfs_photoclinometry/core.py:50-54 | dE_dq = error·((L[1] - L[2]·q) / denom) has the error's shape, defined wherever every denominator is at least the floor |
| Energy.NegatedDivergence | sfs_photoclinometry/core.py:58-60 | -(d_dx + d_dy), with d_dx the axis-1 derivative of dE_dp and d_dy the axis-0 derivative of dE_dq, has dE_dp's shape; ZeroErrorHasNoGradient shows it vanishes on a zero error |
| Energy.BrightnessGradient | sfs_photoclinometry/core.py:44-60 | the brightness part of the gradient has the height field's shape |
| Energy.SmoothnessGradient | sfs_photoclinometry/core.py:63 | laplace(laplace(Z)) has Z's shape; SmoothnessGradientIsExact shows it is the exact gradient of the smoothness cost |
| Energy.TotalGradient | sfs_photoclinometry/core.py:62-66 | brightness_gradient + lambda·laplace(laplace(Z)) has the height field's shape |
| Energy.CostAndGradient | sfs_photoclinometry/core.py:20-68 | on a flat vector of h·w values: the gradient has the input's length; the cost is >= 0 for lambda >= 0; both are the grid cost and grid gradient of the reshaped input |
| Energy.HalfEnergyExpand | sfs_photoclinometry/core.py:35 | 0.5·Σ(A + t·B)² == 0.5·ΣA² + t·Σ(A·B) + t²·0.5·ΣB² for grids of one shape |
| Energy.BiLaplacianCrossTerm | sfs_photoclinometry/core.py:62-63 | Σ(laplace(laplace(Z))·V) == Σ(laplace(Z)·laplace(V)) |
| Energy.SmoothnessGradientIsExact | sfs_photoclinometry/core.py:33-63 | smoothness_cost(Z + t·V) == smoothness_cost(Z) + t·Σ(laplace(laplace(Z))·V) + t²·smoothness_cost(V), so the bi-Laplacian is exactly the gradient of the smoothness cost |
| Energy.FlatStartIsSmooth | sfs_photoclinometry/core.py:33-35 | at the all-zero start surface the Laplacian, the smoothness cost and the smoothness gradient all vanish |
| Energy.ConstantSurfaceIsNotSmooth | sfs_photoclinometry/core.py:34-35 | a nonzero constant surface has a strictly positive smoothness cost, because of the zero padding |
| Energy.PerfectFitHasNoBrightnessTerm | sfs_photoclinometry/core.py:29-60 | when the observed image is the prediction, the brightness cost is 0 and the brightness gradient is all zero |
| Energy.PerfectFitLeavesNoError | sfs_photoclinometry/core.py:29-30 | when the observed image is the prediction, brightness_error is the all-zero grid |
| Energy.ZeroErrorHasNoGradient | sfs_photoclinometry/core.py:49-60 | an all-zero brightness error gives an all-zero brightness gradient, whatever the slopes and the floored denominators |
| Energy.FlatStartIsStationary | sfs_photoclinometry/core.py:20-68 | if the observed image is the flat start's prediction, the total cost and the total gradient at the flat start are 0 for every lambda |
| Energy.UniformImageFitsFlatStart | sfs_photoclinometry/utils.py:46-52 | the flat start predicts the uniform image max(0, light_vec[2]) |
| Grids.FlattenReshape | sfs_photoclinometry/core.py:26 | reshape then flatten is the identity on h·w values |
| Grids.ReshapeFlatten | sfs_photoclinometry/core.py:105 | flattening a grid gives h·w values, and reshaping them to the grid's shape gives the grid back |
| Grids.FlattenIndex | sfs_photoclinometry/core.py:68 | cell (i, j) sits at flat position i·w + j (row-major order) |
| Grids.Reshape | sfs_photoclinometry/core.py:26 | reshaping h·w values gives an h-by-w grid; FlattenReshape and ReshapeFlatten show it inverts Grids.Flatten, whose layout FlattenIndex states |
| Driver.SfsCallback.constructor | sfs_photoclinometry/core.py:9-11 | a new callback starts with iteration 0 |
| Driver.SfsCallback.Call | sfs_photoclinometry/core.py:13-15 | each call adds exactly 1 to iteration |
| Driver.InitialSurface | sfs_photoclinometry/core.py:81-85 | "flat" gives an all-zero grid of the image's shape; any other value is the NotImplemented error |
| Driver.FlatStartVector | sfs_photoclinometry/core.py:92 | the start vector x0 is h·w zeros |
| Driver.RunSfsOptimization | sfs_photoclinometry/core.py:70-107 | the light vector has unit length. A non-"flat" surface errs before any iteration; an axis shorter than 2 errs before any iteration. Otherwise the counter equals the number of iterates the minimiser reported, and the DEM exists exactly when result.x has h·w values, in which case it has the image's shape and flattens back to result.x |
| Scaling.PixelSizeM | sfs_photoclinometry/core.py:112-114 | the pixel size times the focal length in metres is the pixel width in metres times the altitude in metres; a zero focal length is the ZeroDivision error |
| Scaling.DriverPixelSize | run_photoclinometry.py:21-23 | with 7.0 µm, 95.85 km and 140.0 mm the pixel size is exactly 4.7925 m |
| Scaling.Mean | sfs_photoclinometry/core.py:122 | on a non-empty grid, the mean times the number of cells is the sum of the cells |
| Scaling.Scale | sfs_photoclinometry/core.py:119 | dem * pixel_size_m keeps the grid's shape; CellOfScale gives each cell as the input cell times the pixel size |
| Scaling.Centre | sfs_photoclinometry/core.py:122 | subtracting the mean keeps the grid's shape; CellOfCentre gives each cell as the input cell minus the mean, and CentredSumIsZero shows the result sums to 0 |
| Scaling.ScaledDem | sfs_photoclinometry/core.py:119-122 | scale then centre keeps the grid's shape; ScaledDemHasMeanZero and ScaledDifferences state what the result is |
| Scaling.CentredSumIsZero | sfs_photoclinometry/core.py:122 | subtracting the mean leaves a grid whose sum and mean are 0 |
| Scaling.ScaledDemHasMeanZero | sfs_photoclinometry/core.py:119-122 | the scaled and centred DEM has mean 0 |
| Scaling.ScaledDifferences | sfs_photoclinometry/core.py:119-122 | every pairwise height difference of the result is pixel_size_m times the input's difference |
| Scaling.ScaledCopy | sfs_photoclinometry/core.py:119 | dem * pixel_size_m goes into a new array holding each cell times the pixel size |
| Scaling.SubtractMean | sfs_photoclinometry/core.py:122 | the in-place -= leaves exactly the centred grid of the array's old contents |
| Scaling.ScaleDemToMeters | sfs_photoclinometry/core.py:109-124 | errs exactly on a zero focal length. Otherwise it returns a new array that is the scaled-and-centred input and has mean 0. It does not read its shape argument, so the shape cannot affect the result |

## Left out

- The L-BFGS-B minimiser (`core.py:90-98`) is an external library. `RunSfsOptimization` takes it as the parameter `minimize`, an arbitrary function from the start vector to a reported trace, final vector and success flag. Its line search, convergence and the `maxiter` bound on its trace are not modelled, and it is not tied to the cost function.
- Driver.RunSfsOptimization: does not state that at most `max_iterations` callbacks happen, because that bound is a promise of the opaque minimiser.
- The tqdm progress bar of `SFSCallback` (`core.py:10,14,17-18`) and every `print` (`core.py:78,102,116`) are console output.
- The success check at `core.py:101-102` only prints a warning, so it has no effect on the result.
- No proof that the brightness gradient (`core.py:44-60`) is the derivative of the brightness cost. It is a hand-derived approximation, so the model states its formula and its shape only.
- IEEE doubles, the `float32` start surface and exact values of `sqrt`, `sin`, `cos` and `** 1.5` are out of scope. The model uses reals and the laws in `Elementary.Lawful` instead.
- np.mean of an empty array is NaN. `Scaling.Mean` returns 0 there instead, which does not change the result, since no cell is left to subtract it from.
- np.gradient raises on an axis with fewer than two samples. The per-pixel functions therefore require two rows and two columns, and the driver returns `GradientTooSmall` in that case.
- app.py (web routing, uploads, JSON), static/js/main.js (browser UI), tempCodeRunnerFile.py and the file I/O of run_photoclinometry.py are glue. Only the driver's configuration constants are used, as `Driver.DriverInputs`.
- `sfs_photoclinometry/visualization.py` (plotting) is left out.
- `io_handler` (image loading and GeoTIFF/OBJ export) is not part of this model.
