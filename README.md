# xmf fitting core in Dafny

xmf fits quadric X-ray mirror surfaces (ellipsoids, hyperboloids, elliptic and
hyperbolic cylinders, and their 1D ellipse and hyperbola profiles) to measured
height maps, height profiles and slope profiles. This project models the four
layers of the Python package `xmf` and proves properties about them:

- `standard.dfy` (module `Standard`, layer 1): the standard-frame evaluators.
  Each height is a root of `A z^2 + B z + C = 0`, and a decision table on the
  signs of `p` and `q` (and on `|p|` against `|q|`) picks the `+sqrt(Delta)` or
  the `-sqrt(Delta)` root. Points with `Delta < 0` become NaN. The convex and
  concave wrappers sign `(abs_p, abs_q)`. The module also has the cylinder
  x-slope and the sagittal diaboloid.
- `transform.dfy` (module `Transform`, layer 2): the 4x4 rigid transform
  `[[Rz Ry Rx, t], [0, 0, 0, 1]]` between standard and metrology coordinates,
  and its inverse.
- `generation.dfy` (module `Generation`, layer 2): the frame-reconciliation
  loop and the four generator adapters:
  - The loop pulls the metrology grid back into the standard frame, evaluates
    the surface there, pushes the result forward, and repeats until the
    lateral RMS mismatch is at most `1e-9`.
  - The loop first calls the surface with five arguments, then with four after
    a `ValueError`.
  - The adapters are the full-surface, cylinder, 1D-height and 1D-slope
    generators.
- `masks.dfy` (module `Masks`): numpy boolean-mask reads and writes on the
  parameter vector (`v[mask]`, `v[mask] = w` with broadcasting).
- `optimization.dfy` (module `Optimization`, layer 3): the bookkeeping of the
  nine-parameter vector `[p, q, theta, x_i, y_i, z_i, alpha, beta, gamma]`:
  - input checks and defaults;
  - per-generator free/fixed masks with flag overrides (the "opt" path);
  - tolerance normalisation and bounds (the "tol" path);
  - the NaN-sentinel scatter of the solver's values;
  - the finite-residual cost;
  - the degrees-of-freedom rule and 2-sigma intervals;
  - the output dictionaries.

  The `check_opt_dict`, `check_tol_dict`, masked assignments, release loop and
  engine bodies are methods with loops, proved equal to the specification
  functions.
- `fit.dfy` (module `Fit`, layer 4): the sixteen `fit_*` entry points as a
  binding table from entry to generator and standard wrapper. Each wrapper is
  modelled by how Python answers the five- and four-argument calls the
  generators make.
- `numerics.dfy` (module `Numerics`): shared vocabulary:
  - array elements that are finite or NaN;
  - Python exceptions as a `Result`;
  - extended reals for bounds;
  - `np.nanmean`.

Numbers are Dafny `real`s: the model has no rounding. `sin`, `cos`, `tan` and
`sqrt` are given functions (`Lib`), assumed exact only where a lemma says so
(`SqrtAt`). Three things are parameters (`Env`):

- the matrix inverse of the transform;
- scipy's `least_squares`;
- the diagonal of `inv(J^T J)`.

The generation loop, which has no iteration cap in the source, runs on a fuel
bound and reports `Diverged` when it runs out.

## Model

| member | source | states |
|---|---|---|
| Numerics.NanMean | python/xmf/layer_02_generation.py:151 | np.nanmean is NaN exactly when no entry is finite |
| Numerics.NanMeanWithin | python/xmf/layer_03_optimization.py:120-128 | a finite nan-mean lies within any bounds of the finite entries |
| Numerics.NanMeanZero | python/xmf/layer_02_generation.py:151 | a nan-mean of non-negative entries is 0 only when every finite entry is 0 |
| Standard.RootBranch | python/xmf/layer_01_standard.py:72-85 | the branch is undefined (result never bound) exactly when p or q is zero |
| Standard.QuadricCoefficients | python/xmf/layer_01_standard.py:64-66 | the constant term C vanishes at the origin, so z = 0 is a root there |
| Standard.QuadricConstantNonneg | python/xmf/layer_01_standard.py:66 | C = (p+q)^2 (x^2 sin^2 + y^2) is never negative |
| Standard.BranchFollowsCurvature | python/xmf/layer_01_standard.py:72-85 | for non-zero p, q the table picks +sqrt(Delta) iff the vertex curvature 1/p + 1/q is <= 0 and -sqrt(Delta) iff it is > 0 |
| Standard.BranchBySign | python/xmf/layer_01_standard.py:72-85 | the table picks +sqrt(Delta) iff p q (p + q) <= 0, the sign of B at the origin |
| Standard.SignedDistances | python/xmf/layer_01_standard.py:362-492 | the wrappers keep the magnitudes of abs_p and abs_q; for positive distances the signs agree (p q > 0) iff the surface is elliptic, not hyperbolic |
| Standard.WrapperBranch | python/xmf/layer_01_standard.py:135-278 | for positive distances every convex wrapper reaches +sqrt(Delta) and every concave one -sqrt(Delta), except the concave hyperbolic wrappers at abs_p == abs_q, which reach the convex root |
| Standard.CylinderCoefficients | python/xmf/layer_01_standard.py:314-316 | the cylinder's A, B, C are the 2D quadric's at y = 0 |
| Standard.Root | python/xmf/layer_01_standard.py:79-87 | the root is NaN exactly when Delta < 0 or A == 0 |
| Standard.RootSolvesQuadratic | python/xmf/layer_01_standard.py:64-87 | with an exact square root, whichever branch is taken the value solves A z^2 + B z + C = 0 |
| Standard.HeightZeroAtOrigin | python/xmf/layer_01_standard.py:64-85 | for sin(theta) > 0, non-zero p and q, A != 0 at the origin and an exact square root, the height the table selects at (0, 0) is 0: the chief-ray intersection is the origin |
| Standard.StandardQuadricsHeight | python/xmf/layer_01_standard.py:28-133 | ValueError iff the grids differ in size; unbound result iff p or q is 0; otherwise each point is the quadric height at its coordinates on the branch RootBranch(p, q) selects: NaN iff a coordinate is NaN or its quadratic has no real root (or A == 0), and a finite point has 2 A z + B equal to +sqrt(Delta) or -sqrt(Delta) as the table says, so it solves its quadratic |
| Standard.StandardQuadricCylinderHeight | python/xmf/layer_01_standard.py:282-360 | the cylinder height is the 2D quadric height over the line y = 0, errors included |
| Standard.CylinderDiscriminantIdentity | python/xmf/layer_01_standard.py:496-525 | with sin^2 + cos^2 = 1 the cylinder's Delta is 16 (p+q)^2 sin^2 times the x-slope's radicand |
| Standard.UndefinedHeightIffUndefinedSlope | python/xmf/layer_01_standard.py:519-522 | height and x-slope have no real value at the same points |
| Standard.StandardQuadricCylinderXslope | python/xmf/layer_01_standard.py:496-525 | unbound result iff p q == 0; otherwise each point is the single x-slope at its x, NaN iff x is NaN, the radicand is negative, the denominator is zero or the square root is zero |
| Standard.XSlopeAt | python/xmf/layer_01_standard.py:519-523 | one x-slope is NaN iff x is NaN, the radicand is negative, the denominator A is zero or the square root is zero; at theta = 0 a finite slope is 0 |
| Standard.SlopeIsImplicitDerivative | python/xmf/layer_01_standard.py:519-522 | for p q != 0, sin(theta) > 0, sin^2 + cos^2 = 1, exact square roots and a positive radicand, both height and x-slope are finite and the x-slope is the implicit derivative dz/dx of A z^2 + B z + C = 0 at the root the height table selects |
| Standard.ProfileSlopeIsImplicitDerivative | python/xmf/layer_01_standard.py:282-525 | at a finite profile point with a positive radicand, A != 0 and exact roots, the height and x-slope arrays are both finite there and the slope is the implicit derivative of the height |
| Standard.StandardSagColDiaboloidHeight | python/xmf/layer_01_standard.py:652-692 | ValueError iff the grids differ in size; each point is the diaboloid height at its coordinates: NaN iff a coordinate is NaN or Delta < 0 (or A == 0), and a finite point is always the -sqrt(Delta) root (2 A z + B == -sqrt(Delta)), so it solves its quadratic |
| Standard.DiaboloidCoefficients | python/xmf/layer_01_standard.py:682-684 | C vanishes at the origin, and A = (abs_p - abs_q)^2 cos^2 + 4 abs_p abs_q is positive for positive distances, so the quadratic never degenerates there |
| Standard.DiaboloidZeroAtOrigin | python/xmf/layer_01_standard.py:682-690 | the diaboloid's fixed -sqrt(Delta) root is 0 at the origin for positive distances |
| Transform.ComposeTransformationMatrix | python/xmf/layer_02_generation.py:59-67 | the rotation block is Rz(gamma) Ry(beta) Rx(alpha) in that order, the origin maps to (x_i, y_i, z_i), and the 4x4 array has translation column (x_i, y_i, z_i) and bottom row [0, 0, 0, 1] |
| Transform.Rows | python/xmf/layer_02_generation.py:64-67 | the stacked array is 4x4 |
| Transform.RotX | python/xmf/layer_02_generation.py:59 | R_x leaves the x axis fixed and is the identity at angle 0 |
| Transform.RotY | python/xmf/layer_02_generation.py:60 | R_y leaves the y axis fixed and is the identity at angle 0 |
| Transform.RotZ | python/xmf/layer_02_generation.py:61 | R_z leaves the z axis fixed and is the identity at angle 0 |
| Transform.MulAssoc | python/xmf/layer_02_generation.py:62 | the product R_z @ R_y @ R_x does not depend on grouping |
| Transform.RotationsOrthonormal | python/xmf/layer_02_generation.py:59-61 | each elementary rotation is orthonormal when sin^2 + cos^2 = 1 |
| Transform.OrthonormalProduct | python/xmf/layer_02_generation.py:62 | a product of orthonormal matrices is orthonormal |
| Transform.ComposedRotationOrthonormal | python/xmf/layer_02_generation.py:59-62 | given sin^2 + cos^2 = 1 at each angle, the composed rotation is orthonormal |
| Transform.MulVecMul | python/xmf/layer_02_generation.py:127 | applying a product of matrices is applying them in turn |
| Transform.RigidInverseInverts | python/xmf/layer_02_generation.py:127-141 | for an orthonormal rotation, [[R^T, -R^T t], [0, 0, 0, 1]] undoes T from both sides, so the inverse the loop takes exists |
| Generation.CallWithFallback | python/xmf/layer_02_generation.py:133-138 | a ValueError from the five-argument call is answered by the four-argument call; every other outcome of the first call stands |
| Generation.ApplyNum | python/xmf/layer_02_generation.py:127 | the image is finite iff all three coordinates are; a NaN coordinate makes the whole image NaN; a finite image is R v + t |
| Generation.MapPoints | python/xmf/layer_02_generation.py:125-127 | each column is mapped on its own |
| Generation.Xs | python/xmf/layer_02_generation.py:130-131 | the x row of the mapped points |
| Generation.Ys | python/xmf/layer_02_generation.py:130-131 | the y row of the mapped points |
| Generation.Zs | python/xmf/layer_02_generation.py:145 | the z row of the mapped points |
| Generation.LateralSq | python/xmf/layer_02_generation.py:148-150 | dx^2 + dy^2 is finite iff all four coordinates are, is non-negative, and is zero only when the pushed-forward point is on the grid point |
| Generation.Lateral | python/xmf/layer_02_generation.py:148-151 | one squared lateral distance per grid point |
| Generation.Rms | python/xmf/layer_02_generation.py:151 | rms_dxy is NaN exactly when every distance is NaN (nanmean of nothing) and finite otherwise |
| Generation.OnePass | python/xmf/layer_02_generation.py:125-146 | grids of different sizes raise ValueError; an error from inv(T) or from the surface call passes through; when both succeed the pass succeeds iff the surface returns one height per point (else ValueError); on success each standard point has the x and y of T^-1 (x, y, z, 1) and as z the surface height returned at those pulled-back coordinates, and each metrology point is T applied to its standard point |
| Generation.Step | python/xmf/layer_02_generation.py:122-151 | one pass keeps the grid size and fails exactly when the pass does, with its error; the new map is the z row of the pass's metrology points and rms_dxy is the nan-root-mean of their squared lateral distances to the grid |
| Generation.Seed | python/xmf/layer_02_generation.py:112-116 | the loop starts from the measured map, or from zeros when there is none |
| Generation.Continue | python/xmf/layer_02_generation.py:117-122 | the test rms_dxy > thr holds for the initial +inf, never for NaN or -inf, and for a finite value exactly when it exceeds thr |
| Generation.Run | python/xmf/layer_02_generation.py:116-153 | a state failing the test returns its map; a continuing state with no fuel is Diverged; a pass that raises ends the loop with its error; a loop that returns while continuing ran a successful pass |
| Generation.RunMoreFuel | python/xmf/layer_02_generation.py:122-151 | once the loop returns with some fuel, any larger fuel returns the same map |
| Generation.IterGenerate | python/xmf/layer_02_generation.py:112-153 | with no fuel the loop is Diverged (the initial +inf always asks for a pass); a first pass that raises from the seed map ends it with that error |
| Generation.Iterate | python/xmf/layer_02_generation.py:116-153 | the while loop, reassigning z and rms_dxy from rms_dxy = +inf, returns what the fuelled loop function returns for the same pass |
| Generation.IterGenerateHeight | python/xmf/layer_02_generation.py:112-153 | starting from the measured map (zeros when absent), the loop returns exactly the fuelled iter_generate_height function |
| Generation.RunEndsWithStoppingPass | python/xmf/layer_02_generation.py:122-151 | for any pass, a loop that returns ends on a completed pass whose rms_dxy fails the test rms > thr (it is <= thr or NaN) |
| Generation.IterGenerateEndsWithStoppingPass | python/xmf/layer_02_generation.py:116-122 | since rms_dxy starts at +inf, at least one pass always runs; the result has one height per grid point and is that of a stopping pass |
| Generation.ZeroRmsZeroDistances | python/xmf/layer_02_generation.py:151 | with an exact square root, rms_dxy == 0 means every finite lateral distance is 0 |
| Generation.ZeroRmsMatchesGrid | python/xmf/layer_02_generation.py:143-151 | a pass with rms_dxy == 0 pushes every finite point exactly onto its grid point (x, y) |
| Generation.ZeroRmsPointsOnSurface | python/xmf/layer_02_generation.py:125-151 | with the rigid inverse as T^-1 and rms_dxy == 0, pulling each finite output (x, y, z) back gives the standard point whose height the surface returned |
| Generation.Generate2DCurvedSurfaceHeight | python/xmf/layer_02_generation.py:205-214 | the full-surface adapter runs the loop with all six pose parameters in T |
| Generation.Generate2DCylinderHeight | python/xmf/layer_02_generation.py:262-275 | the cylinder adapter is the full-surface adapter with y_i = 0 |
| Generation.Generate1DHeight | python/xmf/layer_02_generation.py:318-331 | the 1D height adapter is the full-surface adapter over y = 0 with y_i = alpha = gamma = 0 |
| Generation.Shift | python/xmf/layer_02_generation.py:372 | x - x_i elementwise |
| Generation.Generate1DSlope | python/xmf/layer_02_generation.py:372-375 | the slope is f(x - x_i) - tan(beta) elementwise, with f's error passed through; no transform, no loop |
| Generation.SlopeShiftInvariant | python/xmf/layer_02_generation.py:372-374 | shifting the profile and x_i together leaves the slope unchanged |
| Masks.Count | python/xmf/layer_03_optimization.py:241-242 | the number of selected slots is at most the length |
| Masks.Gather | python/xmf/layer_03_optimization.py:242 | v[mask] has one entry per selected slot |
| Masks.Fill | python/xmf/layer_03_optimization.py:256 | writing one value per selected slot keeps every unselected entry |
| Masks.MaskAssign | python/xmf/layer_03_optimization.py:255-256 | the write succeeds iff the values are one per selected slot or a single value, else ValueError; unselected entries are kept; reading the selected slots back gives the values (or the broadcast value) |
| Masks.GatherFill | python/xmf/layer_03_optimization.py:255-256 | reading back what was written returns it |
| Masks.FillGather | python/xmf/layer_03_optimization.py:240-242 | writing back what was read changes nothing |
| Masks.FillAtRank | python/xmf/layer_03_optimization.py:256 | the selected slot i receives the value of its rank |
| Masks.GatherAtRank | python/xmf/layer_03_optimization.py:242 | the read value of rank Rank(i) is s[i] |
| Masks.FillWithGathered | python/xmf/layer_03_optimization.py:314-315 | merging through the mask takes src on selected slots and base elsewhere |
| Masks.NaNMask | python/xmf/layer_03_optimization.py:256 | np.isnan as a mask |
| Masks.FiniteMask | python/xmf/layer_03_optimization.py:274 | np.isfinite as a mask |
| Masks.MaskedAssign | python/xmf/layer_03_optimization.py:255-256 | the slot-by-slot write equals the masked-assignment function, errors included |
| Masks.CountAppend | python/xmf/layer_03_optimization.py:241 | counting a mask grown by one slot |
| Masks.GatherKeeps | python/xmf/layer_03_optimization.py:274 | a property of every selected entry holds of every read value |
| Masks.MaskAssignKeeps | python/xmf/layer_03_optimization.py:256 | a property of the kept entries and of the values holds of the whole result |
| Masks.MaskAssignAt | python/xmf/layer_03_optimization.py:256 | the value a successful write puts into a selected slot: the value of its rank, or the broadcast value |
| Optimization.NamesDistinct | python/xmf/layer_03_optimization.py:345-347 | the nine names are distinct |
| Optimization.NamedPrefixLookup | python/xmf/layer_03_optimization.py:351-353 | after n steps of the release loop the first n names hold their values |
| Optimization.Released | python/xmf/layer_03_optimization.py:351-352 | a free name reports the solver's value in its slot, a fixed one its fixed initial value |
| Optimization.ReleasedCI | python/xmf/layer_03_optimization.py:351-353 | a free name reports its interval, a fixed one NaN at both ends |
| Optimization.Named | python/xmf/layer_03_optimization.py:345-353 | the dictionary holds exactly the nine names, each with its own slot's value |
| Optimization.ReleaseResults | python/xmf/layer_03_optimization.py:351-353 | the release loop fills both dictionaries with the released values and intervals |
| Optimization.DefaultCentre | python/xmf/layer_03_optimization.py:120-128 | masking the coordinates with isfinite(v) is an IndexError exactly when the coordinates and the data differ in size |
| Optimization.CheckInputParams | python/xmf/layer_03_optimization.py:103-153 | ValueError iff p, q or theta is missing; else IndexError iff a defaulted centre has mismatched sizes; no other error is raised, so every other input succeeds; given values are kept; z_i, alpha, beta, gamma default to 0; x_i, y_i default to their centres; the vector is in the fixed order |
| Optimization.DefaultCentreWithin | python/xmf/layer_03_optimization.py:120-128 | a finite default centre lies within any bounds of the coordinates of the valid data |
| Optimization.DefaultCentreNaN | python/xmf/layer_03_optimization.py:120-128 | the default centre is NaN exactly when no valid datum has a finite coordinate |
| Optimization.DefaultMask | python/xmf/layer_03_optimization.py:204-218 | p, q and theta are never free by default |
| Optimization.DefaultMasksNest | python/xmf/layer_03_optimization.py:206-218 | slope ⊆ 1D height ⊆ cylinder ⊆ surface defaults; the cylinder's differs from the surface's only in y_i |
| Optimization.DefaultOptVector | python/xmf/layer_03_optimization.py:204-218 | the slot-by-slot writes give the default mask |
| Optimization.Truthy | python/xmf/layer_03_optimization.py:221-229 | storing into a boolean slot: a bool is kept and a number is true iff non-zero; a sequence is a ValueError unless it has exactly one element |
| Optimization.OptMask | python/xmf/layer_03_optimization.py:202-231 | the flags are nine, and the only error is a ValueError |
| Optimization.CheckOptDict | python/xmf/layer_03_optimization.py:202-231 | the default-then-override writes give the flag mask |
| Optimization.EmptyOptDictIsDefault | python/xmf/layer_03_optimization.py:202-231 | an empty dictionary yields the generator's default mask |
| Optimization.OverrideOnlyOwnFlag | python/xmf/layer_03_optimization.py:221-229 | setting one name changes its own flag, to the stored truth value, and no other |
| Optimization.UnifyTol | python/xmf/layer_03_optimization.py:425-440 | scalar t becomes [-t, t]; an absent key becomes [-inf, inf] if free by default, else [0, 0]; AssertionError iff a sequence has more than two elements; ValueError iff it is empty |
| Optimization.TolRows | python/xmf/layer_03_optimization.py:442-448 | n names give n rows |
| Optimization.TolCheck | python/xmf/layer_03_optimization.py:404-450 | nine flags and nine rows; each flag is set iff its interval is not all zero |
| Optimization.CheckTolDict | python/xmf/layer_03_optimization.py:404-450 | the for loop over nine names gives the flags and rows of the tolerance check, errors included |
| Optimization.TolRowsRaisedStays | python/xmf/layer_03_optimization.py:442-448 | once a name fails, the check fails with that error |
| Optimization.TolRowsAt | python/xmf/layer_03_optimization.py:442-448 | each row is the normalised interval of its own name under its default flag |
| Optimization.TolRowsError | python/xmf/layer_03_optimization.py:442-448 | a failing check reports the error of the first name that cannot be stored |
| Optimization.TolRowsAll | python/xmf/layer_03_optimization.py:442-448 | when every name normalises, the rows are those intervals |
| Optimization.TolFlags | python/xmf/layer_03_optimization.py:442-448 | an absent name keeps its default flag (with unbounded tolerance when free); a scalar frees iff non-zero; a pair is kept as the row |
| Optimization.Fix | python/xmf/layer_03_optimization.py:240-241 | param_fix is NaN on free slots and the initial value on fixed ones |
| Optimization.Scatter | python/xmf/layer_03_optimization.py:255-256 | succeeds iff the values are one per NaN slot or a single value, else ValueError; finite slots keep their values |
| Optimization.ScatterRoundTrip | python/xmf/layer_03_optimization.py:240-256 | with finite fixed values, the scatter puts each free value back into its own slot and keeps every fixed value |
| Optimization.ScatterNaNFixedFails | python/xmf/layer_03_optimization.py:240-256 | a NaN fixed initial value (a defaulted centre with no valid data) makes the scatter fail unless exactly one parameter is free |
| Optimization.ScatterNaNFixedBroadcasts | python/xmf/layer_03_optimization.py:240-256 | with exactly one free parameter, that NaN fixed slot silently receives the free value too |
| Optimization.FixNaNCount | python/xmf/layer_03_optimization.py:240-241 | a NaN fixed value adds a NaN slot beyond the free ones |
| Optimization.CountMonotone | python/xmf/layer_03_optimization.py:241 | a mask selecting strictly more slots counts more |
| Optimization.CountLe | python/xmf/layer_03_optimization.py:241 | a mask selecting a subset of slots counts no more |
| Optimization.GeneratorIgnoresDefaultFixed | python/xmf/layer_03_optimization.py:262-270 | a pose parameter a generator keeps fixed by default is never read by that generator |
| Optimization.GenerateFit | python/xmf/layer_03_optimization.py:262-270 | the full-surface generator runs the height loop with p, q, theta and the composed transform of the six pose values; the 1D slope generator gets x_i and beta; an unknown generator leaves v_fit unbound |
| Optimization.GeneratorsAgree | python/xmf/layer_03_optimization.py:264-269 | the cylinder generator is the surface generator with y_i = 0, and the 1D height generator the surface generator over y = 0 with y_i = alpha = gamma = 0 |
| Optimization.Residual | python/xmf/layer_03_optimization.py:273 | v - v_fit elementwise |
| Optimization.FiniteValues | python/xmf/layer_03_optimization.py:274 | the finite entries, in order: the entry of rank Rank(i) is the value at i |
| Optimization.CostFunction | python/xmf/layer_03_optimization.py:245-276 | a failing scatter, or an unpacked vector whose length is not 9, is a ValueError; a failing generator passes its error through; otherwise the cost succeeds iff v_fit has one value per datum (else ValueError); on success v_fit is the generator's output at the scattered nine-parameter vector, the full residual is v - v_fit and the cost is its finite entries |
| Optimization.Cost | python/xmf/layer_03_optimization.py:278-299 | the residual handed to least_squares succeeds exactly when the cost function does, with its error or its finite residuals |
| Optimization.ExactFitZeroCost | python/xmf/layer_03_optimization.py:273-276 | a fit that reproduces every finite datum has an all-zero cost |
| Optimization.SumSq | python/xmf/layer_03_optimization.py:326 | a sum of squares is non-negative, and zero iff every entry is zero |
| Optimization.Dof | python/xmf/layer_03_optimization.py:323 | dof is the larger of 1 and m - n |
| Optimization.Sigma | python/xmf/layer_03_optimization.py:329-332 | sigma is NaN iff the variance is negative; otherwise, with an exact root, its square is the variance |
| Optimization.Interval | python/xmf/layer_03_optimization.py:335-337 | the interval is centred on the estimate with width 4 sigma, and NaN iff sigma is NaN |
| Optimization.ResidualVariance | python/xmf/layer_03_optimization.py:323-326 | s_sq is non-negative and zero iff every residual is zero |
| Optimization.CI95 | python/xmf/layer_03_optimization.py:317-338 | an error of inv(J^T J) passes through and a diagonal of the wrong length is a ValueError; a diagonal of the right length always succeeds, with one interval per fitted parameter, each the estimate +-2 sigma with sigma = sqrt(diag_j * s_sq) and s_sq = sum(res^2) / dof |
| Optimization.CIBracketsEstimate | python/xmf/layer_03_optimization.py:323-337 | each finite interval is centred on its estimate and brackets it; with an exact root its width squared is 16 diag_j sum(res^2) / max(1, m - n); a non-negative covariance entry gives a finite interval; a negative one with non-zero residuals gives NaN |
| Optimization.Start | python/xmf/layer_03_optimization.py:302 | one start value per free parameter |
| Optimization.Bounds | python/xmf/layer_03_optimization.py:524-525 | each bound is the start value plus the tolerance bound |
| Optimization.Lows | python/xmf/layer_03_optimization.py:524 | the lower tolerance column |
| Optimization.Highs | python/xmf/layer_03_optimization.py:525 | the upper tolerance column |
| Optimization.ZeroIntervals | python/xmf/layer_03_optimization.py:341 | nine interval rows |
| Optimization.Constant | python/xmf/layer_03_optimization.py:305 | the unbounded solver bounds, one per free parameter |
| Optimization.Optimized | python/xmf/layer_03_optimization.py:302-355 | a successful fit reports its initial vector, a residual equal to v - v_fit at the solution, and all nine names in both dictionaries |
| Optimization.FromSolution | python/xmf/layer_03_optimization.py:308-353 | after the solver: the same three facts |
| Optimization.FromSolutionParts | python/xmf/layer_03_optimization.py:308-353 | a successful result is assembled from the recomputed cost, the masked result, the intervals and their masked rows |
| Optimization.FromSolutionReleases | python/xmf/layer_03_optimization.py:314-353 | a fixed parameter reports its initial value with a NaN interval; a free one reports the solver's value of its rank with that rank's interval; the residual is v - v_fit |
| Optimization.ReleasedEntries | python/xmf/layer_03_optimization.py:351-353 | the released entry of each name from the solver's values and intervals |
| Optimization.Optimize | python/xmf/layer_03_optimization.py:302-355 | the engine tail as statements equals the specification function |
| Optimization.OptResult | python/xmf/layer_03_optimization.py:237-355 | an opt-path fit reports the checked initial vector, residual v - v_fit and all nine names |
| Optimization.TolResult | python/xmf/layer_03_optimization.py:456-578 | a tol-path fit reports the checked initial vector, residual v - v_fit and all nine names |
| Optimization.OptimizationResult | python/xmf/layer_03_optimization.py:82-98 | a missing 'p' is a KeyError; a successful fit reports the checked initial vector, residual v - v_fit and all nine names |
| Optimization.OptimizeParametersWithOpt | python/xmf/layer_03_optimization.py:156-355 | the opt-path body equals its specification function |
| Optimization.OptimizeParametersWithTol | python/xmf/layer_03_optimization.py:358-578 | the tol-path body equals its specification function |
| Optimization.OptimizeParameters | python/xmf/layer_03_optimization.py:36-100 | the dispatch equals its specification function |
| Optimization.FlagDictMask | python/xmf/layer_03_optimization.py:221-229 | a dictionary naming every flag yields exactly those flags, whatever the generator |
| Optimization.UnboundedRowsUnify | python/xmf/layer_03_optimization.py:425-440 | an infinite pair normalises to itself and a zero scalar to [0, 0] |
| Optimization.UnboundedTolDictAt | python/xmf/layer_03_optimization.py:425-440 | the unbounded tol dictionary names every parameter |
| Optimization.UnboundedTolDictMask | python/xmf/layer_03_optimization.py:404-450 | a tol dictionary freeing a set with infinite tolerance frees exactly that set |
| Optimization.UnboundedTolBounds | python/xmf/layer_03_optimization.py:521-525 | from finite starts, infinite tolerances give the solver the infinite bounds of the opt path |
| Optimization.PathsAgree | python/xmf/layer_03_optimization.py:82-98 | the tol path with infinite tolerances on a set gives the same result as the opt path with flags on that set |
| Fit.WrapperOf | python/xmf/layer_04_fit.py:52-696 | each entry's wrapper keeps its convex or concave side; profile entries never use a 2D height wrapper; the x-slope wrappers go exactly to the slope generator |
| Fit.Generator | python/xmf/layer_04_fit.py:90-696 | every entry has one of the four generators; the profile entries are exactly those with the 1D generators, the slope entries exactly those with the slope generator, and only the 2D hyperbolic cylinder uses the cylinder generator |
| Fit.Call5 | python/xmf/layer_01_standard.py:135-650 | the five-argument call: a 2D height wrapper raises ValueError iff the grids differ in size and leaves its result unbound iff a distance is zero; a cylinder height wrapper raises ValueError and an x-slope wrapper TypeError |
| Fit.Call4 | python/xmf/layer_01_standard.py:135-650 | the four-argument call: a 2D height wrapper raises TypeError; a cylinder wrapper fails iff a distance is zero (result unbound), and otherwise returns one value per point |
| Fit.SurfaceWrapperReached | python/xmf/layer_02_generation.py:133-138 | a 2D height wrapper answers the five-argument call with the quadric height at its signed distances; grids of different sizes end in TypeError after the retry |
| Fit.CylinderWrapperReached | python/xmf/layer_02_generation.py:133-138 | a cylinder height wrapper always falls back to four arguments and yields the quadric height at y = 0, whatever y it is given |
| Fit.EntryWrapperDefined | python/xmf/layer_01_standard.py:72-85 | on equal-size grids, every entry's wrapper answers iff neither distance is zero, and otherwise leaves its result unbound |
| Fit.CylinderBindingsDiffer | python/xmf/layer_04_fit.py:173-537 | 2D elliptic-cylinder fits go through the full-surface generator and free y_i by default; 2D hyperbolic-cylinder fits go through the cylinder generator and keep y_i fixed |
| Fit.FitSurface | python/xmf/layer_04_fit.py:90-537 | a 2D fit forwards its dictionaries: a missing 'p' is a KeyError, and a fit reports its checked initial vector, residual v - v_fit and all nine names |
| Fit.FitProfile | python/xmf/layer_04_fit.py:254-696 | a profile fit runs on y = zeros_like(x): a missing 'p' is a KeyError, the residual is v - v_fit, and a defaulted y_i is 0 (or NaN without valid data) |
| Fit.ProfileCentre | python/xmf/layer_03_optimization.py:125-128 | on the profile line y = zeros_like(x) (layer_04_fit.py:254), a y_i left to its default is either 0 or NaN, never another value |

## Left out

- `standard_tan_col_diaboloid_height` (layer_01_standard.py:695-759): it solves a quartic through complex cube roots and `arccos`, which is floating-point and complex arithmetic with no discrete structure to state.
- The closed-form `expression` variants (returned when `return_*_expression_as_extra` is true) are not modelled. The generators never request them.
- The discarded surface-normal computation is not modelled, and neither is its zero-norm `ValueError` (layer_01_standard.py:91-108). Its fallback to the four-argument call is therefore not modelled either.
- The values of `sin`, `cos`, `tan` and `sqrt` are given functions. Properties that need an exact root or `sin^2 + cos^2 = 1` state that as a hypothesis.
- `np.linalg.inv` of the transform is a parameter (`inv`). `inv(J^T J)` is reduced to a parameter that returns its diagonal or raises.
- `scipy.optimize.least_squares` is a parameter (`solve`). It receives the cost function, the start point and the bounds, and returns the solution, residuals and Jacobian or raises. Its convergence is not modelled, and neither is its rejection of finite bounds under `method='lm'`, which makes the tol path fail inside scipy whenever a tolerance is finite.
- Generation.IterGenerateHeight: the loop has no iteration cap in the source. The model runs it on fuel and reports `Diverged` when fuel runs out, so a loop that would run forever is not distinguished from a long one.
- Array shapes: 2D grids are flattened to sequences, and a shape mismatch is modelled as a length mismatch. Numpy broadcasting of a one-element `v_fit` against `v` is not modelled: any length mismatch is a `ValueError`.
- Fit.Call5: the five-argument call to a cylinder height wrapper is modelled as always raising `ValueError`. For grids of at most one point numpy would not raise there.
- Numbers are exact reals with no rounding. Numpy's infinities in array elements are folded into NaN; bounds keep `+-inf` (`Ext`). An infinity arises where the source divides by zero, for instance at a point where A == 0 on the `-sqrt(Delta)` branch (layer_01_standard.py:73-85). `np.isfinite` treats inf and NaN alike, but three consumers do not, and there the model differs from the source:
  - `np.nanmean` averages an infinite entry instead of skipping it (layer_02_generation.py:151, layer_03_optimization.py:124 and 129). The model's rms_dxy and default centres skip such a point.
  - The loop test `rms_dxy > thr_rms_dxy` (layer_02_generation.py:122) is true for an infinite rms_dxy, so the source runs another pass. In the model such a point makes no contribution, and the loop may stop.
  - `np.isnan` does not flag an infinity (layer_03_optimization.py:241 and 256). A default centre over infinite coordinates is infinite in the source and stays fixed in its scatter. The model computes that centre without the infinite coordinates; when none is left the centre is NaN, and the scatter treats its slot as free.
- Dictionary values are modelled as Python `bool`, a real number, or a sequence of extended reals (`OptValue`). Other Python objects are not modelled. Neither are numpy's own boolean scalars, which `isinstance(..., bool)` rejects, so they would take the tol path.
- Error messages are not modelled. Only the exception class is.
- Optimization.OptimizationResult: only one direction of the `KeyError` case is stated: a missing `'p'` raises it. The abstract solver may raise `KeyError` too, so the converse does not hold in the model.
- Fit.FitProfile: the concave hyperbola height entry has no `is_lmfit` argument (layer_04_fit.py:579-616). The model's flag is unused for every entry, so this changes nothing.
- `fig_show.py` (plotting), `__init__.py` (re-exports) and the documentation and example scripts (file I/O, noise injection) are not part of this model.
