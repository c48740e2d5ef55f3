/** Surface generation in metrology coordinates (python/xmf/layer_02_generation.py).

    A standard surface function is only known through how it answers the two
    calls the generation loop makes (Evaluator). The loop reconciles the
    measured lateral grid with the standard frame: pull each metrology point
    back through T^-1, evaluate the standard surface there, push the result
    through T, and repeat until the lateral RMS mismatch is at most the
    threshold. The loop has no iteration cap in the source; here it carries a
    fuel bound, and running out of fuel is reported as Diverged. */
module Generation {
  import opened Numerics
  import opened Transform

  /** thr_rms_dxy's default, 1e-9. */
  const DefaultThreshold: real := 0.000000001

  /** A standard surface function as Python would answer a call with five
      positional arguments (x, y, p, q, theta) and with four (x, p, q, theta). */
  datatype Evaluator = Evaluator(
    call5: (seq<Num>, seq<Num>, real, real, real) -> Result<seq<Num>>,
    call4: (seq<Num>, real, real, real) -> Result<seq<Num>>)

  /** The try/except around the evaluator: a ValueError from the
      five-argument call is retried as the four-argument call; any other
      exception, and any value, of the first call stands. */
  function CallWithFallback(f: Evaluator, xs: seq<Num>, ys: seq<Num>, p: real, q: real, theta: real): (r: Result<seq<Num>>)
    ensures f.call5(xs, ys, p, q, theta) != Raised(ValueError) ==> r == f.call5(xs, ys, p, q, theta)
    ensures f.call5(xs, ys, p, q, theta) == Raised(ValueError) ==> r == f.call4(xs, p, q, theta)
  {
    var first := f.call5(xs, ys, p, q, theta);
    if first == Raised(ValueError) then f.call4(xs, p, q, theta) else first
  }

  datatype Point = Point(x: Num, y: Num, z: Num)

  predicate FinitePoint(pt: Point)
  {
    pt.x.Finite? && pt.y.Finite? && pt.z.Finite?
  }

  /** T applied to the homogeneous column (x, y, z, 1) as numpy's matrix
      product computes it: a NaN coordinate is multiplied into every row,
      even by a zero entry, so the whole image is NaN. */
  function ApplyNum(T: Affine, x: Num, y: Num, z: Num): (r: Point)
    ensures FinitePoint(r) <==> x.Finite? && y.Finite? && z.Finite?
    ensures !FinitePoint(r) ==> r == Point(NaN, NaN, NaN)
    ensures FinitePoint(r) ==> Vec3(r.x.val, r.y.val, r.z.val) == Apply(T, Vec3(x.val, y.val, z.val))
  {
    if x.Finite? && y.Finite? && z.Finite? then
      var v := Apply(T, Vec3(x.val, y.val, z.val));
      Point(Finite(v.x), Finite(v.y), Finite(v.z))
    else Point(NaN, NaN, NaN)
  }

  /** T @ vstack((x, y, z, ones)), column by column. */
  function MapPoints(T: Affine, xs: seq<Num>, ys: seq<Num>, zs: seq<Num>): (r: seq<Point>)
    requires |ys| == |xs| && |zs| == |xs|
    ensures |r| == |xs| && forall i :: 0 <= i < |xs| ==> r[i] == ApplyNum(T, xs[i], ys[i], zs[i])
  {
    seq(|xs|, i requires 0 <= i < |xs| => ApplyNum(T, xs[i], ys[i], zs[i]))
  }

  function Xs(ps: seq<Point>): (r: seq<Num>)
    ensures |r| == |ps| && forall i :: 0 <= i < |ps| ==> r[i] == ps[i].x
  {
    seq(|ps|, i requires 0 <= i < |ps| => ps[i].x)
  }

  function Ys(ps: seq<Point>): (r: seq<Num>)
    ensures |r| == |ps| && forall i :: 0 <= i < |ps| ==> r[i] == ps[i].y
  {
    seq(|ps|, i requires 0 <= i < |ps| => ps[i].y)
  }

  function Zs(ps: seq<Point>): (r: seq<Num>)
    ensures |r| == |ps| && forall i :: 0 <= i < |ps| ==> r[i] == ps[i].z
  {
    seq(|ps|, i requires 0 <= i < |ps| => ps[i].z)
  }

  /** The squared lateral distance dx^2 + dy^2 at one point. */
  function LateralSq(x: Num, y: Num, pt: Point): (d: Num)
    ensures d.Finite? <==> x.Finite? && y.Finite? && pt.x.Finite? && pt.y.Finite?
    ensures d.Finite? ==> d.val >= 0.0
    ensures d == Finite(0.0) ==> x == pt.x && y == pt.y
  {
    var dx := SubNum(x, pt.x);
    var dy := SubNum(y, pt.y);
    if dx.Finite? && dy.Finite? then
      SumOfSquares(dx.val, dy.val);
      Finite(dx.val * dx.val + dy.val * dy.val)
    else NaN
  }

  function Lateral(x: seq<Num>, y: seq<Num>, sm: seq<Point>): (d: seq<Num>)
    requires |y| == |x| && |sm| == |x|
    ensures |d| == |x| && forall i :: 0 <= i < |x| ==> d[i] == LateralSq(x[i], y[i], sm[i])
  {
    seq(|x|, i requires 0 <= i < |x| => LateralSq(x[i], y[i], sm[i]))
  }

  /** rms_dxy = sqrt(nanmean(dx^2 + dy^2)); NaN when no point is finite. */
  function Rms(lib: Lib, d: seq<Num>): (rms: Ext)
    ensures rms.Fin? || rms == ExtNaN
    ensures rms == ExtNaN <==> forall i :: 0 <= i < |d| ==> d[i].NaN?
  {
    CountFiniteZero(d);
    match NanMean(d)
    case Finite(m) => Fin(lib.sqrt(m))
    case NaN => ExtNaN
  }

  /** The while test rms_dxy > thr_rms_dxy: true for the initial +inf, false
      for NaN. */
  predicate Continue(rms: Ext, thr: real): (b: bool)
    ensures rms == PosInf ==> b
    ensures rms == ExtNaN || rms == NegInf ==> !b
    ensures rms.Fin? ==> (b <==> rms.r > thr)
  {
    rms == PosInf || (rms.Fin? && rms.r > thr)
  }

  /** What one pass computes: the pulled-back standard points with the
      surface height at them, and their images in metrology coordinates. */
  datatype Pass = Pass(standard: seq<Point>, metrology: seq<Point>)

  /** The heights the surface returns at the pulled-back grid: the rows
      x_s and y_s of T^-1 (x, y, z, 1), passed through the try/except. */
  function SurfaceAt(f: Evaluator, Ti: Affine, x: seq<Num>, y: seq<Num>, z: seq<Num>,
                     p: real, q: real, theta: real): Result<seq<Num>>
    requires |y| == |x| && |z| == |x|
  {
    var ms := MapPoints(Ti, x, y, z);
    CallWithFallback(f, Xs(ms), Ys(ms), p, q, theta)
  }

  function OnePass(f: Evaluator, inv: Affine -> Result<Affine>, T: Affine,
                   x: seq<Num>, y: seq<Num>, z: seq<Num>, p: real, q: real, theta: real): (r: Result<Pass>)
    ensures (|y| != |x| || |z| != |x|) ==> r == Raised(ValueError)
    ensures |y| == |x| && |z| == |x| && inv(T).Raised? ==> r == Raised(inv(T).error)
    ensures |y| == |x| && |z| == |x| && inv(T).Ok? && SurfaceAt(f, inv(T).value, x, y, z, p, q, theta).Raised? ==>
      r == Raised(SurfaceAt(f, inv(T).value, x, y, z, p, q, theta).error)
    ensures |y| == |x| && |z| == |x| && inv(T).Ok? && SurfaceAt(f, inv(T).value, x, y, z, p, q, theta).Ok? ==>
      (r.Ok? <==> |SurfaceAt(f, inv(T).value, x, y, z, p, q, theta).value| == |x|) &&
      (r.Raised? ==> r.error == ValueError)
    ensures r.Ok? ==>
      (|y| == |x| && |z| == |x| && inv(T).Ok? &&
       SurfaceAt(f, inv(T).value, x, y, z, p, q, theta).Ok? &&
       |SurfaceAt(f, inv(T).value, x, y, z, p, q, theta).value| == |x|)
    ensures r.Ok? ==> |r.value.standard| == |x| && |r.value.metrology| == |x|
    ensures r.Ok? ==> forall i :: 0 <= i < |x| ==>
      r.value.standard[i].x == ApplyNum(inv(T).value, x[i], y[i], z[i]).x &&
      r.value.standard[i].y == ApplyNum(inv(T).value, x[i], y[i], z[i]).y &&
      r.value.standard[i].z == SurfaceAt(f, inv(T).value, x, y, z, p, q, theta).value[i]
    ensures r.Ok? ==> forall i :: 0 <= i < |x| ==>
      r.value.metrology[i] == ApplyNum(T, r.value.standard[i].x, r.value.standard[i].y, r.value.standard[i].z)
  {
    if |y| != |x| || |z| != |x| then Raised(ValueError)
    else match inv(T)
      case Raised(e) => Raised(e)
      case Ok(Ti) =>
        var ms := MapPoints(Ti, x, y, z);
        var zs := SurfaceAt(f, Ti, x, y, z, p, q, theta);
        if zs.Raised? then Raised(zs.error)
        else if |zs.value| != |x| then Raised(ValueError)
        else
          var standard := seq(|x|, i requires 0 <= i < |x| => Point(ms[i].x, ms[i].y, zs.value[i]));
          Ok(Pass(standard, MapPoints(T, Xs(ms), Ys(ms), zs.value)))
  }

  datatype StepOut = StepOut(z: seq<Num>, rms: Ext)

  /** One iteration of the while loop: the new height map and rms_dxy. */
  function Step(f: Evaluator, lib: Lib, inv: Affine -> Result<Affine>, T: Affine,
                x: seq<Num>, y: seq<Num>, z: seq<Num>, p: real, q: real, theta: real): (r: Result<StepOut>)
    ensures r.Ok? ==> |r.value.z| == |x|
    ensures r.Raised? <==> OnePass(f, inv, T, x, y, z, p, q, theta).Raised?
    ensures r.Raised? ==> r.error == OnePass(f, inv, T, x, y, z, p, q, theta).error
    ensures r.Ok? ==>
      (OnePass(f, inv, T, x, y, z, p, q, theta).Ok? && |y| == |x| &&
       r.value.z == Zs(OnePass(f, inv, T, x, y, z, p, q, theta).value.metrology) &&
       r.value.rms == Rms(lib, Lateral(x, y, OnePass(f, inv, T, x, y, z, p, q, theta).value.metrology)))
  {
    match OnePass(f, inv, T, x, y, z, p, q, theta)
    case Raised(e) => Raised(e)
    case Ok(ps) => Ok(StepOut(Zs(ps.metrology), Rms(lib, Lateral(x, y, ps.metrology))))
  }

  /** One pass of the loop as a function of the current height map. */
  function PassOf(f: Evaluator, lib: Lib, inv: Affine -> Result<Affine>, T: Affine,
                  x: seq<Num>, y: seq<Num>, p: real, q: real, theta: real): seq<Num> -> Result<StepOut>
  {
    z => Step(f, lib, inv, T, x, y, z, p, q, theta)
  }

  /** The loop from a state (z, rms_dxy) with at most fuel passes left. */
  function Run(pass: seq<Num> -> Result<StepOut>, z: seq<Num>, rms: Ext, thr: real, fuel: nat): (r: Result<seq<Num>>)
    ensures !Continue(rms, thr) ==> r == Ok(z)
    ensures Continue(rms, thr) && fuel == 0 ==> r == Raised(Diverged)
    ensures Continue(rms, thr) && fuel > 0 && pass(z).Raised? ==> r == Raised(pass(z).error)
    ensures r.Ok? && Continue(rms, thr) ==> fuel > 0 && pass(z).Ok?
    decreases fuel
  {
    if !Continue(rms, thr) then Ok(z)
    else if fuel == 0 then Raised(Diverged)
    else match pass(z)
      case Raised(e) => Raised(e)
      case Ok(o) => Run(pass, o.z, o.rms, thr, fuel - 1)
  }

  /** The measured map, or zeros of the grid's size when it is absent. */
  function Seed(measured: Option<seq<Num>>, n: nat): (z: seq<Num>)
    ensures measured.None? ==> z == Zeros(n)
    ensures measured.Some? ==> z == measured.value
  {
    if measured.None? then Zeros(n) else measured.value
  }

  /** iter_generate_height as a function: start from the seed with rms_dxy = +inf. */
  function IterGenerate(f: Evaluator, lib: Lib, inv: Affine -> Result<Affine>,
                        x: seq<Num>, y: seq<Num>, p: real, q: real, theta: real, T: Affine,
                        measured: Option<seq<Num>>, thr: real, fuel: nat): (r: Result<seq<Num>>)
    ensures fuel == 0 ==> r == Raised(Diverged)
    ensures fuel > 0 && Step(f, lib, inv, T, x, y, Seed(measured, |x|), p, q, theta).Raised? ==>
      r == Raised(Step(f, lib, inv, T, x, y, Seed(measured, |x|), p, q, theta).error)
  {
    Run(PassOf(f, lib, inv, T, x, y, p, q, theta), Seed(measured, |x|), PosInf, thr, fuel)
  }

  /** The while loop of iter_generate_height, reassigning z and rms_dxy,
      over the pass it repeats. */
  method Iterate(pass: seq<Num> -> Result<StepOut>, z0: seq<Num>, thr: real, fuel: nat)
    returns (r: Result<seq<Num>>)
    ensures r == Run(pass, z0, PosInf, thr, fuel)
  {
    var z := z0;
    var rms := PosInf;
    var n: nat := 0;
    while Continue(rms, thr)
      invariant n <= fuel
      invariant Run(pass, z0, PosInf, thr, fuel) == Run(pass, z, rms, thr, fuel - n)
      decreases fuel - n
    {
      if n == fuel {
        return Raised(Diverged);
      }
      var s := pass(z);
      if s.Raised? {
        return Raised(s.error);
      }
      z := s.value.z;
      rms := s.value.rms;
      n := n + 1;
    }
    return Ok(z);
  }

  /** iter_generate_height: the loop from the seed map. */
  method IterGenerateHeight(f: Evaluator, lib: Lib, inv: Affine -> Result<Affine>,
                            x: seq<Num>, y: seq<Num>, p: real, q: real, theta: real, T: Affine,
                            measured: Option<seq<Num>>, thr: real, fuel: nat)
    returns (r: Result<seq<Num>>)
    ensures r == IterGenerate(f, lib, inv, x, y, p, q, theta, T, measured, thr, fuel)
  {
    var z := if measured.None? then Zeros(|x|) else measured.value;
    r := Iterate(PassOf(f, lib, inv, T, x, y, p, q, theta), z, thr, fuel);
  }

  /** Whatever the loop returns is the height map of a completed pass whose
      rms_dxy stopped the loop: the seed itself is never returned, since the
      initial +inf always lets one pass run. */
  lemma {:induction false} RunEndsWithStoppingPass(pass: seq<Num> -> Result<StepOut>, z: seq<Num>, rms: Ext,
                                                   thr: real, fuel: nat)
    requires Continue(rms, thr)
    requires Run(pass, z, rms, thr, fuel).Ok?
    ensures exists z0 ::
      pass(z0).Ok? && pass(z0).value.z == Run(pass, z, rms, thr, fuel).value && !Continue(pass(z0).value.rms, thr)
    decreases fuel
  {
    var s := pass(z);
    if Continue(s.value.rms, thr) {
      RunEndsWithStoppingPass(pass, s.value.z, s.value.rms, thr, fuel - 1);
    } else {
      assert s.value.z == Run(pass, z, rms, thr, fuel).value;
    }
  }

  lemma IterGenerateEndsWithStoppingPass(f: Evaluator, lib: Lib, inv: Affine -> Result<Affine>,
                                         x: seq<Num>, y: seq<Num>, p: real, q: real, theta: real, T: Affine,
                                         measured: Option<seq<Num>>, thr: real, fuel: nat)
    requires IterGenerate(f, lib, inv, x, y, p, q, theta, T, measured, thr, fuel).Ok?
    ensures fuel > 0
    ensures |IterGenerate(f, lib, inv, x, y, p, q, theta, T, measured, thr, fuel).value| == |x|
    ensures exists z0 :: var s := Step(f, lib, inv, T, x, y, z0, p, q, theta);
      s.Ok? && s.value.z == IterGenerate(f, lib, inv, x, y, p, q, theta, T, measured, thr, fuel).value &&
      !Continue(s.value.rms, thr)
  {
    var pass := PassOf(f, lib, inv, T, x, y, p, q, theta);
    RunEndsWithStoppingPass(pass, Seed(measured, |x|), PosInf, thr, fuel);
    var z0 :| pass(z0).Ok? && pass(z0).value.z == Run(pass, Seed(measured, |x|), PosInf, thr, fuel).value &&
      !Continue(pass(z0).value.rms, thr);
    assert pass(z0) == Step(f, lib, inv, T, x, y, z0, p, q, theta);
  }

  /** The fuel bound only decides whether the loop finishes: once a run
      returns with some fuel, more fuel returns the same map. */
  lemma {:induction false} RunMoreFuel(pass: seq<Num> -> Result<StepOut>, z: seq<Num>, rms: Ext,
                                       thr: real, fuel: nat, more: nat)
    requires Run(pass, z, rms, thr, fuel).Ok?
    requires fuel <= more
    ensures Run(pass, z, rms, thr, more) == Run(pass, z, rms, thr, fuel)
    decreases fuel
  {
    if Continue(rms, thr) {
      var s := pass(z);
      RunMoreFuel(pass, s.value.z, s.value.rms, thr, fuel - 1, more - 1);
    }
  }

  /** The given square root is exact everywhere it is defined. */
  ghost predicate ExactSqrt(lib: Lib)
  {
    forall d :: SqrtAt(lib.sqrt, d)
  }

  /** rms_dxy == 0 over non-negative squared distances: each finite one is 0. */
  lemma ZeroRmsZeroDistances(lib: Lib, d: seq<Num>)
    requires ExactSqrt(lib)
    requires forall i :: 0 <= i < |d| && d[i].Finite? ==> d[i].val >= 0.0
    requires Rms(lib, d) == Fin(0.0)
    ensures forall i :: 0 <= i < |d| && d[i].Finite? ==> d[i].val == 0.0
  {
    var m := NanMean(d);
    assert m.Finite? && lib.sqrt(m.val) == 0.0;
    assert SqrtAt(lib.sqrt, m.val);
    SumFiniteNonneg(d);
    assert m.val == SumFinite(d) / (CountFinite(d) as real);
    assert m.val >= 0.0;
    assert m == Finite(0.0);
    NanMeanZero(d);
  }

  /** A pass with rms_dxy == 0 reproduces the measured lateral grid exactly:
      at every point with a finite image, the image has the measured x and y
      and the new height, so the new metrology point is T applied to a point
      of the standard surface. */
  lemma ZeroRmsMatchesGrid(f: Evaluator, lib: Lib, inv: Affine -> Result<Affine>, T: Affine,
                           x: seq<Num>, y: seq<Num>, z: seq<Num>, p: real, q: real, theta: real)
    requires ExactSqrt(lib)
    requires Step(f, lib, inv, T, x, y, z, p, q, theta).Ok?
    requires Step(f, lib, inv, T, x, y, z, p, q, theta).value.rms == Fin(0.0)
    ensures var ps := OnePass(f, inv, T, x, y, z, p, q, theta).value;
      forall i :: 0 <= i < |x| && FinitePoint(ps.metrology[i]) ==>
        ps.metrology[i] == Point(x[i], y[i], Step(f, lib, inv, T, x, y, z, p, q, theta).value.z[i])
  {
    var ps := OnePass(f, inv, T, x, y, z, p, q, theta).value;
    var d := Lateral(x, y, ps.metrology);
    ZeroRmsZeroDistances(lib, d);
    forall i | 0 <= i < |x| && FinitePoint(ps.metrology[i])
      ensures ps.metrology[i] == Point(x[i], y[i], Step(f, lib, inv, T, x, y, z, p, q, theta).value.z[i])
    {
      assert ps.metrology[i] == ApplyNum(T, ps.standard[i].x, ps.standard[i].y, ps.standard[i].z);
      assert d[i] == LateralSq(x[i], y[i], ps.metrology[i]);
    }
  }

  /** With a zero rms_dxy and the rigid inverse as T^-1, every finite point of
      the new map pulls back onto the standard surface: T^-1 (x, y, z_new)
      is the standard point whose height the surface function returned. */
  lemma ZeroRmsPointsOnSurface(f: Evaluator, lib: Lib, inv: Affine -> Result<Affine>, T: Affine,
                               x: seq<Num>, y: seq<Num>, z: seq<Num>, p: real, q: real, theta: real)
    requires ExactSqrt(lib)
    requires Orthonormal(T.r) && inv(T) == Ok(RigidInverse(T))
    requires Step(f, lib, inv, T, x, y, z, p, q, theta).Ok?
    requires Step(f, lib, inv, T, x, y, z, p, q, theta).value.rms == Fin(0.0)
    ensures var ps := OnePass(f, inv, T, x, y, z, p, q, theta).value;
      var zNew := Step(f, lib, inv, T, x, y, z, p, q, theta).value.z;
      forall i :: 0 <= i < |x| && zNew[i].Finite? ==>
        ApplyNum(RigidInverse(T), x[i], y[i], zNew[i]) == ps.standard[i]
  {
    var ps := OnePass(f, inv, T, x, y, z, p, q, theta).value;
    var zNew := Step(f, lib, inv, T, x, y, z, p, q, theta).value.z;
    ZeroRmsMatchesGrid(f, lib, inv, T, x, y, z, p, q, theta);
    forall i | 0 <= i < |x| && zNew[i].Finite?
      ensures ApplyNum(RigidInverse(T), x[i], y[i], zNew[i]) == ps.standard[i]
    {
      var sp := ps.standard[i];
      assert zNew[i] == ps.metrology[i].z;
      assert ps.metrology[i] == ApplyNum(T, sp.x, sp.y, sp.z);
      assert FinitePoint(ps.metrology[i]);
      var v := Vec3(sp.x.val, sp.y.val, sp.z.val);
      RigidInverseInverts(T, v);
    }
  }

  /** generate_2d_curved_surface_height: all six pose parameters go into T. */
  function Generate2DCurvedSurfaceHeight(f: Evaluator, lib: Lib, inv: Affine -> Result<Affine>,
                                         x: seq<Num>, y: seq<Num>, p: real, q: real, theta: real,
                                         xi: real, yi: real, zi: real, alpha: real, beta: real, gamma: real,
                                         measured: Option<seq<Num>>, fuel: nat): (r: Result<seq<Num>>)
    ensures r == IterGenerate(f, lib, inv, x, y, p, q, theta,
                              ComposeTransformationMatrix(lib, alpha, beta, gamma, xi, yi, zi),
                              measured, DefaultThreshold, fuel)
  {
    var T := ComposeTransformationMatrix(lib, alpha, beta, gamma, xi, yi, zi);
    IterGenerate(f, lib, inv, x, y, p, q, theta, T, Some(Seed(measured, |x|)), DefaultThreshold, fuel)
  }

  /** generate_2d_cylinder_height: the full-surface generation with y_i = 0. */
  function Generate2DCylinderHeight(f: Evaluator, lib: Lib, inv: Affine -> Result<Affine>,
                                    x: seq<Num>, y: seq<Num>, p: real, q: real, theta: real,
                                    xi: real, zi: real, alpha: real, beta: real, gamma: real,
                                    measured: Option<seq<Num>>, fuel: nat): (r: Result<seq<Num>>)
    ensures r == Generate2DCurvedSurfaceHeight(f, lib, inv, x, y, p, q, theta, xi, 0.0, zi, alpha, beta, gamma, measured, fuel)
  {
    var T := ComposeTransformationMatrix(lib, alpha, beta, gamma, xi, 0.0, zi);
    IterGenerate(f, lib, inv, x, y, p, q, theta, T, Some(Seed(measured, |x|)), DefaultThreshold, fuel)
  }

  /** generate_1d_height: the full-surface generation over the line y = 0,
      with y_i = alpha = gamma = 0. */
  function Generate1DHeight(f: Evaluator, lib: Lib, inv: Affine -> Result<Affine>,
                            x: seq<Num>, p: real, q: real, theta: real,
                            xi: real, zi: real, beta: real,
                            measured: Option<seq<Num>>, fuel: nat): (r: Result<seq<Num>>)
    ensures r == Generate2DCurvedSurfaceHeight(f, lib, inv, x, Zeros(|x|), p, q, theta, xi, 0.0, zi, 0.0, beta, 0.0, measured, fuel)
  {
    var T := ComposeTransformationMatrix(lib, 0.0, beta, 0.0, xi, 0.0, zi);
    IterGenerate(f, lib, inv, x, Zeros(|x|), p, q, theta, T, Some(Seed(measured, |x|)), DefaultThreshold, fuel)
  }

  /** x - x_i elementwise. */
  function Shift(x: seq<Num>, xi: real): (r: seq<Num>)
    ensures |r| == |x| && forall i :: 0 <= i < |x| ==> r[i] == SubNum(x[i], Finite(xi))
  {
    seq(|x|, i requires 0 <= i < |x| => SubNum(x[i], Finite(xi)))
  }

  /** generate_1d_slope: the standard slope at x - x_i, less tan(beta); no
      transform and no iteration. */
  function Generate1DSlope(f: Evaluator, lib: Lib, x: seq<Num>, p: real, q: real, theta: real,
                           xi: real, beta: real): (r: Result<seq<Num>>)
    ensures f.call4(Shift(x, xi), p, q, theta).Raised? ==> r == f.call4(Shift(x, xi), p, q, theta)
    ensures f.call4(Shift(x, xi), p, q, theta).Ok? ==>
      (var sx := f.call4(Shift(x, xi), p, q, theta).value;
       r.Ok? && |r.value| == |sx| && forall i :: 0 <= i < |sx| ==> r.value[i] == SubNum(sx[i], Finite(lib.tan(beta))))
  {
    match f.call4(Shift(x, xi), p, q, theta)
    case Raised(e) => Raised(e)
    case Ok(sx) => Ok(seq(|sx|, i requires 0 <= i < |sx| => SubNum(sx[i], Finite(lib.tan(beta)))))
  }

  /** Moving the profile and the chief-ray position x_i together leaves the
      slope unchanged: only x - x_i reaches the standard function. */
  lemma SlopeShiftInvariant(f: Evaluator, lib: Lib, x: seq<Num>, p: real, q: real, theta: real,
                            xi: real, beta: real, delta: real)
    ensures Generate1DSlope(f, lib, Shift(x, -delta), p, q, theta, xi + delta, beta)
         == Generate1DSlope(f, lib, x, p, q, theta, xi, beta)
  {
    assert Shift(Shift(x, -delta), xi + delta) == Shift(x, xi) by {
      forall i | 0 <= i < |x|
        ensures Shift(Shift(x, -delta), xi + delta)[i] == Shift(x, xi)[i]
      {
        if x[i].Finite? {
          assert (x[i].val - -delta) - (xi + delta) == x[i].val - xi;
        }
      }
    }
  }
}
