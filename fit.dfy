/** The sixteen fit entry points (python/xmf/layer_04_fit.py) and the
    standard wrappers they hand to the generators
    (python/xmf/layer_01_standard.py).

    Every entry is optimize_parameters with a fixed generator and a fixed
    standard wrapper; the profile (1D) entries pass y = 0 for every point.
    A wrapper is known to the generators only through how Python answers
    the five-argument call (x, y, p, q, theta) and the four-argument call
    (x, p, q, theta), so each wrapper is modelled by those two answers. */
module Fit {
  import opened Numerics
  import opened Standard
  import opened Generation
  import opened Optimization

  /** The eight surface families with a fit, each in a convex and a concave
      variant. */
  datatype Kind =
    | EllipsoidHeight | EllipticCylinderHeight | EllipseHeight | EllipseSlope
    | HyperboloidHeight | HyperbolicCylinderHeight | HyperbolaHeight | HyperbolaSlope

  datatype Entry = Entry(kind: Kind, side: Side)

  /** The entries that take a profile x1d and build y1d = zeros_like(x1d). */
  predicate Profile(k: Kind)
  {
    k == EllipseHeight || k == EllipseSlope || k == HyperbolaHeight || k == HyperbolaSlope
  }

  /** Which standard function a wrapper forwards to. */
  datatype Form = Height2D | CylinderHeight | CylinderXslope

  datatype Wrapper = Wrapper(form: Form, shape: Shape, side: Side)

  /** The generator each entry passes to optimize_parameters. The 2D
      elliptic cylinder goes through the full-surface generator, the 2D
      hyperbolic cylinder through the cylinder generator. */
  function Generator(k: Kind): (g: Gen)
    ensures g != Other
    ensures Profile(k) <==> g == Height1D || g == Slope1D
    ensures g == Slope1D <==> k == EllipseSlope || k == HyperbolaSlope
    ensures g == Cylinder2D <==> k == HyperbolicCylinderHeight
  {
    match k
    case EllipsoidHeight => Surface2D
    case EllipticCylinderHeight => Surface2D
    case EllipseHeight => Height1D
    case EllipseSlope => Slope1D
    case HyperboloidHeight => Surface2D
    case HyperbolicCylinderHeight => Cylinder2D
    case HyperbolaHeight => Height1D
    case HyperbolaSlope => Slope1D
  }

  /** The standard wrapper each entry passes to optimize_parameters. */
  function WrapperOf(e: Entry): (w: Wrapper)
    ensures w.side == e.side
    ensures Profile(e.kind) ==> w.form != Height2D
    ensures w.form == CylinderXslope <==> Generator(e.kind) == Slope1D
  {
    match e.kind
    case EllipsoidHeight => Wrapper(Height2D, Ellipsoid, e.side)
    case EllipticCylinderHeight => Wrapper(CylinderHeight, EllipticCylinder, e.side)
    case EllipseHeight => Wrapper(CylinderHeight, EllipticCylinder, e.side)
    case EllipseSlope => Wrapper(CylinderXslope, EllipticCylinder, e.side)
    case HyperboloidHeight => Wrapper(Height2D, Hyperboloid, e.side)
    case HyperbolicCylinderHeight => Wrapper(CylinderHeight, HyperbolicCylinder, e.side)
    case HyperbolaHeight => Wrapper(CylinderHeight, HyperbolicCylinder, e.side)
    case HyperbolaSlope => Wrapper(CylinderXslope, HyperbolicCylinder, e.side)
  }

  /** The wrapper called as f(x, y, abs_p, abs_q, theta). A 2D height
      wrapper signs the distances and calls standard_quadrics_height. A
      cylinder height wrapper binds y to abs_p, so an array reaches an `if`
      on its sign and numpy refuses its truth value (ValueError). An x-slope
      wrapper takes four positional arguments, so a fifth is a TypeError. */
  function Call5(lib: Lib, w: Wrapper, xs: seq<Num>, ys: seq<Num>, absP: real, absQ: real, theta: real): (r: Result<seq<Num>>)
    ensures w.form == CylinderHeight ==> r == Raised(ValueError)
    ensures w.form == CylinderXslope ==> r == Raised(TypeError)
    ensures w.form == Height2D ==> (r == Raised(ValueError) <==> |xs| != |ys|)
    ensures w.form == Height2D ==>
      (r == Raised(UnboundLocalError) <==> |xs| == |ys| && (absP == 0.0 || absQ == 0.0))
    ensures r.Ok? ==> w.form == Height2D && |r.value| == |xs|
  {
    match w.form
    case Height2D =>
      var pq := SignedDistances(w.shape, w.side, absP, absQ);
      StandardQuadricsHeight(xs, ys, pq.0, pq.1, lib.sin(theta), lib.cos(theta), lib.sqrt)
    case CylinderHeight => Raised(ValueError)
    case CylinderXslope => Raised(TypeError)
  }

  /** The wrapper called as f(x, abs_p, abs_q, theta). A 2D height wrapper
      then misses theta (TypeError); the cylinder wrappers sign the
      distances and call the cylinder height or x-slope. */
  function Call4(lib: Lib, w: Wrapper, xs: seq<Num>, absP: real, absQ: real, theta: real): (r: Result<seq<Num>>)
    ensures w.form == Height2D ==> r == Raised(TypeError)
    ensures w.form != Height2D ==> (r.Raised? <==> absP == 0.0 || absQ == 0.0)
    ensures w.form != Height2D && r.Raised? ==> r.error == UnboundLocalError
    ensures r.Ok? ==> |r.value| == |xs|
  {
    var pq := SignedDistances(w.shape, w.side, absP, absQ);
    match w.form
    case Height2D => Raised(TypeError)
    case CylinderHeight => StandardQuadricCylinderHeight(xs, pq.0, pq.1, lib.sin(theta), lib.cos(theta), lib.sqrt)
    case CylinderXslope => StandardQuadricCylinderXslope(xs, pq.0, pq.1, lib.sin(theta), lib.cos(theta), lib.sqrt)
  }

  function Evaluate(lib: Lib, w: Wrapper): Evaluator
  {
    Evaluator(
      (xs: seq<Num>, ys: seq<Num>, absP: real, absQ: real, theta: real) => Call5(lib, w, xs, ys, absP, absQ, theta),
      (xs: seq<Num>, absP: real, absQ: real, theta: real) => Call4(lib, w, xs, absP, absQ, theta))
  }

  /** What a generator obtains from the wrapper: the slope generator calls
      it with four arguments, the height generators through the
      five-then-four fallback. */
  function Reached(lib: Lib, w: Wrapper, xs: seq<Num>, ys: seq<Num>, absP: real, absQ: real, theta: real): Result<seq<Num>>
  {
    if w.form == CylinderXslope then Evaluate(lib, w).call4(xs, absP, absQ, theta)
    else CallWithFallback(Evaluate(lib, w), xs, ys, absP, absQ, theta)
  }

  /** A 2D height wrapper answers the five-argument call: on a grid it is
      the quadric height with the wrapper's signed distances; grids of
      different shapes fail to broadcast, and the retry with four arguments
      then fails for the missing theta. */
  lemma SurfaceWrapperReached(lib: Lib, w: Wrapper, xs: seq<Num>, ys: seq<Num>, absP: real, absQ: real, theta: real)
    requires w.form == Height2D
    ensures |xs| == |ys| ==>
      Reached(lib, w, xs, ys, absP, absQ, theta)
        == StandardQuadricsHeight(xs, ys, SignedDistances(w.shape, w.side, absP, absQ).0,
                                  SignedDistances(w.shape, w.side, absP, absQ).1,
                                  lib.sin(theta), lib.cos(theta), lib.sqrt)
    ensures |xs| != |ys| ==> Reached(lib, w, xs, ys, absP, absQ, theta) == Raised(TypeError)
  {
    var pq := SignedDistances(w.shape, w.side, absP, absQ);
    assert Evaluate(lib, w).call5(xs, ys, absP, absQ, theta)
        == StandardQuadricsHeight(xs, ys, pq.0, pq.1, lib.sin(theta), lib.cos(theta), lib.sqrt);
  }

  /** A cylinder height wrapper always falls back to the four-argument
      call, so the y it is given is never read: it yields the quadric
      height at y = 0. */
  lemma CylinderWrapperReached(lib: Lib, w: Wrapper, xs: seq<Num>, ys: seq<Num>, absP: real, absQ: real, theta: real)
    requires w.form == CylinderHeight
    ensures Reached(lib, w, xs, ys, absP, absQ, theta)
         == StandardQuadricsHeight(xs, Zeros(|xs|), SignedDistances(w.shape, w.side, absP, absQ).0,
                                   SignedDistances(w.shape, w.side, absP, absQ).1,
                                   lib.sin(theta), lib.cos(theta), lib.sqrt)
  {
    assert Evaluate(lib, w).call5(xs, ys, absP, absQ, theta) == Raised(ValueError);
  }

  /** On a well-shaped grid, every wrapper an entry uses answers exactly
      when neither distance is zero; otherwise quad_sln (or the x-slope)
      leaves its result unbound. */
  lemma EntryWrapperDefined(lib: Lib, e: Entry, xs: seq<Num>, ys: seq<Num>, absP: real, absQ: real, theta: real)
    requires |xs| == |ys|
    ensures Reached(lib, WrapperOf(e), xs, ys, absP, absQ, theta).Ok? <==> absP != 0.0 && absQ != 0.0
    ensures Reached(lib, WrapperOf(e), xs, ys, absP, absQ, theta).Raised? ==>
              Reached(lib, WrapperOf(e), xs, ys, absP, absQ, theta).error == UnboundLocalError
  {
    var w := WrapperOf(e);
    var pq := SignedDistances(w.shape, w.side, absP, absQ);
    assert (pq.0 == 0.0 <==> absP == 0.0) && (pq.1 == 0.0 <==> absQ == 0.0);
    match w.form
    case Height2D =>
      SurfaceWrapperReached(lib, w, xs, ys, absP, absQ, theta);
    case CylinderHeight =>
      CylinderWrapperReached(lib, w, xs, ys, absP, absQ, theta);
    case CylinderXslope =>
      assert Reached(lib, w, xs, ys, absP, absQ, theta)
          == StandardQuadricCylinderXslope(xs, pq.0, pq.1, lib.sin(theta), lib.cos(theta), lib.sqrt);
  }

  /** The fit of a 2D surface entry (height map x2d, y2d, z2d). */
  function FitSurface(e: Entry, env: Env, x: seq<Num>, y: seq<Num>, v: seq<Num>,
                      params: map<string, real>, d: map<string, OptValue>): (r: Result<Output>)
    requires !Profile(e.kind)
    ensures "p" !in d ==> r == Raised(KeyError)
    ensures r.Ok? ==> CheckInputParams(params, x, y, v) == Ok(r.value.init)
    ensures r.Ok? ==> |r.value.fit| == |v| && r.value.res == Residual(v, r.value.fit)
    ensures r.Ok? ==> forall i :: 0 <= i < 9 ==> Names[i] in r.value.params && Names[i] in r.value.ci
  {
    OptimizationResult(Generator(e.kind), Evaluate(env.lib, WrapperOf(e)), env, x, y, v, params, d)
  }

  /** The 2D elliptic-cylinder fits go through the full-surface generator,
      which frees y_i by default; the 2D hyperbolic-cylinder fits go through
      the cylinder generator, which never reads y_i and keeps it fixed. */
  lemma CylinderBindingsDiffer()
    ensures Generator(EllipticCylinderHeight) == Surface2D && DefaultMask(Generator(EllipticCylinderHeight))[4]
    ensures Generator(HyperbolicCylinderHeight) == Cylinder2D && !DefaultMask(Generator(HyperbolicCylinderHeight))[4]
  {
  }

  /** The fit of a profile entry (x1d with heights or slopes): y is zero
      at every point, so a y_i left to its default is 0, or NaN when no
      datum is valid. The is_lmfit flag is accepted and never read. */
  function FitProfile(e: Entry, env: Env, x: seq<Num>, v: seq<Num>,
                      params: map<string, real>, d: map<string, OptValue>, isLmfit: bool): (r: Result<Output>)
    requires Profile(e.kind)
    ensures "p" !in d ==> r == Raised(KeyError)
    ensures r.Ok? ==> CheckInputParams(params, x, Zeros(|x|), v) == Ok(r.value.init)
    ensures r.Ok? ==> |r.value.fit| == |v| && r.value.res == Residual(v, r.value.fit)
    ensures r.Ok? && "y_i" !in params ==> r.value.init[4] == Finite(0.0) || r.value.init[4] == NaN
  {
    var y := Zeros(|x|);
    var r := OptimizationResult(Generator(e.kind), Evaluate(env.lib, WrapperOf(e)), env, x, y, v, params, d);
    assert r.Ok? && "y_i" !in params ==> r.value.init[4] == Finite(0.0) || r.value.init[4] == NaN by {
      if r.Ok? && "y_i" !in params {
        ProfileCentre(params, x, v, r.value.init);
      }
    }
    r
  }

  /** Over the line y = 0, a y_i left to its default is 0 or NaN. */
  lemma ProfileCentre(params: map<string, real>, x: seq<Num>, v: seq<Num>, init: seq<Num>)
    requires CheckInputParams(params, x, Zeros(|x|), v) == Ok(init)
    requires "y_i" !in params
    ensures init[4] == Finite(0.0) || init[4] == NaN
  {
    DefaultCentreWithin(Zeros(|x|), v, 0.0, 0.0);
  }
}
