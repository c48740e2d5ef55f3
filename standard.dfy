/** Standard-frame quadric evaluators (python/xmf/layer_01_standard.py).

    Each height evaluator solves A z^2 + B z + C = 0 for the height z and
    picks the +sqrt(Delta) or -sqrt(Delta) root through a decision table on
    the signs of p and q and on |p| against |q|. Trigonometric values enter as
    given reals s = sin(theta), c = cos(theta); the square root is the given
    function sqrt, assumed correct only where a lemma says so (SqrtAt). */
module Standard {
  import opened Numerics

  datatype Branch = PlusRoot | MinusRoot

  /** The surface families whose wrappers attach signs to (abs_p, abs_q). */
  datatype Shape = Ellipsoid | Hyperboloid | EllipticCylinder | HyperbolicCylinder

  datatype Side = Convex | Concave

  predicate IsHyperbolic(shape: Shape)
  {
    shape == Hyperboloid || shape == HyperbolicCylinder
  }

  /** The decision table of quad_sln. None: no branch fires, so the result
      variable is never bound (p or q is zero). */
  function RootBranch(p: real, q: real): (b: Option<Branch>)
    ensures b.None? <==> p == 0.0 || q == 0.0
  {
    if p < 0.0 && q < 0.0 then Some(PlusRoot)
    else if p > 0.0 && q > 0.0 then Some(MinusRoot)
    else if p < 0.0 && q > 0.0 then (if Abs(p) <= Abs(q) then Some(PlusRoot) else Some(MinusRoot))
    else if p > 0.0 && q < 0.0 then (if Abs(p) >= Abs(q) then Some(PlusRoot) else Some(MinusRoot))
    else None
  }

  /** The table follows the sign of the vertex curvature 1/p + 1/q: the
      +sqrt root is taken exactly when it is not positive. */
  lemma BranchFollowsCurvature(p: real, q: real)
    requires p != 0.0 && q != 0.0
    ensures RootBranch(p, q) == Some(PlusRoot) <==> 1.0 / p + 1.0 / q <= 0.0
    ensures RootBranch(p, q) == Some(MinusRoot) <==> 1.0 / p + 1.0 / q > 0.0
  {
    assert 1.0 / p + 1.0 / q == (p + q) / (p * q);
    if p * q > 0.0 {
      assert (p + q) / (p * q) <= 0.0 <==> p + q <= 0.0;
    } else {
      assert p * q < 0.0;
      assert (p + q) / (p * q) <= 0.0 <==> p + q >= 0.0;
    }
  }

  /** The sign wrappers: each gives (abs_p, abs_q) the signs of its family.
      The hyperboloid wrappers compare abs_p > abs_q; the hyperbolic-cylinder
      wrappers compare abs(abs_p) > abs(abs_q). */
  function SignedDistances(shape: Shape, side: Side, absP: real, absQ: real): (pq: (real, real))
    ensures Abs(pq.0) == Abs(absP) && Abs(pq.1) == Abs(absQ)
    ensures absP > 0.0 && absQ > 0.0 ==> ((pq.0 > 0.0) == (pq.1 > 0.0) <==> !IsHyperbolic(shape))
  {
    match (shape, side)
    case (Ellipsoid, Convex) => (-absP, -absQ)
    case (Ellipsoid, Concave) => (absP, absQ)
    case (EllipticCylinder, Convex) => (-absP, -absQ)
    case (EllipticCylinder, Concave) => (absP, absQ)
    case (Hyperboloid, Convex) => if absP > absQ then (absP, -absQ) else (-absP, absQ)
    case (Hyperboloid, Concave) => if absP > absQ then (-absP, absQ) else (absP, -absQ)
    case (HyperbolicCylinder, Convex) => if Abs(absP) > Abs(absQ) then (absP, -absQ) else (-absP, absQ)
    case (HyperbolicCylinder, Concave) => if Abs(absP) > Abs(absQ) then (-absP, absQ) else (absP, -absQ)
  }

  /** The branch each wrapper reaches for positive distances: convex wrappers
      take +sqrt; concave ones take -sqrt, except the concave hyperbolic ones
      when abs_p == abs_q, whose else-branch lands on the convex root. */
  lemma WrapperBranch(shape: Shape, side: Side, absP: real, absQ: real)
    requires absP > 0.0 && absQ > 0.0
    ensures var pq := SignedDistances(shape, side, absP, absQ);
      RootBranch(pq.0, pq.1) ==
        Some(if side == Convex || (IsHyperbolic(shape) && absP == absQ) then PlusRoot else MinusRoot)
  {
  }

  /** The coefficients of A z^2 + B z + C = 0 for the 2D quadric. */
  datatype Quadratic = Quadratic(a: real, b: real, c: real)

  function Discriminant(k: Quadratic): real
  {
    k.b * k.b - 4.0 * k.a * k.c
  }

  function QuadricCoefficients(x: real, y: real, p: real, q: real, s: real, c: real): (k: Quadratic)
    ensures x == 0.0 && y == 0.0 ==> k.c == 0.0
  {
    Quadratic((p + q) * (p + q) - (p - q) * (p - q) * s * s,
              2.0 * x * (p + q) * (p - q) * s * c - 4.0 * p * q * (p + q) * s,
              (p + q) * (p + q) * (x * x * s * s + y * y))
  }

  /** The cylinder's coefficients are the quadric's on the line y = 0. */
  function CylinderCoefficients(x: real, p: real, q: real, s: real, c: real): (k: Quadratic)
    ensures k == QuadricCoefficients(x, 0.0, p, q, s, c)
  {
    Quadratic((p + q) * (p + q) - (p - q) * (p - q) * s * s,
              2.0 * x * (p + q) * (p - q) * s * c - 4.0 * p * q * (p + q) * s,
              (p + q) * (p + q) * (x * x * s * s))
  }

  /** C = (p + q)^2 (x^2 sin^2 + y^2) is never negative: the constant term
      vanishes only on the vertex line and is positive elsewhere. */
  lemma QuadricConstantNonneg(x: real, y: real, p: real, q: real, s: real, c: real)
    ensures QuadricCoefficients(x, y, p, q, s, c).c >= 0.0
  {
    var xs := x * s;
    SquareNonneg(p + q);
    SquareNonneg(xs);
    SquareNonneg(y);
    assert x * x * s * s == xs * xs;
    MulNonneg((p + q) * (p + q), x * x * s * s + y * y);
  }

  /** The square-root term the branch adds: +r or -r. */
  function Signed(br: Branch, r: real): real
  {
    if br == PlusRoot then r else -r
  }

  /** d/dz (A z^2 + B z + C) = 2 A z + B. */
  function QuadraticDerivative(k: Quadratic, z: real): real
  {
    2.0 * k.a * z + k.b
  }

  /** One element of (-B +- sqrt(Delta)) / (2A), masked to NaN where Delta < 0.
      Where A == 0 numpy divides by zero, which the model reports as NaN. */
  function Root(k: Quadratic, br: Branch, sqrtDelta: real): (z: Num)
    ensures z.NaN? <==> Discriminant(k) < 0.0 || k.a == 0.0
  {
    if Discriminant(k) < 0.0 || k.a == 0.0 then NaN
    else Finite((-k.b + (if br == PlusRoot then sqrtDelta else -sqrtDelta)) / (2.0 * k.a))
  }

  /** Whichever branch is picked, a finite root solves the quadratic. */
  lemma RootSolvesQuadratic(k: Quadratic, br: Branch, r: real)
    requires Discriminant(k) >= 0.0 && k.a != 0.0
    requires r >= 0.0 && r * r == Discriminant(k)
    ensures Root(k, br, r).Finite?
    ensures var z := Root(k, br, r).val; k.a * z * z + k.b * z + k.c == 0.0
  {
    var e := if br == PlusRoot then r else -r;
    var z := Root(k, br, r).val;
    assert z == (-k.b + e) / (2.0 * k.a);
    assert 2.0 * k.a * z + k.b == e;
    assert e * e == k.b * k.b - 4.0 * k.a * k.c;
    assert (2.0 * k.a * z + k.b) * (2.0 * k.a * z + k.b)
        == 4.0 * k.a * (k.a * z * z + k.b * z) + k.b * k.b;
    assert 4.0 * k.a * (k.a * z * z + k.b * z + k.c) == 0.0;
  }

  /** A correct square root of B^2 is |B|. */
  lemma SqrtOfSquare(b: real, r: real)
    requires r >= 0.0 && r * r == b * b
    ensures r == Abs(b)
  {
    assert Abs(b) * Abs(b) == b * b;
    assert (r - Abs(b)) * (r + Abs(b)) == 0.0;
    assert r - Abs(b) == 0.0 || r + Abs(b) == 0.0;
  }

  /** The table in terms of B at the origin: +sqrt exactly when p q (p + q) <= 0. */
  lemma BranchBySign(p: real, q: real)
    requires p != 0.0 && q != 0.0
    ensures RootBranch(p, q) == Some(PlusRoot) <==> p * q * (p + q) <= 0.0
  {
    if p < 0.0 && q < 0.0 {
      assert RootBranch(p, q) == Some(PlusRoot);
      MulPos(-p, -q);
      assert (-p) * (-q) == p * q;
      MulPos(p * q, -(p + q));
      assert (p * q) * (-(p + q)) == -(p * q * (p + q));
    } else if p > 0.0 && q > 0.0 {
      assert RootBranch(p, q) == Some(MinusRoot);
      MulPos(p, q);
      MulPos(p * q, p + q);
    } else {
      assert p * q < 0.0;
      assert RootBranch(p, q) == Some(PlusRoot) <==> p + q >= 0.0 by {
        if p < 0.0 {
          assert Abs(p) == -p && Abs(q) == q;
        } else {
          assert Abs(p) == p && Abs(q) == -q;
        }
      }
      var n := p * q;
      var w := p + q;
      if w >= 0.0 {
        assert (-n) * w >= 0.0;
        assert n * w <= 0.0;
      } else {
        assert (-n) * (-w) > 0.0;
        assert n * w > 0.0;
      }
    }
  }

  /** At the chief-ray intersection (0, 0) the root the table selects is 0,
      for every sign pattern, when 0 < theta < pi/2 (s > 0). */
  lemma HeightZeroAtOrigin(p: real, q: real, s: real, c: real, sqrt: real -> real)
    requires p != 0.0 && q != 0.0 && s > 0.0
    requires QuadricCoefficients(0.0, 0.0, p, q, s, c).a != 0.0
    requires SqrtAt(sqrt, Discriminant(QuadricCoefficients(0.0, 0.0, p, q, s, c)))
    ensures QuadricHeightAt(Finite(0.0), Finite(0.0), p, q, s, c, sqrt, RootBranch(p, q).value) == Finite(0.0)
  {
    var k := QuadricCoefficients(0.0, 0.0, p, q, s, c);
    var r := sqrt(Discriminant(k));
    var t := p * q * (p + q);
    assert k.c == 0.0;
    assert k.b == -4.0 * t * s;
    assert Discriminant(k) == k.b * k.b;
    SqrtOfSquare(k.b, r);
    BranchBySign(p, q);
    if t <= 0.0 {
      assert t * s <= 0.0;
      assert r == k.b;
    } else {
      assert t * s > 0.0;
      assert r == -k.b;
    }
  }

  /** Where numpy leaves a height undefined: Delta < 0, or a division by A == 0. */
  predicate Undefined(k: Quadratic)
  {
    Discriminant(k) < 0.0 || k.a == 0.0
  }

  predicate Solves(k: Quadratic, z: real)
  {
    k.a * z * z + k.b * z + k.c == 0.0
  }

  /** One element of the 2D quadric height: NaN coordinates stay NaN. */
  function QuadricHeightAt(x: Num, y: Num, p: real, q: real, s: real, c: real, sqrt: real -> real, br: Branch): Num
  {
    if x.Finite? && y.Finite? then
      var k := QuadricCoefficients(x.val, y.val, p, q, s, c);
      Root(k, br, sqrt(Discriminant(k)))
    else NaN
  }

  /** Root in terms of Undefined and Solves, for any coefficients. */
  lemma RootFacts(k: Quadratic, br: Branch, sqrt: real -> real)
    ensures Root(k, br, sqrt(Discriminant(k))).NaN? <==> Undefined(k)
    ensures Root(k, br, sqrt(Discriminant(k))).Finite? && SqrtAt(sqrt, Discriminant(k)) ==>
      Solves(k, Root(k, br, sqrt(Discriminant(k))).val)
  {
    if !Undefined(k) && SqrtAt(sqrt, Discriminant(k)) {
      RootSolvesQuadratic(k, br, sqrt(Discriminant(k)));
    }
  }

  lemma QuadricHeightAtFacts(x: Num, y: Num, p: real, q: real, s: real, c: real, sqrt: real -> real, br: Branch)
    ensures var z := QuadricHeightAt(x, y, p, q, s, c, sqrt, br);
      (z.NaN? <==> x.NaN? || y.NaN? || Undefined(QuadricCoefficients(x.val, y.val, p, q, s, c))) &&
      (z.Finite? && SqrtAt(sqrt, Discriminant(QuadricCoefficients(x.val, y.val, p, q, s, c))) ==>
        Solves(QuadricCoefficients(x.val, y.val, p, q, s, c), z.val)) &&
      (z.Finite? ==> QuadraticDerivative(QuadricCoefficients(x.val, y.val, p, q, s, c), z.val)
                     == Signed(br, sqrt(Discriminant(QuadricCoefficients(x.val, y.val, p, q, s, c)))))
  {
    if x.Finite? && y.Finite? {
      var k := QuadricCoefficients(x.val, y.val, p, q, s, c);
      RootFacts(k, br, sqrt);
      if !Undefined(k) {
        RootOffset(k, br, sqrt(Discriminant(k)));
      }
    }
  }

  /** standard_quadrics_height / quad_sln over a grid. Mismatched shapes fail
      to broadcast (ValueError); p == 0 or q == 0 leaves the result unbound.
      Elsewhere each point is NaN exactly where its quadratic has no real root
      (or A == 0); a finite point is the root the branch table selects:
      2 A z + B is +sqrt(Delta) or -sqrt(Delta) as RootBranch(p, q) says, so
      it solves its quadratic. */
  function StandardQuadricsHeight(x: seq<Num>, y: seq<Num>, p: real, q: real, s: real, c: real, sqrt: real -> real): (r: Result<seq<Num>>)
    ensures r == Raised(ValueError) <==> |x| != |y|
    ensures r == Raised(UnboundLocalError) <==> |x| == |y| && (p == 0.0 || q == 0.0)
    ensures r.Ok? ==> |r.value| == |x| && RootBranch(p, q).Some?
    ensures r.Ok? ==> forall i :: 0 <= i < |x| ==>
      (r.value[i].NaN? <==> (x[i].NaN? || y[i].NaN? ||
        Undefined(QuadricCoefficients(x[i].val, y[i].val, p, q, s, c))))
    ensures r.Ok? ==> forall i :: 0 <= i < |x| ==>
      (r.value[i].Finite? && SqrtAt(sqrt, Discriminant(QuadricCoefficients(x[i].val, y[i].val, p, q, s, c))) ==>
        Solves(QuadricCoefficients(x[i].val, y[i].val, p, q, s, c), r.value[i].val))
    ensures r.Ok? ==> forall i :: 0 <= i < |x| && r.value[i].Finite? ==>
      QuadraticDerivative(QuadricCoefficients(x[i].val, y[i].val, p, q, s, c), r.value[i].val)
        == Signed(RootBranch(p, q).value, sqrt(Discriminant(QuadricCoefficients(x[i].val, y[i].val, p, q, s, c))))
    ensures r.Ok? ==> forall i :: 0 <= i < |x| ==>
      r.value[i] == QuadricHeightAt(x[i], y[i], p, q, s, c, sqrt, RootBranch(p, q).value)
  {
    if |x| != |y| then Raised(ValueError)
    else if RootBranch(p, q).None? then Raised(UnboundLocalError)
    else
      var br := RootBranch(p, q).value;
      var z := seq(|x|, i requires 0 <= i < |x| => QuadricHeightAt(x[i], y[i], p, q, s, c, sqrt, br));
      assert forall i :: 0 <= i < |x| ==>
        (z[i].NaN? <==> (x[i].NaN? || y[i].NaN? ||
          Undefined(QuadricCoefficients(x[i].val, y[i].val, p, q, s, c)))) &&
        (z[i].Finite? && SqrtAt(sqrt, Discriminant(QuadricCoefficients(x[i].val, y[i].val, p, q, s, c))) ==>
          Solves(QuadricCoefficients(x[i].val, y[i].val, p, q, s, c), z[i].val)) &&
        (z[i].Finite? ==> QuadraticDerivative(QuadricCoefficients(x[i].val, y[i].val, p, q, s, c), z[i].val)
                          == Signed(br, sqrt(Discriminant(QuadricCoefficients(x[i].val, y[i].val, p, q, s, c)))))
      by {
        forall i | 0 <= i < |x| {
          QuadricHeightAtFacts(x[i], y[i], p, q, s, c, sqrt, br);
        }
      }
      Ok(z)
  }

  /** standard_quadric_cylinder_height / quad_sln: the cylinder height at x is
      the 2D quadric height at (x, 0), error cases included. */
  function StandardQuadricCylinderHeight(x: seq<Num>, p: real, q: real, s: real, c: real, sqrt: real -> real): (r: Result<seq<Num>>)
    ensures r == StandardQuadricsHeight(x, Zeros(|x|), p, q, s, c, sqrt)
  {
    if RootBranch(p, q).None? then Raised(UnboundLocalError)
    else
      var br := RootBranch(p, q).value;
      var z := seq(|x|, i requires 0 <= i < |x| =>
        if x[i].Finite? then
          var k := CylinderCoefficients(x[i].val, p, q, s, c);
          Root(k, br, sqrt(Discriminant(k)))
        else NaN);
      assert Ok(z) == StandardQuadricsHeight(x, Zeros(|x|), p, q, s, c, sqrt) by {
        var y := Zeros(|x|);
        var w := StandardQuadricsHeight(x, y, p, q, s, c, sqrt).value;
        forall i | 0 <= i < |x|
          ensures z[i] == QuadricHeightAt(x[i], y[i], p, q, s, c, sqrt, br)
        {
          assert y[i] == Finite(0.0);
          if x[i].Finite? {
            assert CylinderCoefficients(x[i].val, p, q, s, c) == QuadricCoefficients(x[i].val, y[i].val, p, q, s, c);
          }
        }
        assert z == seq(|x|, i requires 0 <= i < |x| => QuadricHeightAt(x[i], y[i], p, q, s, c, sqrt, br));
      }
      Ok(z)
  }

  /** The radicand under the x-slope's square root. */
  function SlopeRadicand(x: real, p: real, q: real, c: real): real
  {
    -p * q * x * x - p * q * (p - q) * x * c + p * p * q * q
  }

  /** With s^2 + c^2 = 1 the cylinder's discriminant is 16 (p+q)^2 s^2 times the
      slope radicand, so height and slope are undefined at the same points. */
  lemma CylinderDiscriminantIdentity(x: real, p: real, q: real, s: real, c: real)
    requires s * s + c * c == 1.0
    ensures Discriminant(CylinderCoefficients(x, p, q, s, c))
         == 16.0 * (p + q) * (p + q) * s * s * SlopeRadicand(x, p, q, c)
  {
    DiscriminantAsInner(x, p, q, s, c);
    InnerIsRadicand(x, p, q, s, c);
    Regroup(Discriminant(CylinderCoefficients(x, p, q, s, c)), p, q, s,
            CylinderInner(x, p, q, s, c), SlopeRadicand(x, p, q, c));
  }

  /** M^2 - A x^2 with M = x (p - q) c - 2 p q: B = 2 (p + q) s M and
      C = (p + q)^2 s^2 x^2, so Delta = 4 (p + q)^2 s^2 (M^2 - A x^2). */
  function CylinderInner(x: real, p: real, q: real, s: real, c: real): real
  {
    (x * (p - q) * c - 2.0 * p * q) * (x * (p - q) * c - 2.0 * p * q)
      - ((p + q) * (p + q) - (p - q) * (p - q) * s * s) * x * x
  }

  lemma DiscriminantAsInner(x: real, p: real, q: real, s: real, c: real)
    ensures Discriminant(CylinderCoefficients(x, p, q, s, c))
         == 4.0 * (p + q) * (p + q) * s * s * CylinderInner(x, p, q, s, c)
  {
    var k := CylinderCoefficients(x, p, q, s, c);
    var u := p + q;
    var m := x * (p - q) * c - 2.0 * p * q;
    assert k.b == 2.0 * u * s * m;
    assert k.c == u * u * s * s * x * x;
    assert Discriminant(k) == (2.0 * u * s * m) * (2.0 * u * s * m) - 4.0 * k.a * (u * u * s * s * x * x);
    assert CylinderInner(x, p, q, s, c) == m * m - k.a * x * x;
  }

  lemma Regroup(d: real, p: real, q: real, s: real, inner: real, rad: real)
    requires d == 4.0 * (p + q) * (p + q) * s * s * inner && inner == 4.0 * rad
    ensures d == 16.0 * (p + q) * (p + q) * s * s * rad
  {
  }

  lemma InnerIsRadicand(x: real, p: real, q: real, s: real, c: real)
    requires s * s + c * c == 1.0
    ensures CylinderInner(x, p, q, s, c) == 4.0 * SlopeRadicand(x, p, q, c)
  {
    var u := p + q;
    var v := p - q;
    var m := x * v * c - 2.0 * p * q;
    assert m * m == x * x * v * v * c * c - 4.0 * p * q * v * x * c + 4.0 * p * p * q * q;
    assert m * m - (u * u - v * v * s * s) * x * x
        == x * x * (v * v * (c * c + s * s) - u * u) - 4.0 * p * q * v * x * c + 4.0 * p * p * q * q;
    assert v * v * (c * c + s * s) == v * v;
    assert v * v - u * u == -4.0 * p * q;
  }

  lemma UndefinedHeightIffUndefinedSlope(x: real, p: real, q: real, s: real, c: real)
    requires s * s + c * c == 1.0 && (p + q) * s != 0.0
    ensures Discriminant(CylinderCoefficients(x, p, q, s, c)) < 0.0 <==> SlopeRadicand(x, p, q, c) < 0.0
  {
    CylinderDiscriminantIdentity(x, p, q, s, c);
    var g := (p + q) * s;
    SignTransfer(Discriminant(CylinderCoefficients(x, p, q, s, c)), p + q, s, SlopeRadicand(x, p, q, c));
  }

  /** d = 16 u^2 s^2 r with u s != 0: d and r have the same sign. */
  lemma SignTransfer(d: real, u: real, s: real, r: real)
    requires u * s != 0.0 && d == 16.0 * u * u * s * s * r
    ensures d < 0.0 <==> r < 0.0
  {
    var h := Abs(u * s);
    assert d == (h * h) * (16.0 * r);
    ProductSign(h, h, 16.0 * r, d);
  }

  /** One element of standard_quadric_cylinder_xslope: the + term for the
      elliptic family (p q > 0), the - term for the hyperbolic one (p q < 0).
      numpy's NaN for a negative radicand and its non-finite results for a
      zero divisor are both NaN here. */
  function XSlopeAt(x: Num, p: real, q: real, s: real, c: real, sqrt: real -> real): (r: Num)
    ensures r.NaN? <==> (x.NaN? || SlopeRadicand(x.val, p, q, c) < 0.0 ||
      (p + q) * (p + q) - (p - q) * (p - q) * s * s == 0.0 ||
      sqrt(SlopeRadicand(x.val, p, q, c)) == 0.0)
    ensures s == 0.0 && r.Finite? ==> r.val == 0.0
  {
    if x.NaN? then NaN
    else
      var rad := SlopeRadicand(x.val, p, q, c);
      var a := (p + q) * (p + q) - (p - q) * (p - q) * s * s;
      if rad < 0.0 || a == 0.0 || sqrt(rad) == 0.0 then NaN
      else
        var t := (2.0 * p * q * x.val + p * q * (p - q) * c) / sqrt(rad);
        Finite((p + q) * s / a * (-(p - q) * c + (if p * q > 0.0 then t else -t)))
  }

  /** standard_quadric_cylinder_xslope over a profile: p q == 0 leaves sx unbound. */
  function StandardQuadricCylinderXslope(x: seq<Num>, p: real, q: real, s: real, c: real, sqrt: real -> real): (r: Result<seq<Num>>)
    ensures r.Raised? <==> p == 0.0 || q == 0.0
    ensures r.Raised? ==> r.error == UnboundLocalError
    ensures r.Ok? ==> |r.value| == |x| && forall i :: 0 <= i < |x| ==>
      (r.value[i].NaN? <==> (x[i].NaN? || SlopeRadicand(x[i].val, p, q, c) < 0.0 ||
        (p + q) * (p + q) - (p - q) * (p - q) * s * s == 0.0 ||
        sqrt(SlopeRadicand(x[i].val, p, q, c)) == 0.0))
    ensures r.Ok? ==> forall i :: 0 <= i < |x| ==> r.value[i] == XSlopeAt(x[i], p, q, s, c, sqrt)
  {
    if p * q == 0.0 then Raised(UnboundLocalError)
    else Ok(seq(|x|, i requires 0 <= i < |x| => XSlopeAt(x[i], p, q, s, c, sqrt)))
  }

  /** +1 for the elliptic family (p q > 0), -1 for the hyperbolic one. */
  function FamilySign(p: real, q: real): real
  {
    if p * q > 0.0 then 1.0 else -1.0
  }

  /** The signed square-root term 2 A z + B of the root the table picks,
      in terms of the slope radicand's root w. */
  function SlopeOffset(p: real, q: real, s: real, w: real): real
  {
    -FamilySign(p, q) * 4.0 * (p + q) * s * w
  }

  /** The x-slope's closed form, with w the root of the slope radicand. */
  function SlopeClosedForm(x: real, p: real, q: real, s: real, c: real, w: real): real
    requires (p + q) * (p + q) - (p - q) * (p - q) * s * s != 0.0 && w != 0.0
  {
    (p + q) * s / ((p + q) * (p + q) - (p - q) * (p - q) * s * s)
      * (-(p - q) * c + FamilySign(p, q) * ((2.0 * p * q * x + p * q * (p - q) * c) / w))
  }

  /** sx is dz/dx for a root z of A z^2 + B(x) z + C(x) = 0, with
      B'(x) = 2 (p + q) (p - q) s c and C'(x) = 2 (p + q)^2 s^2 x. */
  predicate ImplicitDerivative(a: real, b: real, z: real, sx: real, x: real, p: real, q: real, s: real, c: real)
  {
    (2.0 * a * z + b) * sx + 2.0 * (p + q) * (p - q) * s * c * z + 2.0 * (p + q) * (p + q) * s * s * x == 0.0
  }

  /** The x-slope is the derivative of the height the decision table picks:
      at a point where both are finite, implicit differentiation of
      A z^2 + B(x) z + C(x) = 0 gives (2 A z + B) z' + B'(x) z + C'(x) = 0. */
  lemma SlopeIsImplicitDerivative(x: real, p: real, q: real, s: real, c: real, sqrt: real -> real)
    requires p * q != 0.0 && s > 0.0 && s * s + c * c == 1.0
    requires CylinderCoefficients(x, p, q, s, c).a != 0.0 && SlopeRadicand(x, p, q, c) > 0.0
    requires SqrtAt(sqrt, SlopeRadicand(x, p, q, c))
    requires SqrtAt(sqrt, Discriminant(CylinderCoefficients(x, p, q, s, c)))
    ensures var k := CylinderCoefficients(x, p, q, s, c);
      var z := Root(k, RootBranch(p, q).value, sqrt(Discriminant(k)));
      var sx := XSlopeAt(Finite(x), p, q, s, c, sqrt);
      z.Finite? && sx.Finite? && ImplicitDerivative(k.a, k.b, z.val, sx.val, x, p, q, s, c)
  {
    var k := CylinderCoefficients(x, p, q, s, c);
    var d := sqrt(Discriminant(k));
    var w := sqrt(SlopeRadicand(x, p, q, c));
    var e := Signed(RootBranch(p, q).value, d);
    var z := Root(k, RootBranch(p, q).value, d);
    var sx := XSlopeAt(Finite(x), p, q, s, c, sqrt);
    SlopeFacts(x, p, q, s, c, sqrt);
    CylinderSlopeCore(x, p, q, s, c, e, z.val, sx.val, w);
  }

  /** The values SlopeIsImplicitDerivative relates, in closed form. */
  lemma SlopeFacts(x: real, p: real, q: real, s: real, c: real, sqrt: real -> real)
    requires p * q != 0.0 && s > 0.0 && s * s + c * c == 1.0
    requires CylinderCoefficients(x, p, q, s, c).a != 0.0 && SlopeRadicand(x, p, q, c) > 0.0
    requires SqrtAt(sqrt, SlopeRadicand(x, p, q, c))
    requires SqrtAt(sqrt, Discriminant(CylinderCoefficients(x, p, q, s, c)))
    ensures sqrt(SlopeRadicand(x, p, q, c)) > 0.0
    ensures Root(CylinderCoefficients(x, p, q, s, c), RootBranch(p, q).value,
                 sqrt(Discriminant(CylinderCoefficients(x, p, q, s, c)))).Finite?
    ensures XSlopeAt(Finite(x), p, q, s, c, sqrt).Finite?
    ensures QuadraticDerivative(CylinderCoefficients(x, p, q, s, c),
                              Root(CylinderCoefficients(x, p, q, s, c), RootBranch(p, q).value,
                     sqrt(Discriminant(CylinderCoefficients(x, p, q, s, c)))).val)
         == Signed(RootBranch(p, q).value, sqrt(Discriminant(CylinderCoefficients(x, p, q, s, c))))
    ensures Signed(RootBranch(p, q).value, sqrt(Discriminant(CylinderCoefficients(x, p, q, s, c))))
         == SlopeOffset(p, q, s, sqrt(SlopeRadicand(x, p, q, c)))
    ensures XSlopeAt(Finite(x), p, q, s, c, sqrt).val
         == SlopeClosedForm(x, p, q, s, c, sqrt(SlopeRadicand(x, p, q, c)))
  {
    var k := CylinderCoefficients(x, p, q, s, c);
    SqrtOffset(x, p, q, s, c, sqrt);
    RootOffset(k, RootBranch(p, q).value, sqrt(Discriminant(k)));
    XSlopeValue(x, p, q, s, c, sqrt);
  }

  /** SlopeIsImplicitDerivative once the root and the slope are known values. */
  lemma CylinderSlopeCore(x: real, p: real, q: real, s: real, c: real, e: real, z: real, sx: real, w: real)
    requires s * s + c * c == 1.0 && w > 0.0
    requires CylinderCoefficients(x, p, q, s, c).a != 0.0
    requires QuadraticDerivative(CylinderCoefficients(x, p, q, s, c), z) == e
    requires e == SlopeOffset(p, q, s, w)
    requires sx == SlopeClosedForm(x, p, q, s, c, w)
    ensures ImplicitDerivative(CylinderCoefficients(x, p, q, s, c).a, CylinderCoefficients(x, p, q, s, c).b, z, sx, x, p, q, s, c)
  {
    var k := CylinderCoefficients(x, p, q, s, c);
    DivMul((p + q) * s, k.a);
    DivMul(2.0 * p * q * x + p * q * (p - q) * c, w);
    assert k.b == 2.0 * (p + q) * s * (x * (p - q) * c - 2.0 * p * q);
    ImplicitCore(k.a, k.b, e, z, sx, (p + q) * s / k.a, (2.0 * p * q * x + p * q * (p - q) * c) / w,
                 p, q, s, c, x, w, FamilySign(p, q));
  }

  /** ChosenOffset with the given square root. */
  lemma SqrtOffset(x: real, p: real, q: real, s: real, c: real, sqrt: real -> real)
    requires p * q != 0.0 && s > 0.0 && s * s + c * c == 1.0 && SlopeRadicand(x, p, q, c) > 0.0
    requires SqrtAt(sqrt, SlopeRadicand(x, p, q, c))
    requires SqrtAt(sqrt, Discriminant(CylinderCoefficients(x, p, q, s, c)))
    ensures sqrt(SlopeRadicand(x, p, q, c)) > 0.0
    ensures Discriminant(CylinderCoefficients(x, p, q, s, c)) >= 0.0
    ensures Signed(RootBranch(p, q).value, sqrt(Discriminant(CylinderCoefficients(x, p, q, s, c))))
         == SlopeOffset(p, q, s, sqrt(SlopeRadicand(x, p, q, c)))
  {
    SqrtPositive(sqrt, SlopeRadicand(x, p, q, c));
    CylinderDiscriminantIdentity(x, p, q, s, c);
    ScaledSquareNonneg(Discriminant(CylinderCoefficients(x, p, q, s, c)), p + q, s, SlopeRadicand(x, p, q, c));
    ChosenOffset(x, p, q, s, c, sqrt(Discriminant(CylinderCoefficients(x, p, q, s, c))),
                 sqrt(SlopeRadicand(x, p, q, c)));
  }

  lemma ScaledSquareNonneg(d: real, u: real, s: real, r: real)
    requires r > 0.0 && d == 16.0 * u * u * s * s * r
    ensures d >= 0.0
  {
    if u * s != 0.0 {
      SignTransfer(d, u, s, r);
    } else {
      assert d == 16.0 * (u * s) * (u * s) * r;
    }
  }

  lemma SqrtPositive(sqrt: real -> real, d: real)
    requires d > 0.0 && SqrtAt(sqrt, d)
    ensures sqrt(d) > 0.0
  {
  }

  /** SlopeIsImplicitDerivative over plain reals. */
  lemma ImplicitCore(a: real, b: real, e: real, z: real, sx: real, qa: real, tw: real,
                     p: real, q: real, s: real, c: real, x: real, w: real, sigma: real)
    requires a != 0.0 && 2.0 * a * z + b == e
    requires qa * a == (p + q) * s && tw * w == 2.0 * p * q * x + p * q * (p - q) * c
    requires sx == qa * (-(p - q) * c + sigma * tw)
    requires e == -sigma * 4.0 * (p + q) * s * w && (sigma == 1.0 || sigma == -1.0)
    requires b == 2.0 * (p + q) * s * (x * (p - q) * c - 2.0 * p * q)
    requires a == (p + q) * (p + q) - (p - q) * (p - q) * s * s
    requires s * s + c * c == 1.0
    ensures ImplicitDerivative(a, b, z, sx, x, p, q, s, c)
  {
    SlopeAlgebra(a, b, e, z, sx, qa, tw, p, q, s, c, x, w, sigma);
    SubstituteOffset(e, 2.0 * a * z + b, sx,
      2.0 * (p + q) * (p - q) * s * c * z + 2.0 * (p + q) * (p + q) * s * s * x);
  }

  lemma SubstituteOffset(e: real, f: real, sx: real, rest: real)
    requires e == f && e * sx + rest == 0.0
    ensures f * sx + rest == 0.0
  {
  }

  /** The root's square-root term, from r^2 = Delta = 16 (p + q)^2 s^2 w^2. */
  lemma ChosenOffset(x: real, p: real, q: real, s: real, c: real, r: real, w: real)
    requires p * q != 0.0 && s > 0.0 && s * s + c * c == 1.0
    requires w > 0.0 && w * w == SlopeRadicand(x, p, q, c)
    requires r >= 0.0 && r * r == Discriminant(CylinderCoefficients(x, p, q, s, c))
    ensures Discriminant(CylinderCoefficients(x, p, q, s, c)) >= 0.0
    ensures Signed(RootBranch(p, q).value, r)
         == SlopeOffset(p, q, s, w)
  {
    SquareNonneg(r);
    CylinderDiscriminantIdentity(x, p, q, s, c);
    OffsetBySign(p, q, s, w, r, SlopeRadicand(x, p, q, c));
  }

  /** XSlopeAt at a point where the radicand's root w is positive and A != 0. */
  lemma XSlopeValue(x: real, p: real, q: real, s: real, c: real, sqrt: real -> real)
    requires SlopeRadicand(x, p, q, c) >= 0.0 && sqrt(SlopeRadicand(x, p, q, c)) > 0.0
    requires (p + q) * (p + q) - (p - q) * (p - q) * s * s != 0.0
    ensures XSlopeAt(Finite(x), p, q, s, c, sqrt).Finite?
    ensures XSlopeAt(Finite(x), p, q, s, c, sqrt).val
         == SlopeClosedForm(x, p, q, s, c, sqrt(SlopeRadicand(x, p, q, c)))
  {
    var a := (p + q) * (p + q) - (p - q) * (p - q) * s * s;
    var tw := (2.0 * p * q * x + p * q * (p - q) * c) / sqrt(SlopeRadicand(x, p, q, c));
    SignedCombination((p + q) * s / a, -(p - q) * c, tw, p * q > 0.0, FamilySign(p, q));
  }

  /** Selecting t or -t by a test is multiplying t by the test's sign. */
  lemma SignedCombination(k: real, m: real, t: real, b: bool, sigma: real)
    requires sigma == (if b then 1.0 else -1.0)
    ensures k * (m + (if b then t else -t)) == k * (m + sigma * t)
  {
  }

  /** The signed square-root term of the chosen root is -sigma 4 (p + q) s w,
      sigma = +1 for the elliptic family and -1 for the hyperbolic one. */
  lemma OffsetBySign(p: real, q: real, s: real, w: real, r: real, rad: real)
    requires p * q != 0.0 && s > 0.0 && w > 0.0 && r >= 0.0
    requires r * r == 16.0 * (p + q) * (p + q) * s * s * rad && rad == w * w
    ensures Signed(RootBranch(p, q).value, r)
         == SlopeOffset(p, q, s, w)
  {
    var m := 4.0 * (p + q) * s * w;
    SquareOf16(p, q, s, w, rad);
    SqrtOfSquare(m, r);
    BranchBySign(p, q);
    SignMatch(p, q, s, w);
    SignedAbs(RootBranch(p, q).value, FamilySign(p, q), m, r);
    OffsetRegroup(FamilySign(p, q), p, q, s, w);
  }

  lemma OffsetRegroup(sigma: real, p: real, q: real, s: real, w: real)
    ensures -sigma * 4.0 * (p + q) * s * w == -sigma * (4.0 * (p + q) * s * w)
  {
  }

  lemma SquareOf16(p: real, q: real, s: real, w: real, rad: real)
    requires rad == w * w
    ensures 16.0 * (p + q) * (p + q) * s * s * rad == (4.0 * (p + q) * s * w) * (4.0 * (p + q) * s * w)
  {
  }

  /** The branch test p q (p + q) <= 0 has the sign of sigma m, m = 4 (p + q) s w. */
  lemma SignMatch(p: real, q: real, s: real, w: real)
    requires p * q != 0.0 && s > 0.0 && w > 0.0
    ensures (p * q * (p + q) <= 0.0) <==> (FamilySign(p, q) * (4.0 * (p + q) * s * w) <= 0.0)
  {
    var t := 4.0 * s * w;
    MulPos(s, w);
    assert t == 4.0 * (s * w);
    assert 4.0 * (p + q) * s * w == t * (p + q);
    PosFactor(t, p + q);
    if p * q > 0.0 {
      PosFactor(p * q, p + q);
    } else {
      PosFactor(-(p * q), p + q);
      assert (-(p * q)) * (p + q) == -(p * q * (p + q));
      assert -1.0 * (t * (p + q)) == -(t * (p + q));
    }
  }

  /** A positive factor keeps the sign. */
  lemma PosFactor(k: real, y: real)
    requires k > 0.0
    ensures k * y <= 0.0 <==> y <= 0.0
    ensures k * y >= 0.0 <==> y >= 0.0
  {
    if y > 0.0 {
      MulPos(k, y);
    } else if y < 0.0 {
      MulPos(k, -y);
      assert k * (-y) == -(k * y);
    }
  }

  /** Signed(br, |m|) == -sigma m when the branch follows the sign of sigma m. */
  lemma SignedAbs(br: Branch, sigma: real, m: real, r: real)
    requires r == Abs(m) && (sigma == 1.0 || sigma == -1.0)
    requires br == PlusRoot <==> sigma * m <= 0.0
    ensures Signed(br, r) == -sigma * m
  {
  }

  /** 2 A z + B is the signed square-root term of the root. */
  lemma RootOffset(k: Quadratic, br: Branch, r: real)
    requires Discriminant(k) >= 0.0 && k.a != 0.0
    ensures Root(k, br, r).Finite?
    ensures QuadraticDerivative(k, Root(k, br, r).val) == Signed(br, r)
  {
    var e := if br == PlusRoot then r else -r;
    DivMul(-k.b + e, 2.0 * k.a);
  }

  /** SlopeIsImplicitDerivative for the two profile functions: at a finite
      point of the profile, the x-slope array holds the derivative of the
      height array's value there. */
  lemma ProfileSlopeIsImplicitDerivative(x: seq<Num>, p: real, q: real, s: real, c: real,
                                         sqrt: real -> real, i: int)
    requires p * q != 0.0 && s > 0.0 && s * s + c * c == 1.0
    requires 0 <= i < |x| && x[i].Finite?
    requires CylinderCoefficients(x[i].val, p, q, s, c).a != 0.0 && SlopeRadicand(x[i].val, p, q, c) > 0.0
    requires SqrtAt(sqrt, SlopeRadicand(x[i].val, p, q, c))
    requires SqrtAt(sqrt, Discriminant(CylinderCoefficients(x[i].val, p, q, s, c)))
    ensures StandardQuadricCylinderHeight(x, p, q, s, c, sqrt).Ok?
    ensures StandardQuadricCylinderXslope(x, p, q, s, c, sqrt).Ok?
    ensures var k := CylinderCoefficients(x[i].val, p, q, s, c);
      var z := StandardQuadricCylinderHeight(x, p, q, s, c, sqrt).value[i];
      var sx := StandardQuadricCylinderXslope(x, p, q, s, c, sqrt).value[i];
      z.Finite? && sx.Finite? && ImplicitDerivative(k.a, k.b, z.val, sx.val, x[i].val, p, q, s, c)
  {
    assert p != 0.0 && q != 0.0;
    var y := Zeros(|x|);
    assert y[i] == Finite(0.0);
    assert CylinderCoefficients(x[i].val, p, q, s, c) == QuadricCoefficients(x[i].val, y[i].val, p, q, s, c);
    SlopeIsImplicitDerivative(x[i].val, p, q, s, c, sqrt);
  }

  /** The algebra of SlopeIsImplicitDerivative over plain reals: with
      2 A z + B = e = -sigma 4 (p + q) s w and sx = qa (-(p - q) c + sigma tw),
      e sx + B'(x) z + C'(x) = 0. */
  lemma SlopeAlgebra(a: real, b: real, e: real, z: real, sx: real, qa: real, tw: real,
                     p: real, q: real, s: real, c: real, x: real, w: real, sigma: real)
    requires a != 0.0 && 2.0 * a * z + b == e
    requires qa * a == (p + q) * s && tw * w == 2.0 * p * q * x + p * q * (p - q) * c
    requires sx == qa * (-(p - q) * c + sigma * tw)
    requires e == -sigma * 4.0 * (p + q) * s * w && (sigma == 1.0 || sigma == -1.0)
    requires b == 2.0 * (p + q) * s * (x * (p - q) * c - 2.0 * p * q)
    requires a == (p + q) * (p + q) - (p - q) * (p - q) * s * s
    requires s * s + c * c == 1.0
    ensures e * sx + 2.0 * (p + q) * (p - q) * s * c * z + 2.0 * (p + q) * (p + q) * s * s * x == 0.0
  {
    Distribute(a, b, e, z, (p + q) * (p - q) * s * c, 2.0 * (p + q) * (p + q) * s * s * x);
    ConstantTerms(a, b, p, q, s, c, x);
    OffsetTerm(e, p, q, s, c, w, sigma);
    SlopeTermFinish(a, b, e, z, sx, qa, tw, p, q, s, c, x, w, sigma);
  }

  lemma SlopeTermFinish(a: real, b: real, e: real, z: real, sx: real, qa: real, tw: real,
                        p: real, q: real, s: real, c: real, x: real, w: real, sigma: real)
    requires a != 0.0
    requires qa * a == (p + q) * s && tw * w == 2.0 * p * q * x + p * q * (p - q) * c
    requires sx == qa * (-(p - q) * c + sigma * tw)
    requires e == -sigma * 4.0 * (p + q) * s * w && (sigma == 1.0 || sigma == -1.0)
    requires a * (2.0 * ((p + q) * (p - q) * s * c) * z + 2.0 * (p + q) * (p + q) * s * s * x)
          == ((p + q) * (p - q) * s * c) * e - ((p + q) * (p - q) * s * c) * b
             + a * (2.0 * (p + q) * (p + q) * s * s * x)
    requires -(((p + q) * (p - q) * s * c) * b) + a * (2.0 * (p + q) * (p + q) * s * s * x)
          == (4.0 * (p + q) * (p + q) * s * s) * (2.0 * p * q * x + p * q * (p - q) * c)
    requires ((p + q) * (p - q) * s * c) * e == -((4.0 * (p + q) * (p + q) * s * s) * (sigma * (p - q) * c * w))
    ensures e * sx + 2.0 * (p + q) * (p - q) * s * c * z + 2.0 * (p + q) * (p + q) * s * s * x == 0.0
  {
    SlopeTerm(a, e, sx, qa, tw, p, q, s, c, 2.0 * p * q * x + p * q * (p - q) * c, w, sigma);
    Finish(a, b, e, z, sx, p, q, s, c, x, w, sigma);
  }

  lemma Finish(a: real, b: real, e: real, z: real, sx: real, p: real, q: real, s: real, c: real, x: real, w: real, sigma: real)
    requires a != 0.0
    requires a * (e * sx) == (4.0 * (p + q) * (p + q) * s * s) * (sigma * (p - q) * c * w)
                          - (4.0 * (p + q) * (p + q) * s * s) * (2.0 * p * q * x + p * q * (p - q) * c)
    requires a * (2.0 * ((p + q) * (p - q) * s * c) * z + 2.0 * (p + q) * (p + q) * s * s * x)
          == ((p + q) * (p - q) * s * c) * e - ((p + q) * (p - q) * s * c) * b
             + a * (2.0 * (p + q) * (p + q) * s * s * x)
    requires -(((p + q) * (p - q) * s * c) * b) + a * (2.0 * (p + q) * (p + q) * s * s * x)
          == (4.0 * (p + q) * (p + q) * s * s) * (2.0 * p * q * x + p * q * (p - q) * c)
    requires ((p + q) * (p - q) * s * c) * e == -((4.0 * (p + q) * (p + q) * s * s) * (sigma * (p - q) * c * w))
    ensures e * sx + 2.0 * (p + q) * (p - q) * s * c * z + 2.0 * (p + q) * (p + q) * s * s * x == 0.0
  {
    var rest := 2.0 * ((p + q) * (p - q) * s * c) * z + 2.0 * (p + q) * (p + q) * s * s * x;
    assert a * (e * sx + rest) == a * (e * sx) + a * rest;
    ZeroFactor(a, e * sx + rest);
  }

  lemma Distribute(a: real, b: real, e: real, z: real, k: real, hx: real)
    requires 2.0 * a * z + b == e
    ensures a * (2.0 * k * z + hx) == k * e - k * b + a * hx
  {
    Scale(2.0 * a * z, e - b, k);
  }

  lemma CrossTerms(p: real, q: real, s: real, c: real, x: real)
    ensures -(((p + q) * (p - q) * s * c) * (2.0 * (p + q) * s * (x * (p - q) * c - 2.0 * p * q)))
            + ((p + q) * (p + q) - (p - q) * (p - q) * s * s) * (2.0 * (p + q) * (p + q) * s * s * x)
         == 2.0 * (p + q) * (p + q) * s * s *
              (x * ((p + q) * (p + q) - (p - q) * (p - q) * (s * s + c * c)) + 2.0 * p * q * (p - q) * c)
  {
  }

  lemma ConstantTerms(a: real, b: real, p: real, q: real, s: real, c: real, x: real)
    requires b == 2.0 * (p + q) * s * (x * (p - q) * c - 2.0 * p * q)
    requires a == (p + q) * (p + q) - (p - q) * (p - q) * s * s
    requires s * s + c * c == 1.0
    ensures -(((p + q) * (p - q) * s * c) * b) + a * (2.0 * (p + q) * (p + q) * s * s * x)
         == (4.0 * (p + q) * (p + q) * s * s) * (2.0 * p * q * x + p * q * (p - q) * c)
  {
    CrossTermsUnit(p, q, s, c, x);
  }

  lemma CrossTermsUnit(p: real, q: real, s: real, c: real, x: real)
    requires s * s + c * c == 1.0
    ensures -(((p + q) * (p - q) * s * c) * (2.0 * (p + q) * s * (x * (p - q) * c - 2.0 * p * q)))
            + ((p + q) * (p + q) - (p - q) * (p - q) * s * s) * (2.0 * (p + q) * (p + q) * s * s * x)
         == 4.0 * (p + q) * (p + q) * s * s * (2.0 * p * q * x + p * q * (p - q) * c)
  {
    CrossTerms(p, q, s, c, x);
    var h := 2.0 * (p + q) * (p + q) * s * s;
    Scale(s * s + c * c, 1.0, h * x * (p - q) * (p - q));
    assert h * (x * ((p + q) * (p + q) - (p - q) * (p - q) * (s * s + c * c)) + 2.0 * p * q * (p - q) * c)
        == h * (x * ((p + q) * (p + q) - (p - q) * (p - q)) + 2.0 * p * q * (p - q) * c);
  }

  lemma OffsetTerm(e: real, p: real, q: real, s: real, c: real, w: real, sigma: real)
    requires e == -sigma * 4.0 * (p + q) * s * w
    ensures ((p + q) * (p - q) * s * c) * e == -((4.0 * (p + q) * (p + q) * s * s) * (sigma * (p - q) * c * w))
  {
  }

  lemma SlopeTerm(a: real, e: real, sx: real, qa: real, tw: real, p: real, q: real, s: real, c: real, t: real, w: real, sigma: real)
    requires qa * a == (p + q) * s && tw * w == t
    requires sx == qa * (-(p - q) * c + sigma * tw)
    requires e == -sigma * 4.0 * (p + q) * s * w && (sigma == 1.0 || sigma == -1.0)
    ensures a * (e * sx) == (4.0 * (p + q) * (p + q) * s * s) * (sigma * (p - q) * c * w)
                          - (4.0 * (p + q) * (p + q) * s * s) * t
  {
    var u := p + q;
    var v := p - q;
    Scale(qa * a, u * s, e * (-v * c + sigma * tw));
    assert a * (e * sx) == e * u * s * (-v * c + sigma * tw);
    var g := 4.0 * u * u * s * s;
    Scale(tw * w, t, g);
    if sigma == 1.0 {
      assert e * u * s * (-v * c + sigma * tw) == g * v * c * w - g * (tw * w);
    } else {
      assert e * u * s * (-v * c + sigma * tw) == -g * v * c * w - g * (tw * w);
    }
  }

  /** standard_sag_col_diaboloid_height: always the -sqrt root, NaN where
      Delta < 0; s2 is the given sin(2 theta). */
  function DiaboloidCoefficients(x: real, y: real, absP: real, absQ: real, s: real, c: real, s2: real): (k: Quadratic)
    ensures x == 0.0 && y == 0.0 ==> k.c == 0.0
    ensures absP > 0.0 && absQ > 0.0 ==> k.a > 0.0
  {
    Quadratic((absP - absQ) * (absP - absQ) * c * c + 4.0 * absP * absQ,
              (absP - absQ) * s * y * y + (absP * absP - absQ * absQ) * s2 * x
                - 4.0 * (absP + absQ) * absP * absQ * s,
              (absP + absQ) * (absP + absQ) * s * s * x * x
                - (absP + absQ) * (c * x - absQ) * y * y - 0.25 * y * y * y * y)
  }

  /** One element of the diaboloid height: NaN coordinates stay NaN. */
  function DiaboloidHeightAt(x: Num, y: Num, absP: real, absQ: real, s: real, c: real, s2: real, sqrt: real -> real): Num
  {
    if x.Finite? && y.Finite? then
      var k := DiaboloidCoefficients(x.val, y.val, absP, absQ, s, c, s2);
      Root(k, MinusRoot, sqrt(Discriminant(k)))
    else NaN
  }

  lemma DiaboloidHeightAtFacts(x: Num, y: Num, absP: real, absQ: real, s: real, c: real, s2: real, sqrt: real -> real)
    ensures var z := DiaboloidHeightAt(x, y, absP, absQ, s, c, s2, sqrt);
      (z.NaN? <==> x.NaN? || y.NaN? || Undefined(DiaboloidCoefficients(x.val, y.val, absP, absQ, s, c, s2))) &&
      (z.Finite? && SqrtAt(sqrt, Discriminant(DiaboloidCoefficients(x.val, y.val, absP, absQ, s, c, s2))) ==>
        Solves(DiaboloidCoefficients(x.val, y.val, absP, absQ, s, c, s2), z.val)) &&
      (z.Finite? ==> QuadraticDerivative(DiaboloidCoefficients(x.val, y.val, absP, absQ, s, c, s2), z.val)
                     == -sqrt(Discriminant(DiaboloidCoefficients(x.val, y.val, absP, absQ, s, c, s2))))
  {
    if x.Finite? && y.Finite? {
      var k := DiaboloidCoefficients(x.val, y.val, absP, absQ, s, c, s2);
      RootFacts(k, MinusRoot, sqrt);
      if !Undefined(k) {
        RootOffset(k, MinusRoot, sqrt(Discriminant(k)));
      }
    }
  }

  /** standard_sag_col_diaboloid_height over a grid: mismatched shapes fail to
      broadcast; each point is NaN exactly where its quadratic has no real
      root (or A == 0); a finite point is always the -sqrt(Delta) root
      (2 A z + B == -sqrt(Delta)), so it solves its quadratic. */
  function StandardSagColDiaboloidHeight(x: seq<Num>, y: seq<Num>, absP: real, absQ: real, s: real, c: real, s2: real, sqrt: real -> real): (r: Result<seq<Num>>)
    ensures r.Raised? <==> |x| != |y|
    ensures r.Raised? ==> r.error == ValueError
    ensures r.Ok? ==> |r.value| == |x|
    ensures r.Ok? ==> forall i :: 0 <= i < |x| ==>
      (r.value[i].NaN? <==> (x[i].NaN? || y[i].NaN? ||
        Undefined(DiaboloidCoefficients(x[i].val, y[i].val, absP, absQ, s, c, s2))))
    ensures r.Ok? ==> forall i :: 0 <= i < |x| ==>
      (r.value[i].Finite? && SqrtAt(sqrt, Discriminant(DiaboloidCoefficients(x[i].val, y[i].val, absP, absQ, s, c, s2))) ==>
        Solves(DiaboloidCoefficients(x[i].val, y[i].val, absP, absQ, s, c, s2), r.value[i].val))
    ensures r.Ok? ==> forall i :: 0 <= i < |x| && r.value[i].Finite? ==>
      QuadraticDerivative(DiaboloidCoefficients(x[i].val, y[i].val, absP, absQ, s, c, s2), r.value[i].val)
        == -sqrt(Discriminant(DiaboloidCoefficients(x[i].val, y[i].val, absP, absQ, s, c, s2)))
    ensures r.Ok? ==> forall i :: 0 <= i < |x| ==>
      r.value[i] == DiaboloidHeightAt(x[i], y[i], absP, absQ, s, c, s2, sqrt)
  {
    if |x| != |y| then Raised(ValueError)
    else
      var z := seq(|x|, i requires 0 <= i < |x| => DiaboloidHeightAt(x[i], y[i], absP, absQ, s, c, s2, sqrt));
      assert forall i :: 0 <= i < |x| ==>
        (z[i].NaN? <==> (x[i].NaN? || y[i].NaN? ||
          Undefined(DiaboloidCoefficients(x[i].val, y[i].val, absP, absQ, s, c, s2)))) &&
        (z[i].Finite? && SqrtAt(sqrt, Discriminant(DiaboloidCoefficients(x[i].val, y[i].val, absP, absQ, s, c, s2))) ==>
          Solves(DiaboloidCoefficients(x[i].val, y[i].val, absP, absQ, s, c, s2), z[i].val)) &&
        (z[i].Finite? ==> QuadraticDerivative(DiaboloidCoefficients(x[i].val, y[i].val, absP, absQ, s, c, s2), z[i].val)
                          == -sqrt(Discriminant(DiaboloidCoefficients(x[i].val, y[i].val, absP, absQ, s, c, s2))))
      by {
        forall i | 0 <= i < |x| {
          DiaboloidHeightAtFacts(x[i], y[i], absP, absQ, s, c, s2, sqrt);
        }
      }
      Ok(z)
  }

  lemma LeadingPositive(d: real, c: real, m: real)
    requires m > 0.0
    ensures d * d * c * c + 4.0 * m > 0.0
  {
    SquareNonneg(d * c);
    assert d * d * c * c == (d * c) * (d * c);
  }

  /** The diaboloid's fixed -sqrt root passes through the origin. */
  lemma DiaboloidZeroAtOrigin(absP: real, absQ: real, s: real, c: real, s2: real, sqrt: real -> real)
    requires absP > 0.0 && absQ > 0.0 && s > 0.0
    requires SqrtAt(sqrt, Discriminant(DiaboloidCoefficients(0.0, 0.0, absP, absQ, s, c, s2)))
    ensures DiaboloidHeightAt(Finite(0.0), Finite(0.0), absP, absQ, s, c, s2, sqrt) == Finite(0.0)
  {
    var k := DiaboloidCoefficients(0.0, 0.0, absP, absQ, s, c, s2);
    MulPos(absP, absQ);
    LeadingPositive(absP - absQ, c, absP * absQ);
    assert k.a > 0.0;
    assert k.c == 0.0;
    MulPos(absP + absQ, absP);
    MulPos((absP + absQ) * absP, absQ);
    MulPos((absP + absQ) * absP * absQ, s);
    assert k.b == -4.0 * ((absP + absQ) * absP * absQ * s);
    assert k.b < 0.0;
    assert 4.0 * k.a * k.c == 0.0;
    assert Discriminant(k) == k.b * k.b;
    SqrtOfSquare(k.b, sqrt(Discriminant(k)));
    assert sqrt(Discriminant(k)) == -k.b;
  }
}
