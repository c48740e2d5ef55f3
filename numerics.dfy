/** Floating-point values, Python exceptions and the numeric library the
    fitting code leans on, reduced to what the model needs to state exactly. */
module Numerics {

  /** One element of a numpy float array: a finite value, or not a finite
      number. The infinities numpy can produce (a division by A == 0 in the
      root formula, say) are folded into NaN. np.isfinite treats the two
      alike; np.nanmean, the loop test rms_dxy > thr and np.isnan do not,
      and at those three places the model differs from numpy. */
  datatype Num = Finite(val: real) | NaN

  datatype Option<T> = None | Some(value: T)

  /** The exception classes the modelled code raises or lets through. */
  datatype PyError =
    | ValueError
    | TypeError
    | KeyError
    | UnboundLocalError
    | AssertionError
    | IndexError
    | LinAlgError
    | SolverError
    /** Not a Python exception: the fixed-point loop had not stopped within
        the fuel bound, standing for a call that does not return. */
    | Diverged

  /** A call that returns a value or raises. */
  datatype Result<T> = Ok(value: T) | Raised(error: PyError)

  /** Extended reals for optimisation bounds (numpy's +-inf and NaN). */
  datatype Ext = NegInf | Fin(r: real) | PosInf | ExtNaN

  /** The transcendental functions of numpy, as given (uninterpreted) functions. */
  datatype Lib = Lib(sin: real -> real, cos: real -> real, tan: real -> real, sqrt: real -> real)

  /** The given square root is a square root at d. */
  predicate SqrtAt(sqrt: real -> real, d: real)
  {
    d >= 0.0 ==> sqrt(d) >= 0.0 && sqrt(d) * sqrt(d) == d
  }

  function Abs(x: real): real
  {
    if x < 0.0 then -x else x
  }

  /** numpy elementwise arithmetic: NaN in, NaN out. */
  function AddNum(a: Num, b: Num): Num
  {
    if a.Finite? && b.Finite? then Finite(a.val + b.val) else NaN
  }

  function SubNum(a: Num, b: Num): Num
  {
    if a.Finite? && b.Finite? then Finite(a.val - b.val) else NaN
  }

  function MulNum(a: Num, b: Num): Num
  {
    if a.Finite? && b.Finite? then Finite(a.val * b.val) else NaN
  }

  function Zeros(n: nat): (z: seq<Num>)
    ensures |z| == n && forall i :: 0 <= i < n ==> z[i] == Finite(0.0)
  {
    seq(n, i => Finite(0.0))
  }

  function Lift(xs: seq<real>): (r: seq<Num>)
    ensures |r| == |xs| && forall i :: 0 <= i < |xs| ==> r[i] == Finite(xs[i])
  {
    seq(|xs|, i requires 0 <= i < |xs| => Finite(xs[i]))
  }

  function CountFinite(s: seq<Num>): nat
  {
    if s == [] then 0 else (if s[0].Finite? then 1 else 0) + CountFinite(s[1..])
  }

  function SumFinite(s: seq<Num>): real
  {
    if s == [] then 0.0 else (if s[0].Finite? then s[0].val else 0.0) + SumFinite(s[1..])
  }

  /** numpy.nanmean: the mean of the finite entries, NaN when there are none. */
  function NanMean(s: seq<Num>): (m: Num)
    ensures m.NaN? <==> CountFinite(s) == 0
  {
    if CountFinite(s) == 0 then NaN else Finite(SumFinite(s) / CountFinite(s) as real)
  }

  lemma {:induction false} CountFiniteZero(s: seq<Num>)
    ensures CountFinite(s) == 0 <==> forall i :: 0 <= i < |s| ==> s[i].NaN?
  {
    if s != [] {
      CountFiniteZero(s[1..]);
      assert forall i :: 1 <= i < |s| ==> s[i] == s[1..][i - 1];
    }
  }

  lemma {:induction false} SumFiniteBounds(s: seq<Num>, lo: real, hi: real)
    requires forall i :: 0 <= i < |s| && s[i].Finite? ==> lo <= s[i].val <= hi
    ensures CountFinite(s) as real * lo <= SumFinite(s) <= CountFinite(s) as real * hi
  {
    if s != [] {
      var t := s[1..];
      forall i | 0 <= i < |t| && t[i].Finite? ensures lo <= t[i].val <= hi {
        assert t[i] == s[i + 1];
      }
      SumFiniteBounds(t, lo, hi);
      AddBounds(CountFinite(t) as real, SumFinite(t), s[0], lo, hi, CountFinite(s) as real, SumFinite(s));
    }
  }

  /** One more entry keeps the running bounds n lo <= sum <= n hi. */
  lemma AddBounds(n: real, sum: real, h: Num, lo: real, hi: real, n2: real, sum2: real)
    requires n * lo <= sum <= n * hi && (h.Finite? ==> lo <= h.val <= hi)
    requires n2 == n + (if h.Finite? then 1.0 else 0.0)
    requires sum2 == sum + (if h.Finite? then h.val else 0.0)
    ensures n2 * lo <= sum2 <= n2 * hi
  {
    if h.Finite? {
      assert (n + 1.0) * lo == n * lo + lo;
      assert (n + 1.0) * hi == n * hi + hi;
    }
  }

  lemma DivBetween(sum: real, n: real, lo: real, hi: real)
    requires n > 0.0 && n * lo <= sum <= n * hi
    ensures lo <= sum / n <= hi
  {
    var m := sum / n;
    assert m * n == sum;
    assert (m - lo) * n == sum - n * lo;
    assert (hi - m) * n == n * hi - sum;
  }

  /** The mean of the finite entries lies within any bounds of those entries. */
  lemma NanMeanWithin(s: seq<Num>, lo: real, hi: real)
    requires forall i :: 0 <= i < |s| && s[i].Finite? ==> lo <= s[i].val <= hi
    ensures NanMean(s).Finite? ==> lo <= NanMean(s).val <= hi
  {
    if CountFinite(s) > 0 {
      SumFiniteBounds(s, lo, hi);
      DivBetween(SumFinite(s), CountFinite(s) as real, lo, hi);
    }
  }

  /** Algebra steps the solver does not take on its own: multiplying both
      sides of an equation, cancelling a non-zero factor, dividing. */
  lemma Scale(x: real, y: real, k: real)
    requires x == y
    ensures x * k == y * k
  {
  }

  lemma ZeroFactor(a: real, y: real)
    requires a != 0.0 && a * y == 0.0
    ensures y == 0.0
  {
  }

  lemma DivMul(x: real, y: real)
    requires y != 0.0
    ensures (x / y) * y == x
  {
  }

  /** A product of two positive factors keeps the sign of the third one
      (stated over two factors, which the solver handles better than a square). */
  lemma ProductSign(h: real, j: real, r: real, d: real)
    requires h > 0.0 && j > 0.0 && d == (h * j) * r
    ensures d < 0.0 <==> r < 0.0
  {
    var k := h * j;
    assert k > 0.0;
    if r < 0.0 {
      assert k * (-r) > 0.0;
    } else {
      assert k * r >= 0.0;
    }
  }

  lemma MulPos(a: real, b: real)
    requires a > 0.0 && b > 0.0
    ensures a * b > 0.0
  {
  }

  lemma MulNonneg(a: real, b: real)
    requires a >= 0.0 && b >= 0.0
    ensures a * b >= 0.0
  {
  }

  lemma SameSignProduct(a: real, b: real)
    requires (a >= 0.0 && b >= 0.0) || (a <= 0.0 && b <= 0.0)
    ensures a * b >= 0.0
  {
    if a <= 0.0 && b <= 0.0 {
      MulNonneg(-a, -b);
    }
  }

  lemma SquareNonneg(a: real)
    ensures a * a >= 0.0
  {
    SameSignProduct(a, a);
  }

  lemma {:induction false} SumFiniteNonneg(s: seq<Num>)
    requires forall i :: 0 <= i < |s| && s[i].Finite? ==> s[i].val >= 0.0
    ensures SumFinite(s) >= 0.0
    ensures SumFinite(s) == 0.0 ==> forall i :: 0 <= i < |s| && s[i].Finite? ==> s[i].val == 0.0
  {
    if s != [] {
      var t := s[1..];
      assert forall i :: 0 <= i < |t| ==> t[i] == s[i + 1];
      SumFiniteNonneg(t);
    }
  }

  /** A NaN-mean of zero over non-negative entries: every finite entry is zero. */
  lemma NanMeanZero(s: seq<Num>)
    requires forall i :: 0 <= i < |s| && s[i].Finite? ==> s[i].val >= 0.0
    requires NanMean(s) == Finite(0.0)
    ensures forall i :: 0 <= i < |s| && s[i].Finite? ==> s[i].val == 0.0
  {
    SumFiniteNonneg(s);
    var n := CountFinite(s) as real;
    assert SumFinite(s) / n == 0.0;
    DivMul(SumFinite(s), n);
  }

  lemma ProductZero(a: real, b: real)
    requires a * b == 0.0
    ensures a == 0.0 || b == 0.0
  {
  }

  lemma NonnegSumZero(u: real, v: real)
    requires u >= 0.0 && v >= 0.0 && u + v == 0.0
    ensures u == 0.0 && v == 0.0
  {
  }

  /** dx^2 + dy^2 is non-negative, and zero only at dx = dy = 0. */
  lemma SumOfSquares(a: real, b: real)
    ensures a * a + b * b >= 0.0
    ensures a * a + b * b == 0.0 ==> a == 0.0 && b == 0.0
  {
    SquareNonneg(a);
    SquareNonneg(b);
    if a * a + b * b == 0.0 {
      NonnegSumZero(a * a, b * b);
      ProductZero(a, a);
      ProductZero(b, b);
    }
  }
}
