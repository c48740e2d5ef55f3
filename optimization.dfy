/** Layer 3 of xmf (python/xmf/layer_03_optimization.py): least-squares
    fitting of the nine parameters p, q, theta, x_i, y_i, z_i, alpha, beta,
    gamma of a surface generator to measured data.  Free parameters are
    chosen by flags (the "opt" path) or by tolerance intervals (the "tol"
    path); fixed ones are marked NaN in param_fix and the solver's values are
    scattered into the NaN slots.  The solver, the matrix inverse behind the
    covariance and the transcendental functions are parameters. */
module Optimization {
  import opened Numerics
  import opened Transform
  import opened Generation
  import opened Masks

  /** The surface generator the optimisation is handed, compared by identity
      in the source; Other stands for any function that is none of the four. */
  datatype Gen = Surface2D | Cylinder2D | Height1D | Slope1D | Other

  /** The parameter names in vector order. */
  const Names: seq<string> := ["p", "q", "theta", "x_i", "y_i", "z_i", "alpha", "beta", "gamma"]

  /** The offset added to the initial values of the free parameters. */
  const Eps: real := 0.000001

  /** A value of the opt or tol dictionary. */
  datatype OptValue = Flag(b: bool) | Scalar(v: real) | Sequence(items: seq<Ext>)

  /** What scipy's least_squares returns: the solution, the residuals at it
      and the Jacobian there. */
  datatype Solution = Solution(x: seq<real>, fun: seq<real>, jac: seq<seq<real>>)

  /** The things the fitting calls but does not define: numpy's functions,
      the affine inverse of the generators, scipy's least_squares (cost
      function, start, lower and upper bounds), the diagonal of
      inv(J^T J), and the iteration cap of the generators' loop. */
  datatype Env = Env(
    lib: Lib,
    inv: Affine -> Result<Affine>,
    solve: (seq<real> -> Result<seq<real>>, seq<Num>, seq<Ext>, seq<Ext>) -> Result<Solution>,
    covDiag: seq<seq<real>> -> Result<seq<real>>,
    fuel: nat)

  lemma NamesDistinct()
    ensures |Names| == 9
    ensures forall i, j :: 0 <= i < j < 9 ==> Names[i] != Names[j]
  {
  }

  // ---------------------------------------------------------------- dictionaries

  /** A dictionary with the nine names as keys, filled in name order. */
  function NamedPrefix<V>(vals: seq<V>, n: nat): (m: map<string, V>)
    requires n <= |vals| && n <= 9
    ensures forall k :: k in m ==> exists i :: 0 <= i < n && Names[i] == k
  {
    if n == 0 then map[] else NamedPrefix(vals, n - 1)[Names[n - 1] := vals[n - 1]]
  }

  lemma {:induction false} NamedPrefixLookup<V>(vals: seq<V>, n: nat)
    requires n <= |vals| && n <= 9
    ensures forall i :: 0 <= i < n ==> Names[i] in NamedPrefix(vals, n) && NamedPrefix(vals, n)[Names[i]] == vals[i]
  {
    NamesDistinct();
    if n > 0 {
      NamedPrefixLookup(vals, n - 1);
    }
  }

  function Named<V>(vals: seq<V>): (m: map<string, V>)
    requires |vals| == 9
    ensures forall i :: 0 <= i < 9 ==> Names[i] in m && m[Names[i]] == vals[i]
    ensures forall k :: k in m ==> k in Names
  {
    NamedPrefixLookup(vals, 9);
    NamedPrefix(vals, 9)
  }

  /** The loop that releases the results into the two output dictionaries. */
  method ReleaseResults(mask: seq<bool>, result: seq<Num>, fix: seq<Num>, ciResult: seq<(Num, Num)>)
    returns (params: map<string, Num>, cis: map<string, (Num, Num)>)
    requires |mask| == 9 && |result| == 9 && |fix| == 9 && |ciResult| == 9
    ensures params == Named(Released(mask, result, fix))
    ensures cis == Named(ReleasedCI(mask, ciResult))
  {
    params := map[];
    cis := map[];
    for idx := 0 to 9
      invariant params == NamedPrefix(Released(mask, result, fix), idx)
      invariant cis == NamedPrefix(ReleasedCI(mask, ciResult), idx)
    {
      params := params[Names[idx] := if mask[idx] then result[idx] else fix[idx]];
      cis := cis[Names[idx] := if mask[idx] then ciResult[idx] else (NaN, NaN)];
    }
  }

  function Released(mask: seq<bool>, result: seq<Num>, fix: seq<Num>): (r: seq<Num>)
    requires |mask| == 9 && |result| == 9 && |fix| == 9
    ensures |r| == 9
    ensures forall i :: 0 <= i < 9 && mask[i] ==> r[i] == result[i]
    ensures forall i :: 0 <= i < 9 && !mask[i] ==> r[i] == fix[i]
  {
    seq(9, i requires 0 <= i < 9 => if mask[i] then result[i] else fix[i])
  }

  function ReleasedCI(mask: seq<bool>, ciResult: seq<(Num, Num)>): (r: seq<(Num, Num)>)
    requires |mask| == 9 && |ciResult| == 9
    ensures |r| == 9
    ensures forall i :: 0 <= i < 9 && mask[i] ==> r[i] == ciResult[i]
    ensures forall i :: 0 <= i < 9 && !mask[i] ==> r[i].0.NaN? && r[i].1.NaN?
  {
    seq(9, i requires 0 <= i < 9 => if mask[i] then ciResult[i] else (NaN, NaN))
  }

  // ---------------------------------------------------------------- initial values

  /** A default centre: the nan-mean of the coordinates where v is finite;
      numpy raises IndexError when the mask does not fit the coordinates. */
  function DefaultCentre(coord: seq<Num>, v: seq<Num>): (r: Result<Num>)
    ensures r.Raised? <==> |coord| != |v|
    ensures r.Raised? ==> r.error == IndexError
  {
    if |coord| != |v| then Raised(IndexError)
    else Ok(NanMean(Gather(coord, FiniteMask(v))))
  }

  function Given(d: map<string, real>, key: string): Num
  {
    if key in d then Finite(d[key]) else Finite(0.0)
  }

  /** check_input_params: p, q and theta are required; x_i and y_i default
      to the mean position of the valid data, the rest to 0. */
  function CheckInputParams(d: map<string, real>, x: seq<Num>, y: seq<Num>, v: seq<Num>): (r: Result<seq<Num>>)
    ensures r == Raised(ValueError) <==> !("p" in d && "q" in d && "theta" in d)
    ensures ("p" in d && "q" in d && "theta" in d) ==>
              (r == Raised(IndexError) <==> ("x_i" !in d && |x| != |v|) || ("y_i" !in d && |y| != |v|))
    ensures r.Raised? ==> r.error == ValueError || r.error == IndexError
    ensures r.Ok? ==> |r.value| == 9
    ensures r.Ok? ==> forall i :: 0 <= i < 9 && Names[i] in d ==> r.value[i] == Finite(d[Names[i]])
    ensures r.Ok? ==> forall i :: 5 <= i < 9 && Names[i] !in d ==> r.value[i] == Finite(0.0)
    ensures r.Ok? && "x_i" !in d ==> r.value[3] == DefaultCentre(x, v).value
    ensures r.Ok? && "y_i" !in d ==> r.value[4] == DefaultCentre(y, v).value
    ensures r.Ok? ==> forall i :: 0 <= i < 9 && i != 3 && i != 4 ==> r.value[i].Finite?
  {
    if "p" !in d || "q" !in d || "theta" !in d then Raised(ValueError)
    else
      var xi := if "x_i" in d then Ok(Finite(d["x_i"])) else DefaultCentre(x, v);
      var yi := if "y_i" in d then Ok(Finite(d["y_i"])) else DefaultCentre(y, v);
      if xi.Raised? then Raised(xi.error)
      else if yi.Raised? then Raised(yi.error)
      else Ok([Finite(d["p"]), Finite(d["q"]), Finite(d["theta"]), xi.value, yi.value,
               Given(d, "z_i"), Given(d, "alpha"), Given(d, "beta"), Given(d, "gamma")])
  }

  /** The default x_i (and likewise y_i) lies within any bounds of the
      coordinates of the valid data. */
  lemma DefaultCentreWithin(coord: seq<Num>, v: seq<Num>, lo: real, hi: real)
    requires |coord| == |v|
    requires forall i :: 0 <= i < |v| && v[i].Finite? && coord[i].Finite? ==> lo <= coord[i].val <= hi
    ensures DefaultCentre(coord, v).value.Finite? ==> lo <= DefaultCentre(coord, v).value.val <= hi
  {
    var inside := (n: Num) => n.Finite? ==> lo <= n.val <= hi;
    GatherKeeps(coord, FiniteMask(v), inside);
    NanMeanWithin(Gather(coord, FiniteMask(v)), lo, hi);
  }

  /** The default centre is NaN exactly when no valid datum has a finite
      coordinate. */
  lemma {:induction false} DefaultCentreNaN(coord: seq<Num>, v: seq<Num>)
    requires |coord| == |v|
    ensures DefaultCentre(coord, v) == Ok(NaN) <==>
            forall i :: 0 <= i < |v| && v[i].Finite? ==> coord[i].NaN?
  {
    var m := FiniteMask(v);
    var g := Gather(coord, m);
    CountFiniteZero(g);
    if forall i :: 0 <= i < |v| && v[i].Finite? ==> coord[i].NaN? {
      GatherKeeps(coord, m, (n: Num) => n.NaN?);
    } else {
      var i :| 0 <= i < |v| && v[i].Finite? && !coord[i].NaN?;
      GatherAtRank(coord, m, i);
    }
  }

  // ---------------------------------------------------------------- flags

  /** The parameters each generator frees when the dictionary says nothing. */
  function DefaultMask(gen: Gen): (m: seq<bool>)
    ensures |m| == 9 && !m[0] && !m[1] && !m[2]
  {
    match gen
    case Surface2D => [false, false, false, true, true, true, true, true, true]
    case Cylinder2D => [false, false, false, true, false, true, true, true, true]
    case Height1D => [false, false, false, true, false, true, false, true, false]
    case Slope1D => [false, false, false, true, false, false, false, true, false]
    case Other => [false, false, false, false, false, false, false, false, false]
  }

  /** The default masks nest: each generator frees a subset of what the
      next more general one frees, and the cylinder differs from the
      surface only in y_i. */
  lemma DefaultMasksNest()
    ensures forall i :: 0 <= i < 9 && DefaultMask(Slope1D)[i] ==> DefaultMask(Height1D)[i]
    ensures forall i :: 0 <= i < 9 && DefaultMask(Height1D)[i] ==> DefaultMask(Cylinder2D)[i]
    ensures forall i :: 0 <= i < 9 && DefaultMask(Cylinder2D)[i] ==> DefaultMask(Surface2D)[i]
    ensures forall i :: 0 <= i < 9 ==> (DefaultMask(Cylinder2D)[i] <==> DefaultMask(Surface2D)[i] && i != 4)
  {
  }

  /** The opt_vector the source starts from, written slot by slot. */
  method DefaultOptVector(gen: Gen) returns (opt: seq<bool>)
    ensures opt == DefaultMask(gen)
  {
    opt := [false, false, false, false, false, false, false, false, false];
    if gen == Surface2D {
      opt := opt[3 := true][4 := true][5 := true][6 := true][7 := true][8 := true];
    } else if gen == Cylinder2D {
      opt := opt[3 := true];
      opt := opt[5 := true];
      opt := opt[6 := true][7 := true][8 := true];
    } else if gen == Height1D {
      opt := opt[3 := true];
      opt := opt[5 := true];
      opt := opt[7 := true];
    } else if gen == Slope1D {
      opt := opt[3 := true];
      opt := opt[7 := true];
    }
  }

  /** Storing a dictionary value into a boolean numpy slot: a sequence must
      hold exactly one element. */
  function Truthy(val: OptValue): (r: Result<bool>)
    ensures r.Raised? <==> val.Sequence? && |val.items| != 1
    ensures r.Raised? ==> r.error == ValueError
    ensures val.Flag? ==> r == Ok(val.b)
    ensures val.Scalar? ==> r == Ok(val.v != 0.0)
  {
    match val
    case Flag(b) => Ok(b)
    case Scalar(v) => Ok(v != 0.0)
    case Sequence(items) => if |items| == 1 then Ok(items[0] != Fin(0.0)) else Raised(ValueError)
  }

  function FlagAt(d: map<string, OptValue>, gen: Gen, i: nat): Result<bool>
    requires i < 9
  {
    if Names[i] in d then Truthy(d[Names[i]]) else Ok(DefaultMask(gen)[i])
  }

  /** The flags check_opt_dict returns: the generator's default, overridden
      by every name the dictionary holds. */
  function OptMask(d: map<string, OptValue>, gen: Gen): (r: Result<seq<bool>>)
    ensures r.Raised? ==> r.error == ValueError
    ensures r.Ok? ==> |r.value| == 9
  {
    if forall i :: 0 <= i < 9 ==> FlagAt(d, gen, i).Ok? then
      Ok(seq(9, i requires 0 <= i < 9 => FlagAt(d, gen, i).value))
    else Raised(ValueError)
  }

  /** check_opt_dict as the source runs it. */
  method CheckOptDict(d: map<string, OptValue>, gen: Gen) returns (r: Result<seq<bool>>)
    ensures r == OptMask(d, gen)
  {
    var opt := DefaultOptVector(gen);
    for i := 0 to 9
      invariant |opt| == 9
      invariant forall j :: 0 <= j < i ==> FlagAt(d, gen, j).Ok? && opt[j] == FlagAt(d, gen, j).value
      invariant forall j :: i <= j < 9 ==> opt[j] == DefaultMask(gen)[j]
    {
      if Names[i] in d {
        var b := Truthy(d[Names[i]]);
        if b.Raised? {
          assert FlagAt(d, gen, i).Raised?;
          return Raised(b.error);
        }
        opt := opt[i := b.value];
      }
    }
    assert opt == seq(9, i requires 0 <= i < 9 => FlagAt(d, gen, i).value);
    return Ok(opt);
  }

  /** An empty dictionary yields the generator's default flags. */
  lemma EmptyOptDictIsDefault(gen: Gen)
    ensures OptMask(map[], gen) == Ok(DefaultMask(gen))
  {
    assert forall i :: 0 <= i < 9 ==> FlagAt(map[], gen, i) == Ok(DefaultMask(gen)[i]);
    assert seq(9, i requires 0 <= i < 9 => FlagAt(map[], gen, i).value) == DefaultMask(gen);
  }

  /** Setting one name in the dictionary changes only that name's flag, to
      the truth value of what was stored. */
  lemma OverrideOnlyOwnFlag(d: map<string, OptValue>, gen: Gen, j: nat, val: OptValue)
    requires j < 9 && OptMask(d, gen).Ok? && Truthy(val).Ok?
    ensures OptMask(d[Names[j] := val], gen).Ok?
    ensures OptMask(d[Names[j] := val], gen).value[j] == Truthy(val).value
    ensures forall i :: 0 <= i < 9 && i != j ==>
              OptMask(d[Names[j] := val], gen).value[i] == OptMask(d, gen).value[i]
  {
    NamesDistinct();
    var d' := d[Names[j] := val];
    assert forall i :: 0 <= i < 9 && i != j ==> FlagAt(d', gen, i) == FlagAt(d, gen, i);
    assert FlagAt(d', gen, j) == Truthy(val);
  }

  // ---------------------------------------------------------------- tolerances

  /** unify_tol_struct_format and the row store: a scalar t becomes
      [-t, t]; a sequence of at most two elements is kept (one element fills
      both bounds, none cannot be stored); an absent name becomes
      [-inf, inf] when the generator frees it by default and [0, 0] when not. */
  function UnifyTol(d: map<string, OptValue>, key: string, isOpt: bool): (r: Result<(Ext, Ext)>)
    ensures key !in d ==> r == Ok(if isOpt then (NegInf, PosInf) else (Fin(0.0), Fin(0.0)))
    ensures key in d && d[key].Scalar? ==> r == Ok((Fin(-d[key].v), Fin(d[key].v)))
    ensures r == Raised(AssertionError) <==> key in d && d[key].Sequence? && |d[key].items| > 2
    ensures r == Raised(ValueError) <==> key in d && d[key].Sequence? && |d[key].items| == 0
  {
    if key in d then
      match d[key]
      case Flag(b) =>
        var one := if b then 1.0 else 0.0;
        Ok((Fin(-one), Fin(one)))
      case Scalar(t) => Ok((Fin(-t), Fin(t)))
      case Sequence(items) =>
        if |items| > 2 then Raised(AssertionError)
        else if |items| == 2 then Ok((items[0], items[1]))
        else if |items| == 1 then Ok((items[0], items[0]))
        else Raised(ValueError)
    else if isOpt then Ok((NegInf, PosInf))
    else Ok((Fin(0.0), Fin(0.0)))
  }

  /** A parameter is free unless both its bounds are zero. */
  predicate Free(iv: (Ext, Ext))
  {
    !(iv.0 == Fin(0.0) && iv.1 == Fin(0.0))
  }

  /** The first n rows of tol_vector; the first failing name decides the
      error. */
  function TolRows(d: map<string, OptValue>, gen: Gen, n: nat): (r: Result<seq<(Ext, Ext)>>)
    requires n <= 9
    ensures r.Ok? ==> |r.value| == n
  {
    if n == 0 then Ok([])
    else match TolRows(d, gen, n - 1)
      case Raised(e) => Raised(e)
      case Ok(rows) =>
        match UnifyTol(d, Names[n - 1], DefaultMask(gen)[n - 1])
        case Raised(e) => Raised(e)
        case Ok(iv) => Ok(rows + [iv])
  }

  /** What check_tol_dict returns: the flags and the tolerance rows. */
  function TolCheck(d: map<string, OptValue>, gen: Gen): (r: Result<(seq<bool>, seq<(Ext, Ext)>)>)
    ensures r.Ok? ==> |r.value.0| == 9 && |r.value.1| == 9
    ensures r.Ok? ==> forall i :: 0 <= i < 9 ==> (r.value.0[i] <==> Free(r.value.1[i]))
  {
    match TolRows(d, gen, 9)
    case Raised(e) => Raised(e)
    case Ok(rows) => Ok((seq(9, i requires 0 <= i < 9 => Free(rows[i])), rows))
  }

  /** check_tol_dict as the source runs it. */
  method CheckTolDict(d: map<string, OptValue>, gen: Gen) returns (r: Result<(seq<bool>, seq<(Ext, Ext)>)>)
    ensures r == TolCheck(d, gen)
  {
    var opt := DefaultOptVector(gen);
    var tol: seq<(Ext, Ext)> := seq(9, _ => (Fin(0.0), Fin(0.0)));
    for num := 0 to 9
      invariant |opt| == 9 && |tol| == 9
      invariant TolRows(d, gen, num).Ok?
      invariant forall j :: 0 <= j < num ==> tol[j] == TolRows(d, gen, num).value[j] && opt[j] == Free(tol[j])
      invariant forall j :: num <= j < 9 ==> opt[j] == DefaultMask(gen)[j]
    {
      var u := UnifyTol(d, Names[num], opt[num]);
      if u.Raised? {
        TolRowsRaisedStays(d, gen, num + 1, 9);
        return Raised(u.error);
      }
      opt := opt[num := Free(u.value)];
      tol := tol[num := u.value];
    }
    assert tol == TolRows(d, gen, 9).value;
    assert opt == seq(9, i requires 0 <= i < 9 => Free(tol[i]));
    return Ok((opt, tol));
  }

  /** Once a name fails, the whole check fails with its error. */
  lemma {:induction false} TolRowsRaisedStays(d: map<string, OptValue>, gen: Gen, n: nat, m: nat)
    requires n <= m <= 9 && TolRows(d, gen, n).Raised?
    ensures TolRows(d, gen, m) == TolRows(d, gen, n)
  {
    if m > n {
      TolRowsRaisedStays(d, gen, n, m - 1);
    }
  }

  /** Every row comes from its own name: a name absent from the dictionary
      keeps its default flag, with unbounded tolerance when free. */
  lemma {:induction false} TolRowsAt(d: map<string, OptValue>, gen: Gen, n: nat, i: nat)
    requires i < n <= 9 && TolRows(d, gen, n).Ok?
    ensures UnifyTol(d, Names[i], DefaultMask(gen)[i]) == Ok(TolRows(d, gen, n).value[i])
  {
    if i < n - 1 {
      TolRowsAt(d, gen, n - 1, i);
    }
  }

  /** A failing tolerance check reports the error of the first name whose
      value cannot be stored. */
  lemma {:induction false} TolRowsError(d: map<string, OptValue>, gen: Gen, n: nat)
    requires n <= 9 && TolRows(d, gen, n).Raised?
    ensures exists i :: 0 <= i < n &&
              UnifyTol(d, Names[i], DefaultMask(gen)[i]) == Raised(TolRows(d, gen, n).error) &&
              forall j :: 0 <= j < i ==> UnifyTol(d, Names[j], DefaultMask(gen)[j]).Ok?
  {
    if TolRows(d, gen, n - 1).Raised? {
      TolRowsError(d, gen, n - 1);
    } else {
      forall j | 0 <= j < n - 1
        ensures UnifyTol(d, Names[j], DefaultMask(gen)[j]).Ok?
      {
        TolRowsAt(d, gen, n - 1, j);
      }
    }
  }

  /** The flag of each parameter on the tol path: an absent name keeps the
      default, a scalar frees it iff non-zero, a two-element sequence frees
      it unless both bounds are zero. */
  lemma TolFlags(d: map<string, OptValue>, gen: Gen, i: nat)
    requires i < 9 && TolCheck(d, gen).Ok?
    ensures Names[i] !in d ==> TolCheck(d, gen).value.0[i] == DefaultMask(gen)[i]
    ensures Names[i] !in d && DefaultMask(gen)[i] ==> TolCheck(d, gen).value.1[i] == (NegInf, PosInf)
    ensures Names[i] in d && d[Names[i]].Scalar? ==>
              (TolCheck(d, gen).value.0[i] <==> d[Names[i]].v != 0.0)
    ensures Names[i] in d && d[Names[i]].Sequence? && |d[Names[i]].items| == 2 ==>
              TolCheck(d, gen).value.1[i] == (d[Names[i]].items[0], d[Names[i]].items[1])
  {
    TolRowsAt(d, gen, 9, i);
  }

  // ---------------------------------------------------------------- fixing and scattering

  /** param_fix: the initial values with the free slots set to NaN. */
  function Fix(init: seq<Num>, mask: seq<bool>): (r: seq<Num>)
    requires |init| == |mask|
    ensures |r| == |init|
    ensures forall i :: 0 <= i < |init| ==> r[i] == (if mask[i] then NaN else init[i])
  {
    var r := MaskAssign(init, mask, [NaN]);
    MaskAssignKeeps(init, mask, [NaN], (n: Num) => true);
    assert forall i :: 0 <= i < |init| && mask[i] ==> r.value[i] == NaN by {
      forall i | 0 <= i < |init| && mask[i]
        ensures r.value[i] == NaN
      {
        MaskAssignAt(init, mask, [NaN], i);
      }
    }
    r.value
  }

  /** param_update: the NaN slots of param_fix receive the solver's values. */
  function Scatter(fix: seq<Num>, param: seq<real>): (r: Result<seq<real>>)
    ensures r.Ok? <==> |param| == Count(NaNMask(fix)) || |param| == 1
    ensures r.Raised? ==> r.error == ValueError
    ensures r.Ok? ==> |r.value| == |fix|
    ensures r.Ok? ==> forall i :: 0 <= i < |fix| && fix[i].Finite? ==> r.value[i] == fix[i].val
  {
    match MaskAssign(fix, NaNMask(fix), Lift(param))
    case Raised(e) => Raised(e)
    case Ok(u) =>
      MaskAssignKeeps(fix, NaNMask(fix), Lift(param), (n: Num) => n.Finite?);
      Ok(seq(|u|, i requires 0 <= i < |u| => u[i].val))
  }

  /** With every fixed initial value finite, scattering the gathered free
      values back into param_fix restores them to their own slots. */
  lemma ScatterRoundTrip(init: seq<Num>, mask: seq<bool>, w: seq<real>)
    requires |init| == |mask| && |w| == Count(mask)
    requires forall i :: 0 <= i < |init| && !mask[i] ==> init[i].Finite?
    ensures Scatter(Fix(init, mask), w).Ok?
    ensures forall i :: 0 <= i < |init| && !mask[i] ==> Scatter(Fix(init, mask), w).value[i] == init[i].val
    ensures forall i :: 0 <= i < |init| && mask[i] ==>
              Rank(mask, i) < |w| && Scatter(Fix(init, mask), w).value[i] == w[Rank(mask, i)]
  {
    var fix := Fix(init, mask);
    assert NaNMask(fix) == mask;
    forall i | 0 <= i < |init| && mask[i]
      ensures Rank(mask, i) < |w| && Scatter(fix, w).value[i] == w[Rank(mask, i)]
    {
      MaskAssignAt(fix, mask, Lift(w), i);
    }
  }

  /** A fixed parameter whose initial value is NaN (a default x_i or y_i
      with no valid datum) is taken for a free one: with more or fewer than
      one free parameter the scatter fails. */
  lemma ScatterNaNFixedFails(init: seq<Num>, mask: seq<bool>, w: seq<real>, j: nat)
    requires |init| == |mask| && |w| == Count(mask) && Count(mask) != 1
    requires j < |init| && !mask[j] && init[j].NaN?
    ensures Scatter(Fix(init, mask), w) == Raised(ValueError)
  {
    var fix := Fix(init, mask);
    FixNaNCount(init, mask, j);
  }

  /** ... and with exactly one free parameter the scatter broadcasts its
      value into the fixed NaN slot as well. */
  lemma ScatterNaNFixedBroadcasts(init: seq<Num>, mask: seq<bool>, w: seq<real>, j: nat)
    requires |init| == |mask| && |w| == 1 && Count(mask) == 1
    requires j < |init| && !mask[j] && init[j].NaN?
    ensures Scatter(Fix(init, mask), w).Ok?
    ensures Scatter(Fix(init, mask), w).value[j] == w[0]
  {
    var fix := Fix(init, mask);
    FixNaNCount(init, mask, j);
    MaskAssignAt(fix, NaNMask(fix), Lift(w), j);
  }

  /** NaN slots of param_fix are at least the free slots, and one more per
      NaN among the fixed initial values. */
  lemma FixNaNCount(init: seq<Num>, mask: seq<bool>, j: nat)
    requires |init| == |mask| && j < |init| && !mask[j] && init[j].NaN?
    ensures Count(NaNMask(Fix(init, mask))) > Count(mask)
  {
    var nm := NaNMask(Fix(init, mask));
    CountMonotone(mask, nm, j);
  }

  lemma {:induction false} CountMonotone(a: seq<bool>, b: seq<bool>, j: nat)
    requires |a| == |b| && j < |a| && !a[j] && b[j]
    requires forall i :: 0 <= i < |a| && a[i] ==> b[i]
    ensures Count(b) > Count(a)
  {
    if j == 0 {
      CountLe(a[1..], b[1..]);
    } else {
      CountMonotone(a[1..], b[1..], j - 1);
    }
  }

  lemma {:induction false} CountLe(a: seq<bool>, b: seq<bool>)
    requires |a| == |b|
    requires forall i :: 0 <= i < |a| && a[i] ==> b[i]
    ensures Count(a) <= Count(b)
  {
    if a != [] {
      CountLe(a[1..], b[1..]);
    }
  }

  // ---------------------------------------------------------------- cost

  /** The generator call of the cost function; an unknown generator leaves
      v_fit unbound. */
  function GenerateFit(gen: Gen, f: Evaluator, env: Env, x: seq<Num>, y: seq<Num>, v: seq<Num>,
                       pu: seq<real>): (r: Result<seq<Num>>)
    requires |pu| == 9
    ensures gen == Other ==> r == Raised(UnboundLocalError)
    ensures gen == Surface2D ==>
      r == IterGenerate(f, env.lib, env.inv, x, y, pu[0], pu[1], pu[2],
                        ComposeTransformationMatrix(env.lib, pu[6], pu[7], pu[8], pu[3], pu[4], pu[5]),
                        Some(v), DefaultThreshold, env.fuel)
    ensures gen == Slope1D ==> r == Generate1DSlope(f, env.lib, x, pu[0], pu[1], pu[2], pu[3], pu[7])
  {
    match gen
    case Surface2D =>
      Generate2DCurvedSurfaceHeight(f, env.lib, env.inv, x, y, pu[0], pu[1], pu[2],
                                    pu[3], pu[4], pu[5], pu[6], pu[7], pu[8], Some(v), env.fuel)
    case Cylinder2D =>
      Generate2DCylinderHeight(f, env.lib, env.inv, x, y, pu[0], pu[1], pu[2],
                               pu[3], pu[5], pu[6], pu[7], pu[8], Some(v), env.fuel)
    case Height1D =>
      Generate1DHeight(f, env.lib, env.inv, x, pu[0], pu[1], pu[2], pu[3], pu[5], pu[7], Some(v), env.fuel)
    case Slope1D =>
      Generate1DSlope(f, env.lib, x, pu[0], pu[1], pu[2], pu[3], pu[7])
    case Other => Raised(UnboundLocalError)
  }

  /** The cylinder and 1D height generators are the full-surface generator
      with some pose parameters pinned to 0 (and, for 1D, over y = 0). */
  lemma GeneratorsAgree(f: Evaluator, env: Env, x: seq<Num>, y: seq<Num>, v: seq<Num>, pu: seq<real>)
    requires |pu| == 9
    ensures GenerateFit(Cylinder2D, f, env, x, y, v, pu) == GenerateFit(Surface2D, f, env, x, y, v, pu[4 := 0.0])
    ensures GenerateFit(Height1D, f, env, x, y, v, pu)
         == GenerateFit(Surface2D, f, env, x, Zeros(|x|), v, pu[4 := 0.0][6 := 0.0][8 := 0.0])
  {
  }

  /** The parameters a generator fixes by default are the ones it does not
      read: changing them leaves the fitted surface unchanged. */
  lemma GeneratorIgnoresDefaultFixed(gen: Gen, f: Evaluator, env: Env, x: seq<Num>, y: seq<Num>, v: seq<Num>,
                                     pu: seq<real>, i: nat, w: real)
    requires |pu| == 9 && 3 <= i < 9 && !DefaultMask(gen)[i] && gen != Other
    ensures GenerateFit(gen, f, env, x, y, v, pu[i := w]) == GenerateFit(gen, f, env, x, y, v, pu)
  {
  }

  /** v - v_fit. */
  function Residual(v: seq<Num>, fit: seq<Num>): (r: seq<Num>)
    requires |fit| == |v|
    ensures |r| == |v| && forall i :: 0 <= i < |v| ==> r[i] == SubNum(v[i], fit[i])
  {
    seq(|v|, i requires 0 <= i < |v| => SubNum(v[i], fit[i]))
  }

  /** v_res[np.isfinite(v_res)]. */
  function FiniteValues(s: seq<Num>): (r: seq<real>)
    ensures |r| == Count(FiniteMask(s))
    ensures forall i :: 0 <= i < |s| && s[i].Finite? ==>
              Rank(FiniteMask(s), i) < |r| && r[Rank(FiniteMask(s), i)] == s[i].val
  {
    var g := Gather(s, FiniteMask(s));
    GatherKeeps(s, FiniteMask(s), (n: Num) => n.Finite?);
    var r := seq(|g|, k requires 0 <= k < |g| => g[k].val);
    assert forall i :: 0 <= i < |s| && s[i].Finite? ==>
             Rank(FiniteMask(s), i) < |r| && r[Rank(FiniteMask(s), i)] == s[i].val by {
      forall i | 0 <= i < |s| && s[i].Finite?
        ensures Rank(FiniteMask(s), i) < |r| && r[Rank(FiniteMask(s), i)] == s[i].val
      {
        GatherAtRank(s, FiniteMask(s), i);
      }
    }
    r
  }

  datatype CostOut = CostOut(valid: seq<real>, fit: seq<Num>, res: seq<Num>)

  /** common_cost_function_for_optimization: scatter, unpack the nine
      values, generate, subtract, keep the finite residuals. */
  function CostFunction(gen: Gen, f: Evaluator, env: Env, x: seq<Num>, y: seq<Num>, v: seq<Num>,
                        fix: seq<Num>, w: seq<real>): (r: Result<CostOut>)
    ensures Scatter(fix, w).Raised? ==> r == Raised(ValueError)
    ensures Scatter(fix, w).Ok? && |Scatter(fix, w).value| != 9 ==> r == Raised(ValueError)
    ensures Scatter(fix, w).Ok? && |Scatter(fix, w).value| == 9 &&
            GenerateFit(gen, f, env, x, y, v, Scatter(fix, w).value).Raised? ==>
              r == Raised(GenerateFit(gen, f, env, x, y, v, Scatter(fix, w).value).error)
    ensures Scatter(fix, w).Ok? && |Scatter(fix, w).value| == 9 &&
            GenerateFit(gen, f, env, x, y, v, Scatter(fix, w).value).Ok? ==>
              (r.Ok? <==> |GenerateFit(gen, f, env, x, y, v, Scatter(fix, w).value).value| == |v|) &&
              (r.Raised? ==> r.error == ValueError)
    ensures r.Ok? ==>
      (Scatter(fix, w).Ok? && |Scatter(fix, w).value| == 9 &&
       GenerateFit(gen, f, env, x, y, v, Scatter(fix, w).value) == Ok(r.value.fit))
    ensures r.Ok? ==> |fix| == 9 && |r.value.fit| == |v| && r.value.res == Residual(v, r.value.fit)
    ensures r.Ok? ==> r.value.valid == FiniteValues(r.value.res)
  {
    match Scatter(fix, w)
    case Raised(e) => Raised(e)
    case Ok(pu) =>
      if |pu| != 9 then Raised(ValueError)
      else match GenerateFit(gen, f, env, x, y, v, pu)
        case Raised(e) => Raised(e)
        case Ok(fit) =>
          if |fit| != |v| then Raised(ValueError)
          else
            var res := Residual(v, fit);
            Ok(CostOut(FiniteValues(res), fit, res))
  }

  /** A fit that reproduces every finite datum has zero cost. */
  lemma ExactFitZeroCost(gen: Gen, f: Evaluator, env: Env, x: seq<Num>, y: seq<Num>, v: seq<Num>,
                         fix: seq<Num>, w: seq<real>)
    requires CostFunction(gen, f, env, x, y, v, fix, w).Ok?
    requires forall i :: 0 <= i < |v| && v[i].Finite? && CostFunction(gen, f, env, x, y, v, fix, w).value.fit[i].Finite? ==>
               CostFunction(gen, f, env, x, y, v, fix, w).value.fit[i] == v[i]
    ensures forall k :: 0 <= k < |CostFunction(gen, f, env, x, y, v, fix, w).value.valid| ==>
              CostFunction(gen, f, env, x, y, v, fix, w).value.valid[k] == 0.0
  {
    var c := CostFunction(gen, f, env, x, y, v, fix, w).value;
    var m := FiniteMask(c.res);
    GatherKeeps(c.res, m, (n: Num) => n == Finite(0.0));
  }

  /** The residual function handed to least_squares. */
  function Cost(gen: Gen, f: Evaluator, env: Env, x: seq<Num>, y: seq<Num>, v: seq<Num>, fix: seq<Num>):
    (r: seq<real> -> Result<seq<real>>)
    ensures forall w :: r(w).Ok? <==> CostFunction(gen, f, env, x, y, v, fix, w).Ok?
    ensures forall w :: r(w).Raised? ==> r(w).error == CostFunction(gen, f, env, x, y, v, fix, w).error
    ensures forall w :: r(w).Ok? ==> r(w).value == CostFunction(gen, f, env, x, y, v, fix, w).value.valid
  {
    (w: seq<real>) =>
      match CostFunction(gen, f, env, x, y, v, fix, w)
      case Raised(e) => Raised(e)
      case Ok(c) => Ok(c.valid)
  }

  // ---------------------------------------------------------------- confidence intervals

  function SumSq(xs: seq<real>): (s: real)
    ensures s >= 0.0
    ensures s == 0.0 <==> forall i :: 0 <= i < |xs| ==> xs[i] == 0.0
  {
    if xs == [] then 0.0
    else
      var h := xs[0] * xs[0];
      var t := SumSq(xs[1..]);
      SquareNonneg(xs[0]);
      assert forall i :: 1 <= i < |xs| ==> xs[i] == xs[1..][i - 1];
      assert h + t == 0.0 ==> xs[0] == 0.0 && t == 0.0 by {
        if h + t == 0.0 {
          NonnegSumZero(h, t);
          ProductZero(xs[0], xs[0]);
        }
      }
      h + t
  }

  lemma NegTimesPos(a: real, b: real)
    requires a < 0.0 && b > 0.0
    ensures a * b < 0.0
  {
  }

  /** max(1, m - n) degrees of freedom. */
  function Dof(m: nat, n: nat): (r: int)
    ensures r >= 1 && r >= m - n
    ensures r == 1 || r == m - n
  {
    if m - n > 1 then m - n else 1
  }

  /** np.sqrt of a diagonal entry of pcov = inv(J^T J) * s_sq: NaN for a
      negative variance. */
  function Sigma(lib: Lib, covEntry: real, s2: real): (s: Num)
    ensures s.NaN? <==> covEntry * s2 < 0.0
    ensures SqrtAt(lib.sqrt, covEntry * s2) && s.Finite? ==> s.val >= 0.0 && s.val * s.val == covEntry * s2
  {
    if covEntry * s2 < 0.0 then NaN else Finite(lib.sqrt(covEntry * s2))
  }

  /** [x - 2 sigma, x + 2 sigma]. */
  function Interval(x: real, sigma: Num): (ci: (Num, Num))
    ensures sigma.NaN? <==> ci == (NaN, NaN)
    ensures sigma.Finite? ==> ci.0.Finite? && ci.1.Finite? && ci.0.val + ci.1.val == 2.0 * x
    ensures sigma.Finite? ==> ci.1.val - ci.0.val == 4.0 * sigma.val
  {
    (SubNum(Finite(x), MulNum(Finite(2.0), sigma)), AddNum(Finite(x), MulNum(Finite(2.0), sigma)))
  }

  /** s_sq: the residual variance, sum of squares over the degrees of
      freedom. */
  function ResidualVariance(sol: Solution): (s2: real)
    ensures s2 >= 0.0
    ensures s2 == 0.0 <==> SumSq(sol.fun) == 0.0
    ensures s2 == 0.0 <==> forall i :: 0 <= i < |sol.fun| ==> sol.fun[i] == 0.0
  {
    SumSq(sol.fun) / (Dof(|sol.fun|, |sol.x|) as real)
  }

  /** calculate_ci_95. */
  function CI95(env: Env, sol: Solution): (r: Result<seq<(Num, Num)>>)
    ensures env.covDiag(sol.jac).Raised? ==> r == Raised(env.covDiag(sol.jac).error)
    ensures env.covDiag(sol.jac).Ok? && |env.covDiag(sol.jac).value| != |sol.x| ==> r == Raised(ValueError)
    ensures env.covDiag(sol.jac).Ok? && |env.covDiag(sol.jac).value| == |sol.x| ==> r.Ok?
    ensures r.Ok? ==> |r.value| == |sol.x|
    ensures r.Ok? ==>
      (env.covDiag(sol.jac).Ok? && |env.covDiag(sol.jac).value| == |sol.x| &&
       forall j :: 0 <= j < |sol.x| ==>
         r.value[j] == Interval(sol.x[j], Sigma(env.lib, env.covDiag(sol.jac).value[j], ResidualVariance(sol))))
  {
    var n := |sol.x|;
    match env.covDiag(sol.jac)
    case Raised(e) => Raised(e)
    case Ok(diag) =>
      if |diag| != n then Raised(ValueError)
      else Ok(seq(n, j requires 0 <= j < n => Interval(sol.x[j], Sigma(env.lib, diag[j], ResidualVariance(sol)))))
  }

  /** Each interval is centred on the estimate; it brackets the estimate
      when the covariance diagonal is non-negative, and is NaN when it is
      negative and the residuals are not all zero. */
  lemma CIBracketsEstimate(env: Env, sol: Solution, j: nat)
    requires CI95(env, sol).Ok? && j < |sol.x|
    requires forall d :: SqrtAt(env.lib.sqrt, d)
    ensures CI95(env, sol).value[j].0.Finite? ==>
              CI95(env, sol).value[j].1.Finite? &&
              CI95(env, sol).value[j].0.val + CI95(env, sol).value[j].1.val == 2.0 * sol.x[j] &&
              CI95(env, sol).value[j].0.val <= sol.x[j] <= CI95(env, sol).value[j].1.val
    ensures env.covDiag(sol.jac).value[j] >= 0.0 ==> CI95(env, sol).value[j].0.Finite?
    ensures env.covDiag(sol.jac).value[j] < 0.0 && SumSq(sol.fun) > 0.0 ==> CI95(env, sol).value[j] == (NaN, NaN)
    ensures CI95(env, sol).value[j].0.Finite? ==>
              (CI95(env, sol).value[j].1.val - CI95(env, sol).value[j].0.val)
              * (CI95(env, sol).value[j].1.val - CI95(env, sol).value[j].0.val)
              == 16.0 * env.covDiag(sol.jac).value[j] * (SumSq(sol.fun) / Dof(|sol.fun|, |sol.x|) as real)
  {
    var dj := env.covDiag(sol.jac).value[j];
    var s2 := ResidualVariance(sol);
    var sg := Sigma(env.lib, dj, s2);
    var ci := CI95(env, sol).value[j];
    assert ci == Interval(sol.x[j], sg);
    if dj >= 0.0 {
      MulNonneg(dj, s2);
    } else if SumSq(sol.fun) > 0.0 {
      NegTimesPos(dj, s2);
    }
    if ci.0.Finite? {
      assert SqrtAt(env.lib.sqrt, dj * s2);
      WidthSquared(ci.1.val - ci.0.val, sg.val, dj, s2);
    }
  }

  /** A width of 4 sigma, with sigma^2 = d s2, squares to 16 d s2. */
  lemma WidthSquared(w: real, sg: real, d: real, s2: real)
    requires w == 4.0 * sg && sg * sg == d * s2
    ensures w * w == 16.0 * d * s2
  {
  }

  // ---------------------------------------------------------------- the fit

  /** The start point: the free initial values plus 1e-6. */
  function Start(init: seq<Num>, mask: seq<bool>): (s: seq<Num>)
    requires |init| == |mask|
    ensures |s| == Count(mask)
  {
    var g := Gather(init, mask);
    seq(|g|, k requires 0 <= k < |g| => AddNum(g[k], Finite(Eps)))
  }

  /** A start value plus a tolerance bound. */
  function AddExt(a: Num, e: Ext): Ext
  {
    match e
    case NegInf => if a.NaN? then ExtNaN else NegInf
    case PosInf => if a.NaN? then ExtNaN else PosInf
    case Fin(t) => if a.NaN? then ExtNaN else Fin(a.val + t)
    case ExtNaN => ExtNaN
  }

  function Bounds(start: seq<Num>, tol: seq<Ext>): (b: seq<Ext>)
    requires |tol| == |start|
    ensures |b| == |start| && forall k :: 0 <= k < |start| ==> b[k] == AddExt(start[k], tol[k])
  {
    seq(|start|, k requires 0 <= k < |start| => AddExt(start[k], tol[k]))
  }

  function Lows(rows: seq<(Ext, Ext)>): (r: seq<Ext>)
    ensures |r| == |rows| && forall i :: 0 <= i < |rows| ==> r[i] == rows[i].0
  {
    seq(|rows|, i requires 0 <= i < |rows| => rows[i].0)
  }

  function Highs(rows: seq<(Ext, Ext)>): (r: seq<Ext>)
    ensures |r| == |rows| && forall i :: 0 <= i < |rows| ==> r[i] == rows[i].1
  {
    seq(|rows|, i requires 0 <= i < |rows| => rows[i].1)
  }

  /** param_ci_result before the free rows are written. */
  function ZeroIntervals(): (z: seq<(Num, Num)>)
    ensures |z| == 9
  {
    seq(9, _ => (Finite(0.0), Finite(0.0)))
  }

  /** n copies of a bound: scipy's default unbounded problem. */
  function Constant(n: nat, e: Ext): (b: seq<Ext>)
    ensures |b| == n && forall k :: 0 <= k < n ==> b[k] == e
  {
    seq(n, _ => e)
  }

  datatype Output = Output(res: seq<Num>, fit: seq<Num>, params: map<string, Num>,
                           ci: map<string, (Num, Num)>, init: seq<Num>)

  /** The common tail of both paths: solve, recompute the fit at the
      solution, release the parameters and their confidence intervals. */
  function Optimized(gen: Gen, f: Evaluator, env: Env, x: seq<Num>, y: seq<Num>, v: seq<Num>,
                     init: seq<Num>, mask: seq<bool>, lb: seq<Ext>, ub: seq<Ext>): (r: Result<Output>)
    requires |init| == 9 && |mask| == 9
    ensures r.Ok? ==> r.value.init == init
    ensures r.Ok? ==> |r.value.fit| == |v| && r.value.res == Residual(v, r.value.fit)
    ensures r.Ok? ==> forall i :: 0 <= i < 9 ==> Names[i] in r.value.params && Names[i] in r.value.ci
  {
    match env.solve(Cost(gen, f, env, x, y, v, Fix(init, mask)), Start(init, mask), lb, ub)
    case Raised(e) => Raised(e)
    case Ok(sol) => FromSolution(gen, f, env, x, y, v, init, mask, sol)
  }

  /** After least_squares: recompute the fit at the solution, release the
      parameters and their confidence intervals. */
  function FromSolution(gen: Gen, f: Evaluator, env: Env, x: seq<Num>, y: seq<Num>, v: seq<Num>,
                        init: seq<Num>, mask: seq<bool>, sol: Solution): (r: Result<Output>)
    requires |init| == 9 && |mask| == 9
    ensures r.Ok? ==> r.value.init == init
    ensures r.Ok? ==> |r.value.fit| == |v| && r.value.res == Residual(v, r.value.fit)
    ensures r.Ok? ==> forall i :: 0 <= i < 9 ==> Names[i] in r.value.params && Names[i] in r.value.ci
  {
    var fix := Fix(init, mask);
    match CostFunction(gen, f, env, x, y, v, fix, sol.x)
    case Raised(e) => Raised(e)
    case Ok(c) =>
      match MaskAssign(fix, mask, Lift(sol.x))
      case Raised(e) => Raised(e)
      case Ok(result) =>
        match CI95(env, sol)
        case Raised(e) => Raised(e)
        case Ok(ci) =>
          match MaskAssign(ZeroIntervals(), mask, ci)
          case Raised(e) => Raised(e)
          case Ok(ciResult) =>
            Ok(Output(c.res, c.fit, Named(Released(mask, result, fix)),
                      Named(ReleasedCI(mask, ciResult)), init))
  }

  /** How a successful fit is assembled from the solver's solution. */
  lemma FromSolutionParts(gen: Gen, f: Evaluator, env: Env, x: seq<Num>, y: seq<Num>, v: seq<Num>,
                          init: seq<Num>, mask: seq<bool>, sol: Solution, out: Output)
    requires |init| == 9 && |mask| == 9
    requires FromSolution(gen, f, env, x, y, v, init, mask, sol) == Ok(out)
    ensures CostFunction(gen, f, env, x, y, v, Fix(init, mask), sol.x).Ok?
    ensures MaskAssign(Fix(init, mask), mask, Lift(sol.x)).Ok?
    ensures CI95(env, sol).Ok?
    ensures MaskAssign(ZeroIntervals(), mask, CI95(env, sol).value).Ok?
    ensures out
         == Output(CostFunction(gen, f, env, x, y, v, Fix(init, mask), sol.x).value.res,
                   CostFunction(gen, f, env, x, y, v, Fix(init, mask), sol.x).value.fit,
                   Named(Released(mask, MaskAssign(Fix(init, mask), mask, Lift(sol.x)).value, Fix(init, mask))),
                   Named(ReleasedCI(mask, MaskAssign(ZeroIntervals(), mask, CI95(env, sol).value).value)),
                   init)
  {
  }

  /** What the output dictionaries hold: a fixed parameter reports its
      initial value and a NaN interval, a free one the solver's value of its
      rank and the interval computed for it; the residual is the
      measurement minus the fit at the solution. */
  lemma FromSolutionReleases(gen: Gen, f: Evaluator, env: Env, x: seq<Num>, y: seq<Num>, v: seq<Num>,
                             init: seq<Num>, mask: seq<bool>, sol: Solution, out: Output, i: nat)
    requires |init| == 9 && |mask| == 9 && i < 9
    requires |sol.x| == Count(mask)
    requires FromSolution(gen, f, env, x, y, v, init, mask, sol) == Ok(out)
    ensures CI95(env, sol).Ok?
    ensures Names[i] in out.params && Names[i] in out.ci
    ensures !mask[i] ==> out.params[Names[i]] == init[i] && out.ci[Names[i]] == (NaN, NaN)
    ensures mask[i] ==> Rank(mask, i) < |sol.x| &&
                        out.params[Names[i]] == Finite(sol.x[Rank(mask, i)]) &&
                        out.ci[Names[i]] == CI95(env, sol).value[Rank(mask, i)]
    ensures out.res == Residual(v, out.fit)
  {
    FromSolutionParts(gen, f, env, x, y, v, init, mask, sol, out);
    ReleasedEntries(init, mask, sol.x, CI95(env, sol).value, out.params, out.ci, i);
  }

  /** The released entry of one parameter, given the solver's values and
      their intervals. */
  lemma ReleasedEntries(init: seq<Num>, mask: seq<bool>, xs: seq<real>, ci: seq<(Num, Num)>,
                        params: map<string, Num>, cis: map<string, (Num, Num)>, i: nat)
    requires |init| == 9 && |mask| == 9 && i < 9
    requires |xs| == Count(mask) && |ci| == Count(mask)
    requires MaskAssign(Fix(init, mask), mask, Lift(xs)).Ok? && MaskAssign(ZeroIntervals(), mask, ci).Ok?
    requires params == Named(Released(mask, MaskAssign(Fix(init, mask), mask, Lift(xs)).value, Fix(init, mask)))
    requires cis == Named(ReleasedCI(mask, MaskAssign(ZeroIntervals(), mask, ci).value))
    ensures Names[i] in params && Names[i] in cis
    ensures !mask[i] ==> params[Names[i]] == init[i] && cis[Names[i]] == (NaN, NaN)
    ensures mask[i] ==> Rank(mask, i) < |xs| && params[Names[i]] == Finite(xs[Rank(mask, i)]) &&
                        cis[Names[i]] == ci[Rank(mask, i)]
  {
    var fix := Fix(init, mask);
    if mask[i] {
      MaskAssignAt(fix, mask, Lift(xs), i);
      MaskAssignAt(ZeroIntervals(), mask, ci, i);
    }
  }

  /** The body of optimize_parameters_with_opt and ..._with_tol after the
      checks, statement by statement. */
  method Optimize(gen: Gen, f: Evaluator, env: Env, x: seq<Num>, y: seq<Num>, v: seq<Num>,
                  init: seq<Num>, mask: seq<bool>, lb: seq<Ext>, ub: seq<Ext>) returns (r: Result<Output>)
    requires |init| == 9 && |mask| == 9
    ensures r == Optimized(gen, f, env, x, y, v, init, mask, lb, ub)
  {
    var fixed := MaskedAssign(init, mask, [NaN]);
    var fix := fixed.value;
    assert fix == Fix(init, mask);
    var sol := env.solve(Cost(gen, f, env, x, y, v, fix), Start(init, mask), lb, ub);
    if sol.Raised? {
      return Raised(sol.error);
    }
    var c := CostFunction(gen, f, env, x, y, v, fix, sol.value.x);
    if c.Raised? {
      return Raised(c.error);
    }
    var result := MaskedAssign(fix, mask, Lift(sol.value.x));
    if result.Raised? {
      return Raised(result.error);
    }
    var ci := CI95(env, sol.value);
    if ci.Raised? {
      return Raised(ci.error);
    }
    // the intervals are as many as the solver's values just stored
    var ciResult := MaskedAssign(ZeroIntervals(), mask, ci.value);
    var params, cis := ReleaseResults(mask, result.value, fix, ciResult.value);
    return Ok(Output(c.value.res, c.value.fit, params, cis, init));
  }

  /** optimize_parameters_with_opt, unbounded. */
  function OptResult(gen: Gen, f: Evaluator, env: Env, x: seq<Num>, y: seq<Num>, v: seq<Num>,
                     params: map<string, real>, d: map<string, OptValue>): (r: Result<Output>)
    ensures r.Ok? ==> CheckInputParams(params, x, y, v) == Ok(r.value.init)
    ensures r.Ok? ==> |r.value.fit| == |v| && r.value.res == Residual(v, r.value.fit)
    ensures r.Ok? ==> forall i :: 0 <= i < 9 ==> Names[i] in r.value.params && Names[i] in r.value.ci
  {
    match CheckInputParams(params, x, y, v)
    case Raised(e) => Raised(e)
    case Ok(init) =>
      match OptMask(d, gen)
      case Raised(e) => Raised(e)
      case Ok(mask) =>
        Optimized(gen, f, env, x, y, v, init, mask,
                  Constant(Count(mask), NegInf), Constant(Count(mask), PosInf))
  }

  /** optimize_parameters_with_tol, bounded by start + tolerance. */
  function TolResult(gen: Gen, f: Evaluator, env: Env, x: seq<Num>, y: seq<Num>, v: seq<Num>,
                     params: map<string, real>, d: map<string, OptValue>): (r: Result<Output>)
    ensures r.Ok? ==> CheckInputParams(params, x, y, v) == Ok(r.value.init)
    ensures r.Ok? ==> |r.value.fit| == |v| && r.value.res == Residual(v, r.value.fit)
    ensures r.Ok? ==> forall i :: 0 <= i < 9 ==> Names[i] in r.value.params && Names[i] in r.value.ci
  {
    match CheckInputParams(params, x, y, v)
    case Raised(e) => Raised(e)
    case Ok(init) =>
      match TolCheck(d, gen)
      case Raised(e) => Raised(e)
      case Ok(chk) =>
        var mask := chk.0;
        var start := Start(init, mask);
        Optimized(gen, f, env, x, y, v, init, mask,
                  Bounds(start, Gather(Lows(chk.1), mask)), Bounds(start, Gather(Highs(chk.1), mask)))
  }

  /** optimize_parameters: a boolean under "p" selects the opt path. */
  function OptimizationResult(gen: Gen, f: Evaluator, env: Env, x: seq<Num>, y: seq<Num>, v: seq<Num>,
                              params: map<string, real>, d: map<string, OptValue>): (r: Result<Output>)
    ensures "p" !in d ==> r == Raised(KeyError)
    ensures r.Ok? ==> CheckInputParams(params, x, y, v) == Ok(r.value.init)
    ensures r.Ok? ==> |r.value.fit| == |v| && r.value.res == Residual(v, r.value.fit)
    ensures r.Ok? ==> forall i :: 0 <= i < 9 ==> Names[i] in r.value.params && Names[i] in r.value.ci
  {
    if "p" !in d then Raised(KeyError)
    else if d["p"].Flag? then OptResult(gen, f, env, x, y, v, params, d)
    else TolResult(gen, f, env, x, y, v, params, d)
  }

  method OptimizeParametersWithOpt(gen: Gen, f: Evaluator, env: Env, x: seq<Num>, y: seq<Num>, v: seq<Num>,
                                   params: map<string, real>, d: map<string, OptValue>) returns (r: Result<Output>)
    ensures r == OptResult(gen, f, env, x, y, v, params, d)
  {
    var init := CheckInputParams(params, x, y, v);
    if init.Raised? {
      return Raised(init.error);
    }
    var mask := CheckOptDict(d, gen);
    if mask.Raised? {
      return Raised(mask.error);
    }
    var n := Count(mask.value);
    r := Optimize(gen, f, env, x, y, v, init.value, mask.value, Constant(n, NegInf), Constant(n, PosInf));
  }

  method OptimizeParametersWithTol(gen: Gen, f: Evaluator, env: Env, x: seq<Num>, y: seq<Num>, v: seq<Num>,
                                   params: map<string, real>, d: map<string, OptValue>) returns (r: Result<Output>)
    ensures r == TolResult(gen, f, env, x, y, v, params, d)
  {
    var init := CheckInputParams(params, x, y, v);
    if init.Raised? {
      return Raised(init.error);
    }
    var chk := CheckTolDict(d, gen);
    if chk.Raised? {
      return Raised(chk.error);
    }
    var mask := chk.value.0;
    var start := Start(init.value, mask);
    var lb := Bounds(start, Gather(Lows(chk.value.1), mask));
    var ub := Bounds(start, Gather(Highs(chk.value.1), mask));
    r := Optimize(gen, f, env, x, y, v, init.value, mask, lb, ub);
  }

  method OptimizeParameters(gen: Gen, f: Evaluator, env: Env, x: seq<Num>, y: seq<Num>, v: seq<Num>,
                            params: map<string, real>, d: map<string, OptValue>) returns (r: Result<Output>)
    ensures r == OptimizationResult(gen, f, env, x, y, v, params, d)
  {
    if "p" !in d {
      return Raised(KeyError);
    }
    if d["p"].Flag? {
      r := OptimizeParametersWithOpt(gen, f, env, x, y, v, params, d);
    } else {
      r := OptimizeParametersWithTol(gen, f, env, x, y, v, params, d);
    }
  }

  // ---------------------------------------------------------------- the two paths agree

  /** The opt dictionary of a flag vector, and the tol dictionary that
      frees the same parameters with unbounded tolerance. */
  function FlagDict(m: seq<bool>): map<string, OptValue>
    requires |m| == 9
  {
    Named(seq(9, i requires 0 <= i < 9 => Flag(m[i])))
  }

  function UnboundedTolDict(m: seq<bool>): map<string, OptValue>
    requires |m| == 9
  {
    Named(seq(9, i requires 0 <= i < 9 => if m[i] then Sequence([NegInf, PosInf]) else Scalar(0.0)))
  }

  /** The flag dictionary of a flag vector yields exactly that vector. */
  lemma FlagDictMask(gen: Gen, m: seq<bool>)
    requires |m| == 9
    ensures OptMask(FlagDict(m), gen) == Ok(m)
  {
    var fd := FlagDict(m);
    assert forall i :: 0 <= i < 9 ==> FlagAt(fd, gen, i) == Ok(m[i]);
    assert seq(9, i requires 0 <= i < 9 => FlagAt(fd, gen, i).value) == m;
  }

  /** The tol rows that free the parameters of m without bounds. */
  function UnboundedRows(m: seq<bool>): (rows: seq<(Ext, Ext)>)
    requires |m| == 9
    ensures |rows| == 9
  {
    seq(9, i requires 0 <= i < 9 => if m[i] then (NegInf, PosInf) else (Fin(0.0), Fin(0.0)))
  }

  lemma UnboundedTolDictAt(m: seq<bool>, i: nat)
    requires |m| == 9 && i < 9
    ensures Names[i] in UnboundedTolDict(m)
    ensures UnboundedTolDict(m)[Names[i]] == if m[i] then Sequence([NegInf, PosInf]) else Scalar(0.0)
  {
  }

  lemma UnboundedRowsUnify(gen: Gen, m: seq<bool>)
    requires |m| == 9
    ensures forall i :: 0 <= i < 9 ==>
              UnifyTol(UnboundedTolDict(m), Names[i], DefaultMask(gen)[i]) == Ok(UnboundedRows(m)[i])
  {
    forall i | 0 <= i < 9
      ensures UnifyTol(UnboundedTolDict(m), Names[i], DefaultMask(gen)[i]) == Ok(UnboundedRows(m)[i])
    {
      UnboundedTolDictAt(m, i);
    }
  }

  /** A tol dictionary freeing a parameter set with infinite tolerance
      frees the same parameters as the flag dictionary naming that set. */
  lemma UnboundedTolDictMask(gen: Gen, m: seq<bool>)
    requires |m| == 9
    ensures TolCheck(UnboundedTolDict(m), gen) == Ok((m, UnboundedRows(m)))
  {
    var td := UnboundedTolDict(m);
    var rows := UnboundedRows(m);
    UnboundedRowsUnify(gen, m);
    TolRowsAll(td, gen, rows, 9);
    assert rows[..9] == rows;
    UnboundedRowsFree(m);
  }

  lemma UnboundedRowsFree(m: seq<bool>)
    requires |m| == 9
    ensures seq(9, i requires 0 <= i < 9 => Free(UnboundedRows(m)[i])) == m
  {
    forall i | 0 <= i < 9
      ensures Free(UnboundedRows(m)[i]) == m[i]
    {
    }
  }

  /** ... and, from a finite start, passes the solver the infinite bounds
      the opt path passes. */
  lemma UnboundedTolBounds(init: seq<Num>, m: seq<bool>)
    requires |m| == 9 && |init| == 9
    requires forall i :: 0 <= i < 9 && m[i] ==> init[i].Finite?
    ensures Bounds(Start(init, m), Gather(Lows(UnboundedRows(m)), m)) == Constant(Count(m), NegInf)
    ensures Bounds(Start(init, m), Gather(Highs(UnboundedRows(m)), m)) == Constant(Count(m), PosInf)
  {
    var rows := UnboundedRows(m);
    GatherKeeps(init, m, (n: Num) => n.Finite?);
    GatherKeeps(Lows(rows), m, (e: Ext) => e == NegInf);
    GatherKeeps(Highs(rows), m, (e: Ext) => e == PosInf);
  }

  /** Hence the two paths fit the same problem: the tol path with infinite
      tolerances on a parameter set gives what the opt path gives with the
      flags of that set. */
  lemma PathsAgree(gen: Gen, f: Evaluator, env: Env, x: seq<Num>, y: seq<Num>, v: seq<Num>,
                   params: map<string, real>, m: seq<bool>)
    requires |m| == 9 && CheckInputParams(params, x, y, v).Ok?
    requires forall i :: 0 <= i < 9 && m[i] ==> CheckInputParams(params, x, y, v).value[i].Finite?
    ensures TolResult(gen, f, env, x, y, v, params, UnboundedTolDict(m))
         == OptResult(gen, f, env, x, y, v, params, FlagDict(m))
  {
    FlagDictMask(gen, m);
    UnboundedTolDictMask(gen, m);
    UnboundedTolBounds(CheckInputParams(params, x, y, v).value, m);
  }

  lemma {:induction false} TolRowsAll(d: map<string, OptValue>, gen: Gen, rows: seq<(Ext, Ext)>, n: nat)
    requires n <= 9 && |rows| == 9
    requires forall i :: 0 <= i < 9 ==> UnifyTol(d, Names[i], DefaultMask(gen)[i]) == Ok(rows[i])
    ensures TolRows(d, gen, n) == Ok(rows[..n])
  {
    if n > 0 {
      TolRowsAll(d, gen, rows, n - 1);
      assert rows[..n] == rows[..n - 1] + [rows[n - 1]];
    }
  }
}
