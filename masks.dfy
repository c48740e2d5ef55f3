/** numpy boolean-mask indexing on the 9-vector of parameters
    (python/xmf/layer_03_optimization.py): v[mask] reads the selected
    entries in index order (Gather), and v[mask] = w writes them back (Fill),
    broadcasting a single value to every selected slot. */
module Masks {
  import opened Numerics

  function Count(mask: seq<bool>): (n: nat)
    ensures n <= |mask|
  {
    if mask == [] then 0 else (if mask[0] then 1 else 0) + Count(mask[1..])
  }

  /** How many selected slots come before slot i. */
  function Rank(mask: seq<bool>, i: nat): nat
    requires i <= |mask|
  {
    Count(mask[..i])
  }

  /** v[mask]: the selected entries, in index order. */
  function Gather<T>(s: seq<T>, mask: seq<bool>): (r: seq<T>)
    requires |s| == |mask|
    ensures |r| == Count(mask)
  {
    if s == [] then []
    else (if mask[0] then [s[0]] else []) + Gather(s[1..], mask[1..])
  }

  /** base[mask] = vals with exactly one value per selected slot. */
  function Fill<T>(base: seq<T>, mask: seq<bool>, vals: seq<T>): (r: seq<T>)
    requires |base| == |mask| && |vals| == Count(mask)
    ensures |r| == |base|
    ensures forall i :: 0 <= i < |base| && !mask[i] ==> r[i] == base[i]
  {
    if base == [] then []
    else if mask[0] then [vals[0]] + Fill(base[1..], mask[1..], vals[1..])
    else [base[0]] + Fill(base[1..], mask[1..], vals)
  }

  /** numpy's masked assignment: one value per selected slot, or a single
      value broadcast to all of them; any other count is a ValueError. */
  function MaskAssign<T>(base: seq<T>, mask: seq<bool>, vals: seq<T>): (r: Result<seq<T>>)
    requires |base| == |mask|
    ensures r.Ok? <==> |vals| == Count(mask) || |vals| == 1
    ensures r.Raised? ==> r.error == ValueError
    ensures r.Ok? ==> |r.value| == |base| && forall i :: 0 <= i < |base| && !mask[i] ==> r.value[i] == base[i]
    ensures r.Ok? ==> Gather(r.value, mask) == (if |vals| == Count(mask) then vals else seq(Count(mask), _ => vals[0]))
  {
    if |vals| == Count(mask) then
      GatherFill(base, mask, vals);
      Ok(Fill(base, mask, vals))
    else if |vals| == 1 then
      GatherFill(base, mask, seq(Count(mask), _ => vals[0]));
      Ok(Fill(base, mask, seq(Count(mask), _ => vals[0])))
    else Raised(ValueError)
  }

  /** Writing values into the selected slots and reading them back returns
      the values. */
  lemma {:induction false} GatherFill<T>(base: seq<T>, mask: seq<bool>, vals: seq<T>)
    requires |base| == |mask| && |vals| == Count(mask)
    ensures Gather(Fill(base, mask, vals), mask) == vals
  {
    if base != [] {
      var r := Fill(base, mask, vals);
      if mask[0] {
        GatherFill(base[1..], mask[1..], vals[1..]);
        assert r[1..] == Fill(base[1..], mask[1..], vals[1..]);
      } else {
        GatherFill(base[1..], mask[1..], vals);
        assert r[1..] == Fill(base[1..], mask[1..], vals);
      }
    }
  }

  /** Writing back what was read changes nothing. */
  lemma {:induction false} FillGather<T>(s: seq<T>, mask: seq<bool>)
    requires |s| == |mask|
    ensures Fill(s, mask, Gather(s, mask)) == s
  {
    if s != [] {
      FillGather(s[1..], mask[1..]);
      var g := Gather(s, mask);
      if mask[0] {
        assert g[0] == s[0] && g[1..] == Gather(s[1..], mask[1..]);
        assert Fill(s, mask, g) == [s[0]] + Fill(s[1..], mask[1..], g[1..]);
      } else {
        assert g == Gather(s[1..], mask[1..]);
        assert Fill(s, mask, g) == [s[0]] + Fill(s[1..], mask[1..], g);
      }
      assert s == [s[0]] + s[1..];
    }
  }

  /** The slot i of a fill holds the value with i's rank. */
  lemma {:induction false} FillAtRank<T>(base: seq<T>, mask: seq<bool>, vals: seq<T>, i: nat)
    requires |base| == |mask| && |vals| == Count(mask)
    requires i < |base| && mask[i]
    ensures Rank(mask, i) < |vals|
    ensures Fill(base, mask, vals)[i] == vals[Rank(mask, i)]
  {
    if i == 0 {
      assert mask[..0] == [];
    } else {
      assert mask[1..][..i - 1] == mask[..i][1..];
      if mask[0] {
        FillAtRank(base[1..], mask[1..], vals[1..], i - 1);
      } else {
        FillAtRank(base[1..], mask[1..], vals, i - 1);
      }
    }
  }

  /** The selected entry of rank Rank(mask, i) is s[i]. */
  lemma GatherAtRank<T>(s: seq<T>, mask: seq<bool>, i: nat)
    requires |s| == |mask| && i < |s| && mask[i]
    ensures Rank(mask, i) < |Gather(s, mask)| && Gather(s, mask)[Rank(mask, i)] == s[i]
  {
    FillGather(s, mask);
    FillAtRank(s, mask, Gather(s, mask), i);
  }

  /** Merging src into base on the selected slots, the result a fill of the
      gathered src must have. */
  lemma FillWithGathered<T>(base: seq<T>, src: seq<T>, mask: seq<bool>)
    requires |base| == |mask| && |src| == |mask|
    ensures forall i :: 0 <= i < |base| ==>
      Fill(base, mask, Gather(src, mask))[i] == (if mask[i] then src[i] else base[i])
  {
    forall i | 0 <= i < |base| && mask[i]
      ensures Fill(base, mask, Gather(src, mask))[i] == src[i]
    {
      FillAtRank(base, mask, Gather(src, mask), i);
      GatherAtRank(src, mask, i);
    }
  }

  /** np.isnan as a mask. */
  function NaNMask(s: seq<Num>): (m: seq<bool>)
    ensures |m| == |s| && forall i :: 0 <= i < |s| ==> (m[i] <==> s[i].NaN?)
  {
    seq(|s|, i requires 0 <= i < |s| => s[i].NaN?)
  }

  /** np.isfinite as a mask. */
  function FiniteMask(s: seq<Num>): (m: seq<bool>)
    ensures |m| == |s| && forall i :: 0 <= i < |s| ==> (m[i] <==> s[i].Finite?)
  {
    seq(|s|, i requires 0 <= i < |s| => s[i].Finite?)
  }

  /** The masked assignment as it runs: check the count, then write the
      selected slots one by one. */
  method MaskedAssign<T>(base: seq<T>, mask: seq<bool>, vals: seq<T>) returns (r: Result<seq<T>>)
    requires |base| == |mask|
    ensures r == MaskAssign(base, mask, vals)
  {
    var n := Count(mask);
    if |vals| != n && |vals| != 1 {
      return Raised(ValueError);
    }
    var src := if |vals| == n then vals else seq(n, _ => vals[0]);
    var out := base;
    var k := 0;
    var i := 0;
    while i < |base|
      invariant 0 <= i <= |base| && |out| == |base|
      invariant k == Rank(mask, i)
      invariant forall j :: i <= j < |base| ==> out[j] == base[j]
      invariant forall j :: 0 <= j < i ==> out[j] == Fill(base, mask, src)[j]
    {
      assert mask[..i + 1] == mask[..i] + [mask[i]];
      CountAppend(mask[..i], mask[i]);
      if mask[i] {
        FillAtRank(base, mask, src, i);
        out := out[i := src[k]];
        k := k + 1;
      }
      i := i + 1;
    }
    assert out == Fill(base, mask, src);
    return Ok(out);
  }

  lemma {:induction false} CountAppend(m: seq<bool>, b: bool)
    ensures Count(m + [b]) == Count(m) + (if b then 1 else 0)
  {
    if m != [] {
      assert (m + [b])[1..] == m[1..] + [b];
      CountAppend(m[1..], b);
    }
  }

  /** Every selected entry has property P when every entry of s with a
      selected slot does. */
  lemma {:induction false} GatherKeeps<T>(s: seq<T>, mask: seq<bool>, P: T -> bool)
    requires |s| == |mask|
    requires forall i :: 0 <= i < |s| && mask[i] ==> P(s[i])
    ensures forall k :: 0 <= k < |Gather(s, mask)| ==> P(Gather(s, mask)[k])
  {
    if s != [] {
      GatherKeeps(s[1..], mask[1..], P);
    }
  }

  /** A masked assignment whose kept entries and whose values all have
      property P yields only entries with property P. */
  lemma MaskAssignKeeps<T>(base: seq<T>, mask: seq<bool>, vals: seq<T>, P: T -> bool)
    requires |base| == |mask| && MaskAssign(base, mask, vals).Ok?
    requires forall i :: 0 <= i < |base| && !mask[i] ==> P(base[i])
    requires forall k :: 0 <= k < |vals| ==> P(vals[k])
    ensures forall i :: 0 <= i < |base| ==> P(MaskAssign(base, mask, vals).value[i])
  {
    forall i | 0 <= i < |base| && mask[i]
      ensures P(MaskAssign(base, mask, vals).value[i])
    {
      MaskAssignAt(base, mask, vals, i);
    }
  }

  /** What a successful masked assignment writes into a selected slot. */
  lemma MaskAssignAt<T>(base: seq<T>, mask: seq<bool>, vals: seq<T>, i: nat)
    requires |base| == |mask| && i < |base| && mask[i]
    requires MaskAssign(base, mask, vals).Ok?
    ensures Rank(mask, i) < Count(mask)
    ensures MaskAssign(base, mask, vals).value[i]
         == (if |vals| == Count(mask) then vals[Rank(mask, i)] else vals[0])
  {
    if |vals| == Count(mask) {
      FillAtRank(base, mask, vals, i);
    } else {
      FillAtRank(base, mask, seq(Count(mask), _ => vals[0]), i);
    }
  }
}
