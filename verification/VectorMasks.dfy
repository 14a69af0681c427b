/** Boolean masks over vector environments and the NumPy indexing operations on them. */
module VectorMasks {
  function Or(a: seq<bool>, b: seq<bool>): (c: seq<bool>)
    requires |a| == |b|
    ensures |c| == |a| && forall i :: 0 <= i < |a| ==> c[i] == (a[i] || b[i])
  {
    seq(|a|, i requires 0 <= i < |a| => a[i] || b[i])
  }

  function And(a: seq<bool>, b: seq<bool>): (c: seq<bool>)
    requires |a| == |b|
    ensures |c| == |a| && forall i :: 0 <= i < |a| ==> c[i] == (a[i] && b[i])
  {
    seq(|a|, i requires 0 <= i < |a| => a[i] && b[i])
  }

  function Not(a: seq<bool>): (c: seq<bool>)
    ensures |c| == |a| && forall i :: 0 <= i < |a| ==> c[i] == !a[i]
  {
    seq(|a|, i requires 0 <= i < |a| => !a[i])
  }

  /** a & ~b */
  function AndNot(a: seq<bool>, b: seq<bool>): (c: seq<bool>)
    requires |a| == |b|
    ensures |c| == |a| && forall i :: 0 <= i < |a| ==> c[i] == (a[i] && !b[i])
  {
    seq(|a|, i requires 0 <= i < |a| => a[i] && !b[i])
  }

  /** a | (b & ~c) */
  function OrAndNot(a: seq<bool>, b: seq<bool>, c: seq<bool>): (d: seq<bool>)
    requires |a| == |b| == |c|
    ensures |d| == |a| && forall i :: 0 <= i < |a| ==> d[i] == (a[i] || (b[i] && !c[i]))
  {
    seq(|a|, i requires 0 <= i < |a| => a[i] || (b[i] && !c[i]))
  }

  function Any(a: seq<bool>): (any: bool)
    ensures any <==> exists i :: 0 <= i < |a| && a[i]
  {
    true in a
  }

  function Zeros(n: nat): (zeros: seq<bool>)
    ensures |zeros| == n && forall i :: 0 <= i < n ==> !zeros[i]
  {
    seq(n, _ => false)
  }

  /** np.flatnonzero: the selected indices in ascending order. */
  function FlatNonzero(mask: seq<bool>): (ids: seq<nat>)
    ensures forall l :: 0 <= l < |ids| ==> ids[l] < |mask| && mask[ids[l]]
    ensures forall i: nat :: i < |mask| && mask[i] ==> i in ids
    ensures forall k, l :: 0 <= k < l < |ids| ==> ids[k] < ids[l]
  {
    if mask == [] then []
    else FlatNonzero(mask[..|mask| - 1]) + if mask[|mask| - 1] then [|mask| - 1] else []
  }

  ghost predicate InRange(ids: seq<nat>, n: nat) {
    forall l :: 0 <= l < |ids| ==> ids[l] < n
  }

  lemma SelectedInRange(mask: seq<bool>)
    ensures InRange(FlatNonzero(mask), |mask|)
  {
  }

  lemma NoneSelected(mask: seq<bool>, i: nat)
    requires FlatNonzero(mask) == [] && i < |mask|
    ensures !mask[i]
  {
    assert mask[i] ==> i in FlatNonzero(mask);
  }

  /** s[ids] */
  function Gather<T>(s: seq<T>, ids: seq<nat>): (local: seq<T>)
    requires InRange(ids, |s|)
    ensures |local| == |ids|
  {
    seq(|ids|, l requires 0 <= l < |ids| => s[ids[l]])
  }

  /** s[mask] = values[mask] */
  function Merge<T>(mask: seq<bool>, values: seq<T>, s: seq<T>): (merged: seq<T>)
    requires |mask| == |values| == |s|
    ensures |merged| == |s| && forall i :: 0 <= i < |s| ==> merged[i] == if mask[i] then values[i] else s[i]
  {
    seq(|s|, i requires 0 <= i < |s| => if mask[i] then values[i] else s[i])
  }

  /** The first `l` of the selected environments have been handled. */
  ghost predicate Partly<T>(s: seq<T>, before: seq<T>, after: seq<T>, ids: seq<nat>, l: nat)
    requires l <= |ids|
  {
    && |s| == |before| == |after|
    && forall i :: 0 <= i < |s| ==> s[i] == if i in ids[..l] then after[i] else before[i]
  }

  lemma PartlyNext<T>(s: seq<T>, before: seq<T>, after: seq<T>, mask: seq<bool>, l: nat)
    requires |mask| == |s| && l < |FlatNonzero(mask)| && Partly(s, before, after, FlatNonzero(mask), l)
    ensures var ids := FlatNonzero(mask);
      s[ids[l]] == before[ids[l]] && Partly(s[ids[l] := after[ids[l]]], before, after, ids, l + 1)
  {
    var ids := FlatNonzero(mask);
    assert ids[l] !in ids[..l];
    assert ids[..l + 1] == ids[..l] + [ids[l]];
  }

  lemma PartlyAll<T>(s: seq<T>, before: seq<T>, after: seq<T>, mask: seq<bool>)
    requires |mask| == |s| && Partly(s, before, after, FlatNonzero(mask), |FlatNonzero(mask)|)
    ensures |after| == |before| == |mask| && s == Merge(mask, after, before)
  {
    var ids := FlatNonzero(mask);
    assert ids[..|ids|] == ids;
  }
}
