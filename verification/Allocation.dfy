/** Sharing a sample request among task pools by repeated passes over the tasks in dictionary order. */
module Allocation {
  import opened Common

  datatype AllocationError = NotEnoughRows

  /** Every task has `level` rows, the tasks before `cut` one more, all capped by their sizes. */
  predicate Leveled(allocation: seq<nat>, sizes: seq<nat>, level: nat, cut: nat) {
    && |allocation| == |sizes|
    && forall i :: 0 <= i < |sizes| ==> allocation[i] == Min(sizes[i], if i < cut then level + 1 else level)
  }

  /** _allocate_counts_across_tasks; the dictionary is its sizes in iteration order. */
  method AllocateCounts(sizes: seq<nat>, total: nat) returns (r: Result<seq<nat>, AllocationError>)
    ensures r.Err? <==> total > SumNat(sizes)
    ensures r.Ok? ==> SumNat(r.value) == total && exists level, cut :: Leveled(r.value, sizes, level, cut)
  {
    hide SumNat, Leveled;
    if total > SumNat(sizes) {
      return Err(NotEnoughRows);
    }
    var allocation: seq<nat> := seq(|sizes|, _ => 0);
    SumZeros(|sizes|);
    var remaining := total;
    ghost var level, cut := 0, 0;
    NothingAllocated(allocation, sizes);
    while remaining > 0
      invariant |allocation| == |sizes| && remaining >= 0 && SumNat(allocation) + remaining == total
      invariant Leveled(allocation, sizes, level, cut)
      invariant remaining > 0 ==> cut == 0
      decreases remaining
    {
      var progressed := false;
      var i := 0;
      ghost var before := allocation;
      while i < |sizes|
        invariant 0 <= i <= |sizes| == |allocation|
        invariant remaining > 0
        invariant SumNat(allocation) + remaining == total
        invariant Leveled(allocation, sizes, level, i)
        invariant progressed ==> remaining < total - SumNat(before)
        invariant !progressed ==> allocation == before && forall j :: 0 <= j < i ==> allocation[j] == sizes[j]
      {
        LevelStep(allocation, sizes, level, i);
        if allocation[i] < sizes[i] {
          SumUpdate(allocation, i, allocation[i] + 1);
          allocation := allocation[i := allocation[i] + 1];
          remaining := remaining - 1;
          progressed := true;
        }
        i := i + 1;
        if remaining == 0 {
          break;
        }
      }
      if !progressed {
        // This is the runtime error: a pass cannot come up empty while rows are still owed.
        SumPointwise(sizes, allocation);
        assert false;
      }
      NextLevel(allocation, sizes, level);
      level, cut := if remaining == 0 then level else level + 1, if remaining == 0 then i else 0;
    }
    r := Ok(allocation);
  }

  lemma NothingAllocated(allocation: seq<nat>, sizes: seq<nat>)
    requires |allocation| == |sizes| && forall i :: 0 <= i < |allocation| ==> allocation[i] == 0
    ensures Leveled(allocation, sizes, 0, 0)
  {
  }

  /** A pass reaches task `i`: it gets one more row, or is full. */
  lemma LevelStep(allocation: seq<nat>, sizes: seq<nat>, level: nat, i: nat)
    requires Leveled(allocation, sizes, level, i) && i < |sizes|
    ensures |allocation| == |sizes| && allocation[i] <= sizes[i]
    ensures if allocation[i] < sizes[i] then Leveled(allocation[i := allocation[i] + 1], sizes, level, i + 1)
            else Leveled(allocation, sizes, level, i + 1)
  {
  }

  /** A complete pass is the start of the next one. */
  lemma NextLevel(allocation: seq<nat>, sizes: seq<nat>, level: nat)
    ensures Leveled(allocation, sizes, level, |sizes|) ==> Leveled(allocation, sizes, level + 1, 0)
  {
  }

  lemma LeveledWithin(allocation: seq<nat>, sizes: seq<nat>, level: nat, cut: nat)
    requires Leveled(allocation, sizes, level, cut)
    ensures |allocation| == |sizes| && forall i :: 0 <= i < |sizes| ==> allocation[i] <= sizes[i]
  {
  }

  /** A level, a cut and a total determine the allocation. */
  lemma LevelsDetermineAllocation(a: seq<nat>, b: seq<nat>, sizes: seq<nat>, l: nat, p: nat, m: nat, q: nat)
    requires Leveled(a, sizes, l, p) && Leveled(b, sizes, m, q) && SumNat(a) == SumNat(b)
    ensures a == b
  {
    if l < m || (l == m && p <= q) {
      SumPointwise(a, b);
    } else {
      SumPointwise(b, a);
    }
  }

  /**
   Max-min fairness: any other feasible division of the same total that gives some task more takes a
   row from a task that had at most one row more than it.
   */
  lemma AllocationIsMaxMinFair(a: seq<nat>, sizes: seq<nat>, level: nat, cut: nat, b: seq<nat>, i: nat)
    requires Leveled(a, sizes, level, cut) && |b| == |a|
    requires SumNat(b) == SumNat(a) && forall k :: 0 <= k < |b| ==> b[k] <= sizes[k]
    requires i < |a| && b[i] > a[i]
    ensures exists j :: 0 <= j < |a| && b[j] < a[j] <= a[i] + 1
  {
    if forall j :: 0 <= j < |a| ==> a[j] <= b[j] {
      SumPointwise(a, b);
    } else {
      var j :| 0 <= j < |a| && b[j] < a[j];
      assert a[j] <= level + 1;
    }
  }
}
