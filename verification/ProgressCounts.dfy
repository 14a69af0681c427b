/**
 The rollout loop's own running counts: finished and successful trajectories by rising edges of the
 done flag, and low-level steps executed before each lane's first done. Both are shown to agree with
 the trajectory records collected afterwards.
 */
module ProgressCounts {
  import opened Common
  import TR = TrajectoryRecords

  type Step = TR.Step

  //////////////////////////// One lane ////////////////////////////

  /** What is kept of a lane between chunks. */
  datatype LaneState = LaneState(done: bool, success: bool)

  /** A lane inside a chunk, with what it counted so far. */
  datatype Tally = Tally(state: LaneState, completed: bool, doneEps: nat, succEps: nat)

  const FreshLane := LaneState(false, false)

  function Advance(t: Tally, step: Step): Tally {
    var active := !t.state.done && !t.completed;
    var carried := t.state.success || (active && step.success);
    var newlyDone := active && step.done;
    var done := t.state.done || newlyDone;
    var kept := !newlyDone && carried;
    var resumed := done && !step.done;
    Tally(LaneState(done && !resumed, kept && !resumed), t.completed || newlyDone,
          t.doneEps + (if newlyDone then 1 else 0), t.succEps + (if newlyDone && carried then 1 else 0))
  }

  function AdvanceAll(t: Tally, steps: seq<Step>): Tally {
    if steps == [] then t else Advance(AdvanceAll(t, steps[..|steps| - 1]), steps[|steps| - 1])
  }

  /** A lane over its chunks; the completion flag is per chunk. */
  function LaneTally(chunks: seq<seq<Step>>): Tally {
    if chunks == [] then Tally(FreshLane, false, 0, 0)
    else AdvanceAll(LaneTally(chunks[..|chunks| - 1]).(completed := false), chunks[|chunks| - 1])
  }

  /** What a lane counts in a chunk does not depend on what it counted before. */
  lemma {:induction false} CountsAccumulate(t: Tally, done: nat, succ: nat, steps: seq<Step>)
    requires t.doneEps == t.succEps == 0
    ensures var r := AdvanceAll(t, steps);
      AdvanceAll(t.(doneEps := done, succEps := succ), steps) == r.(doneEps := r.doneEps + done, succEps := r.succEps + succ)
  {
    if steps != [] {
      CountsAccumulate(t, done, succ, steps[..|steps| - 1]);
    }
  }

  //////////////////////////// The vectorized update ////////////////////////////

  ghost function Counts(tallies: seq<Tally>): (counts: seq<nat>)
    ensures |counts| == |tallies|
  {
    seq(|tallies|, i requires 0 <= i < |tallies| => tallies[i].doneEps)
  }

  ghost function Successes(tallies: seq<Tally>): (counts: seq<nat>)
    ensures |counts| == |tallies|
  {
    seq(|tallies|, i requires 0 <= i < |tallies| => tallies[i].succEps)
  }

  /** The lanes of one chunk advanced by their own steps. */
  ghost function Advanced(states: seq<LaneState>, rows: seq<seq<Step>>): (tallies: seq<Tally>)
    requires |states| == |rows|
    ensures |tallies| == |rows|
  {
    seq(|rows|, i requires 0 <= i < |rows| => AdvanceAll(Tally(states[i], false, 0, 0), rows[i]))
  }

  ghost function StatesOf(done: seq<bool>, success: seq<bool>): (states: seq<LaneState>)
    requires |done| == |success|
    ensures |states| == |done|
  {
    seq(|done|, i requires 0 <= i < |done| => LaneState(done[i], success[i]))
  }

  /**
   update_progress_trajectory_counts: low-level step by low-level step over all lanes at once, in
   place on the stage's lane state. Every lane ends as if it had been advanced alone.
   */
  method UpdateProgress(rows: seq<seq<Step>>, k: nat, previousDone: array<bool>, carriedSuccess: array<bool>)
    returns (doneEps: nat, succEps: nat)
    requires previousDone.Length == carriedSuccess.Length == |rows| && previousDone != carriedSuccess
    requires forall i :: 0 <= i < |rows| ==> |rows[i]| == k
    modifies previousDone, carriedSuccess
    ensures var states := StatesOf(old(previousDone[..]), old(carriedSuccess[..]));
      var tallies := Advanced(states, rows);
      && (forall i :: 0 <= i < |rows| ==> LaneState(previousDone[i], carriedSuccess[i]) == tallies[i].state)
      && doneEps == SumNat(Counts(tallies))
      && succEps == SumNat(Successes(tallies))
  {
    hide Advance, SumNat;
    ghost var states := StatesOf(previousDone[..], carriedSuccess[..]);
    ghost var tallies: seq<Tally> := seq(|rows|, i requires 0 <= i < |rows| => Tally(states[i], false, 0, 0));
    var completed := new bool[|rows|](_ => false);
    doneEps, succEps := 0, 0;
    NothingCounted(tallies);
    for s := 0 to k
      invariant |tallies| == |rows|
      invariant forall i :: 0 <= i < |rows| ==> tallies[i] == AdvanceAll(Tally(states[i], false, 0, 0), rows[i][..s])
      invariant Mirrors(tallies, previousDone[..], carriedSuccess[..], completed[..])
      invariant doneEps == SumNat(Counts(tallies)) && succEps == SumNat(Successes(tallies))
    {
      var column := seq(|rows|, i requires 0 <= i < |rows| => rows[i][s]);
      var newDone, newSucc, after := StepLanes(column, previousDone, carriedSuccess, completed, tallies);
      doneEps, succEps := doneEps + newDone, succEps + newSucc;
      assert forall i :: 0 <= i < |rows| ==> rows[i][..s + 1][..s] == rows[i][..s];
      tallies := after;
    }
    assert forall i :: 0 <= i < |rows| ==> rows[i][..k] == rows[i];
    assert tallies == Advanced(states, rows);
  }

  /** The arrays hold the lanes' states. */
  ghost predicate Mirrors(tallies: seq<Tally>, done: seq<bool>, success: seq<bool>, completed: seq<bool>) {
    && |tallies| == |done| == |success| == |completed|
    && forall i :: 0 <= i < |tallies| ==>
         tallies[i].state == LaneState(done[i], success[i]) && tallies[i].completed == completed[i]
  }

  /** One low-level step of all lanes. */
  method StepLanes(column: seq<Step>, previousDone: array<bool>, carriedSuccess: array<bool>, completed: array<bool>,
                   ghost before: seq<Tally>) returns (newDone: nat, newSucc: nat, ghost after: seq<Tally>)
    requires Mirrors(before, previousDone[..], carriedSuccess[..], completed[..]) && |column| == |before|
    requires previousDone != carriedSuccess && completed != previousDone && completed != carriedSuccess
    modifies previousDone, carriedSuccess, completed
    ensures |after| == |before| && forall i :: 0 <= i < |after| ==> after[i] == Advance(before[i], column[i])
    ensures Mirrors(after, previousDone[..], carriedSuccess[..], completed[..])
    ensures SumNat(Counts(before)) + newDone == SumNat(Counts(after))
    ensures SumNat(Successes(before)) + newSucc == SumNat(Successes(after))
  {
    hide Advance, SumNat;
    newDone, newSucc, after := 0, 0, before;
    for i := 0 to |column|
      invariant |after| == |column|
      invariant forall j :: 0 <= j < |after| ==> after[j] == if j < i then Advance(before[j], column[j]) else before[j]
      invariant Mirrors(after, previousDone[..], carriedSuccess[..], completed[..])
      invariant SumNat(Counts(before)) + newDone == SumNat(Counts(after))
      invariant SumNat(Successes(before)) + newSucc == SumNat(Successes(after))
    {
      ghost var t := Advance(before[i], column[i]);
      var d, n := UpdateLane(column[i], i, previousDone, carriedSuccess, completed, before[i]);
      newDone, newSucc := newDone + d, newSucc + n;
      SumUpdate(Counts(after), i, t.doneEps);
      SumUpdate(Successes(after), i, t.succEps);
      assert Counts(after[i := t]) == Counts(after)[i := t.doneEps];
      assert Successes(after[i := t]) == Successes(after)[i := t.succEps];
      after := after[i := t];
    }
  }

  lemma NothingCounted(tallies: seq<Tally>)
    requires forall i :: 0 <= i < |tallies| ==> tallies[i].doneEps == tallies[i].succEps == 0
    ensures SumNat(Counts(tallies)) == SumNat(Successes(tallies)) == 0
  {
    SumZeros(|tallies|);
    assert Counts(tallies) == seq(|tallies|, _ => 0);
    assert Successes(tallies) == seq(|tallies|, _ => 0);
  }

  /** The lane's share of one vectorized step. */
  method UpdateLane(step: Step, i: nat, previousDone: array<bool>, carriedSuccess: array<bool>, completed: array<bool>, ghost t: Tally)
    returns (newDone: nat, newSucc: nat)
    requires i < previousDone.Length == carriedSuccess.Length == completed.Length
    requires previousDone != carriedSuccess && completed != previousDone && completed != carriedSuccess
    requires t.state == LaneState(previousDone[i], carriedSuccess[i]) && t.completed == completed[i]
    modifies previousDone, carriedSuccess, completed
    ensures var after := Advance(t, step);
      && previousDone[..] == old(previousDone[..])[i := after.state.done]
      && carriedSuccess[..] == old(carriedSuccess[..])[i := after.state.success]
      && completed[..] == old(completed[..])[i := after.completed]
      && t.doneEps + newDone == after.doneEps && t.succEps + newSucc == after.succEps
  {
    newDone, newSucc := 0, 0;
    var active := !previousDone[i] && !completed[i];
    if active {
      carriedSuccess[i] := carriedSuccess[i] || step.success;
      if step.done {
        newDone := 1;
        if carriedSuccess[i] {
          newSucc := 1;
        }
        previousDone[i] := true;
        completed[i] := true;
        carriedSuccess[i] := false;
      }
    }
    if previousDone[i] && !step.done {
      previousDone[i] := false;
      carriedSuccess[i] := false;
    }
  }

  //////////////////////////// Agreement with the records ////////////////////////////

  predicate NoDone(steps: seq<Step>) {
    forall i :: 0 <= i < |steps| ==> !steps[i].done
  }

  /**
   The done steps of all chunks together are consecutive: a single pulse, which is what serial
   execution without auto reset emits, or a flag that stays high for a while after the end.
   */
  ghost predicate SinglePulse(steps: seq<Step>) {
    forall i, j, k :: 0 <= i < j < k < |steps| && steps[i].done && steps[k].done ==> steps[j].done
  }

  /** Before its pulse a lane only gathers success; after it, nothing is counted again. */
  ghost predicate Before(t: Tally, seen: seq<Step>) {
    t.state == LaneState(false, TR.AnySuccess(seen)) && t.doneEps == 0 && t.succEps == 0
  }

  ghost predicate After(t: Tally, seen: seq<Step>) {
    && t.doneEps == 1
    && seen != []
    && t.state.done == seen[|seen| - 1].done
    && t.succEps == if TR.AnySuccess(seen[..TR.StopAt(seen) + 1]) then 1 else 0
  }

  /** A lane's tally matches what it has emitted so far. */
  ghost predicate Agrees(t: Tally, seen: seq<Step>) {
    if NoDone(seen) then Before(t, seen) && !t.completed else After(t, seen)
  }

  lemma {:induction false} FirstDoneExtends(seen: seq<Step>, step: Step)
    requires TR.FirstDone(seen).Some?
    ensures TR.FirstDone(seen + [step]) == TR.FirstDone(seen)
  {
    if !seen[0].done {
      assert (seen + [step])[1..] == seen[1..] + [step];
      FirstDoneExtends(seen[1..], step);
    }
  }

  lemma StopExtends(seen: seq<Step>, step: Step)
    requires !NoDone(seen)
    ensures TR.StopAt(seen + [step]) == TR.StopAt(seen)
    ensures (seen + [step])[..TR.StopAt(seen) + 1] == seen[..TR.StopAt(seen) + 1]
  {
    FirstDoneExtends(seen, step);
  }

  lemma AnySuccessExtends(seen: seq<Step>, step: Step)
    ensures TR.AnySuccess(seen + [step]) <==> TR.AnySuccess(seen) || step.success
  {
    assert (seen + [step])[|seen|] == step;
    if i :| 0 <= i < |seen| && seen[i].success {
      assert (seen + [step])[i].success;
    }
  }

  lemma StepAgrees(t: Tally, seen: seq<Step>, step: Step)
    requires Agrees(t, seen) && SinglePulse(seen + [step])
    ensures Agrees(Advance(t, step), seen + [step])
  {
    hide TR.AnySuccess, TR.FirstDone;
    var all := seen + [step];
    assert forall i :: 0 <= i < |seen| ==> all[i] == seen[i];
    assert all[|seen|] == step;
    AnySuccessExtends(seen, step);
    if NoDone(seen) {
      if step.done {
        assert TR.StopAt(all) == |seen|;
        assert all[..|seen| + 1] == all;
      } else {
        assert NoDone(all);
      }
    } else {
      StopExtends(seen, step);
      var i :| 0 <= i < |seen| && seen[i].done;
      if step.done && i < |seen| - 1 {
        assert all[|seen| - 1].done;
      }
    }
  }

  lemma {:induction false} ChunkAgrees(t: Tally, seen: seq<Step>, steps: seq<Step>)
    requires Agrees(t, seen) && SinglePulse(seen + steps)
    ensures Agrees(AdvanceAll(t, steps), seen + steps)
  {
    if steps == [] {
      assert seen + steps == seen;
    } else {
      var front := steps[..|steps| - 1];
      assert seen + steps == (seen + front) + [steps[|steps| - 1]];
      assert forall i :: 0 <= i < |seen + front| ==> (seen + front)[i] == (seen + steps)[i];
      ChunkAgrees(t, seen, front);
      StepAgrees(AdvanceAll(t, front), seen + front, steps[|steps| - 1]);
    }
  }

  /**
   For a lane whose done steps are consecutive, the loop counts one finished trajectory exactly when the
   lane finished, and one success exactly when it succeeded at or before that step.
   */
  lemma ProgressAgreesWithRecord(chunks: seq<seq<Step>>)
    requires SinglePulse(Flatten(chunks))
    ensures var t, steps := LaneTally(chunks), Flatten(chunks);
      && t.doneEps == (if NoDone(steps) then 0 else 1)
      && t.succEps == (if !NoDone(steps) && TR.AnySuccess(steps[..TR.StopAt(steps) + 1]) then 1 else 0)
  {
    LaneAgrees(chunks);
  }

  lemma {:induction false} LaneAgrees(chunks: seq<seq<Step>>)
    requires SinglePulse(Flatten(chunks))
    ensures Agrees(LaneTally(chunks), Flatten(chunks))
  {
    if chunks != [] {
      var front, last := chunks[..|chunks| - 1], chunks[|chunks| - 1];
      var seen := Flatten(front);
      assert forall i :: 0 <= i < |seen| ==> seen[i] == Flatten(chunks)[i];
      LaneAgrees(front);
      var t := LaneTally(front).(completed := false);
      ChunkAgrees(t, seen, last);
    }
  }

  //////////////////////////// Executed low-level steps ////////////////////////////

  /** Steps of a chunk with no done step strictly before them: (cumsum - done) == 0. */
  function ValidSteps(steps: seq<Step>): nat {
    match TR.FirstDone(steps)
    case None => |steps|
    case Some(d) => d + 1
  }

  /** The running sum of the done flags, as the loop computes it. */
  method CountValidSteps(steps: seq<Step>) returns (count: nat)
    ensures count == ValidSteps(steps)
  {
    var cumulative := 0;
    count := 0;
    ghost var first := TR.FirstDone(steps);
    for t := 0 to |steps|
      invariant cumulative >= 0
      invariant cumulative == 0 <==> first.None? || t <= first.value
      invariant count == if first.Some? && t > first.value then first.value + 1 else t
    {
      var done := if steps[t].done then 1 else 0;
      cumulative := cumulative + done;
      if cumulative - done == 0 {
        count := count + 1;
      }
    }
  }

  /** The steps the loop counts for one lane: those of its chunks until the lane is marked done. */
  function ExecutedSteps(chunks: seq<seq<Step>>): nat {
    if chunks == [] then 0
    else
      var front := chunks[..|chunks| - 1];
      ExecutedSteps(front) + if NoDone(Flatten(front)) then ValidSteps(chunks[|chunks| - 1]) else 0
  }

  lemma {:induction false} FirstDoneAppend(a: seq<Step>, b: seq<Step>)
    ensures TR.FirstDone(a + b) == match TR.FirstDone(a)
      case Some(d) => Some(d)
      case None => match TR.FirstDone(b) case None => None case Some(d) => Some(|a| + d)
  {
    if a == [] {
      assert a + b == b;
    } else if !a[0].done {
      assert (a + b)[1..] == a[1..] + b;
      FirstDoneAppend(a[1..], b);
    }
  }

  /**
   For any done stream, the executed steps the loop counts for a lane are exactly the length of the
   lane's trajectory record.
   */
  lemma {:induction false} ExecutedStepsAreRecordLength(chunks: seq<seq<Step>>)
    ensures ExecutedSteps(chunks) == ValidSteps(Flatten(chunks))
    ensures Flatten(chunks) != [] ==> ExecutedSteps(chunks) == TR.StopAt(Flatten(chunks)) + 1
  {
    if chunks != [] {
      var front := chunks[..|chunks| - 1];
      ExecutedStepsAreRecordLength(front);
      FirstDoneAppend(Flatten(front), chunks[|chunks| - 1]);
    }
  }
}
