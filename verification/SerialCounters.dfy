/** The shared progress counters of the rollout loop, when its simulators run serially without auto reset. */
module SerialCounters {
  import opened Common
  import opened Episodes
  import opened EpisodeMachine
  import EL = EnvLoop
  import PC = ProgressCounts
  import TR = TrajectoryRecords

  /** One reported tick, as the rollout loop sees it. */
  function StepOf(f: Feedback): TR.Step {
    TR.Step(f.Done(), f.reward, f.success, None)
  }

  /** What environment `i` reported over a rollout. */
  function LaneSteps(feedback: seq<seq<Feedback>>, i: nat): (steps: seq<TR.Step>)
    requires forall t :: 0 <= t < |feedback| ==> i < |feedback[t]|
    ensures |steps| == |feedback|
  {
    seq(|feedback|, t requires 0 <= t < |feedback| => StepOf(feedback[t][i]))
  }

  predicate Succeeds(row: seq<Feedback>, i: nat) {
    i < |row| && row[i].success
  }

  ghost predicate AnySuccess(feedback: seq<seq<Feedback>>, i: nat) {
    exists t :: 0 <= t < |feedback| && Succeeds(feedback[t], i)
  }

  lemma LaneRows(feedback: seq<seq<Feedback>>, n: nat, i: nat)
    requires Rows(feedback, n) && i < n
    ensures forall t :: 0 <= t < |feedback| ==> i < |feedback[t]|
  {
  }

  /** Silence after the end is a single pulse, and leaves no success behind it. */
  lemma SilenceIsSinglePulse(feedback: seq<seq<Feedback>>, n: nat, i: nat)
    requires Rows(feedback, n) && i < n && SilentWhenDone(feedback, i, false)
    ensures forall t :: 0 <= t < |feedback| ==> i < |feedback[t]|
    ensures var steps := LaneSteps(feedback, i);
      && PC.SinglePulse(steps)
      && (PC.NoDone(steps) <==> !AnyDone(feedback, i))
      && (!PC.NoDone(steps) ==> (TR.AnySuccess(steps[..TR.StopAt(steps) + 1]) <==> AnySuccess(feedback, i)))
  {
    LaneRows(feedback, n, i);
    var steps := LaneSteps(feedback, i);
    forall t | 0 <= t < |feedback|
      ensures steps[t].done == Raised(feedback[t], i) && steps[t].success == Succeeds(feedback[t], i)
      ensures Silent(feedback[t], i) ==> !steps[t].done && !steps[t].success
    {
    }
    if !PC.NoDone(steps) {
      SuccessBeforeStop(feedback, i, steps, TR.StopAt(steps));
    }
  }

  lemma SuccessBeforeStop(feedback: seq<seq<Feedback>>, i: nat, steps: seq<TR.Step>, stop: nat)
    requires |steps| == |feedback| && SilentWhenDone(feedback, i, false) && stop < |steps| && steps[stop].done
    requires forall t :: 0 <= t < |feedback| ==> steps[t].done == Raised(feedback[t], i) && steps[t].success == Succeeds(feedback[t], i)
    requires forall t :: 0 <= t < |feedback| && Silent(feedback[t], i) ==> !steps[t].success
    ensures TR.AnySuccess(steps[..stop + 1]) <==> AnySuccess(feedback, i)
  {
    var front := steps[..stop + 1];
    assert Raised(feedback[stop], i);
    if t :| 0 <= t < |feedback| && Succeeds(feedback[t], i) {
      assert t <= stop;
      assert front[t].success;
    }
    if t :| 0 <= t < |front| && front[t].success {
      assert Succeeds(feedback[t], i);
    }
  }

  /** Stage `s` of the loop has received exactly what the vector environment reported. */
  ghost predicate Serves(w: EL.World, s: nat, max: nat, feedback: seq<seq<Feedback>>, n: nat)
    requires Rows(feedback, n)
  {
    && w.Ok() && s < |w.staged| && |w.staged[s]| == n
    && forall lane :: 0 <= lane < n ==> Flatten(w.LaneChunks(s, lane, max)) == LaneSteps(feedback, lane)
  }

  /** 1 for every environment whose episode ended. */
  ghost function Finished(hist: seq<History>): (counts: seq<nat>)
    ensures |counts| == |hist|
  {
    seq(|hist|, i requires 0 <= i < |hist| => if Over(hist[i].episode) then 1 else 0)
  }

  /** 1 for every environment whose episode ended after reporting a success. */
  ghost function Successful(hist: seq<History>, feedback: seq<seq<Feedback>>): (counts: seq<nat>)
    ensures |counts| == |hist|
  {
    seq(|hist|, i requires 0 <= i < |hist| => if Over(hist[i].episode) && AnySuccess(feedback, i) then 1 else 0)
  }

  lemma SerialCountersAreEpisodes(w: EL.World, s: nat, max: nat, feedback: seq<seq<Feedback>>, hist: seq<History>)
    requires Rows(feedback, |hist|) && Serves(w, s, max, feedback, |hist|)
    requires forall i :: 0 <= i < |hist| ==> SilentWhenDone(feedback, i, false) && AnyDone(feedback, i) == Over(hist[i].episode)
    ensures w.StageDone(s, max) == SumNat(Finished(hist))
    ensures w.StageSuccess(s, max) == SumNat(Successful(hist, feedback))
  {
    hide EL.World.Ok, EL.World.LaneChunks, EL.World.StageDone, EL.World.StageSuccess, LaneSteps, SilentWhenDone, AnyDone, AnySuccess,
      Over, PC.SinglePulse, PC.NoDone, TR.AnySuccess, Flatten, SumNat;
    forall lane | 0 <= lane < |hist|
      ensures PC.SinglePulse(Flatten(w.LaneChunks(s, lane, max)))
      ensures EL.FinishedLanes(w, s, max)[lane] == Finished(hist)[lane]
      ensures EL.SuccessfulLanes(w, s, max)[lane] == Successful(hist, feedback)[lane]
    {
      SilenceIsSinglePulse(feedback, |hist|, lane);
    }
    EL.CountersAreLanes(w, s, max);
    assert EL.FinishedLanes(w, s, max) == Finished(hist);
    assert EL.SuccessfulLanes(w, s, max) == Successful(hist, feedback);
  }

  /**
   A serial rollout without auto reset, seen from the loop: whatever policy, simulator and operator do, the
   counters of the stage it serves are its finished and its successful episodes.
   */
  method CountedRollout(env: BaseEnv, mode: string, resetEval: bool, chunks: seq<Chunk>, ghost w: EL.World, ghost s: nat,
                        ghost max: nat)
    returns (first: seq<Obs>, feedback: seq<seq<Feedback>>)
    requires env.Between() && !env.autoReset && chunks != []
    requires forall c :: 0 <= c < |chunks| ==> ChunkOk(chunks[c], env.n)
    modifies env
    ensures |env.hist| == env.n && Rows(feedback, env.n)
    ensures Serves(w, s, max, feedback, env.n) ==>
      && w.StageDone(s, max) == SumNat(Finished(env.hist))
      && w.StageSuccess(s, max) == SumNat(Successful(env.hist, feedback))
  {
    hide SilentWhenDone, AnyDone, Over, RolloutSaved, AllFrames, BaseEnv.Live, ChunkOk;
    first, feedback := Rollout(env, mode, resetEval, chunks);
    if Serves(w, s, max, feedback, env.n) {
      SerialCountersAreEpisodes(w, s, max, feedback, env.hist);
    }
  }
}
