/**
 The rollout loop over interleaved pipeline stages: every stage alternates between the policy and its
 simulators, in any interleaving with the others, and shares the progress counts with them.
 */
module EnvLoop {
  import opened Common
  import opened Batches
  import PC = ProgressCounts
  import TR = TrajectoryRecords

  type Obs = seq<real>
  type Action = seq<real>

  /** A chunk answer of one stage's simulators: next observations and low-level feedback, lane by lane. */
  datatype Answer = Answer(obs: seq<Obs>, rows: seq<seq<TR.Step>>)

  datatype Slot = Slot(obs: seq<Obs>, action: Option<seq<Action>>, feedback: Option<seq<seq<TR.Step>>>)

  /**
   The deterministic surroundings of one rollout: a row-wise policy, one simulator per stage answering
   the actions it has been sent so far, the reset observations by stage, and the chunk size.
   */
  datatype World = World(policy: Obs -> Action, env: (nat, seq<seq<Action>>) -> Answer, staged: seq<seq<Obs>>, k: nat) {

    ghost predicate Ok() {
      forall s: nat, sent: seq<seq<Action>> :: s < |staged| ==> AnswerOk(s, env(s, sent))
    }

    predicate AnswerOk(s: nat, a: Answer)
      requires s < |staged|
    {
      |a.obs| == |a.rows| == |staged[s]| && forall i :: 0 <= i < |a.rows| ==> |a.rows[i]| == k
    }

    /** The policy's answer to a batch, row by row. */
    function Answered(obs: seq<Obs>): (actions: seq<Action>)
      ensures |actions| == |obs|
    {
      seq(|obs|, i requires 0 <= i < |obs| => policy(obs[i]))
    }

    /** The first `j` action batches of stage `s` when it runs alone. */
    ghost function Acts(s: nat, j: nat): (acts: seq<seq<Action>>)
      requires s < |staged|
      ensures |acts| == j
      decreases j, 0
    {
      if j == 0 then [] else Acts(s, j - 1) + [Answered(ObsAt(s, j - 1))]
    }

    /** The observation of slot `j`. */
    ghost function ObsAt(s: nat, j: nat): seq<Obs>
      requires s < |staged|
      decreases j, 1
    {
      if j == 0 then staged[s] else env(s, Acts(s, j)).obs
    }

    ghost function RowsAt(s: nat, j: nat): seq<seq<TR.Step>>
      requires s < |staged|
    {
      env(s, Acts(s, j + 1)).rows
    }

    /** Slot `j` complete: its observation, the policy's answer to it, the environment's answer to that. */
    ghost function SlotAt(s: nat, j: nat): Slot
      requires s < |staged|
    {
      Slot(ObsAt(s, j), Some(Answered(ObsAt(s, j))), Some(RowsAt(s, j)))
    }

    ghost function Slots(s: nat, j: nat): (slots: seq<Slot>)
      requires s < |staged|
      ensures |slots| == j
    {
      seq(j, i requires 0 <= i => SlotAt(s, i))
    }

    /** The feedback one lane got in its first `j` chunks. */
    ghost function LaneChunks(s: nat, lane: nat, j: nat): (chunks: seq<seq<TR.Step>>)
      requires s < |staged| && lane < |staged[s]| && Ok()
      ensures |chunks| == j
    {
      seq(j, i requires 0 <= i => RowOf(s, lane, i))
    }

    ghost function RowOf(s: nat, lane: nat, i: nat): seq<TR.Step>
      requires s < |staged| && lane < |staged[s]| && Ok()
    {
      assert AnswerOk(s, env(s, Acts(s, i + 1)));
      RowsAt(s, i)[lane]
    }

    ghost function DoneCounts(s: nat, j: nat): (counts: seq<nat>)
      requires s < |staged| && Ok()
      ensures |counts| == |staged[s]|
    {
      seq(|staged[s]|, lane requires 0 <= lane < |staged[s]| => PC.LaneTally(LaneChunks(s, lane, j)).doneEps)
    }

    ghost function SuccessCounts(s: nat, j: nat): (counts: seq<nat>)
      requires s < |staged| && Ok()
      ensures |counts| == |staged[s]|
    {
      seq(|staged[s]|, lane requires 0 <= lane < |staged[s]| => PC.LaneTally(LaneChunks(s, lane, j)).succEps)
    }

    ghost function ExecutedCounts(s: nat, j: nat): (counts: seq<nat>)
      requires s < |staged| && Ok()
      ensures |counts| == |staged[s]|
    {
      seq(|staged[s]|, lane requires 0 <= lane < |staged[s]| => PC.ExecutedSteps(LaneChunks(s, lane, j)))
    }

    /** What the shared counters owe to stage `s` after `j` chunks. */
    ghost function StageDone(s: nat, j: nat): nat
      requires s < |staged| && Ok()
    {
      SumNat(DoneCounts(s, j))
    }

    ghost function StageSuccess(s: nat, j: nat): nat
      requires s < |staged| && Ok()
    {
      SumNat(SuccessCounts(s, j))
    }

    ghost function StageExecuted(s: nat, j: nat): nat
      requires s < |staged| && Ok()
    {
      SumNat(ExecutedCounts(s, j))
    }
  }

  //////////////////////////// Submitting a batch to the policy ////////////////////////////

  datatype LoopError = NoActiveStage | BadStageIds | UnequalWorkerBatch | UnequalPartition

  /** How policy requests are cut: not at all, per environment worker, or further per worker. */
  datatype Partition = Partition(byWorker: bool, workers: nat, size: nat)

  predicate Fits(p: Partition, n: nat)
    requires p.workers > 0
  {
    p.byWorker ==> n % p.workers == 0 && (p.size > 0 ==> n / p.workers % p.size == 0)
  }

  lemma ExactQuotient(n: nat, k: nat)
    requires k > 0 && n % k == 0
    ensures n == (n / k) * k && n == k * (n / k)
  {
  }

  /** One worker's share, cut into parts of `size` rows if a size is configured. */
  method CutShare(share: seq<Obs>, size: nat) returns (r: Result<seq<seq<Obs>>, LoopError>)
    ensures r == Err(UnequalPartition) || r.Ok?
    ensures r.Ok? <==> size == 0 || |share| % size == 0
    ensures r.Ok? ==> Flatten(r.value) == share && (size > 0 ==> AllSized(r.value, size))
  {
    hide Flatten, Chunked;
    if size == 0 {
      SinglePart(share);
      return Ok([share]);
    }
    if |share| % size != 0 {
      return Err(UnequalPartition);
    }
    var count := |share| / size;
    ExactQuotient(|share|, size);
    FlattenChunked(share, size, count);
    ChunksSized(share, size, count);
    return Ok(Chunked(share, size, count));
  }

  /** _submit_rollout: the parts handed to the policy, in order. */
  method SubmitRollout(data: seq<Obs>, p: Partition) returns (r: Result<seq<seq<Obs>>, LoopError>)
    requires p.workers > 0
    ensures r.Ok? <==> Fits(p, |data|)
    ensures r.Ok? ==> Flatten(r.value) == data
    ensures r.Ok? && p.byWorker && p.size > 0 ==> AllSized(r.value, p.size)
    ensures r.Err? ==> r.error == if |data| % p.workers != 0 then UnequalWorkerBatch else UnequalPartition
  {
    if !p.byWorker {
      SinglePart(data);
      return Ok([data]);
    }
    if |data| % p.workers != 0 {
      return Err(UnequalWorkerBatch);
    }
    r := SubmitShares(data, |data| / p.workers, p);
  }

  method SubmitShares(data: seq<Obs>, each: nat, p: Partition) returns (r: Result<seq<seq<Obs>>, LoopError>)
    requires p.workers > 0 && |data| % p.workers == 0 && each == |data| / p.workers
    ensures r == Err(UnequalPartition) || r.Ok?
    ensures r.Ok? <==> p.size == 0 || each % p.size == 0
    ensures r.Ok? ==> Flatten(r.value) == data && (p.size > 0 ==> AllSized(r.value, p.size))
  {
    hide Flatten, Chunked;
    ExactQuotient(|data|, p.workers);
    var shares := Chunked(data, each, p.workers);
    FlattenChunked(data, each, p.workers);
    ChunksSized(data, each, p.workers);
    var futures := [];
    FlattenNothing<Obs>();
    for w := 0 to |shares|
      invariant Flatten(futures) == Flatten(shares[..w])
      invariant p.size > 0 && w > 0 ==> each % p.size == 0
      invariant p.size > 0 ==> AllSized(futures, p.size)
    {
      assert shares[..w + 1][..w] == shares[..w];
      FlattenLast(shares[..w + 1]);
      var parts := CutShare(shares[w], p.size);
      if parts.Err? {
        return parts;
      }
      FlattenAppend(futures, parts.value);
      futures := futures + parts.value;
    }
    assert shares[..|shares|] == shares;
    return Ok(futures);
  }

  lemma SinglePart<T>(data: seq<T>)
    ensures Flatten([data]) == data
  {
    FlattenLast([data]);
    FlattenNothing<T>();
    assert [data][..0] == [];
  }

  lemma ChunksSized<T>(batch: seq<T>, size: nat, count: nat)
    requires |batch| == count * size
    ensures AllSized(Chunked(batch, size, count), size)
  {
    hide Chunked;
    forall c | 0 <= c < count ensures |Chunked(batch, size, count)[c]| == size {
      ChunkedAt(batch, size, count, c);
    }
  }

  /** _resolve_rollout: the parts are answered separately and joined; together that is the row-wise answer. */
  method ResolveRollout(w: World, parts: seq<seq<Obs>>) returns (actions: seq<Action>)
    ensures actions == w.Answered(Flatten(parts))
  {
    hide Flatten;
    actions := [];
    FlattenNothing<Obs>();
    for i := 0 to |parts|
      invariant actions == w.Answered(Flatten(parts[..i]))
    {
      assert parts[..i + 1][..i] == parts[..i];
      FlattenLast(parts[..i + 1]);
      AnsweredAppend(w, Flatten(parts[..i]), parts[i]);
      actions := actions + w.Answered(parts[i]);
    }
    assert parts[..|parts|] == parts;
  }

  lemma AnsweredAppend(w: World, a: seq<Obs>, b: seq<Obs>)
    ensures w.Answered(a + b) == w.Answered(a) + w.Answered(b)
  {
  }

  //////////////////////////// One stage loop ////////////////////////////

  /** Where a stage loop is suspended. */
  datatype Phase = AwaitPolicy | AwaitEnv | Finished

  /** What the loop keeps for one stage; `sent` are the actions its simulators have received. */
  datatype Stage = Stage(slots: seq<Slot>, future: seq<seq<Obs>>, phase: Phase, idx: nat, sent: seq<seq<Action>>,
                         lastObs: seq<Obs>, doneLanes: seq<bool>, lanes: seq<PC.LaneState>, executed: nat)

  /** The slot being worked on. */
  ghost function Open(w: World, s: nat, phase: Phase, idx: nat): seq<Slot>
    requires s < |w.staged|
  {
    match phase
    case AwaitPolicy => [Slot(w.ObsAt(s, idx), None, None)]
    case AwaitEnv => [Slot(w.ObsAt(s, idx), Some(w.Answered(w.ObsAt(s, idx))), None)]
    case Finished => []
  }

  /** A stage after `idx` chunks, wherever the other stages are. */
  ghost predicate StageOk(w: World, s: nat, st: Stage, max: nat) {
    && s < |w.staged| && w.Ok()
    && st.idx <= max && (st.phase == Finished <==> st.idx == max)
    && st.slots == w.Slots(s, st.idx) + Open(w, s, st.phase, st.idx)
    && st.sent == w.Acts(s, st.idx)
    && (st.phase == AwaitPolicy ==> Flatten(st.future) == w.ObsAt(s, st.idx))
    && (st.idx > 0 ==> st.lastObs == w.ObsAt(s, st.idx))
    && LanesOk(w, s, st.idx, st.lanes, st.doneLanes, st.executed)
  }

  /** The accounts of a stage's lanes after `idx` chunks. */
  ghost predicate LanesOk(w: World, s: nat, idx: nat, lanes: seq<PC.LaneState>, doneLanes: seq<bool>, executed: nat)
    requires s < |w.staged| && w.Ok()
  {
    && |doneLanes| == |lanes| == |w.staged[s]|
    && (forall lane :: 0 <= lane < |lanes| ==>
          && lanes[lane] == PC.LaneTally(w.LaneChunks(s, lane, idx)).state
          && doneLanes[lane] == !PC.NoDone(Flatten(w.LaneChunks(s, lane, idx))))
    && executed == w.StageExecuted(s, idx)
  }

  /** The loop resumes with the policy's answer: it completes the action and calls the simulators. */
  method ResumeWithAction(w: World, ghost s: nat, st: Stage, ghost max: nat) returns (st': Stage)
    requires StageOk(w, s, st, max) && st.phase == AwaitPolicy
    ensures StageOk(w, s, st', max) && st'.phase == AwaitEnv && st'.idx == st.idx
  {
    hide World.Acts, World.ObsAt, Flatten, World.StageExecuted, PC.NoDone, PC.LaneTally;
    var actions := ResolveRollout(w, st.future);
    var last := |st.slots| - 1;
    st' := st.(slots := st.slots[last := st.slots[last].(action := Some(actions))], phase := AwaitEnv);
    assert st'.slots == w.Slots(s, st.idx) + Open(w, s, AwaitEnv, st.idx);
  }

  lemma NextSlot(w: World, s: nat, idx: nat)
    requires s < |w.staged|
    ensures w.Slots(s, idx + 1) == w.Slots(s, idx) + [w.SlotAt(s, idx)]
    ensures w.Acts(s, idx + 1) == w.Acts(s, idx) + [w.Answered(w.ObsAt(s, idx))]
    ensures w.ObsAt(s, idx + 1) == w.env(s, w.Acts(s, idx + 1)).obs
  {
    hide World.SlotAt;
  }

  lemma NextChunk(w: World, s: nat, lane: nat, idx: nat)
    requires s < |w.staged| && lane < |w.staged[s]| && w.Ok()
    ensures w.LaneChunks(s, lane, idx + 1) == w.LaneChunks(s, lane, idx) + [w.RowOf(s, lane, idx)]
  {
    hide World.RowOf;
  }

  lemma NextTally(w: World, s: nat, lane: nat, idx: nat)
    requires s < |w.staged| && lane < |w.staged[s]| && w.Ok()
    ensures var t, r := PC.LaneTally(w.LaneChunks(s, lane, idx)),
                        PC.AdvanceAll(PC.Tally(PC.LaneTally(w.LaneChunks(s, lane, idx)).state, false, 0, 0), w.RowOf(s, lane, idx));
      PC.LaneTally(w.LaneChunks(s, lane, idx + 1)) == r.(doneEps := t.doneEps + r.doneEps, succEps := t.succEps + r.succEps)
  {
    hide World.RowOf, PC.AdvanceAll;
    var chunks := w.LaneChunks(s, lane, idx);
    NextChunk(w, s, lane, idx);
    var t := PC.LaneTally(chunks);
    assert (chunks + [w.RowOf(s, lane, idx)])[..idx] == chunks;
    PC.CountsAccumulate(PC.Tally(t.state, false, 0, 0), t.doneEps, t.succEps, w.RowOf(s, lane, idx));
  }

  lemma NextExecuted(w: World, s: nat, lane: nat, idx: nat)
    requires s < |w.staged| && lane < |w.staged[s]| && w.Ok()
    ensures var steps, row := Flatten(w.LaneChunks(s, lane, idx)), w.RowOf(s, lane, idx);
      && PC.ExecutedSteps(w.LaneChunks(s, lane, idx + 1))
         == PC.ExecutedSteps(w.LaneChunks(s, lane, idx)) + (if PC.NoDone(steps) then PC.ValidSteps(row) else 0)
      && (PC.NoDone(Flatten(w.LaneChunks(s, lane, idx + 1))) <==> PC.NoDone(steps) && PC.NoDone(row))
  {
    hide World.RowOf, PC.ValidSteps;
    var chunks, row := w.LaneChunks(s, lane, idx), w.RowOf(s, lane, idx);
    NextChunk(w, s, lane, idx);
    assert (chunks + [row])[..idx] == chunks;
    NoDoneAppend(Flatten(chunks), row);
  }

  lemma NoDoneAppend(a: seq<TR.Step>, b: seq<TR.Step>)
    ensures PC.NoDone(a + b) <==> PC.NoDone(a) && PC.NoDone(b)
  {
    assert forall i :: 0 <= i < |a| ==> (a + b)[i] == a[i];
    assert forall i :: 0 <= i < |b| ==> (a + b)[|a| + i] == b[i];
  }

  ghost function ChunkExecuted(rows: seq<seq<TR.Step>>, doneLanes: seq<bool>): (counts: seq<nat>)
    requires |rows| == |doneLanes|
    ensures |counts| == |rows|
  {
    seq(|rows|, lane requires 0 <= lane < |rows| => if doneLanes[lane] then 0 else PC.ValidSteps(rows[lane]))
  }

  /** The low-level steps of a chunk before each lane's first done, lanes already done left out. */
  method CountExecuted(rows: seq<seq<TR.Step>>, doneLanes: seq<bool>) returns (count: nat)
    requires |rows| == |doneLanes|
    ensures count == SumNat(ChunkExecuted(rows, doneLanes))
  {
    hide PC.ValidSteps;
    count := 0;
    ghost var counts := ChunkExecuted(rows, doneLanes);
    for lane := 0 to |rows|
      invariant count == SumNat(counts[..lane])
    {
      assert counts[..lane + 1][..lane] == counts[..lane];
      if !doneLanes[lane] {
        var valid := PC.CountValidSteps(rows[lane]);
        count := count + valid;
      }
    }
    assert counts[..|rows|] == counts;
  }

  /** chunk_done.any over the steps of each lane. */
  method EpisodeDone(rows: seq<seq<TR.Step>>) returns (done: seq<bool>)
    ensures |done| == |rows| && forall lane :: 0 <= lane < |rows| ==> done[lane] == !PC.NoDone(rows[lane])
  {
    done := seq(|rows|, lane requires 0 <= lane < |rows| => !PC.NoDone(rows[lane]));
  }

  /** The stage's progress state lives in arrays while its counts are updated. */
  method UpdateStageProgress(lanes: seq<PC.LaneState>, rows: seq<seq<TR.Step>>, k: nat)
    returns (lanes': seq<PC.LaneState>, doneEps: nat, succEps: nat)
    requires |lanes| == |rows| && forall i :: 0 <= i < |rows| ==> |rows[i]| == k
    ensures |lanes'| == |rows|
    ensures var tallies := PC.Advanced(lanes, rows);
      && (forall i :: 0 <= i < |rows| ==> lanes'[i] == tallies[i].state)
      && doneEps == SumNat(PC.Counts(tallies)) && succEps == SumNat(PC.Successes(tallies))
  {
    hide PC.AdvanceAll;
    var done := new bool[|lanes|](i requires 0 <= i < |lanes| => lanes[i].done);
    var success := new bool[|lanes|](i requires 0 <= i < |lanes| => lanes[i].success);
    assert PC.StatesOf(done[..], success[..]) == lanes;
    doneEps, succEps := PC.UpdateProgress(rows, k, done, success);
    lanes' := seq(|lanes|, i requires 0 <= i < |lanes| reads done, success => PC.LaneState(done[i], success[i]));
  }

  /** The shared counters grow by exactly what this chunk adds to the stage's account. */
  lemma ProgressAdds(w: World, s: nat, lanes: seq<PC.LaneState>, idx: nat)
    requires s < |w.staged| && w.Ok() && |lanes| == |w.RowsAt(s, idx)| == |w.staged[s]|
    requires forall lane :: 0 <= lane < |lanes| ==> lanes[lane] == PC.LaneTally(w.LaneChunks(s, lane, idx)).state
    ensures var tallies := PC.Advanced(lanes, w.RowsAt(s, idx));
      && w.StageDone(s, idx + 1) == w.StageDone(s, idx) + SumNat(PC.Counts(tallies))
      && w.StageSuccess(s, idx + 1) == w.StageSuccess(s, idx) + SumNat(PC.Successes(tallies))
      && forall lane :: 0 <= lane < |lanes| ==> tallies[lane].state == PC.LaneTally(w.LaneChunks(s, lane, idx + 1)).state
  {
    hide World.RowsAt, World.LaneChunks, PC.LaneTally, PC.AdvanceAll, SumNat;
    var n, tallies := |lanes|, PC.Advanced(lanes, w.RowsAt(s, idx));
    forall lane | 0 <= lane < n
      ensures PC.LaneTally(w.LaneChunks(s, lane, idx + 1)).doneEps == PC.LaneTally(w.LaneChunks(s, lane, idx)).doneEps + tallies[lane].doneEps
      ensures PC.LaneTally(w.LaneChunks(s, lane, idx + 1)).succEps == PC.LaneTally(w.LaneChunks(s, lane, idx)).succEps + tallies[lane].succEps
      ensures tallies[lane].state == PC.LaneTally(w.LaneChunks(s, lane, idx + 1)).state
    {
      NextTally(w, s, lane, idx);
    }
    SumPlus(w.DoneCounts(s, idx), PC.Counts(tallies), w.DoneCounts(s, idx + 1));
    SumPlus(w.SuccessCounts(s, idx), PC.Successes(tallies), w.SuccessCounts(s, idx + 1));
  }

  lemma ExecutedAdds(w: World, s: nat, doneLanes: seq<bool>, idx: nat)
    requires s < |w.staged| && w.Ok() && |doneLanes| == |w.RowsAt(s, idx)| == |w.staged[s]|
    requires forall lane :: 0 <= lane < |doneLanes| ==> doneLanes[lane] == !PC.NoDone(Flatten(w.LaneChunks(s, lane, idx)))
    ensures w.StageExecuted(s, idx + 1) == w.StageExecuted(s, idx) + SumNat(ChunkExecuted(w.RowsAt(s, idx), doneLanes))
    ensures forall lane :: 0 <= lane < |doneLanes| ==>
      !PC.NoDone(Flatten(w.LaneChunks(s, lane, idx + 1))) == (doneLanes[lane] || !PC.NoDone(w.RowsAt(s, idx)[lane]))
  {
    hide World.RowsAt, World.LaneChunks, PC.ExecutedSteps, PC.ValidSteps, PC.NoDone, Flatten, SumNat;
    var n, counts := |doneLanes|, ChunkExecuted(w.RowsAt(s, idx), doneLanes);
    forall lane | 0 <= lane < n
      ensures PC.ExecutedSteps(w.LaneChunks(s, lane, idx + 1)) == PC.ExecutedSteps(w.LaneChunks(s, lane, idx)) + counts[lane]
      ensures !PC.NoDone(Flatten(w.LaneChunks(s, lane, idx + 1))) == (doneLanes[lane] || !PC.NoDone(w.RowsAt(s, idx)[lane]))
    {
      NextExecuted(w, s, lane, idx);
    }
    SumPlus(w.ExecutedCounts(s, idx), counts, w.ExecutedCounts(s, idx + 1));
  }

  /** One chunk's feedback enters the accounts of the lanes. */
  method BookChunk(w: World, ghost s: nat, ghost idx: nat, st: Stage, rows: seq<seq<TR.Step>>)
    returns (lanes: seq<PC.LaneState>, doneLanes: seq<bool>, executed: nat, doneEps: nat, succEps: nat)
    requires s < |w.staged| && w.Ok() && LanesOk(w, s, idx, st.lanes, st.doneLanes, st.executed)
    requires rows == w.RowsAt(s, idx) && |rows| == |w.staged[s]| && forall lane :: 0 <= lane < |rows| ==> |rows[lane]| == w.k
    ensures LanesOk(w, s, idx + 1, lanes, doneLanes, executed)
    ensures w.StageDone(s, idx + 1) == w.StageDone(s, idx) + doneEps
    ensures w.StageSuccess(s, idx + 1) == w.StageSuccess(s, idx) + succEps
  {
    hide World.Ok, World.RowsAt, World.StageExecuted, World.StageDone, World.StageSuccess, World.LaneChunks, PC.NoDone,
      PC.LaneTally, PC.AdvanceAll, Flatten;
    var count := CountExecuted(rows, st.doneLanes);
    var done := EpisodeDone(rows);
    ExecutedAdds(w, s, st.doneLanes, idx);
    lanes, doneEps, succEps := UpdateStageProgress(st.lanes, rows, w.k);
    ProgressAdds(w, s, st.lanes, idx);
    doneLanes := seq(|done|, lane requires 0 <= lane < |done| && |done| == |st.doneLanes| => st.doneLanes[lane] || done[lane]);
    executed := st.executed + count;
  }

  /**
   The loop resumes with the simulators' answer: it counts, completes the slot, and either finishes or opens
   the next slot and submits its observation.
   */
  method ResumeWithEnvResult(w: World, s: nat, st: Stage, max: nat, p: Partition)
    returns (r: Result<Stage, LoopError>, doneEps: nat, succEps: nat)
    requires StageOk(w, s, st, max) && st.phase == AwaitEnv && p.workers > 0
    ensures r.Ok? <==> st.idx + 1 == max || Fits(p, |w.staged[s]|)
    ensures r.Ok? ==> StageOk(w, s, r.value, max) && r.value.idx == st.idx + 1 && r.value.phase != AwaitEnv
    ensures r.Ok? ==> w.StageDone(s, st.idx + 1) == w.StageDone(s, st.idx) + doneEps
    ensures r.Ok? ==> w.StageSuccess(s, st.idx + 1) == w.StageSuccess(s, st.idx) + succEps
  {
    hide World.Acts, World.ObsAt, World.Ok, World.Slots, Flatten, World.StageExecuted, World.StageDone, World.StageSuccess,
      World.Answered, LanesOk, Fits;
    var last := |st.slots| - 1;
    var sent := st.sent + [st.slots[last].action.value];
    var answer := w.env(s, sent);
    AnswerFits(w, s, st.idx);
    NextSlot(w, s, st.idx);
    var lanes, doneLanes, executed;
    lanes, doneLanes, executed, doneEps, succEps := BookChunk(w, s, st.idx, st, answer.rows);
    var slots := st.slots[last := st.slots[last].(feedback := Some(answer.rows))];
    assert slots == w.Slots(s, st.idx + 1);
    var st' := Stage(slots, [], Finished, st.idx + 1, sent, answer.obs, doneLanes, lanes, executed);
    if st'.idx == max {
      r := Ok(st');
    } else {
      var future := SubmitRollout(answer.obs, p);
      if future.Err? {
        return Err(future.error), doneEps, succEps;
      }
      r := Ok(st'.(slots := slots + [Slot(answer.obs, None, None)], future := future.value, phase := AwaitPolicy));
    }
  }

  lemma AnswerFits(w: World, s: nat, idx: nat)
    requires w.Ok() && s < |w.staged|
    ensures w.AnswerOk(s, w.env(s, w.Acts(s, idx + 1)))
    ensures |w.ObsAt(s, idx)| == |w.staged[s]|
  {
    assert idx > 0 ==> w.AnswerOk(s, w.env(s, w.Acts(s, idx)));
  }

  //////////////////////////// The interleaved stages ////////////////////////////

  /** Every active stage where it is, whatever the order in which the stages moved. */
  ghost predicate StagesOk(w: World, stages: map<nat, Stage>, active: seq<nat>, max: nat) {
    && Distinct(active)
    && (forall s :: s in stages <==> s in active)
    && forall s :: s in stages ==> StageOk(w, s, stages[s], max)
  }

  /** The stages' accounts of finished and successful trajectories, in the order of the active stages. */
  ghost function DoneAccounts(w: World, stages: map<nat, Stage>, active: seq<nat>, max: nat): (accounts: seq<nat>)
    requires StagesOk(w, stages, active, max)
    ensures |accounts| == |active|
  {
    seq(|active|, a requires 0 <= a < |active| => w.StageDone(active[a], stages[active[a]].idx))
  }

  ghost function SuccessAccounts(w: World, stages: map<nat, Stage>, active: seq<nat>, max: nat): (accounts: seq<nat>)
    requires StagesOk(w, stages, active, max)
    ensures |accounts| == |active|
  {
    seq(|active|, a requires 0 <= a < |active| => w.StageSuccess(active[a], stages[active[a]].idx))
  }

  /** How many regions each stage still has to run. */
  ghost function Regions(st: Stage, max: nat): nat
    requires st.idx <= max
  {
    2 * (max - st.idx) - if st.phase == AwaitEnv && st.idx < max then 1 else 0
  }

  ghost function Remaining(w: World, stages: map<nat, Stage>, active: seq<nat>, max: nat): (remaining: seq<nat>)
    requires StagesOk(w, stages, active, max)
    ensures |remaining| == |active|
  {
    seq(|active|, a requires 0 <= a < |active| => Regions(stages[active[a]], max))
  }

  /** Moving one stage changes its own account and its own remaining regions, nothing else. */
  lemma MoveStage(w: World, stages: map<nat, Stage>, active: seq<nat>, max: nat, a: nat, st: Stage)
    requires StagesOk(w, stages, active, max) && a < |active| && StageOk(w, active[a], st, max)
    ensures var s, after := active[a], stages[active[a] := st];
      && StagesOk(w, after, active, max)
      && SumNat(DoneAccounts(w, after, active, max))
         == SumNat(DoneAccounts(w, stages, active, max)) - w.StageDone(s, stages[s].idx) + w.StageDone(s, st.idx)
      && SumNat(SuccessAccounts(w, after, active, max))
         == SumNat(SuccessAccounts(w, stages, active, max)) - w.StageSuccess(s, stages[s].idx) + w.StageSuccess(s, st.idx)
      && SumNat(Remaining(w, after, active, max))
         == SumNat(Remaining(w, stages, active, max)) - Regions(stages[s], max) + Regions(st, max)
  {
    hide StageOk, World.StageDone, World.StageSuccess, Regions, SumNat;
    var s, after := active[a], stages[active[a] := st];
    StageIndex(w, s, st, max);
    SumUpdate(DoneAccounts(w, stages, active, max), a, w.StageDone(s, st.idx));
    SumUpdate(SuccessAccounts(w, stages, active, max), a, w.StageSuccess(s, st.idx));
    SumUpdate(Remaining(w, stages, active, max), a, Regions(st, max));
    assert DoneAccounts(w, after, active, max) == DoneAccounts(w, stages, active, max)[a := w.StageDone(s, st.idx)];
    assert SuccessAccounts(w, after, active, max) == SuccessAccounts(w, stages, active, max)[a := w.StageSuccess(s, st.idx)];
    assert Remaining(w, after, active, max) == Remaining(w, stages, active, max)[a := Regions(st, max)];
  }

  lemma StageIndex(w: World, s: nat, st: Stage, max: nat)
    requires StageOk(w, s, st, max)
    ensures s < |w.staged| && w.Ok() && st.idx <= max
  {
  }

  ghost predicate AllFit(w: World, active: seq<nat>, p: Partition)
    requires p.workers > 0
  {
    forall s :: s in active && s < |w.staged| ==> Fits(p, |w.staged[s]|)
  }

  class EnvLoop {
    const w: World
    const max: nat
    const p: Partition
    var stages: map<nat, Stage>
    var doneEps: nat
    var succEps: nat

    ghost predicate Counted(active: seq<nat>)
      reads this
    {
      && StagesOk(w, stages, active, max)
      && doneEps == SumNat(DoneAccounts(w, stages, active, max))
      && succEps == SumNat(SuccessAccounts(w, stages, active, max))
    }

    constructor (w: World, max: nat, p: Partition)
      ensures this.w == w && this.max == max && this.p == p
    {
      this.w, this.max, this.p := w, max, p;
      stages, doneEps, succEps := map[], 0, 0;
    }

    /** The stage records its reset observation and submits it. */
    method OpenStage(s: nat) returns (r: Result<Stage, LoopError>)
      requires w.Ok() && s < |w.staged| && max > 0 && p.workers > 0
      ensures r.Ok? <==> Fits(p, |w.staged[s]|)
      ensures r.Err? ==> r.error == UnequalWorkerBatch || r.error == UnequalPartition
      ensures r.Ok? ==> StageOk(w, s, r.value, max) && r.value.idx == 0 && w.StageDone(s, 0) == w.StageSuccess(s, 0) == 0
    {
      hide Fits, PC.NoDone, Flatten, SumNat;
      var obs := w.staged[s];
      var future := SubmitRollout(obs, p);
      if future.Err? {
        return Err(future.error);
      }
      var n := |obs|;
      r := Ok(Stage([Slot(obs, None, None)], future.value, AwaitPolicy, 0, [], [], seq(n, _ => false), seq(n, _ => PC.FreshLane), 0));
      NothingRun(w, s);
      FlattenNothing<TR.Step>();
      NoSteps();
    }

    /** One region of one stage's coroutine, with its effect on the shared counters. */
    method Resume(s: nat, ghost active: seq<nat>, ghost a: nat)
      requires Counted(active) && a < |active| && active[a] == s && s in stages && stages[s].phase != Finished && p.workers > 0
      requires AllFit(w, active, p)
      modifies this
      ensures Counted(active)
      ensures SumNat(Remaining(w, stages, active, max)) < old(SumNat(Remaining(w, stages, active, max)))
    {
      hide StagesOk, StageOk, World.StageDone, World.StageSuccess, SumNat, Fits, AllFit;
      ActiveStage(w, stages, active, max, a, p);
      var st := stages[s];
      if st.phase == AwaitPolicy {
        var next := ResumeWithAction(w, s, st, max);
        MoveStage(w, stages, active, max, a, next);
        stages := stages[s := next];
      } else {
        var next, done, succ := ResumeWithEnvResult(w, s, st, max, p);
        // The batch has kept its size, so this submission fits as the first one did.
        MoveStage(w, stages, active, max, a, next.value);
        stages := stages[s := next.value];
        doneEps, succEps := doneEps + done, succEps + succ;
      }
    }

    /** The active stages of a run: all of them, or the given distinct ids. */
    method ActiveIds(ids: Option<seq<int>>) returns (r: Result<seq<nat>, LoopError>)
      ensures ids.None? ==> (r.Ok? <==> w.staged != [])
      ensures r.Ok? && ids.None? ==> |r.value| == |w.staged| && forall a :: 0 <= a < |r.value| ==> r.value[a] == a
      ensures ids.Some? ==> (r.Ok? <==> ids.value != [] && Distinct(ids.value) && InStages(ids.value, |w.staged|))
      ensures r.Ok? ==> r.value != [] && Distinct(r.value) && forall a :: 0 <= a < |r.value| ==> r.value[a] < |w.staged|
      ensures r.Ok? && ids.Some? ==> |r.value| == |ids.value| && forall a :: 0 <= a < |r.value| ==> r.value[a] == ids.value[a]
      ensures r.Err? ==> r.error == if ids.None? || ids.value == [] then NoActiveStage else BadStageIds
    {
      if ids.None? {
        var all: seq<nat> := seq(|w.staged|, s requires 0 <= s => s);
        return if all == [] then Err(NoActiveStage) else Ok(all);
      }
      if ids.value == [] {
        return Err(NoActiveStage);
      }
      var active: seq<nat> := [];
      for a := 0 to |ids.value|
        invariant |active| == a && forall b :: 0 <= b < a ==> active[b] == ids.value[b] && active[b] < |w.staged|
        invariant Distinct(ids.value[..a])
      {
        var id := ids.value[a];
        if id in ids.value[..a] || id < 0 || id >= |w.staged| {
          BadId(ids.value, a, |w.staged|);
          return Err(BadStageIds);
        }
        assert ids.value[..a + 1] == ids.value[..a] + [id];
        active := active + [id];
      }
      assert ids.value[..|ids.value|] == ids.value;
      return Ok(active);
    }

    /**
     EnvLoop.run: open the active stages, then let the scheduler move any unfinished stage until none is left.
     The outcome is that of every stage running alone.
     */
    method Run(ids: Option<seq<int>>) returns (r: Result<seq<nat>, LoopError>)
      requires w.Ok() && max > 0 && p.workers > 0
      modifies this
      ensures r.Ok? ==> RunOk(r.value)
      ensures r.Err? && r.error.NoActiveStage? ==> ids == Some([]) || (ids.None? && w.staged == [])
      ensures r.Err? && r.error.BadStageIds? ==> ids.Some? && !(Distinct(ids.value) && InStages(ids.value, |w.staged|))
      ensures r.Ok? && ids.Some? ==> |r.value| == |ids.value| && forall a :: 0 <= a < |r.value| ==> r.value[a] == ids.value[a]
      ensures r.Ok? && ids.None? ==> |r.value| == |w.staged| && forall a :: 0 <= a < |r.value| ==> r.value[a] == a
      ensures r.Err? && (r.error.UnequalWorkerBatch? || r.error.UnequalPartition?) ==>
        exists s: nat :: s < |w.staged| && (ids.Some? ==> s in ids.value) && !Fits(p, |w.staged[s]|)
      ensures r.Ok? ==> AllFit(w, r.value, p)
    {
      hide StagesOk, World.StageDone, World.StageSuccess, SumNat, Fits, AllFit, World.Ok, StageOk;
      r := ActiveIds(ids);
      if r.Err? {
        return;
      }
      var active := r.value;
      var misfit := OpenStages(active);
      if misfit.Some? {
        return Err(misfit.value);
      }
      while exists s :: s in stages && stages[s].phase != Finished
        invariant Counted(active) && AllFit(w, active, p)
        decreases SumNat(Remaining(w, stages, active, max))
      {
        var s :| s in stages && stages[s].phase != Finished;
        ghost var a := IndexOf(w, stages, active, max, s);
        Resume(s, active, a);
      }
      AllFinished(active);
    }

    /** All active stages are open, in order, or the first misfit is reported. */
    method OpenStages(active: seq<nat>) returns (error: Option<LoopError>)
      requires w.Ok() && max > 0 && p.workers > 0 && Distinct(active) && forall a :: 0 <= a < |active| ==> active[a] < |w.staged|
      modifies this
      ensures error.None? ==> Counted(active) && AllFit(w, active, p)
      ensures error.Some? ==> error.value == UnequalWorkerBatch || error.value == UnequalPartition
      ensures error.Some? ==> exists a :: 0 <= a < |active| && !Fits(p, |w.staged[active[a]]|)
    {
      hide World.StageDone, World.StageSuccess, SumNat, Fits, World.Ok, StageOk;
      stages, doneEps, succEps := map[], 0, 0;
      for a := 0 to |active|
        invariant Opened(active[..a]) && AllFit(w, active[..a], p)
      {
        var st := OpenStage(active[a]);
        if st.Err? {
          return Some(st.error);
        }
        assert active[..a + 1] == active[..a] + [active[a]];
        stages := stages[active[a] := st.value];
      }
      assert active[..|active|] == active;
      NothingCounted(active);
      return None;
    }

    /** The stages opened so far have run nothing yet. */
    ghost predicate Opened(active: seq<nat>)
      reads this
    {
      && StagesOk(w, stages, active, max) && doneEps == succEps == 0
      && forall s :: s in stages ==> stages[s].idx == 0 && w.StageDone(s, 0) == w.StageSuccess(s, 0) == 0
    }

    lemma NothingCounted(active: seq<nat>)
      requires Opened(active)
      ensures Counted(active)
    {
      hide StageOk, World.StageDone, World.StageSuccess, SumNat;
      SumZeros(|active|);
      assert DoneAccounts(w, stages, active, max) == seq(|active|, _ => 0);
      assert SuccessAccounts(w, stages, active, max) == seq(|active|, _ => 0);
    }

    /**
     The result of a run: every active stage holds `max` complete slots, each the policy's answer to its
     observation and the environment's answer to that; the shared counters are the sums of the stages' own.
     */
    ghost predicate RunOk(active: seq<nat>)
      reads this
    {
      && w.Ok() && Distinct(active)
      && (forall s :: s in stages <==> s in active)
      && (forall s :: s in stages ==>
            && s < |w.staged| && stages[s].slots == w.Slots(s, max) && stages[s].lastObs == w.ObsAt(s, max)
            && stages[s].executed == w.StageExecuted(s, max))
      && (forall a :: 0 <= a < |active| ==> active[a] < |w.staged|)
      && doneEps == SumNat(seq(|active|, a requires 0 <= a < |active| => w.StageDone(active[a], max)))
      && succEps == SumNat(seq(|active|, a requires 0 <= a < |active| => w.StageSuccess(active[a], max)))
    }

    lemma AllFinished(active: seq<nat>)
      requires Counted(active) && w.Ok() && max > 0
      requires forall s :: s in stages ==> stages[s].phase == Finished
      ensures RunOk(active)
    {
      hide World.StageDone, World.StageSuccess, World.StageExecuted, World.Slots, World.ObsAt, World.Ok, SumNat;
      forall s | s in stages
        ensures s < |w.staged| && stages[s].idx == max && stages[s].slots == w.Slots(s, max)
        ensures stages[s].lastObs == w.ObsAt(s, max) && stages[s].executed == w.StageExecuted(s, max)
      {
        assert StageOk(w, s, stages[s], max);
        assert w.Slots(s, max) + [] == w.Slots(s, max);
      }
      assert forall a :: 0 <= a < |active| ==> active[a] in stages;
      assert DoneAccounts(w, stages, active, max) == seq(|active|, a requires 0 <= a < |active| => w.StageDone(active[a], max));
      assert SuccessAccounts(w, stages, active, max) == seq(|active|, a requires 0 <= a < |active| => w.StageSuccess(active[a], max));
    }
  }

  predicate InStages(ids: seq<int>, stages: nat) {
    forall a :: 0 <= a < |ids| ==> 0 <= ids[a] < stages
  }

  lemma BadId(ids: seq<int>, a: nat, stages: nat)
    requires a < |ids| && (ids[a] in ids[..a] || ids[a] < 0 || ids[a] >= stages)
    ensures !(Distinct(ids) && InStages(ids, stages))
  {
  }

  lemma IndexOf(w: World, stages: map<nat, Stage>, active: seq<nat>, max: nat, s: nat) returns (a: nat)
    requires StagesOk(w, stages, active, max) && s in stages
    ensures a < |active| && active[a] == s
  {
    assert s in active;
    a :| a < |active| && active[a] == s;
  }

  lemma ActiveStage(w: World, stages: map<nat, Stage>, active: seq<nat>, max: nat, a: nat, p: Partition)
    requires StagesOk(w, stages, active, max) && a < |active| && p.workers > 0 && AllFit(w, active, p)
    ensures active[a] in stages && StageOk(w, active[a], stages[active[a]], max) && active[a] < |w.staged|
    ensures Fits(p, |w.staged[active[a]]|)
    ensures stages[active[a]].phase != Finished ==> stages[active[a]].idx < max
  {
    hide Fits;
  }

  lemma NoSteps()
    ensures PC.NoDone([])
  {
  }

  lemma NothingRun(w: World, s: nat)
    requires w.Ok() && s < |w.staged|
    ensures w.StageDone(s, 0) == w.StageSuccess(s, 0) == w.StageExecuted(s, 0) == 0
    ensures forall lane :: 0 <= lane < |w.staged[s]| ==> w.LaneChunks(s, lane, 0) == []
  {
    var n := |w.staged[s]|;
    SumZeros(n);
    assert w.DoneCounts(s, 0) == seq(n, _ => 0);
    assert w.SuccessCounts(s, 0) == seq(n, _ => 0);
    assert w.ExecutedCounts(s, 0) == seq(n, _ => 0);
  }

  //////////////////////////// Collating the trajectories ////////////////////////////

  /** One interaction of one lane in the output batch. */
  datatype Entry = Entry(obs: Obs, action: Action, feedback: seq<TR.Step>)

  /** The lane's own closed-loop run, as if it had been alone. */
  ghost function LaneRun(w: World, s: nat, lane: nat, max: nat): seq<Entry>
    requires w.Ok() && s < |w.staged| && lane < |w.staged[s]|
  {
    seq(max, j requires 0 <= j < max => LaneEntry(w, s, lane, j))
  }

  ghost function LaneEntry(w: World, s: nat, lane: nat, j: nat): Entry
    requires w.Ok() && s < |w.staged| && lane < |w.staged[s]|
  {
    AnswerFits(w, s, j);
    Entry(w.ObsAt(s, j)[lane], w.policy(w.ObsAt(s, j)[lane]), w.RowOf(s, lane, j))
  }

  /** The rows of one stage: its lanes in order. */
  ghost function StageRows(w: World, s: nat, max: nat): (rows: seq<seq<Entry>>)
    requires w.Ok() && s < |w.staged|
    ensures |rows| == |w.staged[s]|
  {
    seq(|w.staged[s]|, lane requires 0 <= lane < |w.staged[s]| => LaneRun(w, s, lane, max))
  }

  predicate Ascending(ids: seq<nat>) {
    forall a, b :: 0 <= a < b < |ids| ==> ids[a] < ids[b]
  }

  function IdSet(ids: seq<nat>): set<nat> {
    set s | s in ids
  }

  /** The ids below `n` that are keys, in ascending order. */
  function SortedIds(ids: set<nat>, n: nat): (sorted: seq<nat>)
    ensures forall a :: 0 <= a < |sorted| ==> sorted[a] in ids && sorted[a] < n
    ensures Ascending(sorted) && forall s: nat :: s in sorted <==> s in ids && s < n
  {
    if n == 0 then [] else SortedIds(ids, n - 1) + if n - 1 in ids then [n - 1] else []
  }

  ghost predicate SameIds(a: seq<nat>, b: seq<nat>) {
    forall s :: s in a <==> s in b
  }

  lemma {:induction false} SortedUnique(a: seq<nat>, b: seq<nat>)
    requires Ascending(a) && Ascending(b) && SameIds(a, b)
    ensures a == b
  {
    hide SameIds, Ascending;
    SameEmptiness(a, b);
    if a != [] {
      SameLast(a, b);
      SameFront(a, b);
      SortedUnique(a[..|a| - 1], b[..|b| - 1]);
    }
  }

  lemma SameEmptiness(a: seq<nat>, b: seq<nat>)
    requires SameIds(a, b)
    ensures a == [] <==> b == []
  {
    assert a != [] ==> a[0] in a;
    assert b != [] ==> b[0] in b;
  }

  lemma SameLast(a: seq<nat>, b: seq<nat>)
    requires a != [] && b != [] && Ascending(a) && Ascending(b) && SameIds(a, b)
    ensures a[|a| - 1] == b[|b| - 1]
  {
    assert a[|a| - 1] in b && b[|b| - 1] in a;
  }

  lemma InFront(a: seq<nat>, s: nat)
    requires a != [] && Ascending(a)
    ensures s in a[..|a| - 1] <==> s in a && s != a[|a| - 1]
  {
    assert a == a[..|a| - 1] + [a[|a| - 1]];
  }

  lemma SameFront(a: seq<nat>, b: seq<nat>)
    requires a != [] && b != [] && Ascending(a) && Ascending(b) && SameIds(a, b) && a[|a| - 1] == b[|b| - 1]
    ensures Ascending(a[..|a| - 1]) && Ascending(b[..|b| - 1]) && SameIds(a[..|a| - 1], b[..|b| - 1])
  {
    var a', b' := a[..|a| - 1], b[..|b| - 1];
    forall s ensures s in a' <==> s in b' {
      InFront(a, s);
      InFront(b, s);
    }
  }

  /** The stages' rows, stage after stage. */
  ghost function OutputParts(w: World, ids: seq<nat>, max: nat): (parts: seq<seq<seq<Entry>>>)
    requires w.Ok() && forall a :: 0 <= a < |ids| ==> ids[a] < |w.staged|
    ensures |parts| == |ids|
  {
    seq(|ids|, a requires 0 <= a < |ids| => StageRows(w, ids[a], max))
  }

  /** The stages' last observations, stage after stage. */
  ghost function LastParts(w: World, ids: seq<nat>, max: nat): (parts: seq<seq<Obs>>)
    requires forall a :: 0 <= a < |ids| ==> ids[a] < |w.staged|
    ensures |parts| == |ids|
  {
    seq(|ids|, a requires 0 <= a < |ids| => w.ObsAt(ids[a], max))
  }

  //////////////////////////// The order of the lanes ////////////////////////////

  /** A stage and a lane in it. */
  type Lane = (nat, nat)

  ghost predicate IsLane(w: World, l: Lane) {
    l.0 < |w.staged| && l.1 < |w.staged[l.0]|
  }

  ghost predicate Known(w: World, ids: seq<nat>) {
    forall a :: 0 <= a < |ids| ==> ids[a] < |w.staged|
  }

  ghost function StageLanes(w: World, s: nat): seq<Lane>
    requires s < |w.staged|
  {
    seq(|w.staged[s]|, lane requires 0 <= lane < |w.staged[s]| => (s, lane))
  }

  /** The lanes of the stages, stage after stage. */
  ghost function Lanes(w: World, ids: seq<nat>): (lanes: seq<Lane>)
    requires Known(w, ids)
    ensures forall k :: 0 <= k < |lanes| ==> IsLane(w, lanes[k])
  {
    if ids == [] then [] else Lanes(w, ids[..|ids| - 1]) + StageLanes(w, ids[|ids| - 1])
  }

  /** Row `k` of the output is the run of lane `lanes[k]`. */
  ghost predicate RowsFollow(w: World, rows: seq<seq<Entry>>, lanes: seq<Lane>, max: nat)
    requires w.Ok()
  {
    && |rows| == |lanes|
    && forall k :: 0 <= k < |lanes| ==> IsLane(w, lanes[k]) && rows[k] == LaneRun(w, lanes[k].0, lanes[k].1, max)
  }

  /** Observation `k` is the one that lane `lanes[k]` ended on. */
  ghost predicate ObsFollow(w: World, obs: seq<Obs>, lanes: seq<Lane>, max: nat)
    requires w.Ok()
  {
    && |obs| == |lanes|
    && forall k :: 0 <= k < |lanes| ==> IsLane(w, lanes[k]) && LaneEndsOn(w, lanes[k], max, obs[k])
  }

  ghost predicate LaneEndsOn(w: World, l: Lane, max: nat, obs: Obs)
    requires w.Ok() && IsLane(w, l)
  {
    AnswerFits(w, l.0, max);
    obs == w.ObsAt(l.0, max)[l.1]
  }

  lemma {:induction false} RowsInLaneOrder(w: World, ids: seq<nat>, max: nat)
    requires w.Ok() && Known(w, ids)
    ensures RowsFollow(w, Flatten(OutputParts(w, ids, max)), Lanes(w, ids), max)
  {
    hide World.Ok, LaneRun, Flatten;
    FlattenNothing<seq<Entry>>();
    if ids != [] {
      var front := ids[..|ids| - 1];
      RowsInLaneOrder(w, front, max);
      FlattenLast(OutputParts(w, ids, max));
      assert OutputParts(w, ids, max)[..|ids| - 1] == OutputParts(w, front, max);
    }
  }

  lemma {:induction false} ObsInLaneOrder(w: World, ids: seq<nat>, max: nat)
    requires w.Ok() && Known(w, ids)
    ensures ObsFollow(w, Flatten(LastParts(w, ids, max)), Lanes(w, ids), max)
  {
    hide World.Ok, World.ObsAt, Flatten;
    FlattenNothing<Obs>();
    if ids != [] {
      var front, s := ids[..|ids| - 1], ids[|ids| - 1];
      ObsInLaneOrder(w, front, max);
      FlattenLast(LastParts(w, ids, max));
      assert LastParts(w, ids, max)[..|ids| - 1] == LastParts(w, front, max);
      AnswerFits(w, s, max);
    }
  }

  /** The stages that have lanes at all. */
  ghost function Occupied(w: World, ids: seq<nat>): (occupied: seq<nat>)
    requires Known(w, ids)
    ensures Known(w, occupied)
    ensures forall s :: s in occupied <==> s in ids && w.staged[s] != []
  {
    if ids == [] then []
    else Occupied(w, ids[..|ids| - 1]) + if w.staged[ids[|ids| - 1]] == [] then [] else [ids[|ids| - 1]]
  }

  lemma {:induction false} OccupiedAscends(w: World, ids: seq<nat>)
    requires Ascending(ids) && Known(w, ids)
    ensures Ascending(Occupied(w, ids))
  {
    if ids != [] {
      var front := ids[..|ids| - 1];
      OccupiedAscends(w, front);
      forall a | 0 <= a < |Occupied(w, front)| ensures Occupied(w, front)[a] < ids[|ids| - 1] {
        assert Occupied(w, front)[a] in front;
      }
    }
  }

  /** The stages of the first lanes. */
  ghost function Heads(lanes: seq<Lane>): seq<nat> {
    if lanes == [] then []
    else Heads(lanes[..|lanes| - 1]) + if lanes[|lanes| - 1].1 == 0 then [lanes[|lanes| - 1].0] else []
  }

  lemma {:induction false} HeadsAppend(a: seq<Lane>, b: seq<Lane>)
    ensures Heads(a + b) == Heads(a) + Heads(b)
  {
    if b == [] {
      assert a + b == a;
    } else {
      HeadsAppend(a, b[..|b| - 1]);
      assert (a + b)[..|a + b| - 1] == a + b[..|b| - 1];
    }
  }

  lemma {:induction false} StageHead(lanes: seq<Lane>, s: nat)
    requires forall k :: 0 <= k < |lanes| ==> lanes[k] == (s, k)
    ensures Heads(lanes) == if lanes == [] then [] else [s]
  {
    if lanes != [] {
      StageHead(lanes[..|lanes| - 1], s);
    }
  }

  lemma {:induction false} HeadsAreOccupied(w: World, ids: seq<nat>)
    requires Known(w, ids)
    ensures Heads(Lanes(w, ids)) == Occupied(w, ids)
  {
    if ids != [] {
      var front, s := ids[..|ids| - 1], ids[|ids| - 1];
      HeadsAreOccupied(w, front);
      HeadsAppend(Lanes(w, front), StageLanes(w, s));
      StageHead(StageLanes(w, s), s);
    }
  }

  lemma {:induction false} EmptyStagesDoNotMatter(w: World, ids: seq<nat>)
    requires Known(w, ids)
    ensures Lanes(w, Occupied(w, ids)) == Lanes(w, ids)
  {
    hide Lanes;
    NoLanes(w);
    if ids != [] {
      var front, s := ids[..|ids| - 1], ids[|ids| - 1];
      EmptyStagesDoNotMatter(w, front);
      LanesGrow(w, front, s);
      LanesGrow(w, Occupied(w, front), s);
      assert ids == front + [s];
      if w.staged[s] == [] {
        assert Occupied(w, ids) == Occupied(w, front);
        assert Lanes(w, front) + StageLanes(w, s) == Lanes(w, front);
      } else {
        assert Occupied(w, ids) == Occupied(w, front) + [s];
      }
    }
  }

  lemma NoLanes(w: World)
    ensures Lanes(w, []) == []
  {
  }

  lemma LanesGrow(w: World, ids: seq<nat>, s: nat)
    requires Known(w, ids) && s < |w.staged|
    ensures Lanes(w, ids + [s]) == Lanes(w, ids) + StageLanes(w, s)
  {
    assert (ids + [s])[..|ids|] == ids;
  }

  /**
   The collated output follows the ascending stage ids, the last observations the given ones. Row by row they
   speak of the same lanes exactly when the given stages that have lanes ascend.
   */
  lemma OrdersAgreeIffAscending(w: World, active: seq<nat>)
    requires Known(w, active) && Distinct(active)
    ensures Lanes(w, SortedIds(IdSet(active), |w.staged|)) == Lanes(w, active) <==> Ascending(Occupied(w, active))
  {
    hide Lanes, Ascending, Occupied;
    var sorted := SortedIds(IdSet(active), |w.staged|);
    OccupiedAscends(w, sorted);
    HeadsAreOccupied(w, sorted);
    HeadsAreOccupied(w, active);
    EmptyStagesDoNotMatter(w, sorted);
    EmptyStagesDoNotMatter(w, active);
    if Ascending(Occupied(w, active)) {
      SortedUnique(Occupied(w, sorted), Occupied(w, active));
    }
  }

  lemma {:induction false} FirstLane(w: World, ids: seq<nat>)
    requires Known(w, ids) && ids != [] && w.staged[ids[0]] != []
    ensures Lanes(w, ids) != [] && Lanes(w, ids)[0] == (ids[0], 0)
  {
    hide Lanes;
    NoLanes(w);
    var front, s := ids[..|ids| - 1], ids[|ids| - 1];
    assert ids == front + [s];
    LanesGrow(w, front, s);
    if front != [] {
      FirstLane(w, front);
    }
  }

  /** Two stages given in descending order: row 0 is of stage 0, but observation 0 of stage 1. */
  lemma DescendingStagesDisagree(w: World, active: seq<nat>, sorted: seq<nat>)
    requires active == [1, 0] && |w.staged| == 2 && w.staged[0] != [] && w.staged[1] != []
    requires sorted == SortedIds(IdSet(active), |w.staged|)
    ensures Lanes(w, active) != [] && Lanes(w, active)[0] == (1, 0)
    ensures Lanes(w, sorted) != [] && Lanes(w, sorted)[0] == (0, 0)
  {
    hide Lanes, SortedIds;
    SortedUnique(sorted, [0, 1]);
    FirstLane(w, active);
    FirstLane(w, sorted);
  }

  /** Stack one stage's slots lane by lane. */
  method StackStage(ghost w: World, ghost s: nat, slots: seq<Slot>, ghost max: nat) returns (rows: seq<seq<Entry>>)
    requires w.Ok() && s < |w.staged| && max > 0 && slots == w.Slots(s, max)
    ensures rows == StageRows(w, s, max)
  {
    hide World.Ok, World.ObsAt, World.RowsAt;
    SlotsStack(w, s, max);
    rows := seq(|slots[0].obs|, lane requires 0 <= lane < |slots[0].obs| =>
      seq(|slots|, j requires 0 <= j < |slots| => Entry(slots[j].obs[lane], slots[j].action.value[lane], slots[j].feedback.value[lane])));
    forall lane | 0 <= lane < |rows| ensures rows[lane] == LaneRun(w, s, lane, max) {
      forall j | 0 <= j < max ensures rows[lane][j] == LaneEntry(w, s, lane, j) {
        SlotEntry(w, s, lane, j);
      }
    }
  }

  lemma SlotsStack(w: World, s: nat, max: nat)
    requires w.Ok() && s < |w.staged|
    ensures forall j :: 0 <= j < max ==>
      |w.Slots(s, max)[j].obs| == |w.Slots(s, max)[j].action.value| == |w.Slots(s, max)[j].feedback.value| == |w.staged[s]|
  {
    forall j: nat | j < max ensures |w.ObsAt(s, j)| == |w.RowsAt(s, j)| == |w.staged[s]| {
      AnswerFits(w, s, j);
    }
  }

  lemma SlotEntry(w: World, s: nat, lane: nat, j: nat)
    requires w.Ok() && s < |w.staged| && lane < |w.staged[s]|
    ensures var slot := w.SlotAt(s, j);
      && |slot.obs| == |slot.action.value| == |slot.feedback.value| == |w.staged[s]|
      && Entry(slot.obs[lane], slot.action.value[lane], slot.feedback.value[lane]) == LaneEntry(w, s, lane, j)
  {
    AnswerFits(w, s, j);
  }

  /**
   _collate_trajectories after a run: stage after stage in ascending id order, lane after lane, every row is
   that lane's own closed-loop run.
   */
  method Collate(loop: EnvLoop, ghost active: seq<nat>) returns (rows: seq<seq<Entry>>)
    requires loop.RunOk(active) && loop.max > 0
    ensures (forall a :: 0 <= a < |active| ==> active[a] < |loop.w.staged|) && loop.w.Ok()
    ensures rows == Flatten(OutputParts(loop.w, SortedIds(IdSet(active), |loop.w.staged|), loop.max))
    ensures RowsFollow(loop.w, rows, Lanes(loop.w, SortedIds(IdSet(active), |loop.w.staged|)), loop.max)
  {
    hide World.Ok, StageRows, Flatten, World.Slots, World.ObsAt, World.StageExecuted, World.StageDone, World.StageSuccess,
      SumNat, RowsFollow;
    var ids := SortedIds(loop.stages.Keys, |loop.w.staged|);
    assert loop.stages.Keys == IdSet(active);
    ghost var parts := OutputParts(loop.w, ids, loop.max);
    rows := [];
    FlattenNothing<seq<Entry>>();
    for a := 0 to |ids|
      invariant rows == Flatten(parts[..a])
    {
      assert ids[a] in ids;
      assert parts[..a + 1][..a] == parts[..a];
      FlattenLast(parts[..a + 1]);
      var stage := StackStage(loop.w, ids[a], loop.stages[ids[a]].slots, loop.max);
      rows := rows + stage;
    }
    assert parts[..|ids|] == parts;
    RowsInLaneOrder(loop.w, ids, loop.max);
  }

  /** The last observations, in the order the active stages were given. */
  method LastObservations(loop: EnvLoop, active: seq<nat>) returns (obs: seq<Obs>)
    requires loop.RunOk(active)
    ensures forall a :: 0 <= a < |active| ==> active[a] < |loop.w.staged|
    ensures loop.w.Ok() && obs == Flatten(LastParts(loop.w, active, loop.max))
    ensures ObsFollow(loop.w, obs, Lanes(loop.w, active), loop.max)
  {
    hide World.Ok, Flatten, World.Slots, World.ObsAt, World.StageExecuted, World.StageDone, World.StageSuccess, SumNat,
      ObsFollow;
    ghost var parts := LastParts(loop.w, active, loop.max);
    obs := [];
    FlattenNothing<Obs>();
    for a := 0 to |active|
      invariant obs == Flatten(parts[..a])
    {
      assert active[a] in active;
      assert parts[..a + 1][..a] == parts[..a];
      FlattenLast(parts[..a + 1]);
      obs := obs + loop.stages[active[a]].lastObs;
    }
    assert parts[..|active|] == parts;
    ObsInLaneOrder(loop.w, active, loop.max);
  }

  //////////////////////////// Agreement of the accounts ////////////////////////////

  /** The lengths of the records the finished rows of a stage will have. */
  ghost function RecordLengths(w: World, s: nat, max: nat): (lengths: seq<nat>)
    requires w.Ok() && s < |w.staged|
    requires forall lane :: 0 <= lane < |w.staged[s]| ==> Flatten(w.LaneChunks(s, lane, max)) != []
    ensures |lengths| == |w.staged[s]|
  {
    seq(|w.staged[s]|, lane requires 0 <= lane < |w.staged[s]| => TR.StopAt(Flatten(w.LaneChunks(s, lane, max))) + 1)
  }

  /** The executed low-level steps of a stage are the total length of its trajectory records. */
  lemma ExecutedStepsAreRecorded(w: World, s: nat, max: nat)
    requires w.Ok() && s < |w.staged|
    requires forall lane :: 0 <= lane < |w.staged[s]| ==> Flatten(w.LaneChunks(s, lane, max)) != []
    ensures w.StageExecuted(s, max) == SumNat(RecordLengths(w, s, max))
  {
    hide World.LaneChunks, Flatten, PC.ExecutedSteps, SumNat;
    forall lane | 0 <= lane < |w.staged[s]| ensures w.ExecutedCounts(s, max)[lane] == RecordLengths(w, s, max)[lane] {
      PC.ExecutedStepsAreRecordLength(w.LaneChunks(s, lane, max));
    }
    assert w.ExecutedCounts(s, max) == RecordLengths(w, s, max);
  }

  /** 1 for every lane that finished. */
  ghost function FinishedLanes(w: World, s: nat, max: nat): (counts: seq<nat>)
    requires w.Ok() && s < |w.staged|
    ensures |counts| == |w.staged[s]|
  {
    seq(|w.staged[s]|, lane requires 0 <= lane < |w.staged[s]| => if PC.NoDone(Flatten(w.LaneChunks(s, lane, max))) then 0 else 1)
  }

  /** 1 for every lane that finished with a success at or before its first done step. */
  ghost function SuccessfulLanes(w: World, s: nat, max: nat): (counts: seq<nat>)
    requires w.Ok() && s < |w.staged|
    ensures |counts| == |w.staged[s]|
  {
    seq(|w.staged[s]|, lane requires 0 <= lane < |w.staged[s]| =>
      var steps := Flatten(w.LaneChunks(s, lane, max));
      if !PC.NoDone(steps) && TR.AnySuccess(steps[..TR.StopAt(steps) + 1]) then 1 else 0)
  }

  /** With at most one done pulse per lane the counters are the finished and the successful lanes. */
  lemma CountersAreLanes(w: World, s: nat, max: nat)
    requires w.Ok() && s < |w.staged|
    requires forall lane :: 0 <= lane < |w.staged[s]| ==> PC.SinglePulse(Flatten(w.LaneChunks(s, lane, max)))
    ensures w.StageDone(s, max) == SumNat(FinishedLanes(w, s, max))
    ensures w.StageSuccess(s, max) == SumNat(SuccessfulLanes(w, s, max))
  {
    hide World.LaneChunks, Flatten, PC.LaneTally, PC.SinglePulse, SumNat;
    forall lane | 0 <= lane < |w.staged[s]|
      ensures w.DoneCounts(s, max)[lane] == FinishedLanes(w, s, max)[lane]
      ensures w.SuccessCounts(s, max)[lane] == SuccessfulLanes(w, s, max)[lane]
    {
      PC.ProgressAgreesWithRecord(w.LaneChunks(s, lane, max));
    }
    assert w.DoneCounts(s, max) == FinishedLanes(w, s, max);
    assert w.SuccessCounts(s, max) == SuccessfulLanes(w, s, max);
  }
}
