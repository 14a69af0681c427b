/**
 Fixed-case evaluation: reset waves over all simulators, the stage-major batch they form, and the
 per-case quota loop that ends the evaluation.
 */
module FixedCaseEval {
  import opened Common
  import opened Batches
  import opened CaseSchedule
  import Arithmetic
  import TR = TrajectoryRecords

  //////////////////////////// Occurrences in the cyclic stream ////////////////////////////

  /** How often case `i` of `n` occurs among the first `m` positions of the stream. */
  function Share(m: nat, n: nat, i: nat): nat
    requires n > 0
  {
    m / n + if i < m % n then 1 else 0
  }

  function Occurrences(m: nat, n: nat, i: nat): nat
    requires n > 0
  {
    if m == 0 then 0 else Occurrences(m - 1, n, i) + if (m - 1) % n == i then 1 else 0
  }

  lemma {:induction false} OccurrencesAreShares(m: nat, n: nat, i: nat)
    requires n > 0 && i < n
    ensures Occurrences(m, n, i) == Share(m, n, i)
  {
    if m == 0 {
      Arithmetic.DivModUnique(0, n, 0);
    } else {
      OccurrencesAreShares(m - 1, n, i);
      NextShare(m - 1, n, i);
    }
  }

  lemma NextShare(m: nat, n: nat, i: nat)
    requires n > 0 && i < n
    ensures Share(m + 1, n, i) == Share(m, n, i) + if m % n == i then 1 else 0
  {
    var q, r := m / n, m % n;
    assert m == q * n + r;
    if r + 1 < n {
      Arithmetic.DivModUnique(q, n, r + 1);
    } else {
      Arithmetic.DivModUnique(q + 1, n, 0);
      assert (q + 1) * n == q * n + n;
    }
  }

  lemma {:induction false} OccurrencesGrow(a: nat, b: nat, n: nat, i: nat)
    requires n > 0 && a <= b
    ensures Occurrences(a, n, i) <= Occurrences(b, n, i)
    decreases b
  {
    if a < b {
      OccurrencesGrow(a, b - 1, n, i);
    }
  }

  //////////////////////////// The batch of one wave ////////////////////////////

  /** `len` consecutive case ids of the stream from position `start`. */
  function Ids(n: nat, start: nat, len: nat): (ids: seq<nat>)
    requires n > 0
    ensures |ids| == len
  {
    seq(len, i requires 0 <= i => (start + i) % n)
  }

  lemma IdsAppend(n: nat, start: nat, a: nat, b: nat)
    requires n > 0
    ensures Ids(n, start, a) + Ids(n, start + a, b) == Ids(n, start, a + b)
  {
  }

  /** What the simulator of stage `s` on worker `r` contributes to wave `wave`. */
  function Served(g: Grid, n: nat, wave: nat, r: nat, s: nat): seq<nat>
    requires n > 0
  {
    Ids(n, g.Index(wave, s, r, 0), g.envs)
  }

  /** The stages of worker `r`. */
  ghost function WorkerParts(g: Grid, n: nat, wave: nat, r: nat): (parts: seq<seq<nat>>)
    requires n > 0
    ensures |parts| == g.stages && AllSized(parts, g.envs)
  {
    seq(g.stages, s requires 0 <= s => Served(g, n, wave, r, s))
  }

  /** The reset batch as the workers deliver it: worker after worker, each stage after stage. */
  ghost function Workers(g: Grid, n: nat, wave: nat): (parts: seq<seq<nat>>)
    requires n > 0
    ensures |parts| == g.world
  {
    seq(g.world, r requires 0 <= r => Flatten(WorkerParts(g, n, wave, r)))
  }

  /** The workers of stage `s`. */
  ghost function StageParts(g: Grid, n: nat, wave: nat, s: nat, world: nat): (parts: seq<seq<nat>>)
    requires n > 0
    ensures |parts| == world
  {
    seq(world, r requires 0 <= r => Served(g, n, wave, r, s))
  }

  function StageStart(g: Grid, wave: nat, s: nat): nat {
    g.Index(wave, s, 0, 0)
  }

  lemma SlotStart(g: Grid, wave: nat, s: nat, r: nat)
    ensures g.Index(wave, s, r, 0) == StageStart(g, wave, s) + r * g.envs
    ensures StageStart(g, wave, s + 1) == StageStart(g, wave, s) + g.world * g.envs
    ensures StageStart(g, wave, 0) == wave * g.Width()
  {
    assert (s * g.world + r) * g.envs == s * g.world * g.envs + r * g.envs;
    assert (s + 1) * g.world * g.envs == s * g.world * g.envs + g.world * g.envs;
  }

  /** One stage's workers serve consecutive stream positions. */
  lemma {:induction false} StageIsConsecutive(g: Grid, n: nat, wave: nat, s: nat, world: nat)
    requires n > 0
    ensures world * g.envs >= 0
    ensures Flatten(StageParts(g, n, wave, s, world)) == Ids(n, StageStart(g, wave, s), world * g.envs)
  {
    hide Ids, Grid.Index, StageStart;
    var parts := StageParts(g, n, wave, s, world);
    Arithmetic.ProductNonNegative(world, g.envs);
    if world == 0 {
      NoIds(n, StageStart(g, wave, s));
    } else {
      StageIsConsecutive(g, n, wave, s, world - 1);
      assert parts[..world - 1] == StageParts(g, n, wave, s, world - 1);
      SlotStart(g, wave, s, world - 1);
      assert world * g.envs == (world - 1) * g.envs + g.envs;
      IdsAppend(n, StageStart(g, wave, s), (world - 1) * g.envs, g.envs);
    }
  }

  lemma NoIds(n: nat, start: nat)
    requires n > 0
    ensures Ids(n, start, 0) == []
  {
  }

  /** All stages one after the other: the whole wave is consecutive in the stream. */
  ghost function Stages(g: Grid, n: nat, wave: nat, stages: nat): (parts: seq<seq<nat>>)
    requires n > 0
    ensures |parts| == stages
  {
    seq(stages, s requires 0 <= s => Flatten(StageParts(g, n, wave, s, g.world)))
  }

  lemma {:induction false} WaveIsConsecutive(g: Grid, n: nat, wave: nat, stages: nat)
    requires n > 0
    ensures StageStart(g, wave, stages) >= StageStart(g, wave, 0)
    ensures Flatten(Stages(g, n, wave, stages))
         == Ids(n, StageStart(g, wave, 0), StageStart(g, wave, stages) - StageStart(g, wave, 0))
  {
    hide Ids, Grid.Index, StageStart, Flatten;
    var start := StageStart(g, wave, 0);
    if stages == 0 {
      NoIds(n, start);
      FlattenNothing<nat>();
      assert Stages(g, n, wave, 0) == [];
    } else {
      WaveIsConsecutive(g, n, wave, stages - 1);
      var parts := Stages(g, n, wave, stages);
      assert parts[..stages - 1] == Stages(g, n, wave, stages - 1);
      FlattenLast(parts);
      StageIsConsecutive(g, n, wave, stages - 1, g.world);
      SlotStart(g, wave, stages - 1, 0);
      IdsAppend(n, start, StageStart(g, wave, stages - 1) - start, g.world * g.envs);
    }
  }

  /** The stage-major batch of a wave is exactly the next `Width` positions of the stream. */
  lemma StageMajorBatchIsTheStream(g: Grid, n: nat, wave: nat)
    requires n > 0
    ensures wave * g.Width() >= 0
    ensures Flatten(Stages(g, n, wave, g.stages)) == Ids(n, wave * g.Width(), g.Width())
  {
    hide Ids, Flatten;
    WaveIsConsecutive(g, n, wave, g.stages);
    assert StageStart(g, wave, g.stages) == wave * g.Width() + g.Width() by {
      assert g.stages * g.world * g.envs == g.world * g.stages * g.envs;
    }
  }

  //////////////////////////// Resetting and regrouping one wave ////////////////////////////

  /** The cursor of every simulator after `waves` full draws. */
  function Cursor(g: Grid, waves: nat): nat {
    waves * g.envs
  }

  lemma NextCursor(g: Grid, waves: nat)
    requires g.envs > 0
    ensures Cursor(g, waves + 1) == Cursor(g, waves) + g.envs
    ensures Cursor(g, waves) / g.envs == waves && Cursor(g, 0) == 0
  {
    Arithmetic.DivModUnique(waves, g.envs, 0);
  }

  /** The simulators of worker `r`, one per pipeline stage, all on the same `n` configured cases. */
  ghost predicate WorkerOk(stages: seq<RoboDojoSchedule>, g: Grid, n: nat, r: nat)
    reads stages
  {
    && |stages| == g.stages
    && forall s :: 0 <= s < |stages| ==>
         && stages[s].Valid() && stages[s].grid == g && stages[s].rank == r && stages[s].stage == s
         && stages[s].runtimeLayouts == None && |stages[s].cfg.layoutIds| == n
  }

  ghost predicate AtWave(stages: seq<RoboDojoSchedule>, g: Grid, waves: nat)
    reads stages
  {
    forall s :: 0 <= s < |stages| ==> stages[s].evalCursor == Cursor(g, waves)
  }

  ghost function Simulators(sims: seq<seq<RoboDojoSchedule>>): set<object> {
    set r, s | 0 <= r < |sims| && 0 <= s < |sims[r]| :: sims[r][s]
  }

  ghost predicate Fleet(sims: seq<seq<RoboDojoSchedule>>, g: Grid, n: nat)
    reads Simulators(sims)
  {
    n > 0 && g.Ok() && |sims| == g.world && forall r :: 0 <= r < |sims| ==> WorkerOk(sims[r], g, n, r)
  }

  ghost predicate FleetAt(sims: seq<seq<RoboDojoSchedule>>, g: Grid, waves: nat)
    reads Simulators(sims)
  {
    forall r :: 0 <= r < |sims| ==> AtWave(sims[r], g, waves)
  }

  /** One simulator's reset in wave `wave` serves its share of that wave. */
  method ResetStage(sim: RoboDojoSchedule, g: Grid, n: nat, wave: nat, resetEval: bool) returns (ids: seq<nat>)
    requires n > 0 && sim.Valid() && sim.grid == g && sim.runtimeLayouts == None && |sim.cfg.layoutIds| == n
    requires if resetEval then wave == 0 else sim.evalCursor == Cursor(g, wave)
    modifies sim`evalCursor
    ensures sim.Valid() && sim.evalCursor == Cursor(g, wave + 1)
    ensures ids == Served(g, n, wave, sim.rank, sim.stage)
  {
    hide Grid.Index, Grid.Width, Cursor;
    NextCursor(g, wave);
    var cases := sim.EnvReset(resetEval);
    ids := cases.caseIds;
    ServedFrom(g, n, wave, sim.rank, sim.stage, ids);
  }

  lemma ServedFrom(g: Grid, n: nat, wave: nat, r: nat, s: nat, ids: seq<nat>)
    requires n > 0 && |ids| == g.envs
    requires forall env :: 0 <= env < g.envs ==> ids[env] == g.Index(wave, s, r, env) % n
    ensures ids == Served(g, n, wave, r, s)
  {
    forall env | 0 <= env < g.envs ensures g.Index(wave, s, r, env) == g.Index(wave, s, r, 0) + env {
    }
  }

  /** reset_env on one worker: its stages reset independently and their rows are joined in stage order. */
  method ResetWorker(stages: seq<RoboDojoSchedule>, g: Grid, n: nat, r: nat, wave: nat, resetEval: bool)
    returns (batch: seq<nat>)
    requires n > 0 && WorkerOk(stages, g, n, r)
    requires if resetEval then wave == 0 else AtWave(stages, g, wave)
    modifies stages
    ensures WorkerOk(stages, g, n, r) && AtWave(stages, g, wave + 1)
    ensures batch == Flatten(WorkerParts(g, n, wave, r))
  {
    hide Grid.Index, Grid.Width, Cursor, Served, Flatten;
    batch := [];
    FlattenNothing<nat>();
    ghost var parts := WorkerParts(g, n, wave, r);
    for s := 0 to |stages|
      invariant WorkerOk(stages, g, n, r)
      invariant forall j :: 0 <= j < s ==> stages[j].evalCursor == Cursor(g, wave + 1)
      invariant !resetEval ==> forall j :: s <= j < |stages| ==> stages[j].evalCursor == Cursor(g, wave)
      invariant batch == Flatten(parts[..s])
    {
      var ids := ResetStage(stages[s], g, n, wave, resetEval);
      assert parts[..s + 1][..s] == parts[..s];
      FlattenLast(parts[..s + 1]);
      batch := batch + ids;
    }
    assert parts[..|stages|] == parts;
  }

  /** A blocking reset wave over all workers; the batch arrives worker by worker. */
  method ResetWave(sims: seq<seq<RoboDojoSchedule>>, g: Grid, n: nat, wave: nat, resetEval: bool) returns (batch: seq<nat>)
    requires Fleet(sims, g, n) && if resetEval then wave == 0 else FleetAt(sims, g, wave)
    modifies Simulators(sims)
    ensures Fleet(sims, g, n) && FleetAt(sims, g, wave + 1)
    ensures batch == Flatten(Workers(g, n, wave))
  {
    hide Grid.Index, Grid.Width, Cursor, Served, Flatten;
    batch := [];
    FlattenNothing<nat>();
    ghost var parts := Workers(g, n, wave);
    for r := 0 to |sims|
      invariant Fleet(sims, g, n)
      invariant forall j :: 0 <= j < r ==> AtWave(sims[j], g, wave + 1)
      invariant !resetEval ==> forall j :: r <= j < |sims| ==> AtWave(sims[j], g, wave)
      invariant batch == Flatten(parts[..r])
    {
      var rows := ResetWorker(sims[r], g, n, r, wave, resetEval);
      assert parts[..r + 1][..r] == parts[..r];
      FlattenLast(parts[..r + 1]);
      batch := batch + rows;
    }
    assert parts[..|sims|] == parts;
  }

  lemma WorkersAreChunks(g: Grid, n: nat, wave: nat)
    requires n > 0
    ensures var batch := Flatten(Workers(g, n, wave));
      && |batch| == g.world * (g.stages * g.envs)
      && Chunked(batch, g.stages * g.envs, g.world) == Workers(g, n, wave)
  {
    hide Served;
    var parts := Workers(g, n, wave);
    forall r | 0 <= r < g.world ensures |parts[r]| == g.stages * g.envs {
      ChunkedFlatten(WorkerParts(g, n, wave, r), g.envs);
    }
    ChunkedFlatten(parts, g.stages * g.envs);
  }

  /** The rows collected for stage `s` after the first `r` workers. */
  ghost predicate Gathered(staged: seq<seq<nat>>, g: Grid, n: nat, wave: nat, r: nat)
    requires n > 0
  {
    |staged| == g.stages && forall s :: 0 <= s < g.stages ==> staged[s] == Flatten(StageParts(g, n, wave, s, r))
  }

  /**
   _restructure_obs_data: cut the worker-major batch per worker, cut each part per stage, and join the
   parts of every stage.
   */
  method Restructure(batch: seq<nat>, g: Grid, ghost n: nat, ghost wave: nat) returns (staged: seq<seq<nat>>)
    requires n > 0 && batch == Flatten(Workers(g, n, wave))
    ensures staged == Stages(g, n, wave, g.stages)
  {
    hide Served, Flatten, Chunked;
    WorkersAreChunks(g, n, wave);
    staged := seq(g.stages, _ => []);
    forall s | 0 <= s < g.stages ensures staged[s] == Flatten(StageParts(g, n, wave, s, 0)) {
      FlattenNothing<nat>();
      assert StageParts(g, n, wave, s, 0) == [];
    }
    var chunks := Chunked(batch, g.stages * g.envs, g.world);
    for r := 0 to |chunks|
      invariant Gathered(staged, g, n, wave, r)
    {
      WorkerChunks(g, n, wave, r);
      var parts := Chunked(chunks[r], g.envs, g.stages);
      ghost var before := staged;
      for s := 0 to |parts|
        invariant |staged| == g.stages
        invariant forall j :: 0 <= j < s ==> staged[j] == before[j] + parts[j]
        invariant forall j :: s <= j < g.stages ==> staged[j] == before[j]
      {
        staged := staged[s := staged[s] + parts[s]];
      }
      NextWorker(before, staged, g, n, wave, r);
    }
  }

  lemma WorkerChunks(g: Grid, n: nat, wave: nat, r: nat)
    requires n > 0
    ensures var rows := Flatten(WorkerParts(g, n, wave, r));
      |rows| == g.stages * g.envs && Chunked(rows, g.envs, g.stages) == WorkerParts(g, n, wave, r)
  {
    hide Served;
    ChunkedFlatten(WorkerParts(g, n, wave, r), g.envs);
  }

  lemma NextWorker(before: seq<seq<nat>>, after: seq<seq<nat>>, g: Grid, n: nat, wave: nat, r: nat)
    requires n > 0 && Gathered(before, g, n, wave, r) && |after| == g.stages
    requires forall s :: 0 <= s < g.stages ==> after[s] == before[s] + WorkerParts(g, n, wave, r)[s]
    ensures Gathered(after, g, n, wave, r + 1)
  {
    hide Served, Flatten;
    forall s | 0 <= s < g.stages ensures after[s] == Flatten(StageParts(g, n, wave, s, r + 1)) {
      var parts := StageParts(g, n, wave, s, r + 1);
      assert parts[..r] == StageParts(g, n, wave, s, r);
      FlattenLast(parts);
    }
  }

  //////////////////////////// The evaluation loop ////////////////////////////

  datatype EvalError = OutOfRangeCase(id: int)

  /** One episode as policy and simulator play it: its steps, its task, and the metadata of its case. */
  datatype Played = Played(steps: seq<TR.Step>, taskId: int, metadata: map<string, int>)

  /** The episode in one row of one wave. */
  type Rollout = (nat, nat) -> Played

  ghost predicate Total(rollout: Rollout) {
    forall wave: nat, row: nat :: rollout(wave, row).steps != []
  }

  /** The record of stream position `m`: the episode of its row in its wave, under case `m % n`. */
  ghost function StreamRecord(rollout: Rollout, g: Grid, n: nat, k: nat, m: nat): TR.Record
    requires Total(rollout) && g.Width() > 0 && n > 0 && k > 0
  {
    TR.EpisodeRecord(LaneOf(rollout, m / g.Width(), m % g.Width(), m % n), k)
  }

  /** The record describes the episode of stream position `m`: row `m % width` of wave `m / width`, case `m % n`. */
  ghost predicate DescribesPosition(r: TR.Record, rollout: Rollout, g: Grid, n: nat, k: nat, m: nat)
    requires g.Width() > 0 && n > 0
  {
    var played := rollout(m / g.Width(), m % g.Width());
    TR.Describes(r, TR.Lane(played.steps, played.taskId, Some(m % n), played.metadata), k)
  }

  lemma StreamDescribed(records: seq<TR.Record>, rollout: Rollout, g: Grid, n: nat, k: nat)
    requires Total(rollout) && g.Width() > 0 && n > 0 && k > 0 && IsStream(records, rollout, g, n, k, 0)
    ensures forall j :: 0 <= j < |records| ==> DescribesPosition(records[j], rollout, g, n, k, j)
  {
    hide TR.EpisodeRecord, TR.Describes, Grid.Width;
    forall j | 0 <= j < |records| ensures DescribesPosition(records[j], rollout, g, n, k, j) {
      TR.EpisodeIsDescribed(LaneOf(rollout, j / g.Width(), j % g.Width(), j % n), k);
    }
  }

  /** How many evaluation episodes case `i` owes, for any (also a negative) total. */
  function Quota(total: int, n: nat, i: nat): int
    requires n > 0
  {
    total / n + if i < total % n then 1 else 0
  }

  /** The first stream position of a wave. */
  function Begin(g: Grid, wave: nat): nat {
    wave * g.Width()
  }

  /** The records of the first `m` stream positions. */
  ghost predicate IsStream(records: seq<TR.Record>, rollout: Rollout, g: Grid, n: nat, k: nat, start: nat)
    requires Total(rollout) && g.Width() > 0 && n > 0 && k > 0
  {
    forall j :: 0 <= j < |records| ==> records[j] == StreamRecord(rollout, g, n, k, start + j)
  }

  /** The finished rows of one wave, as records in stage-major row order. */
  method WaveRecords(rows: seq<nat>, wave: nat, rollout: Rollout, g: Grid, n: nat, k: nat) returns (records: seq<TR.Record>)
    requires Total(rollout) && g.Width() > 0 && n > 0 && k > 0
    requires rows == Ids(n, Begin(g, wave), g.Width())
    ensures |records| == g.Width() && IsStream(records, rollout, g, n, k, Begin(g, wave))
  {
    hide TR.EpisodeRecord;
    var lanes: seq<TR.Lane> := [];
    for row := 0 to |rows|
      invariant |lanes| == row
      invariant forall j :: 0 <= j < row ==> lanes[j].row != [] && lanes[j] == LaneOf(rollout, wave, j, rows[j])
    {
      lanes := lanes + [LaneOf(rollout, wave, row, rows[row])];
    }
    records := TR.CollectEpisodeRecords(lanes, k, None);
    forall j | 0 <= j < |records| ensures records[j] == StreamRecord(rollout, g, n, k, Begin(g, wave) + j) {
      Arithmetic.DivModUnique(wave, g.Width(), j);
    }
  }

  function LaneOf(rollout: Rollout, wave: nat, row: nat, id: nat): TR.Lane {
    var played := rollout(wave, row);
    TR.Lane(played.steps, played.taskId, Some(id), played.metadata)
  }

  /** The accepted counts are those of the first `m` stream positions. */
  ghost predicate Accepted(accepted: seq<int>, n: nat, m: nat)
    requires n > 0
  {
    |accepted| == n && forall i :: 0 <= i < n ==> accepted[i] == Occurrences(m, n, i)
  }

  ghost predicate Targets(target: seq<int>, n: nat, total: int)
    requires n > 0
  {
    |target| == n && forall i :: 0 <= i < n ==> target[i] == Quota(total, n, i)
  }

  lemma QuotaDecides(m: nat, total: nat, n: nat, i: nat)
    requires n > 0 && i == m % n
    ensures m < total ==> Occurrences(m, n, i) < Quota(total, n, i)
    ensures m >= total ==> Occurrences(total, n, i) >= Quota(total, n, i)
  {
    OccurrencesAreShares(total, n, i);
    if m < total {
      OccurrencesGrow(m + 1, total, n, i);
    }
  }

  /** At stream position `m` the quota test accepts exactly when fewer than `total` episodes were accepted. */
  lemma QuotaTest(accepted: seq<int>, target: seq<int>, n: nat, m: nat, total: nat)
    requires n > 0 && Targets(target, n, total) && Accepted(accepted, n, Min(m, total))
    ensures m % n < |accepted| && m % n < |target| && (accepted[m % n] < target[m % n] <==> m < total)
  {
    hide Occurrences, Quota;
    QuotaDecides(m, total, n, m % n);
  }

  lemma ExtendStream(records: seq<TR.Record>, next: TR.Record, rollout: Rollout, g: Grid, n: nat, k: nat)
    requires Total(rollout) && g.Width() > 0 && n > 0 && k > 0
    requires IsStream(records, rollout, g, n, k, 0) && next == StreamRecord(rollout, g, n, k, |records|)
    ensures IsStream(records + [next], rollout, g, n, k, 0)
  {
    hide StreamRecord;
  }

  lemma AcceptNext(before: seq<int>, n: nat, m: nat)
    requires n > 0 && Accepted(before, n, m)
    ensures Accepted(before[m % n := before[m % n] + 1], n, m + 1)
  {
  }

  lemma CaseOf(rollout: Rollout, g: Grid, n: nat, k: nat, m: nat)
    requires Total(rollout) && g.Width() > 0 && n > 0 && k > 0
    ensures StreamRecord(rollout, g, n, k, m).episodeId == Some(m % n)
  {
  }

  /**
   The quota loop on the records of one wave, the first of which is stream position `start`: exactly the
   positions below `total` are accepted, and no case id is ever out of range.
   */
  method AcceptWave(news: seq<TR.Record>, records: seq<TR.Record>, target: seq<int>, accepted: array<int>,
                    ghost rollout: Rollout, ghost g: Grid, n: nat, ghost k: nat, ghost start: nat, ghost total: nat)
    returns (r: Result<seq<TR.Record>, EvalError>)
    requires Total(rollout) && g.Width() > 0 && n > 0 && k > 0 && start <= total
    requires IsStream(news, rollout, g, n, k, start)
    requires |records| == start && IsStream(records, rollout, g, n, k, 0)
    requires Targets(target, n, total) && accepted.Length == n && Accepted(accepted[..], n, start)
    modifies accepted
    ensures r.Ok? && |r.value| == Min(start + |news|, total) && IsStream(r.value, rollout, g, n, k, 0)
    ensures Accepted(accepted[..], n, |r.value|)
  {
    hide Occurrences, Quota, Accepted, Targets, StreamRecord, Grid.Width;
    var all := records;
    for j := 0 to |news|
      invariant |all| == Min(start + j, total) && IsStream(all, rollout, g, n, k, 0)
      invariant accepted.Length == n && Accepted(accepted[..], n, |all|)
    {
      CaseOf(rollout, g, n, k, start + j);
      var id := if news[j].episodeId.Some? then news[j].episodeId.value else -1;
      if id < 0 || id >= n {
        return Err(OutOfRangeCase(id));
      }
      QuotaTest(accepted[..], target, n, start + j, total);
      if accepted[id] < target[id] {
        AcceptNext(accepted[..], n, |all|);
        ExtendStream(all, news[j], rollout, g, n, k);
        all := all + [news[j]];
        accepted[id] := accepted[id] + 1;
      }
    }
    r := Ok(all);
  }

  /** Reset waves needed for `total` episodes, one episode per row of a wave. */
  function WavesFor(total: int, width: nat): nat
    requires width > 0
  {
    if total <= 0 then 0 else (total + width - 1) / width
  }

  lemma WavesAreEnough(waves: nat, total: nat, width: nat)
    requires width > 0 && total > 0 && waves > 0
    requires (waves - 1) * width < total <= waves * width
    ensures waves == WavesFor(total, width)
  {
    var rest := total - (waves - 1) * width;
    assert waves * width == (waves - 1) * width + width;
    Arithmetic.DivModUnique(waves, width, rest - 1);
  }

  lemma NextWave(g: Grid, waves: nat)
    ensures Begin(g, waves + 1) == Begin(g, waves) + g.Width() && Begin(g, 0) == 0
  {
    assert (waves + 1) * g.Width() == waves * g.Width() + g.Width();
  }

  method QuotaTable(total: int, n: nat) returns (target: seq<int>)
    requires n > 0
    ensures Targets(target, n, total)
  {
    target := seq(n, i requires 0 <= i < n => Quota(total, n, i));
  }

  /** One wave of the evaluation: reset, regroup by stage, roll out, collect the records in row order. */
  method EvalWave(sims: seq<seq<RoboDojoSchedule>>, g: Grid, n: nat, waves: nat, rollout: Rollout, k: nat)
    returns (news: seq<TR.Record>)
    requires Fleet(sims, g, n) && (waves > 0 ==> FleetAt(sims, g, waves)) && Total(rollout) && k > 0 && g.Width() > 0
    modifies Simulators(sims)
    ensures Fleet(sims, g, n) && FleetAt(sims, g, waves + 1)
    ensures |news| == g.Width() && IsStream(news, rollout, g, n, k, Begin(g, waves))
  {
    hide StreamRecord, Grid.Width, Begin, Ids, Flatten, Served, AtWave, WorkerOk;
    var batch := ResetWave(sims, g, n, waves, waves == 0);
    var staged := Restructure(batch, g, n, waves);
    StageMajorRows(g, n, waves);
    news := WaveRecords(Flatten(staged), waves, rollout, g, n, k);
  }

  /**
   TrainCluster.eval over fixed cases without auto reset: reset wave after reset wave until enough episodes
   are accepted. The accepted records are those of the first `total` stream positions, in stream order, and
   exactly as many waves are run as those positions need.
   */
  method Eval(sims: seq<seq<RoboDojoSchedule>>, g: Grid, ghost n: nat, maxEpisodes: Option<int>, rollout: Rollout, k: nat)
    returns (r: Result<seq<TR.Record>, EvalError>, waves: nat)
    requires Fleet(sims, g, n) && Total(rollout) && k > 0
    modifies Simulators(sims)
    ensures g.Width() > 0
    ensures var total := if maxEpisodes.None? then n else maxEpisodes.value;
      && waves == WavesFor(total, g.Width())
      && r.Ok? && |r.value| == Max(total, 0) && IsStream(r.value, rollout, g, n, k, 0)
      && forall j :: 0 <= j < |r.value| ==> DescribesPosition(r.value[j], rollout, g, n, k, j)
  {
    hide Quota, Targets, Accepted, IsStream, Grid.Width, Begin, WavesFor, Fleet, FleetAt;
    FleetGrid(sims, g, n);
    WidthPositive(g);
    var size := BenchmarkSize(sims, g, n);
    var total := if maxEpisodes.None? then size else maxEpisodes.value;
    var target := QuotaTable(total, size);
    var accepted := new int[size](_ => 0);
    NothingAccepted(accepted[..], n);
    waves := 0;
    var records: seq<TR.Record> := [];
    NextWave(g, 0);
    NothingRecorded(rollout, g, n, k);
    while |records| < total
      invariant Fleet(sims, g, n) && (waves > 0 ==> FleetAt(sims, g, waves))
      invariant fresh(accepted) && accepted.Length == n && Accepted(accepted[..], n, |records|)
      invariant IsStream(records, rollout, g, n, k, 0)
      invariant total <= 0 ==> waves == 0 && records == []
      invariant total > 0 ==> |records| == Min(Begin(g, waves), total)
      invariant total > 0 && waves > 0 ==> Begin(g, waves - 1) < total
      decreases total - |records|
    {
      var news := EvalWave(sims, g, size, waves, rollout, k);
      NextWave(g, waves);
      var accept := AcceptWave(news, records, target, accepted, rollout, g, size, k, Begin(g, waves), total);
      records := accept.value;
      waves := waves + 1;
    }
    r := Ok(records);
    StreamDescribed(records, rollout, g, n, k);
    EnoughWaves(g, waves, total);
  }

  /**
   The loop for environments without fixed cases, over any run of waves: the first `target` records of the
   waves in order, from no more waves than that takes. A wave may finish no episode at all; the loop is still
   running at the end of `collected` exactly when too few episodes have finished by then.
   */
  method EvalWithoutCases(collected: seq<seq<TR.Record>>, target: int) returns (records: seq<TR.Record>, waves: nat, running: bool)
    ensures waves <= |collected| && (running <==> |Flatten(collected)| < target)
    ensures records == Flatten(collected[..waves])[..Min(|Flatten(collected[..waves])|, Max(target, 0))]
    ensures if running then waves == |collected| else |records| == Max(target, 0)
    ensures waves > 0 ==> |Flatten(collected[..waves - 1])| < target
  {
    hide Flatten;
    FlattenNothing<TR.Record>();
    records, waves := [], 0;
    while |records| < target && waves < |collected|
      invariant waves <= |collected|
      invariant |records| == Min(|Flatten(collected[..waves])|, Max(target, 0)) && records == Flatten(collected[..waves])[..|records|]
      invariant waves > 0 ==> |Flatten(collected[..waves - 1])| < target
      decreases |collected| - waves
    {
      FlattenLast(collected[..waves + 1]);
      assert collected[..waves + 1][..waves] == collected[..waves];
      var news := collected[waves];
      records := records + news[..Min(target - |records|, |news|)];
      waves := waves + 1;
    }
    running := |records| < target;
    FlattenAppend(collected[..waves], collected[waves..]);
    assert collected[..waves] + collected[waves..] == collected;
  }

  lemma StageMajorRows(g: Grid, n: nat, wave: nat)
    requires n > 0
    ensures Flatten(Stages(g, n, wave, g.stages)) == Ids(n, Begin(g, wave), g.Width())
  {
    StageMajorBatchIsTheStream(g, n, wave);
  }

  lemma FleetGrid(sims: seq<seq<RoboDojoSchedule>>, g: Grid, n: nat)
    requires Fleet(sims, g, n)
    ensures n > 0 && g.Ok()
  {
    hide WorkerOk;
  }

  lemma NothingRecorded(rollout: Rollout, g: Grid, n: nat, k: nat)
    requires Total(rollout) && g.Width() > 0 && n > 0 && k > 0
    ensures IsStream([], rollout, g, n, k, 0)
  {
  }

  lemma EnoughWaves(g: Grid, waves: nat, total: int)
    requires g.Width() > 0
    requires if total <= 0 then waves == 0 else waves > 0 && Begin(g, waves - 1) < total <= Begin(g, waves)
    ensures waves == WavesFor(total, g.Width())
  {
    hide Grid.Width, WavesFor;
    if total > 0 {
      WavesAreEnough(waves, total, g.Width());
    } else {
      NoWaves(total, g.Width());
    }
  }

  lemma NoWaves(total: int, width: nat)
    requires width > 0 && total <= 0
    ensures WavesFor(total, width) == 0
  {
  }

  lemma NothingAccepted(accepted: seq<int>, n: nat)
    requires n > 0 && |accepted| == n && forall i :: 0 <= i < n ==> accepted[i] == 0
    ensures Accepted(accepted, n, 0)
  {
  }

  method BenchmarkSize(sims: seq<seq<RoboDojoSchedule>>, g: Grid, ghost n: nat) returns (size: nat)
    requires Fleet(sims, g, n)
    ensures size == n
  {
    hide Grid.Width;
    size := |sims[0][0].cfg.layoutIds|;
  }

  /** How many records belong to case `i`. */
  function CaseCount(records: seq<TR.Record>, i: nat): nat {
    if records == [] then 0
    else CaseCount(records[..|records| - 1], i) + if records[|records| - 1].episodeId == Some(i) then 1 else 0
  }

  /** The records of the first `m` positions hold case `i` exactly `m / n` times, plus one if `i < m % n`. */
  lemma CasesAreSharedEvenly(records: seq<TR.Record>, rollout: Rollout, g: Grid, n: nat, k: nat, i: nat)
    requires Total(rollout) && g.Width() > 0 && n > 0 && k > 0 && i < n
    requires IsStream(records, rollout, g, n, k, 0)
    ensures CaseCount(records, i) == |records| / n + if i < |records| % n then 1 else 0
  {
    CaseCountIsOccurrences(records, rollout, g, n, k, i);
    OccurrencesAreShares(|records|, n, i);
  }

  lemma {:induction false} CaseCountIsOccurrences(records: seq<TR.Record>, rollout: Rollout, g: Grid, n: nat, k: nat, i: nat)
    requires Total(rollout) && g.Width() > 0 && n > 0 && k > 0 && i < n
    requires IsStream(records, rollout, g, n, k, 0)
    ensures CaseCount(records, i) == Occurrences(|records|, n, i)
  {
    hide Grid.Width, StreamRecord;
    if records != [] {
      var front := records[..|records| - 1];
      CaseCountIsOccurrences(front, rollout, g, n, k, i);
      assert records[|front|] == StreamRecord(rollout, g, n, k, |front|);
      CaseOf(rollout, g, n, k, |front|);
    }
  }
}
