/**
 The RoboDojo case schedule: every simulator keeps its own cursor and serves its share of one
 deterministic stage-major case stream.
 */
module CaseSchedule {
  import opened Common
  import Arithmetic

  //////////////////////////// The stage-major stream ////////////////////////////

  /** The parallel layout: workers, pipeline stages per worker, vector environments per stage. */
  datatype Grid = Grid(world: nat, stages: nat, envs: nat) {
    predicate Ok() {
      world > 0 && stages > 0 && envs > 0
    }

    function Width(): nat {
      world * stages * envs
    }

    /** The simulator slot of a stage on a worker. */
    function Slot(stage: nat, rank: nat): nat {
      stage * world + rank
    }

    /** The row of one environment in the stage-major batch. */
    function Row(stage: nat, rank: nat, env: nat): nat {
      Slot(stage, rank) * envs + env
    }

    /** The position in the case stream that one environment serves in one reset wave. */
    function Index(wave: nat, stage: nat, rank: nat, env: nat): nat {
      wave * Width() + Row(stage, rank, env)
    }
  }

  lemma SlotBounds(g: Grid, stage: nat, rank: nat)
    requires stage < g.stages && rank < g.world
    ensures g.Slot(stage, rank) < g.stages * g.world
    ensures g.Slot(stage, rank) / g.world == stage && g.Slot(stage, rank) % g.world == rank
  {
    Arithmetic.DivModUnique(stage, g.world, rank);
    Arithmetic.ProductMonotone(stage, g.stages - 1, g.world);
    assert (g.stages - 1) * g.world == g.stages * g.world - g.world;
  }

  lemma RowBounds(g: Grid, stage: nat, rank: nat, env: nat)
    requires stage < g.stages && rank < g.world && env < g.envs
    ensures g.Row(stage, rank, env) < g.Width()
    ensures g.Row(stage, rank, env) / g.envs == g.Slot(stage, rank) && g.Row(stage, rank, env) % g.envs == env
  {
    SlotBounds(g, stage, rank);
    var slot := g.Slot(stage, rank);
    Arithmetic.DivModUnique(slot, g.envs, env);
    Arithmetic.ProductMonotone(slot, g.stages * g.world - 1, g.envs);
    assert (g.stages * g.world - 1) * g.envs == g.stages * g.world * g.envs - g.envs;
    assert g.stages * g.world == g.world * g.stages;
  }

  lemma IndexIs(g: Grid, wave: nat, stage: nat, rank: nat, env: nat)
    ensures wave * g.Width() + (stage * g.world + rank) * g.envs + env == g.Index(wave, stage, rank, env)
  {
  }

  function DivMod(x: nat, k: nat): (qr: (nat, nat))
    requires k > 0
    ensures qr.1 < k
  {
    (x / k, x % k)
  }

  /** Who serves stream position `index`: wave, stage, rank and environment. */
  function Server(g: Grid, index: nat): (s: (nat, nat, nat, nat))
    requires g.Ok() && g.Width() > 0
  {
    var (wave, row) := DivMod(index, g.Width());
    var (slot, env) := DivMod(row, g.envs);
    var (stage, rank) := DivMod(slot, g.world);
    (wave, stage, rank, env)
  }

  lemma WidthPositive(g: Grid)
    requires g.Ok()
    ensures g.Width() > 0
  {
    Arithmetic.ProductMonotone(1, g.world, g.stages);
    Arithmetic.ProductMonotone(1, g.world * g.stages, g.envs);
  }

  /** Every position of the stream is served, by the computed server. */
  lemma EveryPositionIsServed(g: Grid, index: nat)
    requires g.Ok()
    ensures g.Width() > 0
    ensures var (wave, stage, rank, env) := Server(g, index);
      && stage < g.stages && rank < g.world && env < g.envs
      && g.Index(wave, stage, rank, env) == index
  {
    WidthPositive(g);
    var row := index % g.Width();
    var slot := row / g.envs;
    assert index == (index / g.Width()) * g.Width() + row;
    assert row == slot * g.envs + row % g.envs;
    assert slot == (slot / g.world) * g.world + slot % g.world;
    QuotientBound(row, g.world * g.stages, g.envs);
    assert g.world * g.stages == g.stages * g.world;
    QuotientBound(slot, g.stages, g.world);
  }

  lemma QuotientBound(x: nat, m: nat, k: nat)
    requires k > 0 && x < m * k
    ensures x / k < m
  {
    var q := x / k;
    assert x == q * k + x % k;
    if q >= m {
      Arithmetic.ProductMonotone(m, q, k);
    }
  }

  /** No position is served twice: the server determines the position and the position the server. */
  lemma ServersAreUnique(g: Grid, wave: nat, stage: nat, rank: nat, env: nat)
    requires g.Ok() && stage < g.stages && rank < g.world && env < g.envs
    ensures g.Width() > 0
    ensures Server(g, g.Index(wave, stage, rank, env)) == (wave, stage, rank, env)
  {
    WidthPositive(g);
    RowBounds(g, stage, rank, env);
    Arithmetic.DivModUnique(wave, g.Width(), g.Row(stage, rank, env));
    SlotBounds(g, stage, rank);
  }

  //////////////////////////// The scheduler of one simulator ////////////////////////////

  datatype ScheduleError = WrongCaseCount

  datatype Cases = Cases(layouts: seq<int>, policySeeds: seq<int>, caseIds: seq<nat>)

  datatype Config = Config(layoutIds: seq<int>, evalSeeds: seq<int>, trainLayouts: seq<int>, trainSeeds: seq<int>,
                           trainRepeat: nat, trainSeedStart: Option<int>, seed: int)

  /** The given seeds, or the default seed for each of the `n` cases. */
  function Pad(seeds: seq<int>, seed: int, n: nat): (padded: seq<int>)
    ensures seeds != [] ==> padded == seeds
    ensures seeds == [] ==> |padded| == n && forall i :: 0 <= i < n ==> padded[i] == seed
  {
    if seeds == [] then seq(n, _ => seed) else seeds
  }

  /** The case at one stream position when every layout is repeated: layout, policy seed and case id. */
  function RepeatedCase(layouts: seq<int>, repeats: nat, start: int, index: nat): (int, int, nat)
    requires layouts != [] && repeats > 0
  {
    Arithmetic.ProductMonotone(1, |layouts|, repeats);
    var (cycle, id) := DivMod(index, |layouts| * repeats);
    QuotientBound(id, |layouts|, repeats);
    (layouts[id / repeats], start + index, id)
  }

  /**
   A cycle of the repeated stream serves layout after layout, each exactly `repeats` times in a row, and
   no two positions ever share a policy seed.
   */
  lemma RepeatedStreamIsBlocked(layouts: seq<int>, repeats: nat, start: int, cycle: nat, l: nat, j: nat)
    requires l < |layouts| && j < repeats
    ensures var index := cycle * (|layouts| * repeats) + (l * repeats + j);
      index >= 0 && RepeatedCase(layouts, repeats, start, index) == (layouts[l], start + index, l * repeats + j)
  {
    var size := |layouts| * repeats;
    var id := l * repeats + j;
    Arithmetic.ProductMonotone(l, |layouts| - 1, repeats);
    assert (|layouts| - 1) * repeats == size - repeats;
    Arithmetic.ProductNonNegative(l, repeats);
    Arithmetic.ProductNonNegative(cycle, size);
    Arithmetic.DivModUnique(cycle, size, id);
    Arithmetic.DivModUnique(l, repeats, j);
  }

  /** The stream positions of one simulator's environments in one reset wave. */
  method AbsoluteIndices(g: Grid, stage: nat, rank: nat, wave: nat) returns (indices: seq<nat>)
    ensures |indices| == g.envs && forall env :: 0 <= env < g.envs ==> indices[env] == g.Index(wave, stage, rank, env)
  {
    hide Grid.Width, Grid.Index;
    var width := g.Width();
    var offset := (stage * g.world + rank) * g.envs;
    indices := [];
    for env := 0 to g.envs
      invariant |indices| == env && forall e :: 0 <= e < env ==> indices[e] == g.Index(wave, stage, rank, e)
    {
      IndexIs(g, wave, stage, rank, env);
      indices := indices + [wave * width + offset + env];
    }
  }

  class RoboDojoSchedule {
    const cfg: Config
    const grid: Grid
    const rank: nat
    const stage: nat
    var runtimeLayouts: Option<seq<int>>
    var runtimeSeeds: Option<seq<int>>
    var evalCursor: nat
    var trainCursor: nat

    /** Schedules name at least one case and carry one seed per case. */
    ghost predicate Valid()
      reads this
    {
      && grid.Ok() && rank < grid.world && stage < grid.stages
      && cfg.layoutIds != [] && cfg.trainRepeat > 0
      && (cfg.evalSeeds == [] || |cfg.evalSeeds| >= |cfg.layoutIds|)
      && (runtimeLayouts.Some? <==> runtimeSeeds.Some?)
      && (runtimeLayouts.Some? ==> |runtimeLayouts.value| == |runtimeSeeds.value| == grid.envs)
      && var train := if cfg.trainLayouts == [] then cfg.layoutIds else cfg.trainLayouts;
         cfg.trainSeeds == [] || |cfg.trainSeeds| >= |train|
    }

    ghost function EvalLayouts(): seq<int>
      reads this
    {
      if runtimeLayouts.Some? then runtimeLayouts.value else cfg.layoutIds
    }

    ghost function EvalSeeds(): seq<int>
      reads this
    {
      if runtimeSeeds.Some? then runtimeSeeds.value else Pad(cfg.evalSeeds, cfg.seed, |cfg.layoutIds|)
    }

    constructor (cfg: Config, grid: Grid, stage: nat, rank: nat)
      requires grid.Ok() && rank < grid.world && stage < grid.stages && cfg.layoutIds != [] && cfg.trainRepeat > 0
      requires cfg.evalSeeds == [] || |cfg.evalSeeds| >= |cfg.layoutIds|
      requires cfg.trainSeeds == [] || |cfg.trainSeeds| >= |if cfg.trainLayouts == [] then cfg.layoutIds else cfg.trainLayouts|
      ensures Valid() && this.cfg == cfg && this.grid == grid && this.stage == stage && this.rank == rank
      ensures evalCursor == trainCursor == 0 && runtimeLayouts == None
    {
      this.cfg, this.grid, this.stage, this.rank := cfg, grid, stage, rank;
      runtimeLayouts, runtimeSeeds, evalCursor, trainCursor := None, None, 0, 0;
    }

    /**
     An evaluation draw: environment `env` gets stream position Index(wave, stage, rank, env), cyclically
     over the cases, and the cursor moves on by one wave.
     */
    method NextEvalCases() returns (cases: Cases)
      requires Valid()
      modifies this`evalCursor
      ensures Valid() && evalCursor == old(evalCursor) + grid.envs
      ensures |cases.layouts| == |cases.policySeeds| == |cases.caseIds| == grid.envs
      ensures forall env :: 0 <= env < grid.envs ==>
        && cases.caseIds[env] == grid.Index(old(evalCursor) / grid.envs, stage, rank, env) % |EvalLayouts()|
        && cases.layouts[env] == EvalLayouts()[cases.caseIds[env]]
        && cases.policySeeds[env] == EvalSeeds()[cases.caseIds[env]]
    {
      var layouts := if runtimeLayouts.Some? then runtimeLayouts.value else cfg.layoutIds;
      var seeds := if runtimeSeeds.Some? then runtimeSeeds.value else Pad(cfg.evalSeeds, cfg.seed, |layouts|);
      assert |seeds| >= |layouts| > 0;
      hide Grid.Width, Grid.Index, Pad;
      var absolute := AbsoluteIndices(grid, stage, rank, evalCursor / grid.envs);
      var ids: seq<nat> := seq(|absolute|, e requires 0 <= e < |absolute| => absolute[e] % |layouts|);
      evalCursor := evalCursor + grid.envs;
      cases := Cases(seq(|ids|, e requires 0 <= e < |ids| => layouts[ids[e]]),
                     seq(|ids|, e requires 0 <= e < |ids| => seeds[ids[e]]), ids);
    }

    /** The case-drawing part of a full-vector evaluation reset; `resetEval` restarts the stream first. */
    method EnvReset(resetEval: bool) returns (cases: Cases)
      requires Valid()
      modifies this`evalCursor
      ensures Valid() && evalCursor == (if resetEval then 0 else old(evalCursor)) + grid.envs
      ensures |cases.layouts| == |cases.policySeeds| == |cases.caseIds| == grid.envs
      ensures forall env :: 0 <= env < grid.envs ==>
        && cases.caseIds[env]
           == grid.Index((if resetEval then 0 else old(evalCursor)) / grid.envs, stage, rank, env) % |EvalLayouts()|
        && cases.layouts[env] == EvalLayouts()[cases.caseIds[env]]
        && cases.policySeeds[env] == EvalSeeds()[cases.caseIds[env]]
    {
      hide Grid.Width, Grid.Index;
      if resetEval {
        evalCursor := 0;
      }
      cases := NextEvalCases();
    }

    ghost function TrainLayouts(): seq<int> {
      if cfg.trainLayouts == [] then cfg.layoutIds else cfg.trainLayouts
    }

    /**
     A training draw. With a repeat count or a seed origin it follows the same stage-major stream, each
     layout repeated and every draw with its own policy seed; otherwise it walks the local schedule.
     */
    method NextTrainCases() returns (cases: Cases)
      requires Valid()
      modifies this`trainCursor
      ensures Valid()
      ensures |cases.layouts| == |cases.policySeeds| == |cases.caseIds| == grid.envs
      ensures cfg.trainRepeat != 1 || cfg.trainSeedStart.Some? ==>
        && trainCursor == old(trainCursor) + grid.envs
        && forall env :: 0 <= env < grid.envs ==>
             (cases.layouts[env], cases.policySeeds[env], cases.caseIds[env])
             == RepeatedCase(TrainLayouts(), cfg.trainRepeat, if cfg.trainSeedStart.Some? then cfg.trainSeedStart.value else cfg.seed,
                             grid.Index(old(trainCursor) / grid.envs, stage, rank, env))
      ensures cfg.trainRepeat == 1 && cfg.trainSeedStart.None? ==>
        && trainCursor == (old(trainCursor) + grid.envs) % |TrainLayouts()|
        && forall env :: 0 <= env < grid.envs ==>
             && cases.caseIds[env] == (old(trainCursor) + env) % |TrainLayouts()|
             && cases.layouts[env] == TrainLayouts()[cases.caseIds[env]]
             && cases.policySeeds[env] == Pad(cfg.trainSeeds, cfg.seed, |TrainLayouts()|)[cases.caseIds[env]]
    {
      hide Grid.Width, Grid.Index, RepeatedCase;
      var train := if cfg.trainLayouts == [] then cfg.layoutIds else cfg.trainLayouts;
      if cfg.trainRepeat != 1 || cfg.trainSeedStart.Some? {
        cases := RepeatedTrainCases(train, if cfg.trainSeedStart.Some? then cfg.trainSeedStart.value else cfg.seed);
      } else {
        cases := LocalTrainCases(train);
      }
    }

    method RepeatedTrainCases(train: seq<int>, start: int) returns (cases: Cases)
      requires Valid() && train != []
      modifies this`trainCursor
      ensures Valid() && trainCursor == old(trainCursor) + grid.envs
      ensures |cases.layouts| == |cases.policySeeds| == |cases.caseIds| == grid.envs
      ensures forall env :: 0 <= env < grid.envs ==>
        (cases.layouts[env], cases.policySeeds[env], cases.caseIds[env])
        == RepeatedCase(train, cfg.trainRepeat, start, grid.Index(old(trainCursor) / grid.envs, stage, rank, env))
    {
      hide Grid.Width, Grid.Index, RepeatedCase;
      var absolute := AbsoluteIndices(grid, stage, rank, trainCursor / grid.envs);
      var ids: seq<nat>, layouts: seq<int>, seeds: seq<int> := [], [], [];
      for env := 0 to |absolute|
        invariant |ids| == |layouts| == |seeds| == env
        invariant forall e :: 0 <= e < env ==>
          (layouts[e], seeds[e], ids[e]) == RepeatedCase(train, cfg.trainRepeat, start, absolute[e])
      {
        var (layout, policySeed, id) := RepeatedCase(train, cfg.trainRepeat, start, absolute[env]);
        ids, layouts, seeds := ids + [id], layouts + [layout], seeds + [policySeed];
      }
      trainCursor := trainCursor + grid.envs;
      cases := Cases(layouts, seeds, ids);
    }

    method LocalTrainCases(train: seq<int>) returns (cases: Cases)
      requires Valid() && train == if cfg.trainLayouts == [] then cfg.layoutIds else cfg.trainLayouts
      modifies this`trainCursor
      ensures Valid() && trainCursor == (old(trainCursor) + grid.envs) % |train|
      ensures |cases.layouts| == |cases.policySeeds| == |cases.caseIds| == grid.envs
      ensures forall env :: 0 <= env < grid.envs ==>
        && cases.caseIds[env] == (old(trainCursor) + env) % |train|
        && cases.layouts[env] == train[cases.caseIds[env]]
        && cases.policySeeds[env] == Pad(cfg.trainSeeds, cfg.seed, |train|)[cases.caseIds[env]]
    {
      var seeds := Pad(cfg.trainSeeds, cfg.seed, |train|);
      var cursor := trainCursor;
      var ids := seq(grid.envs, e requires 0 <= e => (cursor + e) % |train|);
      trainCursor := (cursor + grid.envs) % |train|;
      cases := Cases(seq(grid.envs, e requires 0 <= e < |ids| => train[ids[e]]),
                     seq(grid.envs, e requires 0 <= e < |ids| => seeds[ids[e]]), ids);
    }

    /** Replace the evaluation cases by one case per environment and restart the evaluation stream. */
    method SetRuntimeEvalCases(layouts: seq<int>, seeds: seq<int>) returns (r: Result<(), ScheduleError>)
      requires Valid()
      modifies this`runtimeLayouts, this`runtimeSeeds, this`evalCursor
      ensures Valid()
      ensures r.Err? <==> |layouts| != grid.envs || |seeds| != grid.envs
      ensures r.Ok? ==> EvalLayouts() == layouts && EvalSeeds() == seeds && evalCursor == 0
      ensures r.Err? ==> unchanged(this)
    {
      if |layouts| != grid.envs || |seeds| != grid.envs {
        return Err(WrongCaseCount);
      }
      runtimeLayouts, runtimeSeeds, evalCursor := Some(layouts), Some(seeds), 0;
      return Ok(());
    }

    method GetState() returns (train: nat, eval: nat)
      ensures train == trainCursor && eval == evalCursor
    {
      return trainCursor, evalCursor;
    }

    method LoadState(train: nat, eval: nat)
      modifies this`trainCursor, this`evalCursor
      ensures trainCursor == train && evalCursor == eval
    {
      trainCursor, evalCursor := train, eval;
    }
  }

  /** Runtime cases are pinned: with one case per environment, every wave serves environment `env` case `env`. */
  lemma RuntimeCasesArePinned(g: Grid, wave: nat, stage: nat, rank: nat, env: nat)
    requires g.Ok() && stage < g.stages && rank < g.world && env < g.envs
    ensures g.Index(wave, stage, rank, env) % g.envs == env
  {
    var slots := wave * (g.world * g.stages) + g.Slot(stage, rank);
    Arithmetic.DivModUnique(slots, g.envs, env);
    assert wave * g.Width() == wave * (g.world * g.stages) * g.envs;
    assert slots * g.envs == wave * (g.world * g.stages) * g.envs + g.Slot(stage, rank) * g.envs;
  }

  /** A simulator recreated from its saved cursors draws the very cases the old one would have drawn. */
  method RestartKeepsStream(live: RoboDojoSchedule, restarted: RoboDojoSchedule) returns (a: Cases, b: Cases)
    requires live != restarted && live.Valid() && restarted.Valid()
    requires live.cfg == restarted.cfg && live.grid == restarted.grid && live.rank == restarted.rank && live.stage == restarted.stage
    requires live.runtimeLayouts == restarted.runtimeLayouts && live.runtimeSeeds == restarted.runtimeSeeds
    modifies live, restarted
    ensures a == b
  {
    var train, eval := live.GetState();
    restarted.LoadState(train, eval);
    a := live.NextEvalCases();
    b := restarted.NextEvalCases();
    assert a.caseIds == b.caseIds;
    assert a.layouts == b.layouts && a.policySeeds == b.policySeeds;
  }
}
