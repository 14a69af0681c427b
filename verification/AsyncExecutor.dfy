/**
 The asynchronous action executor: a caller thread exchanging plans and a control thread executing one
 queued tick at a time, sharing one condition lock.

 Every function from `State` to `State` is one lock-protected region. Between `Pop` and `Complete` (or
 `Fail`) the control thread runs the step function without the lock, so caller regions may fall there.
 A `State` also remembers, since the last reset, every accepted plan (`submissions`) and every tick
 handed to the step function (`log`); the real executor never reads these two.
 */
module AsyncExecutor {
  import opened Common
  import opened ActionPlans

  datatype Config = Config(replanAfter: nat, smooth: bool, factor: nat, width: nat, batch: nat) {
    predicate Ok() {
      replanAfter > 0 && factor > 0
    }
  }

  datatype Plan = Plan(actions: Chunk, values: Chunk)

  datatype Queued = Queued(action: Vec, value: Vec, chunkStarted: bool)

  datatype ExchangeError = EmptyChunk | ValueShape | ShorterThanReplan | ExecutorFailed | AlreadyExchanging | SnapshotError

  datatype Outcome = Returned | Waits | Raised(error: ExchangeError)

  /** What the environment's snapshot callback does: it may raise, or report that some lane was reset. */
  datatype Snapshot = Snapshot(succeeds: bool, resets: bool)

  datatype Caller = Idle | Waiting | Resetting

  /**
   An accepted plan: chosen against tick `origin`, first effective at tick `start`, where it replaced the
   queue `tail` by the queue `queued`.
   */
  datatype Submission = Submission(plan: Plan, origin: nat, start: nat, tail: seq<Queued>, queued: seq<Queued>)

  datatype State = State(
    queue: seq<Queued>, completed: nat, origin: nat, target: Option<nat>,
    paused: bool, inStep: bool, failed: bool,
    caller: Caller, submissions: seq<Submission>, log: seq<Queued>)

  const Initial := State([], 0, 0, None, true, false, false, Idle, [], [])

  //////////////////////////// Lock-protected regions ////////////////////////////

  function Drop<T>(s: seq<T>, n: int): seq<T>
    requires n >= 0
  {
    if n <= |s| then s[n..] else []
  }

  function Actions(queue: seq<Queued>): Chunk {
    seq(|queue|, k requires 0 <= k < |queue| => queue[k].action)
  }

  ghost predicate PlanShaped(cfg: Config, plan: Plan) {
    Shaped(plan.actions, cfg.width) && Shaped(plan.values, cfg.batch)
  }

  ghost predicate QueueShaped(cfg: Config, queue: seq<Queued>) {
    forall k :: 0 <= k < |queue| ==> |queue[k].action| == cfg.width
  }

  function Prepare(cfg: Config, plan: Plan): (r: Result<Plan, ExchangeError>)
    requires cfg.Ok() && PlanShaped(cfg, plan)
    ensures r.Ok? ==> PlanShaped(cfg, r.value) && |r.value.actions| == |r.value.values| == |plan.actions| * cfg.factor
  {
    if plan.actions == [] then Err(EmptyChunk)
    else if |plan.values| != |plan.actions| then Err(ValueShape)
    else Ok(Plan(Interpolate(plan.actions, cfg.factor, cfg.width), Interpolate(plan.values, cfg.factor, cfg.batch)))
  }

  /** The actions a plan queues from `elapsed` on, blended with the tail it replaces when configured. */
  function Effective(cfg: Config, plan: Plan, elapsed: nat, tail: seq<Queued>): (actions: Chunk)
    requires PlanShaped(cfg, plan) && QueueShaped(cfg, tail)
    ensures |actions| == |Drop(plan.actions, elapsed)|
    ensures Shaped(actions, cfg.width)
  {
    var rest := Drop(plan.actions, elapsed);
    if cfg.smooth && tail != [] then SmoothOverlap(Actions(tail), rest, cfg.width) else rest
  }

  function QueueOf(cfg: Config, plan: Plan, elapsed: nat, tail: seq<Queued>): (queue: seq<Queued>)
    requires PlanShaped(cfg, plan) && QueueShaped(cfg, tail) && |plan.actions| == |plan.values|
    ensures |queue| == |Drop(plan.actions, elapsed)|
    ensures QueueShaped(cfg, queue)
  {
    var actions := Effective(cfg, plan, elapsed, tail);
    seq(|actions|, k requires 0 <= k < |actions| => Queued(actions[k], plan.values[elapsed + k], k == 0))
  }

  function NextTick(s: State): nat {
    s.completed + if s.inStep then 1 else 0
  }

  function Finish(s: State, snap: Snapshot): State {
    if !snap.succeeds then s.(target := None, caller := Idle)
    else s.(queue := if snap.resets then [] else s.queue, origin := s.completed, target := None, caller := Idle)
  }

  /** exchange up to its first wait, or to its return when the target tick has already passed. */
  function Exchange(cfg: Config, s: State, plan: Plan, snap: Snapshot): (State, Outcome)
    requires cfg.Ok() && PlanShaped(cfg, plan) && QueueShaped(cfg, s.queue)
  {
    var prepared := Prepare(cfg, plan);
    if prepared.Err? then (s, Raised(prepared.error))
    else if |prepared.value.actions| < cfg.replanAfter then (s, Raised(ShorterThanReplan))
    else if s.failed then (s, Raised(ExecutorFailed))
    else if s.target.Some? then (s, Raised(AlreadyExchanging))
    else
      var placed := Place(cfg, s, prepared.value);
      if placed.completed < placed.target.value then (placed.(caller := Waiting), Waits)
      else (Finish(placed, snap), if snap.succeeds then Returned else Raised(SnapshotError))
  }

  /** Replace the queue by the part of the plan that is still ahead, and set the return target. */
  function Place(cfg: Config, s: State, plan: Plan): (placed: State)
    requires PlanShaped(cfg, plan) && QueueShaped(cfg, s.queue) && |plan.actions| == |plan.values|
    ensures placed.target.Some?
  {
    var elapsed := Max(0, NextTick(s) - s.origin);
    var queued := QueueOf(cfg, plan, elapsed, s.queue);
    s.(queue := queued, paused := false, target := Some(s.origin + cfg.replanAfter),
       submissions := s.submissions + [Submission(plan, s.origin, s.origin + elapsed, s.queue, queued)])
  }

  /** The waiting caller re-acquires the lock. */
  function Wake(s: State, snap: Snapshot): (State, Outcome)
    requires s.target.Some?
  {
    if s.completed >= s.target.value then
      (Finish(s, snap), if snap.succeeds then Returned else Raised(SnapshotError))
    else if s.failed then (s.(caller := Idle), Raised(ExecutorFailed))
    else (s, Waits)
  }

  function BeginReset(s: State): State {
    s.(paused := true, queue := [], target := None, caller := Resetting)
  }

  function EndReset(s: State): State {
    s.(completed := 0, origin := 0, caller := Idle, submissions := [], log := [])
  }

  predicate CanPop(s: State) {
    && !s.failed && !s.inStep && !s.paused && s.queue != []
    && !(s.target.Some? && s.completed >= s.target.value)
  }

  function Pop(s: State): State
    requires s.queue != []
  {
    s.(queue := s.queue[1..], inStep := true, log := s.log + [s.queue[0]])
  }

  function Complete(s: State): State {
    s.(completed := s.completed + 1, inStep := false)
  }

  function Fail(s: State): State {
    s.(inStep := false, failed := true, paused := true)
  }

  //////////////////////////// Interleavings ////////////////////////////

  datatype Event =
    | ExchangeCall(plan: Plan, snap: Snapshot)
    | CallerWakes(snap: Snapshot)
    | ResetCall
    | ResetDone
    | ControlPops
    | ControlCompletes
    | ControlFails

  ghost predicate Enabled(cfg: Config, s: State, e: Event) {
    match e
    case ExchangeCall(plan, _) => s.caller == Idle && PlanShaped(cfg, plan) && QueueShaped(cfg, s.queue)
    case CallerWakes(_) => s.caller == Waiting && s.target.Some?
    case ResetCall => s.caller == Idle
    case ResetDone => s.caller == Resetting && !s.inStep
    case ControlPops => CanPop(s)
    case ControlCompletes => s.inStep
    case ControlFails => s.inStep
  }

  ghost function Step(cfg: Config, s: State, e: Event): State
    requires cfg.Ok() && Enabled(cfg, s, e)
  {
    match e
    case ExchangeCall(plan, snap) => Exchange(cfg, s, plan, snap).0
    case CallerWakes(snap) => Wake(s, snap).0
    case ResetCall => BeginReset(s)
    case ResetDone => EndReset(s)
    case ControlPops => Pop(s)
    case ControlCompletes => Complete(s)
    case ControlFails => Fail(s)
  }

  /** The state after `events` from `s`, or None when some event was not enabled. */
  ghost function Run(cfg: Config, s: State, events: seq<Event>): Option<State>
    requires cfg.Ok()
  {
    if events == [] then Some(s)
    else
      var before := Run(cfg, s, events[..|events| - 1]);
      var e := events[|events| - 1];
      if before.Some? && Enabled(cfg, before.value, e) then Some(Step(cfg, before.value, e)) else None
  }

  //////////////////////////// The inductive invariant ////////////////////////////

  /** The last submission already effective at `tick`, or -1. */
  ghost function Serving(subs: seq<Submission>, tick: nat): (j: int)
    ensures -1 <= j < |subs|
    ensures j >= 0 ==> subs[j].start <= tick
    ensures forall i :: j < i < |subs| ==> subs[i].start > tick
  {
    if subs == [] then -1
    else if subs[|subs| - 1].start <= tick then |subs| - 1
    else Serving(subs[..|subs| - 1], tick)
  }

  ghost predicate ServedAt(subs: seq<Submission>, tick: nat, item: Queued) {
    var j := Serving(subs, tick);
    j >= 0 && tick - subs[j].start < |subs[j].queued| && item == subs[j].queued[tick - subs[j].start]
  }

  /** `queue` is what remains of `sub` when `tick` is the next tick to pop. */
  ghost predicate Remainder(sub: Submission, tick: nat, queue: seq<Queued>) {
    queue == [] || (sub.start <= tick && queue == Drop(sub.queued, tick - sub.start))
  }

  ghost predicate Genuine(cfg: Config, sub: Submission) {
    && PlanShaped(cfg, sub.plan)
    && |sub.plan.actions| == |sub.plan.values|
    && QueueShaped(cfg, sub.tail)
    && sub.origin <= sub.start
    && sub.queued == QueueOf(cfg, sub.plan, sub.start - sub.origin, sub.tail)
  }

  ghost predicate AllGenuine(cfg: Config, subs: seq<Submission>) {
    forall j :: 0 <= j < |subs| ==> Genuine(cfg, subs[j])
  }

  ghost predicate History(subs: seq<Submission>) {
    && (forall i, j :: 0 <= i < j < |subs| ==> subs[i].start <= subs[j].start)
    && (subs != [] ==> subs[0].tail == [])
    && (forall j :: 0 < j < |subs| ==> Remainder(subs[j - 1], subs[j].start, subs[j].tail))
  }

  /** The plan in force covers the queue, the log and the next tick. */
  ghost predicate Aligned(s: State) {
    && s.origin <= s.completed
    && |s.log| == NextTick(s)
    && if s.submissions == [] then s.queue == [] && s.log == []
       else
         var last := s.submissions[|s.submissions| - 1];
         last.start <= |s.log| && Remainder(last, |s.log|, s.queue)
  }

  ghost predicate Inv(cfg: Config, s: State) {
    && History(s.submissions)
    && QueueShaped(cfg, s.queue)
    && (forall t :: 0 <= t < |s.log| ==> ServedAt(s.submissions, t, s.log[t]))
    && (if s.failed then s.paused && !s.inStep else Aligned(s))
    && (s.caller == Idle && !s.failed ==> s.target == None)
    && (s.caller == Resetting ==> s.paused && s.queue == [] && s.target == None)
    && (s.caller == Waiting ==> WaitingInv(cfg, s))
  }

  ghost predicate WaitingInv(cfg: Config, s: State) {
    && s.target == Some(s.origin + cfg.replanAfter)
    && if s.failed then s.completed < s.target.value
       else
         && !s.paused
         && s.completed <= s.target.value
         && (s.completed == s.target.value ==> !s.inStep)
         && |s.queue| + (if s.inStep then 1 else 0) >= s.target.value - s.completed
  }

  lemma ServedIsStable(subs: seq<Submission>, sub: Submission, log: seq<Queued>)
    requires forall t :: 0 <= t < |log| ==> ServedAt(subs, t, log[t])
    requires sub.start >= |log|
    ensures forall t :: 0 <= t < |log| ==> ServedAt(subs + [sub], t, log[t])
  {
    forall t | 0 <= t < |log| ensures ServedAt(subs + [sub], t, log[t]) {
      assert ServedAt(subs, t, log[t]);
      assert (subs + [sub])[..|subs|] == subs;
    }
  }

  lemma HistoryExtends(subs: seq<Submission>, sub: Submission)
    requires History(subs)
    requires if subs == [] then sub.tail == []
             else subs[|subs| - 1].start <= sub.start && Remainder(subs[|subs| - 1], sub.start, sub.tail)
    ensures History(subs + [sub])
  {
    var more := subs + [sub];
    assert forall j :: 0 <= j < |subs| ==> more[j] == subs[j];
    if subs != [] {
      assert forall i :: 0 <= i < |subs| ==> subs[i].start <= subs[|subs| - 1].start;
    }
  }

  lemma ReplacedKeepsInv(cfg: Config, s: State, sub: Submission, placed: State, snap: Snapshot)
    requires Inv(cfg, s) && s.caller == Idle && !s.failed
    requires placed == s.(queue := sub.queued, paused := false, target := Some(s.origin + cfg.replanAfter),
                          submissions := s.submissions + [sub])
    requires sub.start == |s.log| && sub.tail == s.queue && QueueShaped(cfg, sub.queued)
    requires |sub.queued| >= s.origin + cfg.replanAfter - |s.log|
    ensures if s.completed < s.origin + cfg.replanAfter then Inv(cfg, placed.(caller := Waiting))
            else Inv(cfg, Finish(placed, snap))
  {
    hide History, ServedAt;
    ServedIsStable(s.submissions, sub, s.log);
    HistoryExtends(s.submissions, sub);
    assert Drop(sub.queued, 0) == sub.queued;
    assert Remainder(sub, |s.log|, sub.queued);
  }

  lemma PlaceKeepsInv(cfg: Config, s: State, plan: Plan, snap: Snapshot)
    requires Inv(cfg, s) && s.caller == Idle && !s.failed
    requires PlanShaped(cfg, plan) && |plan.actions| == |plan.values| >= cfg.replanAfter
    ensures var placed := Place(cfg, s, plan);
      if placed.completed < placed.target.value then Inv(cfg, placed.(caller := Waiting)) else Inv(cfg, Finish(placed, snap))
  {
    var placed := Place(cfg, s, plan);
    ReplacedKeepsInv(cfg, s, placed.submissions[|s.submissions|], placed, snap);
  }

  lemma ExchangeKeepsInv(cfg: Config, s: State, plan: Plan, snap: Snapshot)
    requires cfg.Ok() && Inv(cfg, s) && Enabled(cfg, s, ExchangeCall(plan, snap))
    ensures Inv(cfg, Exchange(cfg, s, plan, snap).0)
  {
    var prepared := Prepare(cfg, plan);
    if prepared.Ok? && |prepared.value.actions| >= cfg.replanAfter && !s.failed && s.target == None {
      PlaceKeepsInv(cfg, s, prepared.value, snap);
    }
  }

  lemma DropNext<T>(s: seq<T>, n: nat)
    requires Drop(s, n) != []
    ensures n < |s| && Drop(s, n)[0] == s[n] && Drop(s, n)[1..] == Drop(s, n + 1)
  {
  }

  lemma LastServes(subs: seq<Submission>, tick: nat, item: Queued)
    requires subs != [] && subs[|subs| - 1].start <= tick
    requires tick - subs[|subs| - 1].start < |subs[|subs| - 1].queued| && item == subs[|subs| - 1].queued[tick - subs[|subs| - 1].start]
    ensures ServedAt(subs, tick, item)
  {
  }

  lemma PopKeepsInv(cfg: Config, s: State)
    requires Inv(cfg, s) && CanPop(s)
    ensures Inv(cfg, Pop(s))
  {
    hide History, ServedAt, Drop;
    var s' := Pop(s);
    var last := s.submissions[|s.submissions| - 1];
    var t := |s.log|;
    DropNext(last.queued, t - last.start);
    LastServes(s.submissions, t, s.queue[0]);
    assert forall u :: 0 <= u < |s'.log| ==> s'.log[u] == if u < t then s.log[u] else s.queue[0];
  }

  lemma StepKeepsInv(cfg: Config, s: State, e: Event)
    requires cfg.Ok() && Inv(cfg, s) && Enabled(cfg, s, e)
    ensures Inv(cfg, Step(cfg, s, e))
  {
    match e
    case ExchangeCall(plan, snap) => ExchangeKeepsInv(cfg, s, plan, snap);
    case ControlPops => PopKeepsInv(cfg, s);
    case CallerWakes(snap) =>
    case ResetCall =>
    case ResetDone =>
    case ControlCompletes =>
    case ControlFails =>
  }

  /** Every interleaving of the two threads keeps the invariant. */
  lemma {:induction false} RunKeepsInv(cfg: Config, s: State, events: seq<Event>)
    requires cfg.Ok() && Inv(cfg, s) && Run(cfg, s, events).Some?
    ensures Inv(cfg, Run(cfg, s, events).value)
  {
    if events != [] {
      RunKeepsInv(cfg, s, events[..|events| - 1]);
      StepKeepsInv(cfg, Run(cfg, s, events[..|events| - 1]).value, events[|events| - 1]);
    }
  }

  lemma PlaceKeepsGenuine(cfg: Config, s: State, plan: Plan)
    requires Inv(cfg, s) && !s.failed && AllGenuine(cfg, s.submissions)
    requires PlanShaped(cfg, plan) && |plan.actions| == |plan.values|
    ensures AllGenuine(cfg, Place(cfg, s, plan).submissions)
  {
    hide QueueOf, Effective, History, ServedAt;
  }

  lemma StepKeepsGenuine(cfg: Config, s: State, e: Event)
    requires cfg.Ok() && Inv(cfg, s) && Enabled(cfg, s, e) && AllGenuine(cfg, s.submissions)
    ensures AllGenuine(cfg, Step(cfg, s, e).submissions)
  {
    if e.ExchangeCall? && !s.failed {
      var prepared := Prepare(cfg, e.plan);
      if prepared.Ok? {
        PlaceKeepsGenuine(cfg, s, prepared.value);
      }
    }
  }

  /** The recorded plans are the accepted ones, queued as `QueueOf` says, in every interleaving. */
  lemma {:induction false} RunKeepsGenuine(cfg: Config, events: seq<Event>)
    requires cfg.Ok() && Run(cfg, Initial, events).Some?
    ensures Inv(cfg, Run(cfg, Initial, events).value)
    ensures AllGenuine(cfg, Run(cfg, Initial, events).value.submissions)
  {
    if events != [] {
      var front := events[..|events| - 1];
      RunKeepsGenuine(cfg, front);
      StepKeepsInv(cfg, Run(cfg, Initial, front).value, events[|events| - 1]);
      StepKeepsGenuine(cfg, Run(cfg, Initial, front).value, events[|events| - 1]);
    }
  }

  //////////////////////////// The callers' plans ////////////////////////////

  /** Whether an exchange takes the plan: a well-formed, long enough chunk for a healthy executor nobody else uses. */
  predicate Accepts(cfg: Config, s: State, plan: Plan) {
    && plan.actions != [] && |plan.values| == |plan.actions| && |plan.actions| * cfg.factor >= cfg.replanAfter
    && !s.failed && s.target.None?
  }

  /** The recorded plan is the caller's, upsampled. */
  ghost predicate FromCall(cfg: Config, call: Plan, plan: Plan) {
    && |call.values| == |call.actions|
    && Upsampled(call.actions, cfg.factor, plan.actions) && Upsampled(call.values, cfg.factor, plan.values)
  }

  ghost predicate AllFromCalls(cfg: Config, calls: seq<Plan>, subs: seq<Submission>) {
    |calls| == |subs| && forall j :: 0 <= j < |subs| ==> FromCall(cfg, calls[j], subs[j].plan)
  }

  /** The plans of the accepted exchange calls since the last reset, as the callers passed them. */
  ghost function Calls(cfg: Config, events: seq<Event>): (calls: seq<Plan>)
    requires cfg.Ok() && Run(cfg, Initial, events).Some?
  {
    if events == [] then []
    else
      var front, e := events[..|events| - 1], events[|events| - 1];
      match e
      case ExchangeCall(plan, _) => Calls(cfg, front) + if Accepts(cfg, Run(cfg, Initial, front).value, plan) then [plan] else []
      case ResetDone => []
      case _ => Calls(cfg, front)
  }

  lemma PrepareUpsamples(cfg: Config, plan: Plan)
    requires cfg.Ok() && PlanShaped(cfg, plan)
    ensures Prepare(cfg, plan).Ok? <==> plan.actions != [] && |plan.values| == |plan.actions|
    ensures Prepare(cfg, plan).Err? ==> Prepare(cfg, plan).error == if plan.actions == [] then EmptyChunk else ValueShape
    ensures Prepare(cfg, plan).Ok? ==> FromCall(cfg, plan, Prepare(cfg, plan).value)
  {
    hide Upsampled, Interpolate;
    if plan.actions != [] && |plan.values| == |plan.actions| {
      InterpolateUpsamples(plan.actions, cfg.factor, cfg.width);
      InterpolateUpsamples(plan.values, cfg.factor, cfg.batch);
    }
  }

  /** An accepted exchange records the caller's plan against the present origin; any other changes nothing. */
  lemma ExchangeRecordsItsCall(cfg: Config, s: State, plan: Plan, snap: Snapshot)
    requires cfg.Ok() && PlanShaped(cfg, plan) && QueueShaped(cfg, s.queue)
    ensures var subs := Exchange(cfg, s, plan, snap).0.submissions;
      if Accepts(cfg, s, plan) then
        && |subs| == |s.submissions| + 1 && subs[..|s.submissions|] == s.submissions
        && FromCall(cfg, plan, subs[|s.submissions|].plan) && subs[|s.submissions|].origin == s.origin
      else Exchange(cfg, s, plan, snap).0 == s && Exchange(cfg, s, plan, snap).1.Raised?
    ensures var outcome := Exchange(cfg, s, plan, snap).1;
      && (outcome == Raised(EmptyChunk) <==> plan.actions == [])
      && (outcome == Raised(ValueShape) <==> plan.actions != [] && |plan.values| != |plan.actions|)
      && (outcome == Raised(ShorterThanReplan) <==>
            plan.actions != [] && |plan.values| == |plan.actions| && |plan.actions| * cfg.factor < cfg.replanAfter)
      && (outcome == Raised(AlreadyExchanging) ==> s.target.Some?) && (outcome == Raised(ExecutorFailed) ==> s.failed)
  {
    hide FromCall, Prepare, QueueOf;
    PrepareUpsamples(cfg, plan);
  }

  lemma StepKeepsCalls(cfg: Config, s: State, e: Event, calls: seq<Plan>)
    requires cfg.Ok() && Enabled(cfg, s, e) && AllFromCalls(cfg, calls, s.submissions)
    ensures var after := if e.ResetDone? then [] else if e.ExchangeCall? && Accepts(cfg, s, e.plan) then calls + [e.plan] else calls;
      AllFromCalls(cfg, after, Step(cfg, s, e).submissions)
  {
    hide FromCall, Accepts;
    if e.ExchangeCall? {
      hide Exchange;
      ExchangeRecordsItsCall(cfg, s, e.plan, e.snap);
      var subs := Step(cfg, s, e).submissions;
      assert forall j :: 0 <= j < |s.submissions| && |subs| > |s.submissions| ==> subs[j] == subs[..|s.submissions|][j];
    }
  }

  /** In every interleaving the recorded plans are, in order, the upsampled plans of the accepted calls. */
  lemma {:induction false} RunKeepsCalls(cfg: Config, events: seq<Event>)
    requires cfg.Ok() && Run(cfg, Initial, events).Some?
    ensures AllFromCalls(cfg, Calls(cfg, events), Run(cfg, Initial, events).value.submissions)
  {
    hide AllFromCalls, Accepts, Step, Enabled;
    if events == [] {
      NoCalls(cfg);
    } else {
      var front, e := events[..|events| - 1], events[|events| - 1];
      RunKeepsCalls(cfg, front);
      StepKeepsCalls(cfg, Run(cfg, Initial, front).value, e, Calls(cfg, front));
      assert Calls(cfg, front) + [] == Calls(cfg, front);
    }
  }

  lemma NoCalls(cfg: Config)
    ensures AllFromCalls(cfg, [], [])
  {
  }

  lemma ShapedPlan(cfg: Config, sub: Submission)
    requires Genuine(cfg, sub)
    ensures Shaped(sub.plan.actions, cfg.width) && Shaped(Actions(sub.tail), cfg.width)
    ensures Shaped(Drop(sub.plan.actions, sub.start - sub.origin), cfg.width)
  {
    hide QueueOf;
  }

  lemma GenuineEntry(cfg: Config, sub: Submission, t: nat)
    requires Genuine(cfg, sub) && sub.start <= t < sub.start + |sub.queued|
    ensures sub.origin <= t < sub.origin + |sub.plan.actions|
    ensures var entry := sub.queued[t - sub.start];
      && entry.value == sub.plan.values[t - sub.origin]
      && (entry.chunkStarted <==> t == sub.start)
      && (!cfg.smooth ==> entry.action == sub.plan.actions[t - sub.origin])
      && (t - sub.start >= |sub.tail| ==> entry.action == sub.plan.actions[t - sub.origin])
      && (cfg.smooth && t == sub.start && sub.tail != [] ==> entry.action == sub.tail[0].action)
      && (cfg.smooth && t - sub.start < |sub.tail| ==>
            OnLine(entry.action, sub.tail[t - sub.start].action, sub.plan.actions[t - sub.origin],
                   Ease(t - sub.start, Min(|sub.tail|, |sub.queued|))))
  {
    hide SmoothOverlap, PlanShaped, QueueShaped, OnLine, Ease;
    ShapedPlan(cfg, sub);
    var elapsed := sub.start - sub.origin;
    var rest := Drop(sub.plan.actions, elapsed);
    if cfg.smooth && sub.tail != [] {
      SmoothOverlapShape(Actions(sub.tail), rest, cfg.width, t - sub.start);
    }
  }

  //////////////////////////// Time alignment ////////////////////////////

  /**
   Tick `t` executed the entry that the latest plan effective at `t` holds for time `t`: a plan chosen
   against tick `o` runs its element `t - o`.
   */
  ghost predicate RanItsPlanStep(cfg: Config, s: State, t: nat)
    requires t < |s.log|
  {
    var j := Serving(s.submissions, t);
    && j >= 0
    && var sub := s.submissions[j];
    && sub.origin <= t < sub.origin + |sub.plan.actions|
    && |sub.plan.values| == |sub.plan.actions|
    && s.log[t].value == sub.plan.values[t - sub.origin]
    && (!cfg.smooth ==> s.log[t].action == sub.plan.actions[t - sub.origin])
    && (s.log[t].chunkStarted <==> t == sub.start)
  }

  /**
   With overlap smoothing, the first tick of a replacement executes exactly the action the replaced
   plan still had queued for that tick, the ticks both plans cover ease from the one to the other, and
   ticks past the replaced tail follow the new plan exactly.
   */
  ghost predicate RanWithoutJump(s: State, t: nat)
    requires t < |s.log|
  {
    var j := Serving(s.submissions, t);
    && j >= 0
    && var sub := s.submissions[j];
    && (t == sub.start && sub.tail != [] ==>
          && j > 0
          && var replaced := s.submissions[j - 1];
          && 0 <= t - replaced.start < |replaced.queued|
          && s.log[t].action == replaced.queued[t - replaced.start].action)
    && (0 <= t - sub.start < Min(|sub.tail|, |sub.queued|) ==>
          && j > 0
          && var replaced := s.submissions[j - 1];
          && 0 <= t - replaced.start < |replaced.queued| && 0 <= t - sub.origin < |sub.plan.actions|
          && OnLine(s.log[t].action, replaced.queued[t - replaced.start].action, sub.plan.actions[t - sub.origin],
                    Ease(t - sub.start, Min(|sub.tail|, |sub.queued|))))
    && (t - sub.start >= |sub.tail| ==>
          && sub.origin <= t < sub.origin + |sub.plan.actions|
          && s.log[t].action == sub.plan.actions[t - sub.origin])
  }

  /** Tick `t` ran an entry of the plan that a caller passed in; without upsampling, that plan's own entry `t - o`. */
  ghost predicate RanItsCall(cfg: Config, calls: seq<Plan>, s: State, t: nat)
    requires t < |s.log|
  {
    var j := Serving(s.submissions, t);
    && 0 <= j < |calls|
    && var call, sub := calls[j], s.submissions[j];
    && sub.origin <= t && FromCall(cfg, call, sub.plan)
    && (cfg.factor == 1 ==>
          && t - sub.origin < |call.actions| == |call.values|
          && s.log[t].value == call.values[t - sub.origin]
          && (!cfg.smooth ==> s.log[t].action == call.actions[t - sub.origin]))
  }

  lemma GenuineShape(cfg: Config, sub: Submission)
    requires Genuine(cfg, sub)
    ensures |sub.plan.actions| == |sub.plan.values|
  {
    hide QueueOf;
  }

  /** What a submission replaced is what was left of the one before. */
  lemma TailRemains(subs: seq<Submission>, j: nat)
    requires History(subs) && j < |subs| && subs[j].tail != []
    ensures j > 0 && Remainder(subs[j - 1], subs[j].start, subs[j].tail)
  {
  }

  lemma TickAlignment(cfg: Config, s: State, t: nat)
    requires Inv(cfg, s) && AllGenuine(cfg, s.submissions) && t < |s.log|
    ensures RanItsPlanStep(cfg, s, t)
    ensures cfg.smooth ==> RanWithoutJump(s, t)
  {
    hide QueueOf, Effective, PlanShaped, QueueShaped, Aligned, WaitingInv, History, Serving, Genuine, OnLine, Ease;
    assert ServedAt(s.submissions, t, s.log[t]);
    var j := Serving(s.submissions, t);
    GenuineShape(cfg, s.submissions[j]);
    GenuineEntry(cfg, s.submissions[j], t);
    if s.submissions[j].tail != [] {
      TailRemains(s.submissions, j);
    }
  }

  /**
   No interleaving runs a plan step early, late or twice, and smoothing never jumps at a replacement. The plans
   are the callers' own, upsampled.
   */
  lemma TicksRunTheirPlanSteps(cfg: Config, events: seq<Event>)
    requires cfg.Ok() && Run(cfg, Initial, events).Some?
    ensures var s := Run(cfg, Initial, events).value;
      && (forall t :: 0 <= t < |s.log| ==> RanItsPlanStep(cfg, s, t) && (cfg.smooth ==> RanWithoutJump(s, t)))
      && forall t :: 0 <= t < |s.log| ==> RanItsCall(cfg, Calls(cfg, events), s, t)
  {
    hide Run, Calls, Inv, AllGenuine, RanWithoutJump;
    RunKeepsGenuine(cfg, events);
    RunKeepsCalls(cfg, events);
    var s := Run(cfg, Initial, events).value;
    forall t | 0 <= t < |s.log|
      ensures RanItsPlanStep(cfg, s, t) && (cfg.smooth ==> RanWithoutJump(s, t))
      ensures RanItsCall(cfg, Calls(cfg, events), s, t)
    {
      TickAlignment(cfg, s, t);
    }
  }

  //////////////////////////// Progress ////////////////////////////

  ghost predicate ControlEvent(e: Event) {
    e == ControlPops || e == ControlCompletes
  }

  /** Control steps left before the waiting caller's target. */
  ghost function StepsToTarget(s: State): int
    requires s.target.Some?
  {
    2 * (s.target.value - s.completed) - (if s.inStep then 1 else 0)
  }

  /** A waiting exchange is never stuck: short of its target, the control thread has a step to take. */
  lemma WaitingIsNeverStuck(cfg: Config, s: State)
    requires Inv(cfg, s) && s.caller == Waiting && !s.failed && s.completed < s.target.value
    ensures |s.queue| + (if s.inStep then 1 else 0) >= s.target.value - s.completed
    ensures Enabled(cfg, s, ControlPops) || Enabled(cfg, s, ControlCompletes)
  {
  }

  /**
   Any schedule of the control thread alone counts down to the target: it takes at most
   `StepsToTarget` steps, and when those are spent the tick counter equals the target with no step in
   flight and the queue untouched beyond it.
   */
  lemma {:induction false} ControlCountsDown(cfg: Config, s: State, events: seq<Event>)
    requires cfg.Ok() && Inv(cfg, s) && s.caller == Waiting && !s.failed
    requires Run(cfg, s, events).Some? && forall i :: 0 <= i < |events| ==> ControlEvent(events[i])
    ensures var s' := Run(cfg, s, events).value;
      && s'.caller == Waiting && !s'.failed && s'.target == s.target
      && |events| == StepsToTarget(s) - StepsToTarget(s') <= StepsToTarget(s)
      && (StepsToTarget(s') == 0 <==> s'.completed == s'.target.value)
      && (s'.completed == s'.target.value ==> !s'.inStep)
  {
    if events != [] {
      var front := events[..|events| - 1];
      ControlCountsDown(cfg, s, front);
      assert ControlEvent(events[|events| - 1]);
      RunKeepsInv(cfg, s, front);
    }
    RunKeepsInv(cfg, s, events);
  }

  /**
   An exchange that waited returns on its exact target tick with no step in flight, and moves the
   origin by exactly the replan interval.
   */
  lemma WaitedExchangeReturnsOnTarget(cfg: Config, s: State, snap: Snapshot)
    requires Inv(cfg, s) && s.caller == Waiting && s.target.Some? && Wake(s, snap).1 == Returned
    ensures var s' := Wake(s, snap).0;
      && s.completed == s.target.value && !s.inStep
      && s'.origin == s.origin + cfg.replanAfter == s'.completed
      && s'.target == None && s'.caller == Idle
      && s'.queue == (if snap.resets then [] else s.queue)
  {
  }

  /**
   An accepted exchange is overdue exactly when its target has already passed; it then returns at
   once and moves the origin by at least the replan interval.
   */
  lemma OverdueExchangeReturnsAtOnce(cfg: Config, s: State, plan: Plan, snap: Snapshot)
    requires cfg.Ok() && Inv(cfg, s) && Enabled(cfg, s, ExchangeCall(plan, snap)) && !s.failed
    requires plan.actions != [] && |plan.values| == |plan.actions| && |plan.actions| * cfg.factor >= cfg.replanAfter
    ensures var (s', outcome) := Exchange(cfg, s, plan, snap);
      && (outcome == Waits <==> s.completed < s.origin + cfg.replanAfter)
      && (outcome == Returned ==> s'.origin == s.completed >= s.origin + cfg.replanAfter)
      && (outcome.Raised? ==> outcome.error == SnapshotError && !snap.succeeds)
      && |s'.submissions| == |s.submissions| + 1
  {
  }

  /** A completed reset of a healthy executor is indistinguishable from a new one. */
  lemma ResetRestartsTheClock(cfg: Config, s: State)
    requires Inv(cfg, s) && Enabled(cfg, s, ResetDone) && !s.failed
    ensures EndReset(s) == Initial
  {
  }

  //////////////////////////// The executor object ////////////////////////////

  /** The executor's fields; each method is one lock-protected region, proved against its function. */
  class AsyncActionExecutor {
    const cfg: Config
    var actionQueue: seq<Queued>
    var completedSteps: nat
    var chunkOriginStep: nat
    var returnTarget: Option<nat>
    var paused: bool
    var inStep: bool
    var failed: bool
    ghost var caller: Caller
    ghost var submissions: seq<Submission>
    ghost var log: seq<Queued>

    ghost function Abs(): State
      reads this
    {
      State(actionQueue, completedSteps, chunkOriginStep, returnTarget, paused, inStep, failed, caller, submissions, log)
    }

    constructor (cfg: Config)
      requires cfg.Ok()
      ensures this.cfg == cfg && Abs() == Initial
    {
      this.cfg := cfg;
      actionQueue, completedSteps, chunkOriginStep, returnTarget := [], 0, 0, None;
      paused, inStep, failed := true, false, false;
      caller, submissions, log := Idle, [], [];
    }

    method FinishExchange(snap: Snapshot) returns (outcome: Outcome)
      modifies this
      ensures Abs() == Finish(old(Abs()), snap)
      ensures outcome == if snap.succeeds then Returned else Raised(SnapshotError)
    {
      if snap.succeeds {
        if snap.resets {
          actionQueue := [];
        }
        chunkOriginStep := completedSteps;
        outcome := Returned;
      } else {
        outcome := Raised(SnapshotError);
      }
      returnTarget := None;
      caller := Idle;
    }

    method BuildQueue(plan: Plan, elapsed: nat) returns (queue: seq<Queued>)
      requires PlanShaped(cfg, plan) && QueueShaped(cfg, actionQueue) && |plan.actions| == |plan.values|
      ensures queue == QueueOf(cfg, plan, elapsed, actionQueue)
    {
      var replacement := Drop(plan.actions, elapsed);
      if cfg.smooth && actionQueue != [] {
        replacement := SmoothOverlap(Actions(actionQueue), replacement, cfg.width);
      }
      queue := [];
      for index := 0 to |replacement|
        invariant queue == QueueOf(cfg, plan, elapsed, actionQueue)[..index]
      {
        queue := queue + [Queued(replacement[index], plan.values[elapsed + index], index == 0)];
      }
    }

    method PlaceQueue(plan: Plan)
      requires PlanShaped(cfg, plan) && QueueShaped(cfg, actionQueue) && |plan.actions| == |plan.values|
      modifies this
      ensures QueueShaped(cfg, old(Abs()).queue)
      ensures Abs() == Place(cfg, old(Abs()), plan)
    {
      var replacementStep := completedSteps + if inStep then 1 else 0;
      var elapsed := Max(0, replacementStep - chunkOriginStep);
      var queue := BuildQueue(plan, elapsed);
      submissions := submissions
        + [Submission(plan, chunkOriginStep, chunkOriginStep + elapsed, actionQueue, queue)];
      actionQueue := queue;
      paused := false;
      returnTarget := Some(chunkOriginStep + cfg.replanAfter);
    }

    method EnterExchange(plan: Plan, snap: Snapshot) returns (outcome: Outcome)
      requires cfg.Ok() && Inv(cfg, Abs()) && caller == Idle && PlanShaped(cfg, plan)
      modifies this
      ensures QueueShaped(cfg, old(Abs()).queue)
      ensures (Abs(), outcome) == Exchange(cfg, old(Abs()), plan, snap)
      ensures if Accepts(cfg, old(Abs()), plan) then
                && |submissions| == |old(submissions)| + 1 && submissions[..|old(submissions)|] == old(submissions)
                && FromCall(cfg, plan, submissions[|old(submissions)|].plan)
              else Abs() == old(Abs()) && outcome.Raised?
      ensures Inv(cfg, Abs())
    {
      hide FromCall;
      ExchangeKeepsInv(cfg, Abs(), plan, snap);
      ExchangeRecordsItsCall(cfg, Abs(), plan, snap);
      var prepared := Prepare(cfg, plan);
      if prepared.Err? {
        return Raised(prepared.error);
      }
      if |prepared.value.actions| < cfg.replanAfter {
        return Raised(ShorterThanReplan);
      }
      if failed {
        return Raised(ExecutorFailed);
      }
      if returnTarget.Some? {
        return Raised(AlreadyExchanging);
      }
      PlaceQueue(prepared.value);
      if completedSteps < returnTarget.value {
        caller := Waiting;
        return Waits;
      }
      outcome := FinishExchange(snap);
    }

    method WakeCaller(snap: Snapshot) returns (outcome: Outcome)
      requires Inv(cfg, Abs()) && caller == Waiting
      modifies this
      ensures old(Abs()).target.Some? && (Abs(), outcome) == Wake(old(Abs()), snap)
      ensures Inv(cfg, Abs())
    {
      if completedSteps >= returnTarget.value {
        outcome := FinishExchange(snap);
      } else if failed {
        caller := Idle;
        outcome := Raised(ExecutorFailed);
      } else {
        outcome := Waits;
      }
    }

    /** The control thread takes its next tick, or keeps waiting. */
    method TakeTick() returns (tick: Option<Queued>)
      requires Inv(cfg, Abs()) && !inStep
      modifies this
      ensures if CanPop(old(Abs())) then Abs() == Pop(old(Abs())) && tick == Some(old(Abs()).queue[0])
              else Abs() == old(Abs()) && tick == None
      ensures Inv(cfg, Abs())
    {
      if failed || paused || actionQueue == [] || (returnTarget.Some? && completedSteps >= returnTarget.value) {
        return None;
      }
      PopKeepsInv(cfg, Abs());
      tick := Some(actionQueue[0]);
      log := log + [actionQueue[0]];
      actionQueue := actionQueue[1..];
      inStep := true;
    }

    method CommitTick()
      requires cfg.Ok() && Inv(cfg, Abs()) && inStep
      modifies this
      ensures Abs() == Complete(old(Abs())) && Inv(cfg, Abs())
    {
      StepKeepsInv(cfg, Abs(), ControlCompletes);
      completedSteps := completedSteps + 1;
      inStep := false;
    }
  }
}
