# Verified models of the rollout, evaluation and replay core

This project models the scheduling, accounting and index arithmetic of the repository in Dafny and proves
what its code relies on but does not say in one place. `dafny verify dfyconfig.toml` checks everything.

| files | what they model |
|---|---|
| `AsyncExecutor`, `ActionPlans`, `SerialExecutor` | the two action executors: a caller and a control thread sharing a queue, upsampling and smoothing of plans |
| `Episodes`, `EpisodeMachine`, `VectorMasks` | the vector environment under serial execution: policy actions, interventions, completion, resets, recording |
| `TrajectoryRecords`, `ProgressCounts`, `TransitionMasks` | trajectory records from done streams, the loop's own counters, and the transition masks |
| `CaseSchedule`, `FixedCaseEval`, `LiberoPlanner` | the distributed fixed-case stream, the evaluation quotas, the LIBERO process queues |
| `EnvLoop`, `SerialCounters` | the interleaved pipeline stages of a rollout, the collated output, and its counters over serial environments |
| `ReplayPool`, `Allocation` | the per-task dual ring buffers and the fair sampling from them |
| `NormStats` | the streaming histograms and their quantiles |
| `EvalItems`, `Coalescing`, `EvalScores` | work items, coalesced bundles, splitting combined cases, score accumulation |
| `SplitMonitor`, `LaneJobs` | lane ownership in all launch modes, the monitor's charges, and its job bookkeeping |
| `ModelBroker`, `BrokerProtocol` | merging and slicing of requests to one model, and the pipe protocol around it |
| `Common` | optional values, sums, concatenation, chunking and division facts |

How the models are built:

- Objects whose methods update fields are classes with those fields; loops that update variables are methods
  with invariants, proved against a specification; pure computations are functions with lemmas.
- Concurrency (the asynchronous executor, the stage coroutines, the broker with its workers) is a relation
  over atomic steps; theorems hold for every sequence of steps.
- Tensors are sequences, numbers are exact reals, and the policy, the simulators, the operator, the scheduler
  and random permutations are arbitrary inputs.

Where the code does less than one might expect, the exact condition is proved:

- Histogram mass is conserved for every stream exactly when the bin count is even
  (`NormStats.MassConservedIffBinsEven`). An odd count loses a constant dimension whose range grows.
- Registering launches or single lane jobs keeps at most one active job per lane exactly when no lane's active
  latest job is displaced (`LaneJobs.LaunchesKeepOneActive`, `LaneJobs.ExplicitJobsKeepOneActive`). Restarting
  the monitor with its old array arguments while a repair job runs displaces it
  (`LaneJobs.RestartCanHideARunningRepair`), although avoiding duplicate repair jobs is the documented purpose of
  that registration (`scripts/eval/mainline/monitor_split_eval.py:205-210`).
- The last observations of a rollout follow the order of the given stage ids while the output follows the
  ascending order. Both speak of the same lanes row by row exactly when the given stages that have lanes ascend
  (`EnvLoop.OrdersAgreeIffAscending`, and `EnvLoop.DescendingStagesDisagree` for the stages 1, 0).
- The items of an accepted specification are built exactly when it is not ambiguous, that is when no two labels
  run into the task names of two targets of equal suite and layout (`EvalItems.BuildWorkItems`). Validation lets
  such specifications pass (`EvalItems.IdsCanCollide`), so the assertion on ids is reachable.
- A tick reports the feedback of the tick before again exactly when it is skipped, that is when its chunk was
  intervened in before and the operator presents nothing (`Episodes.SkippedTicksRepeatFeedback`). A reward can
  therefore be reported twice, although the done flag cannot.

## Model

| member | source | states |
|---|---|---|
| AsyncExecutor.TicksRunTheirPlanSteps | src/verl_vla/envs/action_executor.py:215-302 | in every interleaving of caller and control thread, tick t executes entry t - o of the plan accepted against origin o and in force at t; that plan is the caller's own, upsampled, so without upsampling and smoothing tick t runs exactly A[t - o] of the A that was passed in; the first tick of a replacement never jumps |
| AsyncExecutor.RunKeepsInv | src/verl_vla/envs/action_executor.py:215-302 | the invariant linking queue, completed ticks, step in flight, origin and return target holds after any sequence of atomic regions |
| AsyncExecutor.RunKeepsGenuine | src/verl_vla/envs/action_executor.py:227-242 | the recorded plans are exactly the accepted submissions, cut at the replacement tick and blended with what was queued |
| AsyncExecutor.RunKeepsCalls | src/verl_vla/envs/action_executor.py:215-240 | in every interleaving the recorded plans are, in order, those of the accepted exchange calls since the last reset: the very plan at factor 1, and at any factor same ends and every entry on the call's own polyline at time k * (n - 1) / (n * factor - 1), for actions and values |
| AsyncExecutor.ExchangeRecordsItsCall | src/verl_vla/envs/action_executor.py:215-240 | an exchange records its plan exactly when the chunk is well-formed and long enough, the executor healthy and no other exchange waits; any other changes nothing and raises the error named |
| AsyncExecutor.WaitingIsNeverStuck | src/verl_vla/envs/action_executor.py:246-249 | while an exchange waits short of its target, either a step is in flight or the control thread may pop one: queue plus in-flight step cover the distance |
| AsyncExecutor.ControlCountsDown | src/verl_vla/envs/action_executor.py:277-302 | any schedule of the control thread alone counts down a measure of at most two steps per remaining tick; when it is spent the counter equals the target with nothing in flight |
| AsyncExecutor.WaitedExchangeReturnsOnTarget | src/verl_vla/envs/action_executor.py:244-257 | an exchange that waited returns at a quiescent tick boundary with completed equal to target and moves the origin by exactly replan_after_steps |
| AsyncExecutor.OverdueExchangeReturnsAtOnce | src/verl_vla/envs/action_executor.py:244-257 | an accepted exchange returns at once exactly when its target has passed at entry; the origin then advances by at least replan_after_steps |
| AsyncExecutor.ResetRestartsTheClock | src/verl_vla/envs/action_executor.py:259-268 | a completed reset of a healthy executor gives the initial state again |
| AsyncExecutor.AsyncActionExecutor.EnterExchange | src/verl_vla/envs/action_executor.py:215-257 | the lock region from entry to the first wait or immediate return: error cases, replacement and target; an accepted call is recorded upsampled, any other changes nothing |
| AsyncExecutor.AsyncActionExecutor.BuildQueue | src/verl_vla/envs/action_executor.py:227-240 | the replacement queue: the plan from the elapsed ticks on, blended with the queue when configured, first entry flagged |
| AsyncExecutor.AsyncActionExecutor.PlaceQueue | src/verl_vla/envs/action_executor.py:227-245 | replaces the queue and sets target, pause flag and wake-up as the step function says |
| AsyncExecutor.AsyncActionExecutor.WakeCaller | src/verl_vla/envs/action_executor.py:246-257 | a woken caller re-checks failure and target and finishes or waits on |
| AsyncExecutor.AsyncActionExecutor.FinishExchange | src/verl_vla/envs/action_executor.py:250-257 | snapshot, queue cleared on a reset lane, origin moved, target dropped even when the snapshot raises |
| AsyncExecutor.AsyncActionExecutor.TakeTick | src/verl_vla/envs/action_executor.py:279-290 | the control thread pops only when running, unpaused, non-empty and short of the target |
| AsyncExecutor.AsyncActionExecutor.CommitTick | src/verl_vla/envs/action_executor.py:298-301 | completion of a step: one more completed tick, nothing in flight |
| ActionPlans.ResampleOnPolyline | src/verl_vla/envs/action_executor.py:328-347 | every upsampled tick lies on the chunk's own polyline, on the segment that contains its time |
| ActionPlans.ResampleKeepsEndpoints | src/verl_vla/envs/action_executor.py:328-347 | upsampling keeps the first and the last action |
| ActionPlans.InterpolateUpsamples | src/verl_vla/envs/action_executor.py:328-347 | the upsampled chunk is the chunk itself at factor 1; at any factor it keeps the ends and puts every tick on the polyline at its own time |
| ActionPlans.EaseBounds | src/verl_vla/envs/action_executor.py:350-362 | the cubic weight stays in [0, 1], starts at 0 and ends at 1 |
| ActionPlans.EaseIsCubic | src/verl_vla/envs/action_executor.py:357-358 | the weight of step j of m is 3 u^2 - 2 u^3 for u = j / (m - 1) |
| ActionPlans.SmoothOverlapShape | src/verl_vla/envs/action_executor.py:350-362 | an overlap-smoothed plan leaves from the old action, ends on the new plan, is the eased line between both in every coordinate, and is the new plan afterwards |
| SerialExecutor.BlendIsContinuous | src/verl_vla/envs/action_executor.py:365-398 | a serially blended plan starts with the action the previous plan would have executed next, arrives at the new plan, and is the eased line between the two |
| SerialExecutor.SmoothSerialActionChunks | src/verl_vla/envs/action_executor.py:365-398 | only environments with a still valid previous plan are blended; too short plans and changed shapes are the only errors |
| SerialExecutor.SerialActionExecutor.Exchange | src/verl_vla/envs/action_executor.py:143-168 | checks and upsamples the chunk; which slice of actions and values is executed and what is remembered; an environment that was not reset eases out of its last plan, any other follows the chunk at once |
| SerialExecutor.SerialActionExecutor.Reset | src/verl_vla/envs/action_executor.py:170-172 | forgets the previous plan and its validity |
| Episodes.RecordingStaysTrue | src/verl_vla/envs/base.py:923-964 | recording one step, with the save on the last one, keeps the buffer equal to the gapless frames of what really happened |
| Episodes.ResetStartsRecording | src/verl_vla/envs/base.py:916-921 | clearing the recorder and starting a new episode keeps the recording true |
| Episodes.ClosingSaves | src/verl_vla/envs/base.py:966-979 | saving an unfinished episode at the end keeps the recording true; an empty or already saved one is not saved again |
| Episodes.PollObeyed | src/verl_vla/envs/base.py:612-640 | one operator poll keeps this: all presented actions but the pending one are executed, once and in order, unless the episode ended |
| Episodes.TickTold | src/verl_vla/envs/base.py:642-655 | what a whole tick executes: the presented actions in order, each once and marked as intervention; without any the policy action unless the chunk was intervened in before; success and stop presses end the episode |
| Episodes.SkippedTicksRepeatFeedback | src/verl_vla/envs/base.py:267-302 | a tick reports the feedback of the tick before again, without a step of its own, exactly when the chunk was intervened in before and the operator presents nothing; otherwise it reports its last step, and how many steps it executes |
| Episodes.TickFollowed | src/verl_vla/envs/base.py:585-655 | tick by tick a chunk executes what the operator presents or else the chunk's own action, skipped once he has intervened |
| Episodes.AloneRunsTheChunk | src/verl_vla/envs/action_executor.py:157-164 | an environment the operator leaves alone executes the chunk's actions in order, unmarked, up to the one in whose tick its episode ends |
| Episodes.RaisedAtMostOnce | src/verl_vla/envs/base.py:267-302 | an environment silent after its done flag raises it at most once, never if it was done before |
| Episodes.SilenceContinues | src/verl_vla/envs/base.py:267-302 | silence after done carries over from chunk to chunk |
| EpisodeMachine.ApplyManualStepOverrides | src/verl_vla/envs/base.py:561-583 | manual success makes a terminated step with reward 1, a forced stop wins over it and makes a failed truncation, all others are untouched; results are indexed by local id |
| EpisodeMachine.UpdateStepResult | src/verl_vla/envs/base.py:657-705 | the stepped environments' results replace theirs in the merged result, all others stay |
| EpisodeMachine.BaseEnv.MaskStep | src/verl_vla/envs/base.py:488-559 | only selected, not finished environments are stepped; each episode grows by the simulator's own answer, the latest observation follows, the recording stays true |
| EpisodeMachine.BaseEnv.RecordStepResult | src/verl_vla/envs/base.py:923-964 | each stepped environment records the observation before its step, its action, feedback and intervention flag; finished recordings are skipped |
| EpisodeMachine.BaseEnv.UpdateLatestObs | src/verl_vla/envs/base.py:741-749 | the latest observation of exactly the stepped environments is replaced |
| EpisodeMachine.BaseEnv.Intervene | src/verl_vla/envs/base.py:605-640 | the intervention loop for any operator: pending interventions are executed when the next arrives, buttons are sticky, finished environments ignore the operator; polling goes on while he intervenes on anybody and ends when he leaves everyone running alone |
| EpisodeMachine.BaseEnv.StepWithTeleopAndRecording | src/verl_vla/envs/base.py:585-655 | one tick: which actions run in which order, who is stepped again, who skips, and that a finished environment is never touched |
| EpisodeMachine.BaseEnv.ExecuteActionStep | src/verl_vla/envs/base.py:267-302 | an environment that was done before the tick is not touched and reports zeros; every other reports its latest step; a done flag is raised exactly in the tick that ends the episode |
| EpisodeMachine.BaseEnv.ResetDoneEnvs | src/verl_vla/envs/base.py:707-727 | under auto reset exactly the selected environments restart with the simulator's reset observation; their recording restarts too |
| EpisodeMachine.BaseEnv.FinishExecutionSlice | src/verl_vla/envs/base.py:304-361 | with auto reset exactly the finished and restart-requested environments begin a new episode; without it finished ones stay finished |
| EpisodeMachine.BaseEnv.Step | src/verl_vla/envs/base.py:111-127 | a whole chunk under serial execution: every environment executes, in order, what the operator presents and else the chunk's own actions, until its episode ends; left alone exactly the chunk's actions, with their values; one done flag at most, everything after it zero; under auto reset exactly the environments that ended or should restart begin anew |
| EpisodeMachine.BaseEnv.Reset | src/verl_vla/envs/base.py:130-152 | a full reset restarts every episode and recording; under auto reset a running vector keeps its observation unless an evaluation reset is asked for |
| EpisodeMachine.BaseEnv.SetMode | src/verl_vla/envs/base.py:136-137 | a change of recording mode drops all pending frames and done flags, the same mode changes nothing |
| EpisodeMachine.BaseEnv.FinishRollout | src/verl_vla/envs/base.py:966-979 | without auto reset every unsaved episode is saved, with it nothing happens |
| EpisodeMachine.Rollout | src/verl_vla/envs/base.py:524-548 | without auto reset, for any policy, operator and simulator: over all chunks an environment raises done at most once and is silent afterwards, is never stepped once done, and its one episode is saved exactly once and gapless from the reset observation on; an environment left alone executes the policy's chunks in order up to the action that ends its episode |
| TrajectoryRecords.CollectIsFold | src/verl_vla/train_cluster/cluster.py:837-903 | cutting a chunk stream into two calls with carried state gives the records and the carry of one call |
| TrajectoryRecords.CallsAreOneCall | src/verl_vla/train_cluster/cluster.py:781-903 | any number of consecutive calls gives the records of one call on the whole stream |
| TrajectoryRecords.StepsAreConserved | src/verl_vla/train_cluster/cluster.py:855-903 | recorded lengths plus carry plus discarded post-done tails equal the carried-in length plus all steps |
| TrajectoryRecords.RecordsSpanTheirChunks | src/verl_vla/train_cluster/cluster.py:862-896 | a record covers exactly the chunks between consecutive ends: its chunk_length counts them, its length and return cover them up to the first done step |
| TrajectoryRecords.CarryStaysWholeChunks | src/verl_vla/train_cluster/cluster.py:862-903 | a carried length that is a multiple of the chunk size stays one |
| TrajectoryRecords.CollectTrajectoryRecords | src/verl_vla/train_cluster/cluster.py:781-903 | auto-reset collection over all lanes: records lane by lane cut at the remaining count, and which carries are stored |
| TrajectoryRecords.CollectOneLane | src/verl_vla/train_cluster/cluster.py:855-903 | one lane, stopping as soon as the limit is reached |
| TrajectoryRecords.CollectEpisodeRecords | src/verl_vla/train_cluster/cluster.py:906-947 | fixed episodes: one record per lane in lane order, cut at the remaining count; its length ends at the first done step or the last one, the return is the sum of exactly those rewards, success means some of those steps succeeded, the score is the last of them, and k * (chunks - 1) < length <= k * chunks |
| TrajectoryRecords.EpisodeIsDescribed | src/verl_vla/train_cluster/cluster.py:921-937 | what a fixed episode's record says about its steps, position by position |
| TrajectoryRecords.ReturnIsRewards | src/verl_vla/train_cluster/cluster.py:928-931 | the return of a prefix is the sum of its rewards |
| TrajectoryRecords.StopAt | src/verl_vla/train_cluster/cluster.py:924-926 | the first done step, or the last step of a lane that never finishes |
| ProgressCounts.UpdateProgress | src/verl_vla/utils/data.py:62-111 | the vectorized in-place update leaves every lane as if it had been advanced alone and returns the sums of what the lanes counted |
| ProgressCounts.StepLanes | src/verl_vla/utils/data.py:91-111 | one low-level step over all lanes adds exactly the lanes' own new trajectories and successes |
| ProgressCounts.ProgressAgreesWithRecord | src/verl_vla/utils/data.py:91-111 | for a lane with consecutive done steps one trajectory is counted exactly when it finished, one success exactly when it succeeded at or before its first done step |
| ProgressCounts.CountValidSteps | src/verl_vla/train_cluster/env_loop.py:346-350 | the cumulative-sum mask counts the steps up to and including the first done |
| ProgressCounts.ExecutedStepsAreRecordLength | src/verl_vla/train_cluster/env_loop.py:343-353 | for any done stream the loop's executed steps of a lane are the length of its trajectory record |
| TransitionMasks.BuildTransitionMasks | src/verl_vla/utils/data.py:37-59 | a step is valid exactly when a done step is at or after it, and successful exactly when moreover its own episode contains a success |
| CaseSchedule.EveryPositionIsServed | src/verl_vla/envs/robodojo/robodojo_env.py:183-197 | the stage-major stream misses no position: each one is served by the computed wave, stage, worker and environment |
| CaseSchedule.ServersAreUnique | src/verl_vla/envs/robodojo/robodojo_env.py:183-197 | no position is served twice |
| CaseSchedule.RepeatedStreamIsBlocked | src/verl_vla/envs/robodojo/robodojo_env.py:207-236 | a cycle of the repeated training stream serves each layout the configured number of times in a row, every draw with its own policy seed |
| CaseSchedule.RuntimeCasesArePinned | src/verl_vla/envs/robodojo/robodojo_env.py:163-203 | with one runtime case per environment every wave serves each environment its own case |
| CaseSchedule.RoboDojoSchedule.NextEvalCases | src/verl_vla/envs/robodojo/robodojo_env.py:162-203 | an evaluation draw serves the simulator's share of its wave, cyclically over the cases, and moves the cursor by one wave |
| CaseSchedule.RoboDojoSchedule.EnvReset | src/verl_vla/envs/robodojo/robodojo_env.py:383-401 | an evaluation reset restarts the stream first when asked to, and then draws once |
| CaseSchedule.RoboDojoSchedule.NextTrainCases | src/verl_vla/envs/robodojo/robodojo_env.py:174-245 | training draws: the expanded stage-major stream with repeats or a seed origin, the local cyclic schedule otherwise |
| CaseSchedule.RoboDojoSchedule.SetRuntimeEvalCases | src/verl_vla/envs/robodojo/robodojo_env.py:247-257 | replaces the cases and restarts the stream exactly when one layout and one seed per environment are given |
| CaseSchedule.RestartKeepsStream | src/verl_vla/envs/robodojo/robodojo_env.py:259-271 | a simulator recreated from saved cursors draws the cases the old one would have drawn |
| FixedCaseEval.StageMajorBatchIsTheStream | src/verl_vla/envs/robodojo/robodojo_env.py:183-202 | the stage-major batch of a wave is exactly the next width positions of the case stream |
| FixedCaseEval.ResetWorker | src/verl_vla/workers/env/env_worker.py:473-535 | a worker resets its stages independently and joins their rows in stage order |
| FixedCaseEval.ResetWave | src/verl_vla/train_cluster/cluster.py:729 | a reset wave over all workers delivers worker-major rows and moves every cursor by one wave |
| FixedCaseEval.Restructure | src/verl_vla/train_cluster/env_loop.py:467-475 | cutting the batch per worker and per stage and joining per stage gives the stage-major batch |
| FixedCaseEval.AcceptWave | src/verl_vla/train_cluster/cluster.py:740-753 | the quota loop accepts exactly the stream positions below the total, and the out-of-range error is unreachable |
| FixedCaseEval.Eval | src/verl_vla/train_cluster/cluster.py:716-757 | evaluation of T episodes on n cases with width W ends after exactly ceil(T / W) waves with exactly the records of the first T stream positions, in order, each describing the steps of its own episode; for a non-positive T at once with none |
| FixedCaseEval.EvalWithoutCases | src/verl_vla/train_cluster/cluster.py:732-757 | without fixed cases, over any run of waves, also empty ones: exactly the first T records of the waves, from no more waves than that takes; still running exactly while too few episodes have finished |
| FixedCaseEval.CasesAreSharedEvenly | src/verl_vla/train_cluster/cluster.py:719-723 | those records hold case i exactly floor(T / n) times, plus one if i < T mod n |
| FixedCaseEval.OccurrencesAreShares | src/verl_vla/train_cluster/cluster.py:719-723 | closed form of how often a case occurs in a prefix of the cyclic stream |
| LiberoPlanner.QueueEntry | src/verl_vla/envs/libero/libero_env.py:137-152 | entry b * E + e of process p is padded state b * P * E + p * E + e |
| LiberoPlanner.EveryStateIsDrawnOnce | src/verl_vla/envs/libero/libero_env.py:106-110 | lock-step full-vector draws reach every state within ceil(n / (P * E)) waves, each by exactly one wave, process and environment apart from padding |
| LiberoPlanner.DrawsFollowTheStream | src/verl_vla/envs/libero/libero_env.py:106-152 | wave by wave the processes read the padded benchmark in order; padding can only be drawn in the last wave |
| LiberoPlanner.BuildProcessQueues | src/verl_vla/envs/libero/libero_env.py:137-152 | one queue per process, an error exactly for an empty benchmark |
| LiberoPlanner.LiberoResetStatePlanner.NextEvalStates | src/verl_vla/envs/libero/libero_env.py:106-110 | the next entries of the process queue read cyclically from the cursor |
| LiberoPlanner.LiberoResetStatePlanner.DrawAll | src/verl_vla/envs/libero/libero_env.py:106-110 | any split of the draws reads the same cyclic stream and leaves the same cursor |
| LiberoPlanner.LiberoResetStatePlanner.ResetEvalCursor | src/verl_vla/envs/libero/libero_env.py:102-104 | restarts the stream on the same queue |
| EnvLoop.EnvLoop.Run | src/verl_vla/train_cluster/env_loop.py:202-384 | any interleaving of the stage loops gives every active stage exactly max_interactions complete slots, each the policy's answer to its observation and the environment's answer to that, and shared counters that are the sums of the stages' own; which stage ids and batch sizes are refused |
| EnvLoop.EnvLoop.Resume | src/verl_vla/train_cluster/env_loop.py:295-384 | one region of one stage coroutine keeps every stage on its own solo run and makes progress |
| EnvLoop.EnvLoop.ActiveIds | src/verl_vla/train_cluster/env_loop.py:210-219 | no ids means all stages; otherwise exactly the non-empty, distinct, in-range lists are accepted |
| EnvLoop.EnvLoop.OpenStages | src/verl_vla/train_cluster/env_loop.py:221-226 | every active stage starts with its reset observation submitted, or a misfit is reported |
| EnvLoop.ResumeWithAction | src/verl_vla/train_cluster/env_loop.py:298-334 | the policy's answer completes the action of the open slot |
| EnvLoop.ResumeWithEnvResult | src/verl_vla/train_cluster/env_loop.py:336-384 | the environment's answer completes the slot, is counted, and opens the next slot until the last |
| EnvLoop.SubmitRollout | src/verl_vla/train_cluster/env_loop.py:228-253 | a submission succeeds exactly when the configured divisibility holds; its parts joined are the batch, of the configured size |
| EnvLoop.ResolveRollout | src/verl_vla/train_cluster/env_loop.py:255-259 | parts answered separately and joined are the row-wise answer to the whole batch |
| EnvLoop.CountExecuted | src/verl_vla/train_cluster/env_loop.py:346-353 | sum of the steps before each lane's first done, lanes already done left out |
| EnvLoop.Collate | src/verl_vla/train_cluster/env_loop.py:477-505 | the output rows are, stage after stage in ascending id order, each lane's own closed-loop run; row k is the run of lane k in that order |
| EnvLoop.LastObservations | src/verl_vla/train_cluster/env_loop.py:400-402 | the last observations come in the order the active stages were given; observation k is the one lane k in that order ended on |
| EnvLoop.OrdersAgreeIffAscending | src/verl_vla/train_cluster/env_loop.py:400-478 | the lanes behind the output rows and those behind the last observations are the same, row by row, exactly when the given stages that have lanes ascend |
| EnvLoop.DescendingStagesDisagree | src/verl_vla/train_cluster/env_loop.py:400-478 | for the stages 1, 0 output row 0 is of stage 0 while last observation 0 is of stage 1 |
| EnvLoop.ExecutedStepsAreRecorded | src/verl_vla/train_cluster/env_loop.py:343-353 | the executed low-level steps of a stage are the total length of its trajectory records |
| EnvLoop.CountersAreLanes | src/verl_vla/utils/data.py:91-111 | with one done pulse per lane the counters of a stage are the lanes that finished and those that succeeded at or before finishing |
| SerialCounters.SilenceIsSinglePulse | src/verl_vla/utils/data.py:91-111 | what a silent-after-done environment reports has a single done pulse, and no success after it |
| SerialCounters.SerialCountersAreEpisodes | src/verl_vla/utils/data.py:91-111 | the counters of a stage fed by such an environment are its ended episodes and those ended after a reported success |
| SerialCounters.CountedRollout | src/verl_vla/envs/base.py:111-127 | for any policy, simulator and operator: the loop counters of the stage that a serial rollout without auto reset serves are its finished and its successful episodes |
| ReplayPool.SACReplayPool.AddBatch | src/verl_vla/utils/replay_pool.py:61-114 | a batch appends, per task and polarity, exactly its valid rows to a bounded FIFO; a length mismatch changes nothing; only valid, matching rows are ever stored |
| ReplayPool.SACReplayPool.SampleBatch | src/verl_vla/utils/replay_pool.py:116-171 | a non-empty pool returns exactly B rows, min(B, size) of them valid and all of them stored rows, with the positive count closest to the request that the pool allows; an empty pool repeats the kept invalid row or fails |
| ReplayPool.Ingest | src/verl_vla/utils/replay_pool.py:61-114 | after any sequence of batches each task and polarity holds exactly the most recent capacity of all its inserted rows |
| ReplayPool.PushAllKeepsMostRecent | src/verl_vla/utils/replay_pool.py:292-318 | block after block, each first cut to its leading capacity rows, a bounded FIFO keeps the most recent rows |
| ReplayPool.WriteIsPush | src/verl_vla/utils/replay_pool.py:292-318 | a wrapped write with its pointer updates is a push on the FIFO view of the ring |
| ReplayPool.WrappedWritesAreDistinct | src/verl_vla/utils/replay_pool.py:297-311 | wrapped writes of at most one round never collide |
| ReplayPool.InsertBlock | src/verl_vla/utils/replay_pool.py:292-318 | inserting a block into a ring is a push on its FIFO |
| ReplayPool.Group | src/verl_vla/utils/replay_pool.py:89-97 | rows grouped by task and polarity in batch order, tasks in order of first appearance |
| ReplayPool.SampleFromRing | src/verl_vla/utils/replay_pool.py:412-426 | distinct live slots: a sub-multiset of the rows stored for it |
| ReplayPool.SplitRequest | src/verl_vla/utils/replay_pool.py:137-157 | draws as much as requested and available, never overdraws a polarity, and comes as close to the requested split as possible |
| ReplayPool.TargetPositive | src/verl_vla/utils/replay_pool.py:136-138 | the requested number of positives: the ratio clamped to [0, 1], times the batch size, to the nearest integer, halves to the even one |
| ReplayPool.LiveKeepsOrder | src/verl_vla/utils/replay_pool.py:396-400 | the tasks drawn from keep the order of the pools |
| ReplayPool.SampleFromTaskPools | src/verl_vla/utils/replay_pool.py:396-410 | the request is divided fairly over the tasks that hold rows, each part without repetition |
| ReplayPool.PadAndShuffle | src/verl_vla/utils/replay_pool.py:359-374 | padding adds only invalidated copies and shuffling keeps the multiset |
| Allocation.AllocateCounts | src/verl_vla/utils/replay_pool.py:429-448 | fails exactly for more than is available; otherwise sums to the request, never exceeds a size, and there is a level with the extra unit going to the earliest tasks |
| Allocation.AllocationIsMaxMinFair | src/verl_vla/utils/replay_pool.py:429-448 | the result is max-min fair up to one row: whenever another division gives a task more, some task that had at most one row more than it loses |
| Allocation.LevelsDetermineAllocation | src/verl_vla/utils/replay_pool.py:437-446 | two levelled divisions of the same total are the same |
| NormStats.MassConservedIffBinsEven | scripts/compute_norm_stats.py:68-158 | every stream of non-empty updates conserves mass exactly when the number of bins is even |
| NormStats.EvenBinsConserveMass | scripts/compute_norm_stats.py:68-158 | with an even bin count every dimension's bins sum to the number of samples, through any range growth and for constant dimensions |
| NormStats.OddBinsLoseMass | scripts/compute_norm_stats.py:73-101 | with an odd bin count a constant dimension whose range grows upwards loses its mass |
| NormStats.StreamAccounts | scripts/compute_norm_stats.py:126-158 | after any stream each sample sits in one bin whose left edge does not exceed it |
| NormStats.BinFloor | scripts/compute_norm_stats.py:103-108 | a value of the range is binned at a left edge between the minimum and the value |
| NormStats.EdgesAreEven | scripts/compute_norm_stats.py:80 | the bins are equally wide and span the range |
| NormStats.RangeOfBins | scripts/compute_norm_stats.py:76-80 | a constant dimension is binned over 1e-6 to either side of its value |
| NormStats.RebinMovesSamples | scripts/compute_norm_stats.py:93-101 | re-binning weights moves every sample along with its old bin's left edge |
| NormStats.QuantileIsLowerBound | scripts/compute_norm_stats.py:110-124 | a reported quantile is never below the running minimum and never above the exact order statistic |
| NormStats.EdgeIsReached | scripts/compute_norm_stats.py:116-122 | a reported quantile is the left edge of the first bin with which the running mass reaches q * count, for any histogram |
| NormStats.QuantileWithinOneBin | scripts/compute_norm_stats.py:110-124 | while the range is that of the first batch, at least q * count samples are at most the right edge of the reported bin |
| NormStats.QuantilesMonotone | scripts/compute_norm_stats.py:110-124 | quantiles are ordered like their levels, in particular q01 <= q99 |
| NormStats.OnePassVariance | scripts/compute_norm_stats.py:164-166 | the variance computed from the two running sums is the mean squared deviation, so never negative |
| NormStats.MeanIsInside | scripts/compute_norm_stats.py:164 | the mean lies between minimum and maximum |
| NormStats.NoVarianceIffConstant | scripts/compute_norm_stats.py:165-166 | the variance is zero, and the floor needed, exactly for a constant dimension |
| NormStats.RunningStats.InitHistograms | scripts/compute_norm_stats.py:68-81 | one dimension per column, its range from the first batch, constant ones widened |
| NormStats.RunningStats.AdjustHistograms | scripts/compute_norm_stats.py:83-101 | every dimension re-binned over its grown range |
| NormStats.RunningStats.UpdateHistograms | scripts/compute_norm_stats.py:103-108 | every dimension gains the batch's histogram |
| NormStats.RunningStats.Update | scripts/compute_norm_stats.py:126-158 | one update adds its rows to the summary: sums, sums of squares, range and histogram of every dimension are those of all rows so far; a changed vector length is refused |
| NormStats.RunningStats.ComputeQuantiles | scripts/compute_norm_stats.py:110-124 | the quantile of every dimension: the left edge of the bin in which the mass reaches q * count, with the exact bounds over the samples; or an error before any data |
| NormStats.RunningStats.GetStatistics | scripts/compute_norm_stats.py:160-185 | exact mean, minimum and maximum of all rows so far, the mean squared deviation floored at 1e-12, and the 0.01 and 0.99 quantiles; an error exactly before any data |
| EvalItems.ValidateSpec | scripts/eval/mainline/eval.py:172-258 | accepts exactly the specifications with valid distinct labels, valid distinct targets, full distinct seed vectors and a consistent topology |
| EvalItems.AcceptedMeans | scripts/eval/mainline/eval.py:172-258 | acceptance written out, field by field |
| EvalItems.NamesAre | scripts/eval/mainline/eval.py:32-33 | which names are accepted, by character code |
| EvalItems.BuildWorkItems | scripts/eval/mainline/eval.py:261-284 | one item for every policy, target and repeat, in nesting order and exactly once; an accepted specification is refused exactly when it is ambiguous: two labels run into the task names of two targets of equal suite and layout |
| EvalItems.BuiltItemsOk | scripts/eval/mainline/eval.py:261-284 | items of an accepted specification have pairwise different conditions and full, repetition-free seed vectors |
| EvalItems.IdsAreUniqueIffUnambiguous | scripts/eval/mainline/eval.py:266-283 | the item ids of a complete build are pairwise different exactly when the specification is not ambiguous |
| EvalItems.IdsDetermineConditions | scripts/eval/mainline/eval.py:266-269 | two ids are equal exactly when suite, layout, repeat and the joined label and task are; the padded numbers can always be read back |
| EvalItems.ItemIdExample | scripts/eval/mainline/eval.py:266-269 | the form of an item id, at an example |
| EvalItems.IdsCanCollide | scripts/eval/mainline/eval.py:266-284 | a concrete specification that validation accepts and whose items never have unique ids, so the assertion on them is reachable |
| Coalescing.CoalescedItemBundles | scripts/eval/mainline/eval.py:943-981 | computes the bundles; refuses a non-positive size and exactly the bundles with a repeated layout and seed |
| Coalescing.BundlesAreAStablePartition | scripts/eval/mainline/eval.py:955-980 | every bundle is non-empty, bounded and of one key; laid out they are the groups in order of first occurrence |
| Coalescing.SliceAt | scripts/eval/mainline/eval.py:971-973 | every bundle of a group but the last is full, and bundle j starts at item j * size of the group |
| Coalescing.OrderIsFirstOccurrence | scripts/eval/mainline/eval.py:957-969 | the groups come in the order of their first items |
| Coalescing.SameKeyMeans | scripts/eval/mainline/eval.py:957-965 | items of one bundle agree on policy, task, task id, suite and repeat |
| Coalescing.BundlesKeepWeight | scripts/eval/mainline/eval.py:955-980 | whatever is counted, the bundles hold exactly what the items hold |
| Coalescing.EveryItemHasOneBundle | scripts/eval/mainline/eval.py:955-980 | every item is in exactly one bundle |
| Coalescing.BundlingSucceeds | scripts/eval/mainline/eval.py:973-979 | for any part of the items of a valid specification the duplicate-case error is unreachable |
| Coalescing.BundlesHaveNoDuplicateCases | scripts/eval/mainline/eval.py:973-979 | no bundle repeats a case, and each holds one full seed vector per item |
| Coalescing.CaseAt | scripts/eval/mainline/eval.py:1050-1051 | lane i * num_envs + s of the vector runs seed s of item i on its layout |
| Coalescing.GroupItems | scripts/eval/mainline/eval.py:957-969 | the dictionary of groups and the order of its keys |
| Coalescing.PrepareBundle | scripts/eval/mainline/eval.py:1012-1054 | nothing, a single run or one vector over the missing items; which vectors are refused |
| Coalescing.BundlesCanRun | scripts/eval/mainline/eval.py:1032-1054 | whatever part of a bundle is missing, neither the compatibility error nor the vector-size assertion is reachable |
| Coalescing.SplitCases | scripts/eval/mainline/eval.py:1122-1140 | succeeds exactly when the combined cases are the requested ones in any order; each item then gets the cases of its layout in seed order |
| Coalescing.EveryCaseHasOneItem | scripts/eval/mainline/eval.py:1138-1140 | every combined case goes to exactly one item, at exactly one of its seeds |
| Coalescing.RunCoalescedBundle | scripts/eval/mainline/eval.py:1012-1182 | preparing, evaluating and splitting one bundle: which bundles and which answers are refused, and what the items get |
| Coalescing.AcceptedItemsRunOnce | scripts/eval/mainline/eval.py:943-1140 | from an accepted specification whose items were built, any part of them kept, any bundle size and any items complete: bundling succeeds, every kept unfinished item is run from exactly one bundle, that bundle passes all checks, and each case of a matching answer goes to one item at one seed |
| SplitMonitor.RunLane | scripts/eval/mainline/eval.py:915-923 | a lane runs exactly every lane_count-th unit from its own index on; a lane outside the range is refused |
| SplitMonitor.PackedLogicalLanes | scripts/eval/mainline/eval.py:932-940 | the logical lanes of a physical lane, numbered evaluator by evaluator from physical * evaluators on, and the three refusals |
| SplitMonitor.RunPackedLane | scripts/eval/mainline/eval.py:1273-1322 | a physical lane runs the items of its logical lanes, lane after lane; which lanes and counts are refused |
| SplitMonitor.RunsAreOwned | scripts/eval/mainline/monitor_split_eval.py:146-194 | in packed, coalesced and plan mode a lane runs exactly the units the monitor attributes to it |
| SplitMonitor.LanesCoverEverything | scripts/eval/mainline/monitor_split_eval.py:146-194 | the lanes together run exactly what the mode covers |
| SplitMonitor.EveryItemHasOneLane | scripts/eval/mainline/monitor_split_eval.py:146-194 | every covered item has exactly one physical owner |
| SplitMonitor.CoveredIsDistinct | scripts/eval/mainline/eval.py:943-981 | packed and coalesced modes cover exactly the manifest, each item once |
| SplitMonitor.MissingPhysicalLanes | scripts/eval/mainline/monitor_split_eval.py:146-194 | each lane is charged exactly the missing items among those it would run, and the charges add up to all missing covered items |
| SplitMonitor.ChargeCoalesced | scripts/eval/mainline/monitor_split_eval.py:166-187 | the monitor's own grouping charges the very bundles the lanes run |
| SplitMonitor.ChargePacked | scripts/eval/mainline/monitor_split_eval.py:188-194 | the monitor's own arithmetic charges the physical owner of each item |
| SplitMonitor.ChargedLaneHasWork | scripts/eval/mainline/monitor_split_eval.py:429-437 | resubmitting a charged lane always reaches a missing item |
| SplitMonitor.StopMeansComplete | scripts/eval/mainline/monitor_split_eval.py:412-427 | no charge is left exactly when everything covered is complete |
| SplitMonitor.FreezeMissingPlan | scripts/eval/mainline/eval.py:1249-1268 | a frozen plan is the bundles of the items missing at that moment |
| SplitMonitor.FrozenPlanCompletes | scripts/eval/mainline/eval.py:1249-1268 | when everything a frozen plan covers is complete, the whole manifest is |
| LaneJobs.Monitor | scripts/eval/mainline/monitor_split_eval.py:402-472 | over any run of polls the monitor stops at the first poll at which everything covered is complete, the lanes' jobs are exactly what the polls before resubmitted, every job is submitted for a lane with work left, a lane complete from the start keeps its history, and a lane that starts with at most one active job never has more |
| LaneJobs.PollLanes | scripts/eval/mainline/monitor_split_eval.py:429-470 | a lane gets the submitted job exactly when it has missing work and its latest job is not active; any other lane is left alone |
| LaneJobs.PollOfLane | scripts/eval/mainline/monitor_split_eval.py:429-470 | a lane all of whose items are complete is left alone, whatever the other lanes miss; one with an incomplete item and no active job gets the submission |
| LaneJobs.PollsExtendRightly | scripts/eval/mainline/monitor_split_eval.py:402-472 | over any run of polls every appended job belongs to a lane with an incomplete item and an inactive job before it, and a lane that was complete throughout keeps its history |
| LaneJobs.PollKeepsOneActive | scripts/eval/mainline/monitor_split_eval.py:429-470 | a poll keeps at most one active job per lane, the latest one |
| LaneJobs.RegisterArrayLaunches | scripts/eval/mainline/monitor_split_eval.py:197-227 | each array task becomes the latest job of its own lane unless it already is, on all lanes at once; reports whether anything changed |
| LaneJobs.RegisterExplicitLaneJobs | scripts/eval/mainline/monitor_split_eval.py:248-271 | accepts exactly in-range, distinct lanes and makes each given job the latest of its lane unless it already is; all other lanes stay |
| LaneJobs.RegistrationKeepsOneActive | scripts/eval/mainline/monitor_split_eval.py:216-226 | a registration keeps at most one active job of a lane exactly when the lane already ended in the record or no other job of it is still active |
| LaneJobs.LaunchesKeepOneActive | scripts/eval/mainline/monitor_split_eval.py:212-227 | registering launches over all lanes keeps at most one active job per lane exactly when no lane's active latest job is displaced by another |
| LaneJobs.ExplicitJobsKeepOneActive | scripts/eval/mainline/monitor_split_eval.py:256-271 | registering explicit lane jobs keeps at most one active job per lane exactly when none of them displaces the active latest job of its lane |
| LaneJobs.RestartCanHideARunningRepair | scripts/eval/mainline/monitor_split_eval.py:216-226 | from the first launch on: after the array dies a poll submits a repair job; left alone the next poll changes nothing, but after a restart with the old array argument the running repair job is hidden and the next poll submits a second one beside it |
| ModelBroker.MergeIpcObservations | src/verl_vla/workflows/native_fastwam_robodojo_eval.py:281-329 | merging succeeds exactly for non-empty, equally keyed, well-formed requests; rows keep their order and each slice is the rows of its request |
| ModelBroker.InferInMicrobatches | src/verl_vla/workflows/native_fastwam_robodojo_eval.py:80-115 | any positive microbatch size gives the answer to the whole batch, or fails exactly when some row's executed or full actions do not have their shape |
| ModelBroker.ShapedMeans | src/verl_vla/workflows/native_fastwam_robodojo_eval.py:110-114 | the two shapes: 24 executed and 32 planned actions of 14 numbers |
| ModelBroker.ShapesAreOwn | src/verl_vla/workflows/native_fastwam_robodojo_eval.py:109-115 | the joined answer passes the shape checks exactly when each coalesced request's own answer does |
| ModelBroker.SliceIsOwnAnswer | src/verl_vla/workflows/native_fastwam_robodojo_eval.py:281-329 | a request's slice of the joined answer is the model's answer to that request alone |
| ModelBroker.Serve | src/verl_vla/workflows/grfpo_fragmented_collection.py:917-944 | one inference round gives every coalesced request the answer to its own observation, and fails exactly on a refused merge or one badly shaped answer |
| BrokerProtocol.RunKeepsInv | src/verl_vla/workflows/grfpo_fragmented_collection.py:870-944 | every interleaving of workers and broker keeps the protocol invariant |
| BrokerProtocol.EveryRequestIsAnsweredOnce | src/verl_vla/workflows/grfpo_fragmented_collection.py:688-712 | in every run a worker is given, in order, exactly the model's answers to its own requests, at most the latest one is outstanding, and reply ids always match |
| BrokerProtocol.ReceiveAccepts | src/verl_vla/workflows/grfpo_fragmented_collection.py:688-712 | whatever a worker receives is accepted as the answer to its latest request, and it goes on computing |
| BrokerProtocol.CollectTakesMessage | src/verl_vla/workflows/grfpo_fragmented_collection.py:870-915 | a collected request joins the pending ones, a finished worker leaves the active ones, an error fails the broker |
| BrokerProtocol.RespondAnswersAll | src/verl_vla/workflows/grfpo_fragmented_collection.py:917-944 | when the pending requests can be served, every requester gets exactly its own answer, nobody else anything, and nothing stays pending; otherwise the broker fails |
| BrokerProtocol.InnerWaitHasSomeone | src/verl_vla/workflows/grfpo_fragmented_collection.py:896-915 | requesting workers are active ones, each once, and the inner wait never has an empty eligible set |
| BrokerProtocol.NoDeadlock | src/verl_vla/workflows/grfpo_fragmented_collection.py:870-944 | while the broker runs, an active worker can move or the broker can move for it |
| BrokerProtocol.ReplyIsOwnAnswer | src/verl_vla/workflows/grfpo_fragmented_collection.py:930-944 | the reply carries the answer to the very request it answers |
| EvalScores.TerminalOrLatestScores | src/verl_vla/workflows/native_fastwam_robodojo_eval.py:118-150 | the score at the first done step, or at the last one when there is none; environments done before contribute nothing |
| EvalScores.AccumulateScores | src/verl_vla/workflows/native_fastwam_robodojo_eval.py:783-798 | whatever the chunking and wherever the loop stops early, each score is the one at the first done step of the whole stream, or at its last step |

## Left out

- AsyncExecutor.RunKeepsInv: one caller at a time and no reset while an exchange waits, as the executor itself demands; `close` and thread shutdown are not modelled.
- AsyncExecutor.AsyncActionExecutor.EnterExchange: plans are time-major sequences of flattened vectors, so the batch dimension is not separate there.
- ReplayPool.WriteIsPush: a ring's storage is a value, so index_copy_ is a rebuilt sequence; sharing of tensors between pools is not captured. The capacity is positive.
- ReplayPool.RandPerm: a permutation is chosen arbitrarily; nothing is said about probabilities.
- Saving, loading and the devices of the replay pool: plain serialisation.
- TrajectoryRecords.CollectTrajectoryRecords: tensors are lists of rows of equal length; the averaged metrics over records are not modelled.
- FixedCaseEval.Eval: partial resets, auto reset during evaluation and the averaged metrics are not modelled; each row of a wave yields one episode.
- FixedCaseEval.EvalWithoutCases: a run of waves is finite; whether the loop ends at all is up to the environments.
- EpisodeMachine.BaseEnv.Reset: only full-vector resets. The confirmation before recording, teleoperation publishing, pacing and latency logs are left out.
- EpisodeMachine.BaseEnv.MaskStep: NumPy arrays that are updated in place are fields holding sequences, so aliasing between the merged result, the latest observation and returned objects is not captured. Task names, task ids and identity fields travel like the observation and are not modelled separately; a recorder is always present and its two parts save and clear alike.
- EpisodeMachine.BaseEnv.FinishExecutionSlice: the hook that materialises deferred observations is the default one that changes nothing; the asynchronous variant of this step is not modelled.
- EnvLoop.EnvLoop.Run: the simulators of a stage are a deterministic function of all actions sent to them; padding of ragged tensors, timing metrics and GPU metrics are left out. A stage's several dictionaries are one record here.
- NormStats.RunningStats.Update: batches are non-empty, as NumPy's minimum demands.
- NormStats.RunningStats.GetStatistics: the square root of the deviation and the rounding to single precision are left out.
- EvalItems.ValidateSpec: schema version, experiment name, paths, checkpoints, hashes and the fixed protocol switches are not modelled.
- EvalItems.ItemOf: the directory of an item and its files are represented by its id only.
- Coalescing.RunCoalescedBundle: one successful attempt; retries, the single run, the aggregate numbers written beside the cases, metric validation and video checks are left out.
- SplitMonitor.MissingPhysicalLanes: a plan is given by its resolved bundles; reading it from a file and refusing unknown or repeated ids is left out.
- SplitMonitor.RunLane: attempts, retries and the failure of sibling evaluators inside a packed lane are left out; a lane either completes an item or leaves it missing.
- LaneJobs.Monitor: a poll sees one snapshot of completion markers and job states; submission failures are arbitrary. Jobs of this evaluation only die or start by submission.
- BrokerProtocol.RunKeepsInv: timeouts and closing errors are failures that may happen at any time; writing to the pipe of a worker that has died counts as sent. The lease store and group validation behind a worker are not part of this model.
- ModelBroker.InferInMicrobatches: the model answers every row from that row alone, with the shapes checked row by row; devices are left out.
- LiberoPlanner.BuildProcessQueues: the filter that selects valid reset states and the random training states are left out.
- EvalScores.AccumulateScores: the alternative reduction by maximum, success flags and call counts are left out.
- Ray, Slurm, subprocess, file-lock and dataset plumbing, neural models, physics, image processing, configuration and command lines are outside these models.
