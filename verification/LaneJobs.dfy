/** The monitor's bookkeeping of lane jobs: registering launches, and resubmitting lanes with missing work. */
module LaneJobs {
  import opened Common
  import opened Numerals
  import opened EvalItems
  import opened Coalescing
  import opened SplitMonitor

  datatype Job = Job(ref: string, normal: bool, resubmitted: bool)

  datatype JobError = LaneOutOfRange | DuplicateLane

  function Latest(history: seq<Job>): Job
    requires history != []
  {
    history[|history| - 1]
  }

  /** At most one job of a lane is active, and it is the lane's latest one. */
  ghost predicate OneActive(history: seq<Job>, active: set<string>) {
    forall i :: 0 <= i < |history| && history[i].ref in active ==> history[i].ref == Latest(history).ref
  }

  ghost predicate AllOneActive(histories: seq<seq<Job>>, active: set<string>) {
    forall lane :: 0 <= lane < |histories| ==> OneActive(histories[lane], active)
  }

  //////////////////////////// Registering launches ////////////////////////////

  /** A record becomes the lane's latest unless it already is. */
  function Registered(history: seq<Job>, record: Job): seq<Job> {
    if history == [] || Latest(history) != record then history + [record] else history
  }

  lemma RegisteredWhen(history: seq<Job>, record: Job)
    ensures if history == [] || Latest(history) != record then Registered(history, record) == history + [record] != history
            else Registered(history, record) == history
  {
    assert |history + [record]| != |history|;
  }

  function Registering(history: seq<Job>, record: Option<Job>): seq<Job> {
    if record.Some? then Registered(history, record.value) else history
  }

  /** The array task of a lane: the normal array serves the first lanes, the preemptible one the rest. */
  function LaunchOf(lane: nat, normalLanes: nat, preemptLanes: nat, normalArray: Option<string>, preemptArray: Option<string>): Option<Job> {
    if lane < normalLanes then
      if normalArray.Some? then Some(Job(normalArray.value + "_" + Digits(lane), true, false)) else None
    else if lane < normalLanes + preemptLanes && preemptArray.Some? then
      Some(Job(preemptArray.value + "_" + Digits(lane - normalLanes), false, false))
    else None
  }

  /** The loop over one array's lanes. */
  method RegisterArray(histories: seq<seq<Job>>, offset: nat, laneCount: nat, arrayJob: string, normal: bool)
    returns (histories': seq<seq<Job>>, changed: bool)
    requires offset + laneCount <= |histories|
    ensures |histories'| == |histories| && (changed <==> histories' != histories)
    ensures forall lane :: 0 <= lane < |histories| ==>
      histories'[lane] == if offset <= lane < offset + laneCount
                          then Registered(histories[lane], Job(arrayJob + "_" + Digits(lane - offset), normal, false))
                          else histories[lane]
  {
    hide Digits, Registered;
    histories', changed := histories, false;
    for localLane := 0 to laneCount
      invariant |histories'| == |histories| && (changed <==> histories' != histories)
      invariant forall lane :: 0 <= lane < |histories| ==>
        histories'[lane] == if offset <= lane < offset + localLane
                            then Registered(histories[lane], Job(arrayJob + "_" + Digits(lane - offset), normal, false))
                            else histories[lane]
    {
      var lane := offset + localLane;
      var record := Job(arrayJob + "_" + Digits(localLane), normal, false);
      RegisteredWhen(histories[lane], record);
      if histories'[lane] == [] || Latest(histories'[lane]) != record {
        histories' := histories'[lane := histories'[lane] + [record]];
        changed := true;
      }
    }
  }

  /** register_array_launches. */
  method RegisterArrayLaunches(histories: seq<seq<Job>>, normalLanes: nat, preemptLanes: nat, normalArray: Option<string>,
                               preemptArray: Option<string>)
    returns (histories': seq<seq<Job>>, changed: bool)
    requires |histories| == normalLanes + preemptLanes
    ensures |histories'| == |histories| && (changed <==> histories' != histories)
    ensures forall lane :: 0 <= lane < |histories| ==>
      histories'[lane] == Registering(histories[lane], LaunchOf(lane, normalLanes, preemptLanes, normalArray, preemptArray))
    ensures histories' == AfterLaunches(histories, LaunchesOf(normalLanes, preemptLanes, normalArray, preemptArray))
  {
    hide Digits, Registered;
    histories', changed := histories, false;
    if normalArray.Some? {
      histories', changed := RegisterArray(histories', 0, normalLanes, normalArray.value, true);
    }
    ghost var first := histories';
    if preemptArray.Some? {
      var more;
      histories', more := RegisterArray(histories', normalLanes, preemptLanes, preemptArray.value, false);
      if changed {
        ghost var lane :| 0 <= lane < |histories| && first[lane] != histories[lane];
        assert lane < normalLanes && histories'[lane] == first[lane];
      }
      changed := changed || more;
    }
  }

  predicate ExplicitOk(jobs: seq<(nat, Job)>, lanes: nat) {
    && (forall i :: 0 <= i < |jobs| ==> jobs[i].0 < lanes)
    && forall i, j :: 0 <= i < j < |jobs| ==> jobs[i].0 != jobs[j].0
  }

  /** The job given for a lane, if any. */
  function JobFor(jobs: seq<(nat, Job)>, lane: nat): (job: Option<Job>)
    ensures job.None? <==> forall i :: 0 <= i < |jobs| ==> jobs[i].0 != lane
    ensures job.Some? ==> (lane, job.value) in jobs
  {
    if jobs == [] then None
    else if jobs[|jobs| - 1].0 == lane then Some(jobs[|jobs| - 1].1)
    else JobFor(jobs[..|jobs| - 1], lane)
  }

  function ExplicitLaunches(jobs: seq<(nat, Job)>, lanes: nat): (launches: seq<Option<Job>>)
    ensures |launches| == lanes
  {
    seq(lanes, lane requires 0 <= lane => JobFor(jobs, lane))
  }

  lemma JobGiven(jobs: seq<(nat, Job)>, lanes: nat, i: nat)
    requires ExplicitOk(jobs, lanes) && i < |jobs|
    ensures JobFor(jobs, jobs[i].0) == Some(jobs[i].1)
  {
    hide JobFor;
    var job := JobFor(jobs, jobs[i].0);
    var j :| 0 <= j < |jobs| && jobs[j] == (jobs[i].0, job.value);
  }

  /** register_explicit_lane_jobs. */
  method RegisterExplicitLaneJobs(histories: seq<seq<Job>>, jobs: seq<(nat, Job)>) returns (r: Result<seq<seq<Job>>, JobError>)
    ensures r.Ok? <==> ExplicitOk(jobs, |histories|)
    ensures r.Ok? ==> |r.value| == |histories| && forall i :: 0 <= i < |jobs| ==> jobs[i].0 < |histories|
    ensures r.Ok? ==> forall i :: 0 <= i < |jobs| ==> r.value[jobs[i].0] == Registered(histories[jobs[i].0], jobs[i].1)
    ensures r.Ok? ==> forall lane :: 0 <= lane < |histories| && (forall i :: 0 <= i < |jobs| ==> jobs[i].0 != lane) ==>
      r.value[lane] == histories[lane]
    ensures r.Ok? ==> r.value == AfterLaunches(histories, ExplicitLaunches(jobs, |histories|))
  {
    hide Registered, AfterLaunches, ExplicitLaunches, ExplicitOk;
    var now := histories;
    var seen: set<nat> := {};
    NoJobs(histories);
    for i := 0 to |jobs|
      invariant ExplicitOk(jobs[..i], |histories|)
      invariant now == AfterLaunches(histories, ExplicitLaunches(jobs[..i], |histories|))
      invariant seen == set j | 0 <= j < i :: jobs[j].0
    {
      var (lane, record) := jobs[i];
      NextJob(histories, jobs, i);
      if lane >= |histories| {
        return Err(LaneOutOfRange);
      }
      if lane in seen {
        return Err(DuplicateLane);
      }
      seen := seen + {lane};
      now := now[lane := Registered(now[lane], record)];
    }
    assert jobs[..|jobs|] == jobs;
    ExplicitPositions(histories, jobs);
    r := Ok(now);
  }

  lemma NoJobs(histories: seq<seq<Job>>)
    ensures ExplicitOk([], |histories|)
    ensures AfterLaunches(histories, ExplicitLaunches([], |histories|)) == histories
  {
  }

  lemma JobForNext(jobs: seq<(nat, Job)>, i: nat, lane: nat)
    requires i < |jobs|
    ensures JobFor(jobs[..i + 1], lane) == if jobs[i].0 == lane then Some(jobs[i].1) else JobFor(jobs[..i], lane)
  {
    assert jobs[..i + 1][..i] == jobs[..i];
  }

  /** What the next job adds, and what makes it acceptable. */
  lemma NextJob(histories: seq<seq<Job>>, jobs: seq<(nat, Job)>, i: nat)
    requires i < |jobs| && ExplicitOk(jobs[..i], |histories|)
    ensures var (lane, record) := jobs[i];
      var before := AfterLaunches(histories, ExplicitLaunches(jobs[..i], |histories|));
      var accepted := lane < |histories| && forall j :: 0 <= j < i ==> jobs[j].0 != lane;
      && (accepted ==> ExplicitOk(jobs[..i + 1], |histories|))
      && (!accepted ==> !ExplicitOk(jobs, |histories|))
      && (accepted ==>
            AfterLaunches(histories, ExplicitLaunches(jobs[..i + 1], |histories|)) == before[lane := Registered(before[lane], record)])
  {
    hide Registered, JobFor;
    var (lane, record) := jobs[i];
    var n, front := |histories|, jobs[..i];
    if lane < n && forall j :: 0 <= j < i ==> jobs[j].0 != lane {
      forall l: nat | l < n ensures JobFor(jobs[..i + 1], l) == if l == lane then Some(record) else JobFor(front, l) {
        JobForNext(jobs, i, l);
      }
      assert JobFor(front, lane).None?;
      var before := AfterLaunches(histories, ExplicitLaunches(front, n));
      assert AfterLaunches(histories, ExplicitLaunches(jobs[..i + 1], n)) == before[lane := Registered(before[lane], record)];
    }
  }

  lemma ExplicitPositions(histories: seq<seq<Job>>, jobs: seq<(nat, Job)>)
    requires ExplicitOk(jobs, |histories|)
    ensures forall i :: 0 <= i < |jobs| ==> jobs[i].0 < |histories|
    ensures var after := AfterLaunches(histories, ExplicitLaunches(jobs, |histories|));
      && (forall i :: 0 <= i < |jobs| ==> after[jobs[i].0] == Registered(histories[jobs[i].0], jobs[i].1))
      && forall lane :: 0 <= lane < |histories| && (forall i :: 0 <= i < |jobs| ==> jobs[i].0 != lane) ==> after[lane] == histories[lane]
  {
    hide Registered, JobFor;
    forall i | 0 <= i < |jobs| ensures JobFor(jobs, jobs[i].0) == Some(jobs[i].1) {
      JobGiven(jobs, |histories|, i);
    }
  }

  /**
   A registration keeps at most one active job exactly when the lane already ended in the record, or no other
   job of the lane is still active.
   */
  lemma RegistrationKeepsOneActive(history: seq<Job>, record: Job, active: set<string>)
    ensures OneActive(Registered(history, record), active) <==>
      if history != [] && Latest(history) == record then OneActive(history, active)
      else forall i :: 0 <= i < |history| && history[i].ref in active ==> history[i].ref == record.ref
  {
    var after := Registered(history, record);
    if history == [] || Latest(history) != record {
      assert forall i :: 0 <= i < |history| ==> after[i] == history[i];
      assert after[|history|] == record;
    }
  }

  /** A launch gives the lane another latest job although the present one is still active. */
  predicate Displaces(history: seq<Job>, launch: Option<Job>, active: set<string>) {
    launch.Some? && history != [] && Latest(history).ref in active && Latest(history).ref != launch.value.ref
  }

  function LaunchesOf(normalLanes: nat, preemptLanes: nat, normalArray: Option<string>, preemptArray: Option<string>): (launches: seq<Option<Job>>)
    ensures |launches| == normalLanes + preemptLanes
  {
    seq(normalLanes + preemptLanes, lane requires 0 <= lane => LaunchOf(lane, normalLanes, preemptLanes, normalArray, preemptArray))
  }

  /** All lanes after a registration. */
  function AfterLaunches(histories: seq<seq<Job>>, launches: seq<Option<Job>>): (after: seq<seq<Job>>)
    requires |histories| == |launches|
    ensures |after| == |histories|
  {
    seq(|histories|, lane requires 0 <= lane < |histories| => Registering(histories[lane], launches[lane]))
  }

  /**
   Registering launches over lanes with at most one active job each keeps that so exactly when no lane's active
   latest job is displaced.
   */
  lemma LaunchesKeepOneActive(histories: seq<seq<Job>>, launches: seq<Option<Job>>, active: set<string>)
    requires |histories| == |launches| && AllOneActive(histories, active)
    ensures AllOneActive(AfterLaunches(histories, launches), active) <==>
      forall lane :: 0 <= lane < |histories| ==> !Displaces(histories[lane], launches[lane], active)
  {
    hide OneActive, Displaces;
    var after := AfterLaunches(histories, launches);
    forall lane | 0 <= lane < |histories|
      ensures OneActive(after[lane], active) <==> !Displaces(histories[lane], launches[lane], active)
    {
      LaunchKeepsOneActive(histories[lane], launches[lane], active);
    }
  }

  /**
   Registering explicit lane jobs keeps at most one active job per lane exactly when none of them displaces the
   active latest job of its lane.
   */
  lemma ExplicitJobsKeepOneActive(histories: seq<seq<Job>>, jobs: seq<(nat, Job)>, active: set<string>)
    requires ExplicitOk(jobs, |histories|) && AllOneActive(histories, active)
    ensures AllOneActive(AfterLaunches(histories, ExplicitLaunches(jobs, |histories|)), active) <==>
      forall i :: 0 <= i < |jobs| ==> !Displaces(histories[jobs[i].0], Some(jobs[i].1), active)
  {
    hide AllOneActive, AfterLaunches, Displaces, JobFor;
    LaunchesKeepOneActive(histories, ExplicitLaunches(jobs, |histories|), active);
    forall i | 0 <= i < |jobs| ensures ExplicitLaunches(jobs, |histories|)[jobs[i].0] == Some(jobs[i].1) {
      JobGiven(jobs, |histories|, i);
    }
    forall lane | 0 <= lane < |histories|
      ensures JobFor(jobs, lane).None? ==> !Displaces(histories[lane], JobFor(jobs, lane), active)
      ensures JobFor(jobs, lane).Some? ==> exists i :: 0 <= i < |jobs| && jobs[i] == (lane, JobFor(jobs, lane).value)
    {
      NoLaunch(histories[lane], active);
    }
  }

  lemma NoLaunch(history: seq<Job>, active: set<string>)
    ensures !Displaces(history, None, active)
  {
  }

  lemma LaunchKeepsOneActive(history: seq<Job>, launch: Option<Job>, active: set<string>)
    requires OneActive(history, active)
    ensures OneActive(Registering(history, launch), active) <==> !Displaces(history, launch, active)
  {
    if launch.Some? {
      RegistrationKeepsOneActive(history, launch.value, active);
    }
  }

  //////////////////////////// Polling ////////////////////////////

  /** One poll's observations: completion markers, active jobs, and what a submission of each lane would give. */
  datatype Tick = Tick(complete: set<string>, active: set<string>, submit: seq<Option<(string, bool)>>)

  /** The jobs a tick could submit. */
  ghost function Submitted(t: Tick): set<string> {
    set i | 0 <= i < |t.submit| && t.submit[i].Some? :: t.submit[i].value.0
  }

  /** A lane after one poll: resubmitted exactly when it has missing work and its latest job is not active. */
  function Polled(history: seq<Job>, count: nat, active: set<string>, submit: Option<(string, bool)>): seq<Job> {
    if count == 0 || (history != [] && Latest(history).ref in active) || submit.None? then history
    else history + [Job(submit.value.0, submit.value.1, true)]
  }

  ghost predicate Disjoint(histories: seq<seq<Job>>, refs: set<string>) {
    forall lane, i :: 0 <= lane < |histories| && 0 <= i < |histories[lane]| ==> histories[lane][i].ref !in refs
  }

  lemma PollKeepsOneActive(history: seq<Job>, count: nat, active: set<string>, submit: Option<(string, bool)>, newRefs: set<string>)
    requires OneActive(history, active) && (submit.Some? ==> submit.value.0 in newRefs)
    requires forall i :: 0 <= i < |history| ==> history[i].ref !in newRefs
    ensures OneActive(Polled(history, count, active, submit), active + newRefs)
    ensures forall i :: 0 <= i < |Polled(history, count, active, submit)| ==>
      Polled(history, count, active, submit)[i].ref in newRefs || (i < |history| && Polled(history, count, active, submit)[i] == history[i])
  {
    var after := Polled(history, count, active, submit);
    assert forall i :: 0 <= i < |history| ==> after[i] == history[i];
  }

  /** The latest job of the lane, if any, is not active. */
  predicate LaneIdle(history: seq<Job>, active: set<string>) {
    history == [] || history[|history| - 1].ref !in active
  }

  function SubmittedJob(submission: (string, bool)): Job {
    Job(submission.0, submission.1, true)
  }

  lemma PollOutcome(history: seq<Job>, count: nat, active: set<string>, submit: Option<(string, bool)>)
    ensures Polled(history, count, active, submit)
         == if count > 0 && LaneIdle(history, active) && submit.Some? then history + [SubmittedJob(submit.value)] else history
  {
  }

  method PollLanes(histories: seq<seq<Job>>, counts: seq<nat>, t: Tick) returns (histories': seq<seq<Job>>)
    requires |histories| == |counts| == |t.submit|
    ensures |histories'| == |histories|
    ensures forall lane :: 0 <= lane < |histories| ==>
      histories'[lane] == Polled(histories[lane], counts[lane], t.active, t.submit[lane])
    ensures forall lane :: 0 <= lane < |histories| ==>
      if counts[lane] > 0 && LaneIdle(histories[lane], t.active) && t.submit[lane].Some? then
        histories'[lane] == histories[lane] + [SubmittedJob(t.submit[lane].value)]
      else histories'[lane] == histories[lane]
  {
    forall lane | 0 <= lane < |histories| {
      PollOutcome(histories[lane], counts[lane], t.active, t.submit[lane]);
    }
    hide Polled, LaneIdle;
    histories' := histories;
    for lane := 0 to |counts|
      invariant |histories'| == |histories|
      invariant forall j :: 0 <= j < |histories| ==>
        histories'[j] == if j < lane then Polled(histories[j], counts[j], t.active, t.submit[j]) else histories[j]
    {
      histories' := histories'[lane := PollLane(histories'[lane], counts[lane], t, lane)];
    }
  }

  function PollLane(history: seq<Job>, count: nat, t: Tick, lane: nat): seq<Job>
    requires lane < |t.submit|
  {
    Polled(history, count, t.active, t.submit[lane])
  }

  //////////////////////////// The monitor ////////////////////////////

  /** All lanes after one poll, with the charges of everything that is missing. */
  ghost function AfterPoll(items: seq<Item>, mode: Mode, histories: seq<seq<Job>>, t: Tick): (after: seq<seq<Job>>)
    requires ModeOk(mode) && |histories| == |t.submit| > 0
    ensures |after| == |histories|
  {
    var charges := RunWeights(items, |histories|, mode, MissingIn(t.complete));
    seq(|histories|, lane requires 0 <= lane < |histories| => Polled(histories[lane], charges[lane], t.active, t.submit[lane]))
  }

  ghost predicate Submits(ticks: seq<Tick>, lanes: nat) {
    forall t :: 0 <= t < |ticks| ==> |ticks[t].submit| == lanes
  }

  /** All lanes after the first `n` polls. */
  ghost function AfterPolls(items: seq<Item>, mode: Mode, histories: seq<seq<Job>>, ticks: seq<Tick>, n: nat): (after: seq<seq<Job>>)
    requires ModeOk(mode) && |histories| > 0 && Submits(ticks, |histories|) && n <= |ticks|
    ensures |after| == |histories|
  {
    if n == 0 then histories else AfterPoll(items, mode, AfterPolls(items, mode, histories, ticks, n - 1), ticks[n - 1])
  }

  /** Every item that the lane runs is complete. */
  ghost predicate LaneDone(items: seq<Item>, lanes: nat, mode: Mode, lane: nat, complete: set<string>)
    requires ModeOk(mode) && lanes > 0
  {
    forall x :: x in Runs(items, lanes, mode, lane) ==> x.id in complete
  }

  /** A lane with nothing left to run is left alone; otherwise it gets the submitted job exactly when it is idle. */
  lemma PollOfLane(items: seq<Item>, mode: Mode, histories: seq<seq<Job>>, t: Tick, lane: nat)
    requires ModeOk(mode) && lane < |histories| == |t.submit|
    ensures var done := LaneDone(items, |histories|, mode, lane, t.complete);
      AfterPoll(items, mode, histories, t)[lane]
      == if !done && LaneIdle(histories[lane], t.active) && t.submit[lane].Some? then histories[lane] + [SubmittedJob(t.submit[lane].value)]
         else histories[lane]
  {
    hide Polled, LaneIdle, Runs, Weight;
    var runs := Runs(items, |histories|, mode, lane);
    MissingWeight(runs, t.complete);
    PollOutcome(histories[lane], Weight(runs, MissingIn(t.complete)), t.active, t.submit[lane]);
  }

  /** The job was submitted at poll `t` for a lane with work left whose job before it was not active. */
  ghost predicate RightlySubmitted(items: seq<Item>, lanes: nat, mode: Mode, lane: nat, ticks: seq<Tick>, t: nat, before: seq<Job>, job: Job)
    requires ModeOk(mode) && lane < lanes && Submits(ticks, lanes)
  {
    && t < |ticks| && !LaneDone(items, lanes, mode, lane, ticks[t].complete) && LaneIdle(before, ticks[t].active)
    && ticks[t].submit[lane].Some? && job == SubmittedJob(ticks[t].submit[lane].value)
  }

  /** The job was rightly submitted at one of the first `n` polls. */
  ghost predicate SubmittedBy(items: seq<Item>, lanes: nat, mode: Mode, lane: nat, ticks: seq<Tick>, n: nat, before: seq<Job>, job: Job)
    requires ModeOk(mode) && lane < lanes && Submits(ticks, lanes)
  {
    exists t :: 0 <= t < n && RightlySubmitted(items, lanes, mode, lane, ticks, t, before, job)
  }

  /** What `n` polls made of a lane: jobs were only appended, and each of them rightly. */
  ghost predicate RightlyExtended(items: seq<Item>, lanes: nat, mode: Mode, lane: nat, ticks: seq<Tick>, n: nat, before: seq<Job>,
                                  after: seq<Job>)
    requires ModeOk(mode) && lane < lanes && Submits(ticks, lanes)
  {
    && before <= after
    && forall i :: |before| <= i < |after| ==> SubmittedBy(items, lanes, mode, lane, ticks, n, after[..i], after[i])
  }

  lemma ExtendRightly(items: seq<Item>, lanes: nat, mode: Mode, lane: nat, ticks: seq<Tick>, n: nat, start: seq<Job>, before: seq<Job>,
                      after: seq<Job>)
    requires ModeOk(mode) && lane < lanes && Submits(ticks, lanes)
    requires RightlyExtended(items, lanes, mode, lane, ticks, n, start, before)
    requires after == before
             || exists job :: after == before + [job] && RightlySubmitted(items, lanes, mode, lane, ticks, n, before, job)
    ensures RightlyExtended(items, lanes, mode, lane, ticks, n + 1, start, after)
  {
    hide RightlySubmitted;
    assert after[..|before|] == before && after[..|start|] == before[..|start|];
    forall i | |start| <= i < |after| ensures SubmittedBy(items, lanes, mode, lane, ticks, n + 1, after[..i], after[i]) {
      if i < |before| {
        assert after[..i] == before[..i] && after[i] == before[i];
        assert SubmittedBy(items, lanes, mode, lane, ticks, n, before[..i], before[i]);
      } else {
        assert after[..i] == before;
      }
    }
  }

  lemma {:induction false} PollsExtendRightly(items: seq<Item>, mode: Mode, histories: seq<seq<Job>>, ticks: seq<Tick>, n: nat, lane: nat)
    requires ModeOk(mode) && lane < |histories| && Submits(ticks, |histories|) && n <= |ticks|
    ensures RightlyExtended(items, |histories|, mode, lane, ticks, n, histories[lane],
                            AfterPolls(items, mode, histories, ticks, n)[lane])
    ensures (forall t :: 0 <= t < n ==> LaneDone(items, |histories|, mode, lane, ticks[t].complete)) ==>
      AfterPolls(items, mode, histories, ticks, n)[lane] == histories[lane]
  {
    hide AfterPoll, LaneDone, LaneIdle, RightlyExtended;
    if n == 0 {
      NothingExtended(items, |histories|, mode, lane, ticks, histories[lane]);
    } else {
      PollsExtendRightly(items, mode, histories, ticks, n - 1, lane);
      var before := AfterPolls(items, mode, histories, ticks, n - 1);
      PollOfLane(items, mode, before, ticks[n - 1], lane);
      ExtendRightly(items, |histories|, mode, lane, ticks, n - 1, histories[lane], before[lane],
                    AfterPolls(items, mode, histories, ticks, n)[lane]);
    }
  }

  lemma NothingExtended(items: seq<Item>, lanes: nat, mode: Mode, lane: nat, ticks: seq<Tick>, history: seq<Job>)
    requires ModeOk(mode) && lane < lanes && Submits(ticks, lanes)
    ensures RightlyExtended(items, lanes, mode, lane, ticks, 0, history, history)
  {
  }

  /** Completion markers are never taken back. */
  ghost predicate MarkersStay(ticks: seq<Tick>) {
    forall t :: 0 <= t < |ticks| ==> ticks[0].complete <= ticks[t].complete
  }

  /**
   The scheduler between polls: jobs of this evaluation only die, or start because they were submitted, and a
   submission always gives a reference never seen before.
   */
  ghost predicate TicksOk(ticks: seq<Tick>, lanes: nat, histories: seq<seq<Job>>) {
    && Submits(ticks, lanes) && (forall t :: 0 <= t < |ticks| ==> Disjoint(histories, Submitted(ticks[t])))
    && (forall s, t :: 0 <= s < t < |ticks| ==> Submitted(ticks[s]) !! Submitted(ticks[t]))
    && forall t :: 0 <= t < |ticks| - 1 ==> ticks[t + 1].active <= ticks[t].active + Submitted(ticks[t])
  }

  /** No job of the histories can be submitted in a tick from `t` on. */
  ghost predicate FreshFrom(histories: seq<seq<Job>>, ticks: seq<Tick>, t: nat) {
    forall u :: t <= u < |ticks| ==> Disjoint(histories, Submitted(ticks[u]))
  }

  lemma PollStep(histories: seq<seq<Job>>, after: seq<seq<Job>>, counts: seq<nat>, ticks: seq<Tick>, t: nat, lanes: nat,
                 histories0: seq<seq<Job>>)
    requires TicksOk(ticks, lanes, histories0) && t < |ticks| && |histories| == |counts| == |after| == lanes
    requires AllOneActive(histories, ticks[t].active) && FreshFrom(histories, ticks, t)
    requires forall lane :: 0 <= lane < lanes ==>
      after[lane] == Polled(histories[lane], counts[lane], ticks[t].active, ticks[t].submit[lane])
    ensures AllOneActive(after, ticks[t].active + Submitted(ticks[t])) && FreshFrom(after, ticks, t + 1)
    ensures t + 1 < |ticks| ==> AllOneActive(after, ticks[t + 1].active)
  {
    hide Polled, OneActive, Submitted;
    var submitted := Submitted(ticks[t]);
    forall lane | 0 <= lane < lanes
      ensures OneActive(after[lane], ticks[t].active + submitted)
      ensures forall i :: 0 <= i < |after[lane]| ==>
        after[lane][i].ref in submitted || (i < |histories[lane]| && after[lane][i] == histories[lane][i])
    {
      SubmittedHas(ticks[t], lane);
      PollKeepsOneActive(histories[lane], counts[lane], ticks[t].active, ticks[t].submit[lane], submitted);
    }
    forall lane | t + 1 < |ticks| && 0 <= lane < lanes ensures OneActive(after[lane], ticks[t + 1].active) {
      DeathKeepsOneActive(after[lane], ticks[t].active + submitted, ticks[t + 1].active);
    }
  }

  lemma SubmittedHas(t: Tick, lane: nat)
    requires lane < |t.submit|
    ensures t.submit[lane].Some? ==> t.submit[lane].value.0 in Submitted(t)
  {
  }

  lemma DeathKeepsOneActive(history: seq<Job>, active: set<string>, rest: set<string>)
    requires OneActive(history, active) && rest <= active
    ensures OneActive(history, rest)
  {
  }

  /** Something the mode covers is not complete yet. */
  ghost predicate SomethingMissing(items: seq<Item>, mode: Mode, complete: set<string>)
    requires ModeOk(mode)
  {
    exists x :: x in Covered(items, mode) && x.id !in complete
  }

  /**
   The monitor's loop over any run of polls. It stops at the first poll at which everything covered is
   complete, has then resubmitted what every earlier poll asked for, and never has more than one active job
   per lane. Every job it submits is for a lane with work left and no active job; a lane with nothing left to run
   keeps its history.
   */
  method Monitor(items: seq<Item>, lanes: nat, mode: Mode, histories: seq<seq<Job>>, ticks: seq<Tick>)
    returns (histories': seq<seq<Job>>, stopped: Option<nat>)
    requires lanes > 0 && ModeOk(mode) && |histories| == lanes && TicksOk(ticks, lanes, histories)
    requires ticks != [] ==> AllOneActive(histories, ticks[0].active)
    ensures |histories'| == lanes && Submits(ticks, lanes)
    ensures stopped.Some? ==> stopped.value < |ticks|
    ensures histories' == AfterPolls(items, mode, histories, ticks, if stopped.Some? then stopped.value else |ticks|)
    ensures stopped.Some? ==> AllOneActive(histories', ticks[stopped.value].active)
    ensures stopped.Some? ==> forall x :: x in Covered(items, mode) ==> x.id in ticks[stopped.value].complete
    ensures forall t :: 0 <= t < (if stopped.Some? then stopped.value else |ticks|) ==> SomethingMissing(items, mode, ticks[t].complete)
    ensures forall lane: nat :: lane < lanes ==>
      RightlyExtended(items, lanes, mode, lane, ticks, if stopped.Some? then stopped.value else |ticks|, histories[lane], histories'[lane])
    ensures ticks != [] && MarkersStay(ticks) ==>
      forall lane: nat :: lane < lanes && LaneDone(items, lanes, mode, lane, ticks[0].complete) ==> histories'[lane] == histories[lane]
    ensures stopped.None? && ticks != [] ==>
      AllOneActive(histories', ticks[|ticks| - 1].active + Submitted(ticks[|ticks| - 1]))
  {
    hide TicksOk, AllOneActive, Covered, Weight, SumNat, Polled, SomethingMissing, Submits, Runs, LaneDone, MarkersStay, RightlyExtended;
    histories' := histories;
    TicksSubmit(histories, ticks, lanes);
    FreshAtFirst(histories, ticks, lanes);
    for t := 0 to |ticks|
      invariant |histories'| == lanes && FreshFrom(histories', ticks, t)
      invariant histories' == AfterPolls(items, mode, histories, ticks, t)
      invariant t < |ticks| ==> AllOneActive(histories', ticks[t].active)
      invariant t > 0 ==> AllOneActive(histories', ticks[t - 1].active + Submitted(ticks[t - 1]))
      invariant forall u :: 0 <= u < t ==> SomethingMissing(items, mode, ticks[u].complete)
    {
      var counts := MissingPhysicalLanes(items, lanes, mode, ticks[t].complete);
      MissingOrComplete(items, mode, ticks[t].complete);
      if SumNat(counts) == 0 {
        PollsOverLanes(items, mode, histories, ticks, t);
        return histories', Some(t);
      }
      TickSize(ticks, lanes, histories, t);
      var after := PollLanes(histories', counts, ticks[t]);
      PollStep(histories', after, counts, ticks, t, lanes, histories);
      assert after == AfterPoll(items, mode, histories', ticks[t]);
      histories' := after;
    }
    PollsOverLanes(items, mode, histories, ticks, |ticks|);
    stopped := None;
  }

  /** The polls, lane by lane. */
  lemma PollsOverLanes(items: seq<Item>, mode: Mode, histories: seq<seq<Job>>, ticks: seq<Tick>, n: nat)
    requires ModeOk(mode) && |histories| > 0 && Submits(ticks, |histories|) && n <= |ticks|
    ensures var after := AfterPolls(items, mode, histories, ticks, n);
      && (forall lane: nat :: lane < |histories| ==>
            RightlyExtended(items, |histories|, mode, lane, ticks, n, histories[lane], after[lane]))
      && (ticks != [] && MarkersStay(ticks) ==>
            forall lane: nat :: lane < |histories| && LaneDone(items, |histories|, mode, lane, ticks[0].complete) ==>
              after[lane] == histories[lane])
  {
    hide RightlyExtended, AfterPolls, Runs;
    forall lane: nat | lane < |histories| {
      PollsExtendRightly(items, mode, histories, ticks, n, lane);
    }
  }

  lemma TicksSubmit(histories: seq<seq<Job>>, ticks: seq<Tick>, lanes: nat)
    requires TicksOk(ticks, lanes, histories)
    ensures Submits(ticks, lanes)
  {
  }

  lemma FreshAtFirst(histories: seq<seq<Job>>, ticks: seq<Tick>, lanes: nat)
    requires TicksOk(ticks, lanes, histories)
    ensures FreshFrom(histories, ticks, 0)
  {
    hide Disjoint, Submitted;
  }

  lemma TickSize(ticks: seq<Tick>, lanes: nat, histories: seq<seq<Job>>, t: nat)
    requires TicksOk(ticks, lanes, histories) && t < |ticks|
    ensures |ticks[t].submit| == lanes
  {
  }

  lemma MissingOrComplete(items: seq<Item>, mode: Mode, complete: set<string>)
    requires ModeOk(mode)
    ensures Weight(Covered(items, mode), MissingIn(complete)) == 0 ==> forall x :: x in Covered(items, mode) ==> x.id in complete
    ensures Weight(Covered(items, mode), MissingIn(complete)) > 0 ==> SomethingMissing(items, mode, complete)
  {
    hide Weight, Covered;
    MissingWeight(Covered(items, mode), complete);
  }

  //////////////////////////// A restart with the old array ////////////////////////////

  lemma OneLanePoll(items: seq<Item>, mode: Mode, history: seq<Job>, t: Tick)
    requires ModeOk(mode) && |t.submit| == 1 && t.submit[0].Some? && SomethingMissing(items, mode, t.complete)
    ensures AfterPoll(items, mode, [history], t)
         == [if history != [] && Latest(history).ref in t.active then history
             else history + [Job(t.submit[0].value.0, t.submit[0].value.1, true)]]
  {
    hide Weight, Covered, Runs;
    var charges := RunWeights(items, 1, mode, MissingIn(t.complete));
    LanesCoverEverything(items, 1, mode, MissingIn(t.complete));
    MissingWeight(Covered(items, mode), t.complete);
    assert charges == [charges[0]] && SumNat(charges[..0]) == 0;
  }

  /**
   One lane, from the first launch on. The array dies with work missing, the first poll submits a repair job,
   and the repair runs. Left alone, the next poll changes nothing. If the monitor is restarted with its old
   array argument instead, the registration hides the running repair job, and the next poll submits a second
   one beside it.
   */
  lemma RestartCanHideARunningRepair(items: seq<Item>, mode: Mode, launch: string, t1: Tick, t2: Tick, repair: Job, second: Job)
    requires ModeOk(mode) && SomethingMissing(items, mode, t1.complete) && SomethingMissing(items, mode, t2.complete)
    requires repair.resubmitted && second.resubmitted && repair.ref != launch + "_" + Digits(0) && second.ref != repair.ref
    requires t1.active == {} && t1.submit == [Some((repair.ref, repair.normal))]
    requires t2.active == {repair.ref} && t2.submit == [Some((second.ref, second.normal))]
    ensures var launches := LaunchesOf(1, 0, Some(launch), None);
      var launched := AfterLaunches([[]], launches);
      var repaired := AfterPoll(items, mode, launched, t1);
      var restarted := AfterLaunches(repaired, launches);
      var arrayJob := Job(launch + "_" + Digits(0), true, false);
      && launched == [[arrayJob]] && repaired == [[arrayJob, repair]]
      && AllOneActive(repaired, t2.active) && AfterPoll(items, mode, repaired, t2) == repaired
      && restarted == [[arrayJob, repair, arrayJob]] && !AllOneActive(restarted, t2.active)
      && AfterPoll(items, mode, restarted, t2) == [[arrayJob, repair, arrayJob, second]]
  {
    hide Digits, SomethingMissing, AfterPoll, AllOneActive, AfterLaunches;
    var launches := LaunchesOf(1, 0, Some(launch), None);
    var arrayJob := Job(launch + "_" + Digits(0), true, false);
    assert launches == [Some(arrayJob)];
    FirstLaunch(arrayJob);
    OneLanePoll(items, mode, [arrayJob], t1);
    assert [arrayJob] + [repair] == [arrayJob, repair];
    SecondLaunch(arrayJob, repair);
    OneLanePoll(items, mode, [arrayJob, repair], t2);
    OneLanePoll(items, mode, [arrayJob, repair, arrayJob], t2);
    assert [arrayJob, repair, arrayJob] + [second] == [arrayJob, repair, arrayJob, second];
  }

  lemma FirstLaunch(arrayJob: Job)
    ensures AfterLaunches([[]], [Some(arrayJob)]) == [[arrayJob]]
  {
    assert [] + [arrayJob] == [arrayJob];
  }

  lemma SecondLaunch(arrayJob: Job, repair: Job)
    requires arrayJob.ref != repair.ref
    ensures AfterLaunches([[arrayJob, repair]], [Some(arrayJob)]) == [[arrayJob, repair, arrayJob]]
    ensures AllOneActive([[arrayJob, repair]], {repair.ref})
    ensures !AllOneActive([[arrayJob, repair, arrayJob]], {repair.ref})
  {
    var histories := [[arrayJob, repair]];
    assert [arrayJob, repair] + [arrayJob] == [arrayJob, repair, arrayJob];
    assert AfterLaunches(histories, [Some(arrayJob)]) == [[arrayJob, repair, arrayJob]];
    assert Displaces(histories[0], [Some(arrayJob)][0], {repair.ref});
    LaunchesKeepOneActive(histories, [Some(arrayJob)], {repair.ref});
  }
}
