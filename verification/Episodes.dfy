/**
 What happens in one environment of a vector: its steps, its recording, and what one tick of the action
 executor may do to it.
 */
module Episodes {
  import opened Common

  type Obs = seq<real>
  type Action = seq<real>

  /** What the simulator reports for one environment after one low-level step. */
  datatype Outcome = Outcome(obs: Obs, reward: real, terminated: bool, truncated: bool, success: bool) {
    predicate Done() {
      terminated || truncated
    }
  }

  datatype Feedback = Feedback(reward: real, terminated: bool, truncated: bool, success: bool) {
    predicate Done() {
      terminated || truncated
    }
  }

  const ZERO := Feedback(0.0, false, false, false)

  function FeedbackOf(o: Outcome): (f: Feedback)
    ensures f.reward == o.reward && f.terminated == o.terminated && f.truncated == o.truncated && f.success == o.success
  {
    Feedback(o.reward, o.terminated, o.truncated, o.success)
  }

  datatype Frame = Frame(observation: Obs, action: Action, feedback: Feedback, intervention: bool, critic: real)

  /** One operator poll of one environment: the candidate action counts only while intervening. */
  datatype Press = Press(intervening: bool, action: Action, manual: bool, restart: bool, stop: bool)

  //////////////////////////// Episodes ////////////////////////////

  /** An executed low-level step: action, reported outcome, simulator call and the operator's overrides. */
  datatype Stepped = Stepped(action: Action, outcome: Outcome, intervention: bool, critic: real,
                             call: nat, manual: bool, stop: bool)

  /** What really happened in one environment since its reset. */
  datatype Episode = Episode(reset: Obs, steps: seq<Stepped>)

  predicate Over(e: Episode) {
    e.steps != [] && e.steps[|e.steps| - 1].outcome.Done()
  }

  /** No step was executed after a terminating or truncating one. */
  ghost predicate StopsWhenDone(e: Episode) {
    forall j :: 0 <= j < |e.steps| - 1 ==> !e.steps[j].outcome.Done()
  }

  function ObsBefore(e: Episode, k: nat): Obs
    requires k <= |e.steps|
  {
    if k == 0 then e.reset else e.steps[k - 1].outcome.obs
  }

  function LastObs(e: Episode): Obs {
    ObsBefore(e, |e.steps|)
  }

  function FrameOf(before: Obs, s: Stepped): Frame {
    Frame(before, s.action, FeedbackOf(s.outcome), s.intervention, s.critic)
  }

  /** The gapless recording: frame 0 sees the reset, frame k + 1 what the simulator returned for frame k. */
  function FramesOf(e: Episode): (frames: seq<Frame>)
    ensures |frames| == |e.steps|
  {
    seq(|e.steps|, k requires 0 <= k < |e.steps| => FrameOf(ObsBefore(e, k), e.steps[k]))
  }

  function Extended(e: Episode, s: Stepped): Episode {
    Episode(e.reset, e.steps + [s])
  }

  ghost predicate IsPrefix(a: Episode, b: Episode) {
    a.reset == b.reset && a.steps <= b.steps
  }

  lemma PrefixOfItself(e: Episode)
    ensures IsPrefix(e, e)
  {
  }

  lemma PrefixTrans(a: Episode, b: Episode, c: Episode)
    requires IsPrefix(a, b) && IsPrefix(b, c)
    ensures IsPrefix(a, c)
  {
    assert b.steps[..|a.steps|] == c.steps[..|a.steps|];
  }

  lemma FrameAt(e: Episode, k: nat)
    requires k < |e.steps|
    ensures FramesOf(e)[k] == FrameOf(ObsBefore(e, k), e.steps[k])
  {
  }

  lemma FramesExtend(e: Episode, s: Stepped)
    ensures FramesOf(Extended(e, s)) == FramesOf(e) + [FrameOf(LastObs(e), s)]
    ensures LastObs(Extended(e, s)) == s.outcome.obs && Over(Extended(e, s)) == s.outcome.Done()
  {
    hide FrameOf, FramesOf;
    var n, more := |e.steps|, FramesOf(Extended(e, s));
    forall k | 0 <= k < n ensures more[k] == FramesOf(e)[k] {
      FrameAt(e, k);
      FrameAt(Extended(e, s), k);
    }
    FrameAt(Extended(e, s), n);
  }

  lemma RunningExtends(e: Episode, s: Stepped)
    requires StopsWhenDone(e) && !Over(e)
    ensures StopsWhenDone(Extended(e, s))
  {
    var more := Extended(e, s);
    forall j | 0 <= j < |more.steps| - 1 ensures !more.steps[j].outcome.Done() {
      assert more.steps[j] == e.steps[j];
    }
  }

  function AllFrames(episodes: seq<Episode>): seq<seq<Frame>> {
    seq(|episodes|, j requires 0 <= j < |episodes| => FramesOf(episodes[j]))
  }

  //////////////////////////// One environment's recording ////////////////////////////

  /** The recorder's view of one environment: its episode-done flag, pending frames and saved episodes. */
  datatype Track = Track(done: bool, pending: seq<Frame>, saved: seq<seq<Frame>>)

  /** record_once for one step, and save_episode when the step ends the episode. */
  function Recorded(t: Track, frame: Frame): Track {
    if t.done then t
    else if frame.feedback.Done() then Track(true, [], t.saved + [t.pending + [frame]])
    else Track(false, t.pending + [frame], t.saved)
  }

  /** save_episode: an empty buffer saves nothing. */
  function Saved(t: Track): Track {
    if t.done then t
    else Track(true, [], if t.pending == [] then t.saved else t.saved + [t.pending])
  }

  function Cleared(t: Track): Track {
    Track(false, [], t.saved)
  }

  lemma ClearedTwice(t: Track)
    ensures Cleared(Cleared(t)) == Cleared(t) && !Cleared(t).done
  {
  }

  lemma SavedIsDone(t: Track)
    ensures Saved(t).done && (t.done ==> Saved(t) == t)
  {
  }

  /**
   What really happened: the current episode, all episodes completed so far, those completed before the
   last reset, and whether the rollout was closed since.
   */
  datatype History = History(episode: Episode, completed: seq<Episode>, before: seq<Episode>, closed: bool)

  /** What only a reset or a close changes. */
  function RunOf(h: History): (seq<Episode>, bool) {
    (h.before, h.closed)
  }

  function Advanced(h: History, t: Track, s: Stepped): History {
    var e := Extended(h.episode, s);
    h.(episode := e, completed := if !t.done && s.outcome.Done() then h.completed + [e] else h.completed)
  }

  lemma AdvancedEpisode(h: History, t: Track, s: Stepped)
    ensures Advanced(h, t, s).episode == Extended(h.episode, s) && RunOf(Advanced(h, t, s)) == RunOf(h)
  {
  }

  function Restarted(h: History, reset: Obs): History {
    History(Episode(reset, []), h.completed, h.completed, false)
  }

  function Closed(h: History, t: Track): History {
    h.(completed := if t.done || h.episode.steps == [] then h.completed else h.completed + [h.episode], closed := true)
  }

  lemma ClosedEpisode(h: History, t: Track)
    ensures Closed(h, t).episode == h.episode
  {
  }

  /** The recorder tells the truth about one environment, and has saved each episode at most once. */
  ghost predicate TrackOk(t: Track, h: History, latest: Obs) {
    && StopsWhenDone(h.episode) && latest == LastObs(h.episode)
    && t.saved == AllFrames(h.completed)
    && (!t.done ==> t.pending == FramesOf(h.episode) && !Over(h.episode) && h.completed == h.before && !h.closed)
    && (t.done ==> t.pending == [])
    && (t.done && !h.closed ==> Over(h.episode) && h.completed == h.before + [h.episode])
  }

  lemma SavedExtends(completed: seq<Episode>, e: Episode)
    ensures AllFrames(completed + [e]) == AllFrames(completed) + [FramesOf(e)]
  {
  }

  lemma RecordingStaysTrue(t: Track, h: History, latest: Obs, s: Stepped)
    requires TrackOk(t, h, latest) && !Over(h.episode)
    ensures TrackOk(Recorded(t, FrameOf(latest, s)), Advanced(h, t, s), s.outcome.obs)
  {
    hide FramesOf, AllFrames, Over, StopsWhenDone, LastObs;
    FramesExtend(h.episode, s);
    RunningExtends(h.episode, s);
    SavedExtends(h.completed, Extended(h.episode, s));
  }

  lemma ResetStartsRecording(t: Track, h: History, latest: Obs, reset: Obs)
    requires TrackOk(t, h, latest)
    ensures TrackOk(Cleared(t), Restarted(h, reset), reset)
  {
    hide AllFrames;
    assert FramesOf(Episode(reset, [])) == [];
  }

  lemma ClosingSaves(t: Track, h: History, latest: Obs)
    requires TrackOk(t, h, latest)
    ensures TrackOk(Saved(t), Closed(h, t), latest)
  {
    hide AllFrames;
    SavedExtends(h.completed, h.episode);
  }

  lemma SavedTruly(t: Track, h: History, latest: Obs)
    requires TrackOk(t, h, latest)
    ensures t.saved == AllFrames(h.completed)
  {
  }

  //////////////////////////// Genuine steps ////////////////////////////

  /** Manual success ends an episode as terminated; a forced stop, applied after it, as truncated. */
  function Overridden(o: Outcome, manual: bool, stop: bool): Outcome {
    if stop then Outcome(o.obs, 0.0, false, true, false)
    else if manual then Outcome(o.obs, 1.0, true, false, true)
    else o
  }

  /** What the simulator would answer for any environment at a given call. */
  type Simulator = (nat, nat, Action) -> Outcome

  /** The step every environment would take in one simulator call. */
  function StepOf(sim: Simulator, call: nat, i: nat, action: Action, intervention: bool, critic: real, manual: bool,
                  stop: bool): Stepped {
    Stepped(action, Overridden(sim(call, i, action), manual, stop), intervention, critic, call, manual, stop)
  }

  /** Every recorded step is an answer the simulator really gave, each from a later call than the one before. */
  ghost predicate Genuine(sim: Simulator, env: nat, e: Episode, calls: nat) {
    && (forall k :: 0 <= k < |e.steps| ==>
          && e.steps[k].outcome == Overridden(sim(e.steps[k].call, env, e.steps[k].action), e.steps[k].manual, e.steps[k].stop)
          && e.steps[k].call < calls)
    && (forall j, k :: 0 <= j < k < |e.steps| ==> e.steps[j].call < e.steps[k].call)
  }

  lemma GenuineExtends(sim: Simulator, env: nat, e: Episode, calls: nat, s: Stepped)
    requires Genuine(sim, env, e, calls) && s.call == calls
    requires s.outcome == Overridden(sim(calls, env, s.action), s.manual, s.stop)
    ensures Genuine(sim, env, Extended(e, s), calls + 1)
  {
    hide Overridden;
  }

  lemma GenuineLater(sim: Simulator, env: nat, e: Episode, calls: nat)
    requires Genuine(sim, env, e, calls)
    ensures Genuine(sim, env, e, calls + 1)
  {
    hide Overridden;
  }

  //////////////////////////// One tick ////////////////////////////

  /** The merged result of an environment is that of its latest step. */
  ghost predicate Latest(e: Episode, m: Option<Outcome>) {
    e.steps != [] && m == Some(e.steps[|e.steps| - 1].outcome)
  }

  lemma LatestSteps(e: Episode, m: Option<Outcome>)
    requires Latest(e, m)
    ensures e.steps != []
  {
  }

  /** One environment part way through a tick: untouched, or stepped at least once and merged. */
  ghost predicate InTick(e0: Episode, e: Episode, m0: Option<Outcome>, m: Option<Outcome>, done: bool) {
    && IsPrefix(e0, e) && done == Over(e)
    && (if e == e0 then m == m0 else Latest(e, m) && !Over(e0))
  }

  lemma StepInTick(e0: Episode, e: Episode, m0: Option<Outcome>, m: Option<Outcome>, s: Stepped)
    requires InTick(e0, e, m0, m, false)
    ensures InTick(e0, Extended(e, s), m0, Some(s.outcome), s.outcome.Done())
    ensures Extended(e, s) != e0
  {
    assert |Extended(e, s).steps| > |e0.steps|;
  }

  /** An executed action, whether it is the operator's, and the critic value recorded with it. */
  type Command = (Action, bool, real)

  /** `e2` is `e` after one more step with this action. */
  ghost predicate GrewBy(e: Episode, e2: Episode, action: Action, intervention: bool, critic: real) {
    && |e2.steps| == |e.steps| + 1
    && var s := e2.steps[|e.steps|];
       e2 == Extended(e, s) && s.action == action && s.intervention == intervention && s.critic == critic
  }

  lemma StepGrows(sim: Simulator, call: nat, i: nat, e: Episode, action: Action, intervention: bool, critic: real, manual: bool,
                  stop: bool)
    ensures var s := StepOf(sim, call, i, action, intervention, critic, manual, stop);
      GrewBy(e, Extended(e, s), action, intervention, critic) && (manual || stop ==> s.outcome.Done())
  {
  }

  /** What an environment executed since `e0`. */
  function Executed(e0: Episode, e: Episode): seq<Command>
    requires |e0.steps| <= |e.steps|
  {
    seq(|e.steps| - |e0.steps|, k requires 0 <= k < |e.steps| - |e0.steps| =>
      (e.steps[|e0.steps| + k].action, e.steps[|e0.steps| + k].intervention, e.steps[|e0.steps| + k].critic))
  }

  function Marked(actions: seq<Action>, critic: real): seq<Command> {
    seq(|actions|, k requires 0 <= k < |actions| => (actions[k], true, critic))
  }

  /** The candidate actions the operator presented to environment `i` while intervening, in the first `p` polls. */
  function Presented(polls: seq<seq<Press>>, i: nat, p: nat): seq<Action> {
    if p == 0 then []
    else Presented(polls, i, p - 1)
         + if p - 1 < |polls| && i < |polls[p - 1]| && polls[p - 1][i].intervening then [polls[p - 1][i].action] else []
  }

  /** Part way through a tick: every presented action but the pending one is executed, in order, unless it ended. */
  ghost predicate Obeying(e0: Episode, e: Episode, pending: bool, action: Action, policy: Action, presented: seq<Action>,
                          done: bool, done0: bool, critic: real) {
    && IsPrefix(e0, e)
    && (done0 ==> done && e == e0)
    && (!done0 && !pending ==> presented == [] && e == e0 && action == policy && !done)
    && (!done0 && pending && !done ==> presented != [] && action == presented[|presented| - 1])
    && (!done0 && pending && !done ==> Executed(e0, e) == Marked(presented[..|presented| - 1], critic))
    && (!done0 && pending && done ==> Executed(e0, e) <= Marked(presented, critic))
  }

  /**
   What a whole tick makes of operator and policy: the presented actions in order, each executed once and
   marked as intervention; without any, the policy action, unless the chunk was already intervened in. An
   episode that ends may cut this short.
   */
  ghost predicate Obeyed(e0: Episode, e: Episode, skipping: bool, policy: Action, presented: seq<Action>, done0: bool,
                         critic: real) {
    Followed(e0, e, Wanted(skipping, policy, presented, critic), done0)
  }

  /** What one tick should execute. */
  function Wanted(skipping: bool, policy: Action, presented: seq<Action>, critic: real): seq<Command> {
    if presented != [] then Marked(presented, critic) else if skipping then [] else [(policy, false, critic)]
  }

  /** The environment executed what was wanted, in order; an episode that ends may cut it short. */
  ghost predicate Followed(e0: Episode, e: Episode, wanted: seq<Command>, done0: bool) {
    && IsPrefix(e0, e)
    && (done0 ==> e == e0)
    && (!done0 ==> Executed(e0, e) <= wanted && (Executed(e0, e) == wanted || Over(e)))
  }

  lemma ExecutedJoins(e0: Episode, e1: Episode, e2: Episode)
    requires IsPrefix(e0, e1) && IsPrefix(e1, e2)
    ensures IsPrefix(e0, e2) && Executed(e0, e2) == Executed(e0, e1) + Executed(e1, e2)
  {
    PrefixTrans(e0, e1, e2);
    assert e2.steps[..|e1.steps|] == e1.steps;
  }

  /** Two stretches after each other. */
  lemma FollowedJoins(e0: Episode, e1: Episode, e2: Episode, first: seq<Command>, second: seq<Command>, done0: bool)
    requires Followed(e0, e1, first, done0) && Followed(e1, e2, second, Over(e1)) && done0 == Over(e0)
    ensures Followed(e0, e2, first + second, done0)
  {
    hide Executed, Over;
    ExecutedJoins(e0, e1, e2);
    NothingExecuted(e1);
  }

  /** An episode that ended in a stretch executed everything wanted before it, and something of the stretch itself. */
  ghost predicate EndedWithin(e0: Episode, e: Episode, low: seq<Command>, high: seq<Command>) {
    IsPrefix(e0, e) && low <= Executed(e0, e) <= high && low != Executed(e0, e)
  }

  lemma EndingStretch(e0: Episode, e1: Episode, e2: Episode, first: seq<Command>, second: seq<Command>)
    requires !Over(e0) && Followed(e0, e1, first, false) && !Over(e1) && Followed(e1, e2, second, false) && Over(e2)
    ensures EndedWithin(e0, e2, first, first + second)
  {
    ExecutedJoins(e0, e1, e2);
    assert |e2.steps| == |e1.steps| ==> e2 == e1;
  }

  //////////////////////////// A chunk of ticks ////////////////////////////

  /** What the operator presented to environment `i` in tick `t`. */
  function PresentedIn(operator: seq<seq<seq<Press>>>, consumed: seq<nat>, i: nat, t: nat): seq<Action>
    requires t < |operator| == |consumed|
  {
    Presented(operator[t], i, consumed[t])
  }

  /** The operator presented something before tick `t` of the chunk. */
  ghost predicate Intervened(operator: seq<seq<seq<Press>>>, consumed: seq<nat>, i: nat, t: nat)
    requires t <= |operator| == |consumed|
  {
    exists u :: 0 <= u < t && PresentedIn(operator, consumed, i, u) != []
  }

  /** What the first `t` ticks of a chunk want from environment `i`: the operator's actions, or the chunk's own. */
  ghost function Commands(chunk: seq<seq<Action>>, values: seq<seq<real>>, operator: seq<seq<seq<Press>>>, consumed: seq<nat>, i: nat, t: nat): seq<Command>
    requires t <= |chunk| == |values| == |operator| == |consumed| && forall u :: 0 <= u < |chunk| ==> i < |chunk[u]| && i < |values[u]|
  {
    if t == 0 then []
    else
      Commands(chunk, values, operator, consumed, i, t - 1)
      + Wanted(Intervened(operator, consumed, i, t - 1), chunk[t - 1][i], PresentedIn(operator, consumed, i, t - 1),
               values[t - 1][i])
  }

  /** Environment `i` after a chunk: it followed the commands, and if a tick ended it, it stopped within that tick. */
  ghost predicate FollowedChunk(e0: Episode, e: Episode, chunk: seq<seq<Action>>, values: seq<seq<real>>, operator: seq<seq<seq<Press>>>, consumed: seq<nat>,
                                i: nat, feedback: seq<seq<Feedback>>, done0: bool)
    requires |chunk| == |values| == |operator| == |consumed| == |feedback| && forall u :: 0 <= u < |chunk| ==> i < |chunk[u]| && i < |values[u]|
  {
    && Followed(e0, e, Commands(chunk, values, operator, consumed, i, |chunk|), done0)
    && forall d :: 0 <= d < |feedback| && Raised(feedback[d], i) ==>
         EndedWithin(e0, e, Commands(chunk, values, operator, consumed, i, d), Commands(chunk, values, operator, consumed, i, d + 1))
  }

  /** Part way through a chunk: after `|consumed|` of its ticks. */
  ghost predicate Following(e0: Episode, e: Episode, chunk: seq<seq<Action>>, values: seq<seq<real>>, operator: seq<seq<seq<Press>>>, consumed: seq<nat>,
                            i: nat, feedback: seq<seq<Feedback>>, done0: bool, intervened: bool) {
    var t := |consumed|;
    && |chunk| == |values| == |operator| && |feedback| == t <= |chunk| && (forall u :: 0 <= u < |chunk| ==> i < |chunk[u]| && i < |values[u]|)
    && done0 == Over(e0) && Over(e) == (done0 || AnyDone(feedback, i))
    && (t > 0 && !Over(e) ==> intervened == Intervened(operator[..t], consumed, i, t))
    && FollowedChunk(e0, e, chunk[..t], values[..t], operator[..t], consumed, i, feedback, done0)
  }

  lemma NothingFollowed(e: Episode, chunk: seq<seq<Action>>, values: seq<seq<real>>, operator: seq<seq<seq<Press>>>, i: nat, done0: bool, intervened: bool)
    requires |chunk| == |values| == |operator| && (forall u :: 0 <= u < |chunk| ==> i < |chunk[u]| && i < |values[u]|) && done0 == Over(e)
    ensures Following(e, e, chunk, values, operator, [], i, [], done0, intervened)
  {
    PrefixOfItself(e);
    NothingExecuted(e);
  }

  lemma ChunkFollowed(e0: Episode, e: Episode, chunk: seq<seq<Action>>, values: seq<seq<real>>, operator: seq<seq<seq<Press>>>, consumed: seq<nat>,
                      i: nat, feedback: seq<seq<Feedback>>, done0: bool, intervened: bool)
    requires Following(e0, e, chunk, values, operator, consumed, i, feedback, done0, intervened) && |consumed| == |chunk|
    ensures FollowedChunk(e0, e, chunk, values, operator, consumed, i, feedback, done0)
    ensures (forall t :: 0 <= t < |operator| ==> LeftAlone(operator[t], i)) ==>
      RanActions(e0, e, ActionsFor(chunk, values, i), feedback, i, done0)
  {
    hide FollowedChunk, LeftAlone, Intervened, Over;
    assert chunk[..|chunk|] == chunk && values[..|chunk|] == values && operator[..|chunk|] == operator;
    if forall t :: 0 <= t < |operator| ==> LeftAlone(operator[t], i) {
      AloneRunsTheChunk(e0, e, chunk, values, operator, consumed, i, feedback, done0);
    }
  }

  lemma {:induction false} CommandsExtend(chunk: seq<seq<Action>>, values: seq<seq<real>>, operator: seq<seq<seq<Press>>>, consumed: seq<nat>,
                                          row: seq<Action>, more: seq<real>, polls: seq<seq<Press>>, polled: nat, i: nat,
                                          t: nat)
    requires t <= |chunk| == |values| == |operator| == |consumed| && i < |row| && i < |more| && forall u :: 0 <= u < |chunk| ==> i < |chunk[u]| && i < |values[u]|
    ensures Commands(chunk + [row], values + [more], operator + [polls], consumed + [polled], i, t) == Commands(chunk, values, operator, consumed, i, t)
    ensures Intervened(operator + [polls], consumed + [polled], i, t) == Intervened(operator, consumed, i, t)
  {
    hide Presented, Wanted;
    forall u | 0 <= u < t
      ensures PresentedIn(operator + [polls], consumed + [polled], i, u) == PresentedIn(operator, consumed, i, u)
    {
    }
    if t > 0 {
      CommandsExtend(chunk, values, operator, consumed, row, more, polls, polled, i, t - 1);
    }
  }

  /** The commands of one more tick. */
  lemma NextCommands(chunk: seq<seq<Action>>, values: seq<seq<real>>, operator: seq<seq<seq<Press>>>, consumed: seq<nat>, row: seq<Action>,
                     more: seq<real>, polls: seq<seq<Press>>, polled: nat, i: nat)
    requires |chunk| == |values| == |operator| == |consumed| && i < |row| && i < |more| && forall u :: 0 <= u < |chunk| ==> i < |chunk[u]| && i < |values[u]|
    ensures var t := |chunk|;
      var before, presented := Intervened(operator, consumed, i, t), Presented(polls, i, polled);
      && Commands(chunk + [row], values + [more], operator + [polls], consumed + [polled], i, t + 1)
         == Commands(chunk, values, operator, consumed, i, t) + Wanted(before, row[i], presented, more[i])
      && Intervened(operator + [polls], consumed + [polled], i, t + 1) == (before || presented != [])
  {
    hide Presented, Wanted;
    var t := |chunk|;
    CommandsExtend(chunk, values, operator, consumed, row, more, polls, polled, i, t);
    assert PresentedIn(operator + [polls], consumed + [polled], i, t) == Presented(polls, i, polled);
    assert forall u :: 0 <= u < t ==>
      PresentedIn(operator + [polls], consumed + [polled], i, u) == PresentedIn(operator, consumed, i, u);
  }

  /** One more tick of a chunk. */
  lemma TickFollowed(e0: Episode, e1: Episode, e2: Episode, chunk: seq<seq<Action>>, values: seq<seq<real>>, operator: seq<seq<seq<Press>>>, consumed: seq<nat>,
                     polled: nat, i: nat, feedback: seq<seq<Feedback>>, row: seq<Feedback>, done0: bool, done1: bool, ci: bool,
                     restart: bool, ci2: bool)
    requires Following(e0, e1, chunk, values, operator, consumed, i, feedback, done0, ci) && |consumed| < |chunk| && done1 == Over(e1)
    requires i < |row| && TickResult(e1, e2, done1, Over(e2), row[i])
    requires var t := |consumed|;
      Told(e1, e2, t > 0 && ci, chunk[t][i], operator[t], i, polled, restart, ci2, done1, values[t][i])
    ensures Following(e0, e2, chunk, values, operator, consumed + [polled], i, feedback + [row], done0, ci2)
  {
    hide Presented, Wanted, Executed, Over, Commands, Intervened, EndAsked, RestartAsked, FeedbackOf, Followed, EndedWithin;
    var t := |consumed|;
    var c, v, o := chunk[..t], values[..t], operator[..t];
    var first, w := Commands(c, v, o, consumed, i, t), Wanted(Intervened(o, consumed, i, t), chunk[t][i], Presented(operator[t], i, polled), values[t][i]);
    assert values[..t + 1] == v + [values[t]];
    assert chunk[..t + 1] == c + [chunk[t]] && operator[..t + 1] == o + [operator[t]];
    var more, rows := consumed + [polled], feedback + [row];
    NextCommands(c, v, o, consumed, chunk[t], values[t], operator[t], polled, i);
    NobodyIntervened(o, consumed, i);
    if done1 {
      NothingMoreFollowed(e1, w);
    }
    FollowedJoins(e0, e1, e2, first, w, done0);
    NextRaised(feedback, row, i);
    forall d | 0 <= d < |rows| && Raised(rows[d], i)
      ensures EndedWithin(e0, e2, Commands(chunk[..t + 1], values[..t + 1], operator[..t + 1], more, i, d), Commands(chunk[..t + 1], values[..t + 1], operator[..t + 1], more, i, d + 1))
    {
      CommandsExtend(c, v, o, consumed, chunk[t], values[t], operator[t], polled, i, if d < t then d else t);
      if d < t {
        CommandsExtend(c, v, o, consumed, chunk[t], values[t], operator[t], polled, i, d + 1);
        assert Raised(feedback[d], i);
      } else {
        EndingStretch(e0, e1, e2, first, w);
      }
    }
  }

  lemma NobodyIntervened(operator: seq<seq<seq<Press>>>, consumed: seq<nat>, i: nat)
    requires |operator| == |consumed|
    ensures !Intervened(operator, consumed, i, 0)
  {
  }

  lemma NothingMoreFollowed(e: Episode, wanted: seq<Command>)
    ensures Followed(e, e, wanted, true)
  {
  }

  lemma NextRaised(feedback: seq<seq<Feedback>>, row: seq<Feedback>, i: nat)
    ensures AnyDone(feedback + [row], i) <==> AnyDone(feedback, i) || Raised(row, i)
  {
    var more := feedback + [row];
    assert more[|feedback|] == row;
    assert forall t :: 0 <= t < |feedback| ==> more[t] == feedback[t];
  }

  /** The operator asked for a restart of environment `i` in one of the first `t` ticks. */
  ghost predicate RestartWanted(operator: seq<seq<seq<Press>>>, consumed: seq<nat>, i: nat, t: nat) {
    exists u :: 0 <= u < t && RestartAskedIn(operator, consumed, i, u)
  }

  predicate RestartAskedIn(operator: seq<seq<seq<Press>>>, consumed: seq<nat>, i: nat, u: nat) {
    u < |operator| && u < |consumed| && RestartAsked(operator[u], i, consumed[u])
  }

  lemma NextRestart(operator: seq<seq<seq<Press>>>, consumed: seq<nat>, polled: nat, i: nat, e1: Episode, e2: Episode, skipping: bool,
                    policy: Action, restart: bool, intervened: bool, done1: bool, critic: real)
    requires |consumed| < |operator| && !Over(e2)
    requires Told(e1, e2, skipping, policy, operator[|consumed|], i, polled, restart, intervened, done1, critic)
    ensures RestartWanted(operator, consumed + [polled], i, |consumed| + 1) <==> RestartWanted(operator, consumed, i, |consumed|) || restart
  {
    hide Obeyed, Presented, EndAsked, RestartAsked;
    var more := consumed + [polled];
    assert forall u :: 0 <= u < |consumed| ==> more[u] == consumed[u];
    assert forall u: nat :: u < |consumed| ==> (RestartAskedIn(operator, more, i, u) <==> RestartAskedIn(operator, consumed, i, u));
    assert RestartAskedIn(operator, more, i, |consumed|) <==> restart;
  }

  lemma NoRestart(operator: seq<seq<seq<Press>>>, consumed: seq<nat>, i: nat)
    ensures !RestartWanted(operator, consumed, i, 0)
  {
  }

  /** One environment part way through a chunk: what it executed, reported and was asked, since `h0`. */
  ghost predicate Underway(h0: History, h: History, done0: bool, done: bool, intervened: bool, restart: bool, chunk: seq<seq<Action>>,
                           values: seq<seq<real>>, operator: seq<seq<seq<Press>>>, consumed: seq<nat>, i: nat,
                           feedback: seq<seq<Feedback>>) {
    && SilentWhenDone(feedback, i, done0) && done == (done0 || AnyDone(feedback, i)) && done == Over(h.episode)
    && IsPrefix(h0.episode, h.episode) && RunOf(h) == RunOf(h0)
    && Following(h0.episode, h.episode, chunk, values, operator, consumed, i, feedback, done0, intervened)
    && (!done ==> restart == RestartWanted(operator, consumed, i, |consumed|))
  }

  lemma UnderwayAtFirst(h: History, done: bool, intervened: bool, chunk: seq<seq<Action>>, values: seq<seq<real>>,
                        operator: seq<seq<seq<Press>>>, i: nat)
    requires |chunk| == |values| == |operator| && (forall u :: 0 <= u < |chunk| ==> i < |chunk[u]| && i < |values[u]|)
    requires done == Over(h.episode)
    ensures Underway(h, h, done, done, intervened, false, chunk, values, operator, [], i, [])
  {
    hide Following, RestartWanted;
    PrefixOfItself(h.episode);
    NoRestart(operator, [], i);
    NothingFollowed(h.episode, chunk, values, operator, i, done, intervened);
  }

  lemma UnderwayNext(h0: History, h1: History, h2: History, done0: bool, done1: bool, done2: bool, ci: bool, ci2: bool, restart1: bool,
                     restart2: bool, chunk: seq<seq<Action>>, values: seq<seq<real>>, operator: seq<seq<seq<Press>>>, consumed: seq<nat>,
                     polled: nat, i: nat, feedback: seq<seq<Feedback>>, row: seq<Feedback>, again: bool)
    requires Underway(h0, h1, done0, done1, ci, restart1, chunk, values, operator, consumed, i, feedback)
    requires |consumed| < |chunk| == |operator| == |values| && i < |chunk[|consumed|]| && i < |values[|consumed|]| && i < |row|
    requires TickResult(h1.episode, h2.episode, done1, done2, row[i]) && done2 == Over(h2.episode) && RunOf(h2) == RunOf(h1)
    requires Told(h1.episode, h2.episode, |consumed| > 0 && ci, chunk[|consumed|][i], operator[|consumed|], i, polled, again, ci2, done1,
                  values[|consumed|][i])
    requires restart2 == (restart1 || again)
    ensures Underway(h0, h2, done0, done2, ci2, restart2, chunk, values, operator, consumed + [polled], i, feedback + [row])
  {
    hide Following, RestartWanted, Told, TickResult, SilentWhenDone, AnyDone, Over, IsPrefix, RunOf;
    NextRow(feedback, row, i, done0, done1, done2, h1.episode, h2.episode);
    if !done2 {
      NextRestart(operator, consumed, polled, i, h1.episode, h2.episode, |consumed| > 0 && ci, chunk[|consumed|][i], again, ci2, done1,
                  values[|consumed|][i]);
    }
    PrefixTrans(h0.episode, h1.episode, h2.episode);
    TickFollowed(h0.episode, h1.episode, h2.episode, chunk, values, operator, consumed, polled, i, feedback, row, done0, done1, ci,
                 again, ci2);
  }

  /** After the last tick of the chunk. */
  lemma UnderwayAtLast(h0: History, h: History, done0: bool, done: bool, intervened: bool, restart: bool, chunk: seq<seq<Action>>,
                       values: seq<seq<real>>, operator: seq<seq<seq<Press>>>, consumed: seq<nat>, i: nat, feedback: seq<seq<Feedback>>)
    requires Underway(h0, h, done0, done, intervened, restart, chunk, values, operator, consumed, i, feedback)
    requires |consumed| == |chunk|
    ensures |feedback| == |chunk| == |values| == |operator| && forall u :: 0 <= u < |chunk| ==> i < |chunk[u]| && i < |values[u]|
    ensures FollowedChunk(h0.episode, h.episode, chunk, values, operator, consumed, i, feedback, done0)
    ensures (forall t :: 0 <= t < |operator| ==> LeftAlone(operator[t], i)) ==>
      RanActions(h0.episode, h.episode, ActionsFor(chunk, values, i), feedback, i, done0)
    ensures SilentWhenDone(feedback, i, done0) && done == (done0 || AnyDone(feedback, i)) == Over(h.episode)
    ensures IsPrefix(h0.episode, h.episode) && RunOf(h) == RunOf(h0)
    ensures !done ==> restart == RestartWanted(operator, consumed, i, |chunk|)
  {
    hide FollowedChunk, LeftAlone, SilentWhenDone, AnyDone, RestartWanted, Over, RunOf, RanActions;
    ChunkFollowed(h0.episode, h.episode, chunk, values, operator, consumed, i, feedback, done0, intervened);
  }

  lemma RestartedSees(h: History, reset: Obs)
    ensures LastObs(Restarted(h, reset).episode) == reset
  {
  }

  /** The operator leaves environment `i` alone. */
  ghost predicate LeftAlone(polls: seq<seq<Press>>, i: nat) {
    forall p: nat :: !PressAt(polls, i, p).intervening
  }

  /** The chunk's own actions and values for environment `i`, none of them the operator's. */
  function ActionsFor(chunk: seq<seq<Action>>, values: seq<seq<real>>, i: nat): (actions: seq<Command>)
    requires |chunk| == |values| && forall u :: 0 <= u < |chunk| ==> i < |chunk[u]| && i < |values[u]|
    ensures |actions| == |chunk|
  {
    seq(|chunk|, u requires 0 <= u < |chunk| => (chunk[u][i], false, values[u][i]))
  }

  /** Exactly the given actions were executed, up to the one in whose tick the episode ended. */
  ghost predicate RanActions(e0: Episode, e: Episode, actions: seq<Command>, feedback: seq<seq<Feedback>>, i: nat, done0: bool) {
    && IsPrefix(e0, e) && |actions| == |feedback|
    && (done0 ==> e == e0)
    && (!done0 && !AnyDone(feedback, i) ==> Executed(e0, e) == actions)
    && forall d :: 0 <= d < |feedback| && Raised(feedback[d], i) ==> Executed(e0, e) == actions[..d + 1]
  }

  lemma {:induction false} NothingPresented(polls: seq<seq<Press>>, i: nat, p: nat)
    requires LeftAlone(polls, i)
    ensures Presented(polls, i, p) == []
  {
    if p > 0 {
      NothingPresented(polls, i, p - 1);
      assert !PressAt(polls, i, p - 1).intervening;
    }
  }

  lemma {:induction false} AloneCommands(chunk: seq<seq<Action>>, values: seq<seq<real>>, operator: seq<seq<seq<Press>>>, consumed: seq<nat>, i: nat, t: nat)
    requires t <= |chunk| == |values| == |operator| == |consumed| && forall u :: 0 <= u < |chunk| ==> i < |chunk[u]| && i < |values[u]|
    requires forall u :: 0 <= u < |operator| ==> LeftAlone(operator[u], i)
    ensures Commands(chunk, values, operator, consumed, i, t) == ActionsFor(chunk, values, i)[..t]
  {
    hide LeftAlone, Presented;
    if t > 0 {
      AloneCommands(chunk, values, operator, consumed, i, t - 1);
      forall u | 0 <= u < t ensures PresentedIn(operator, consumed, i, u) == [] {
        NothingPresented(operator[u], i, consumed[u]);
      }
      assert ActionsFor(chunk, values, i)[..t] == ActionsFor(chunk, values, i)[..t - 1] + [(chunk[t - 1][i], false, values[t - 1][i])];
    }
  }

  /** Left alone, an environment executes the chunk's own actions in order. */
  lemma AloneRunsTheChunk(e0: Episode, e: Episode, chunk: seq<seq<Action>>, values: seq<seq<real>>, operator: seq<seq<seq<Press>>>, consumed: seq<nat>, i: nat,
                          feedback: seq<seq<Feedback>>, done0: bool)
    requires |chunk| == |values| == |operator| == |consumed| == |feedback| && forall u :: 0 <= u < |chunk| ==> i < |chunk[u]| && i < |values[u]|
    requires FollowedChunk(e0, e, chunk, values, operator, consumed, i, feedback, done0)
    requires forall u :: 0 <= u < |operator| ==> LeftAlone(operator[u], i)
    requires Over(e) == (done0 || AnyDone(feedback, i))
    ensures RanActions(e0, e, ActionsFor(chunk, values, i), feedback, i, done0)
  {
    hide LeftAlone, Commands, Executed, Over, AnyDone, Raised;
    var actions := ActionsFor(chunk, values, i);
    AloneCommands(chunk, values, operator, consumed, i, |chunk|);
    assert actions[..|chunk|] == actions;
    forall d | 0 <= d < |feedback| && Raised(feedback[d], i) ensures Executed(e0, e) == actions[..d + 1] {
      AloneCommands(chunk, values, operator, consumed, i, d);
      AloneCommands(chunk, values, operator, consumed, i, d + 1);
      BetweenPrefixes(Executed(e0, e), actions[..d], actions[..d + 1]);
    }
  }

  lemma BetweenPrefixes<T>(x: seq<T>, low: seq<T>, high: seq<T>)
    requires low <= x <= high && low != x && |high| == |low| + 1
    ensures x == high
  {
    assert |x| > |low|;
  }

  /** One stretch of policy actions after another. */
  lemma RanActionsJoin(e0: Episode, e1: Episode, e2: Episode, a: seq<Command>, b: seq<Command>, fa: seq<seq<Feedback>>, fb: seq<seq<Feedback>>,
                       i: nat, done0: bool)
    requires RanActions(e0, e1, a, fa, i, done0)
    requires RanActions(e1, e2, b, fb, i, done0 || AnyDone(fa, i)) && SilentWhenDone(fb, i, done0 || AnyDone(fa, i))
    ensures RanActions(e0, e2, a + b, fa + fb, i, done0)
  {
    hide Executed;
    var f := fa + fb;
    ExecutedJoins(e0, e1, e2);
    NothingExecuted(e1);
    assert forall t :: 0 <= t < |fa| ==> f[t] == fa[t];
    assert forall t :: 0 <= t < |fb| ==> f[|fa| + t] == fb[t];
    assert AnyDone(f, i) <==> AnyDone(fa, i) || AnyDone(fb, i);
    forall d | 0 <= d < |f| && Raised(f[d], i) ensures Executed(e0, e2) == (a + b)[..d + 1] {
      if d < |fa| {
        assert (a + b)[..d + 1] == a[..d + 1];
      } else {
        assert Raised(fb[d - |fa|], i);
        assert (a + b)[..d + 1] == a + b[..d - |fa| + 1];
      }
    }
  }

  lemma ExecutedGrows(e0: Episode, e: Episode, e2: Episode, action: Action, intervention: bool, critic: real)
    requires IsPrefix(e0, e) && GrewBy(e, e2, action, intervention, critic)
    ensures IsPrefix(e0, e2) && Executed(e0, e2) == Executed(e0, e) + [(action, intervention, critic)]
  {
  }

  lemma NothingExecuted(e: Episode)
    ensures Executed(e, e) == [] && forall critic :: Marked([], critic) == []
  {
  }

  lemma PrefixGrows<T>(a: seq<T>, b: seq<T>, c: seq<T>)
    requires a <= b
    ensures a <= b + c
  {
  }

  lemma MarkedGrows(actions: seq<Action>, a: Action, critic: real)
    ensures Marked(actions + [a], critic) == Marked(actions, critic) + [(a, true, critic)]
  {
  }

  lemma MarkedLast(actions: seq<Action>, critic: real)
    requires actions != []
    ensures Marked(actions, critic) == Marked(actions[..|actions| - 1], critic) + [(actions[|actions| - 1], true, critic)]
  {
    MarkedGrows(actions[..|actions| - 1], actions[|actions| - 1], critic);
    assert actions == actions[..|actions| - 1] + [actions[|actions| - 1]];
  }

  /** One poll keeps an environment obeying. */
  lemma PollObeyed(e0: Episode, e: Episode, e2: Episode, pending: bool, action: Action, policy: Action,
                   presented: seq<Action>, done: bool, done2: bool, done0: bool, intervening: bool, candidate: Action,
                   critic: real)
    requires Obeying(e0, e, pending, action, policy, presented, done, done0, critic)
    requires var need := pending && intervening && !done;
      if need then GrewBy(e, e2, action, true, critic) else e2 == e && done2 == done
    ensures var active := intervening && !done && !done2;
      Obeying(e0, e2, pending || active, if active then candidate else action, policy,
              presented + (if intervening then [candidate] else []), done2, done0, critic)
  {
    hide Executed, Marked, GrewBy;
    var more := presented + if intervening then [candidate] else [];
    NothingExecuted(e0);
    if intervening {
      MarkedGrows(presented, candidate, critic);
      assert more[..|more| - 1] == presented;
      if pending && done && !done0 {
        PrefixGrows(Executed(e0, e), Marked(presented, critic), [(candidate, true, critic)]);
      }
    } else {
      assert more == presented;
    }
    if pending && intervening && !done {
      ExecutedGrows(e0, e, e2, action, true, critic);
      if !done0 {
        MarkedLast(presented, critic);
      }
    }
  }

  /** The step at the end of the tick completes the tick. */
  lemma TickObeyed(e0: Episode, e: Episode, e2: Episode, pending: bool, skipping: bool, action: Action, policy: Action,
                   presented: seq<Action>, done: bool, done0: bool, critic: real)
    requires Obeying(e0, e, pending, action, policy, presented, done, done0, critic) && done == Over(e)
    requires if !done && (!skipping || pending) then GrewBy(e, e2, action, pending, critic) else e2 == e
    ensures Obeyed(e0, e2, skipping, policy, presented, done0, critic)
  {
    hide Executed, Marked, GrewBy, IsPrefix;
    NothingExecuted(e0);
    if !done && (!skipping || pending) {
      ExecutedGrows(e0, e, e2, action, pending, critic);
      if pending && !done0 {
        MarkedLast(presented, critic);
      }
    }
  }

  /** Some of the first `p` polls ended the episode of environment `i` by hand, as a success or a stop. */
  function EndAsked(polls: seq<seq<Press>>, i: nat, p: nat): bool {
    p > 0 && (EndAsked(polls, i, p - 1)
              || (p - 1 < |polls| && i < |polls[p - 1]| && (polls[p - 1][i].manual || polls[p - 1][i].stop)))
  }

  function RestartAsked(polls: seq<seq<Press>>, i: nat, p: nat): bool {
    p > 0 && (RestartAsked(polls, i, p - 1) || (p - 1 < |polls| && i < |polls[p - 1]| && polls[p - 1][i].restart))
  }

  /** The operator's side of one environment part way through a tick. */
  datatype Hand = Hand(action: Action, pending: bool, manual: bool, stop: bool, restart: bool)

  ghost predicate HandOk(e0: Episode, e: Episode, h: Hand, policy: Action, polls: seq<seq<Press>>, i: nat, p: nat,
                         done: bool, done0: bool, critic: real) {
    && Obeying(e0, e, h.pending, h.action, policy, Presented(polls, i, p), done, done0, critic)
    && (!done ==> (h.manual || h.stop) == EndAsked(polls, i, p) && h.restart == RestartAsked(polls, i, p))
  }

  /** What the operator presses for environment `i` at poll `p`; nothing once the polls are over. */
  function PressAt(polls: seq<seq<Press>>, i: nat, p: nat): Press {
    if p < |polls| && i < |polls[p]| then polls[p][i] else Press(false, [], false, false, false)
  }

  lemma IdleAfterPolls(polls: seq<seq<Press>>, p: nat, mask: seq<bool>)
    requires exists i :: 0 <= i < |mask| && mask[i]
    requires forall i :: 0 <= i < |mask| && mask[i] ==> PressAt(polls, i, p).intervening
    ensures p < |polls|
  {
    var i :| 0 <= i < |mask| && mask[i];
    assert PressAt(polls, i, p).intervening;
  }

  /** How one poll changes the operator's side of an environment. */
  function NextHand(h: Hand, press: Press, done: bool, done2: bool): Hand {
    var active := press.intervening && !done && !done2;
    Hand(if active then press.action else h.action, h.pending || active, h.manual || (press.manual && !done),
         h.stop || (press.stop && !done), h.restart || (press.restart && !done))
  }

  lemma PollKeepsHand(e0: Episode, e: Episode, e2: Episode, h: Hand, policy: Action, polls: seq<seq<Press>>, i: nat, p: nat,
                      done: bool, done2: bool, done0: bool, critic: real)
    requires HandOk(e0, e, h, policy, polls, i, p, done, done0, critic) && (done ==> done2)
    requires var press := PressAt(polls, i, p);
      if h.pending && press.intervening && !done then GrewBy(e, e2, h.action, true, critic) else e2 == e && done2 == done
    ensures HandOk(e0, e2, NextHand(h, PressAt(polls, i, p), done, done2), policy, polls, i, p + 1, done2, done0, critic)
  {
    hide Obeying, GrewBy;
    var press := PressAt(polls, i, p);
    PollObeyed(e0, e, e2, h.pending, h.action, policy, Presented(polls, i, p), done, done2, done0, press.intervening, press.action,
               critic);
  }

  /** The whole tick of one environment, from the operator's and the policy's point of view. */
  ghost predicate Told(e0: Episode, e: Episode, skipping: bool, policy: Action, polls: seq<seq<Press>>, i: nat, p: nat,
                       restart: bool, intervened: bool, done0: bool, critic: real) {
    var presented := Presented(polls, i, p);
    && Obeyed(e0, e, skipping, policy, presented, done0, critic)
    && (!done0 && EndAsked(polls, i, p) && (!skipping || presented != []) ==> Over(e))
    && (!Over(e) ==> restart == RestartAsked(polls, i, p) && intervened == (skipping || presented != []))
  }

  lemma TickTold(e0: Episode, e: Episode, e2: Episode, h: Hand, skipping: bool, policy: Action, polls: seq<seq<Press>>,
                 i: nat, p: nat, done: bool, done0: bool, critic: real)
    requires HandOk(e0, e, h, policy, polls, i, p, done, done0, critic) && done == Over(e)
    requires if !done && (!skipping || h.pending) then GrewBy(e, e2, h.action, h.pending, critic) && (h.manual || h.stop ==> Over(e2))
             else e2 == e
    ensures Told(e0, e2, skipping, policy, polls, i, p, h.restart, skipping || h.pending, done0, critic)
  {
    hide Obeyed, GrewBy, Executed, Marked;
    TickObeyed(e0, e, e2, h.pending, skipping, h.action, policy, Presented(polls, i, p), done, done0, critic);
  }

  ghost predicate LaneLive(done: bool, e: Episode, m: Option<Outcome>, latest: Obs) {
    && done == Over(e)
    && (m.Some? ==> m.value.obs == latest)
    && (done ==> Latest(e, m))
  }

  lemma IdleLane(e: Episode, m: Option<Outcome>, latest: Obs)
    requires !Over(e) && (m.Some? ==> m.value.obs == latest)
    ensures LaneLive(false, e, m, latest)
  {
  }

  lemma SettledLane(done: bool, e: Episode, m: Option<Outcome>, latest: Obs)
    requires LaneLive(done, e, m, latest) && Latest(e, m)
    ensures m.Some? && m.value.obs == latest && done == Over(e)
  {
  }

  function DoneFlag(m: Option<Outcome>): bool {
    m.Some? && m.value.Done()
  }

  /** What one tick does to one environment, and what it reports. */
  ghost predicate TickResult(e0: Episode, e: Episode, done0: bool, done: bool, f: Feedback) {
    && IsPrefix(e0, e)
    && (done0 ==> done && e == e0 && f == ZERO)
    && (!done0 ==> e.steps != [] && f == FeedbackOf(e.steps[|e.steps| - 1].outcome))
    && (f.Done() <==> !done0 && done)
  }

  /**
   Two ticks of an environment that is still running after the first. The second reports a feedback without a
   step of its own, namely that of the first again, exactly when the chunk was intervened in before and the
   operator presents nothing. When the episode goes on, it executes one step for each presented action, of
   which only the last is reported, or the policy's step.
   */
  lemma SkippedTicksRepeatFeedback(e0: Episode, e1: Episode, e2: Episode, done2: bool, f1: Feedback, f2: Feedback,
                                   skipping: bool, policy: Action, polls: seq<seq<Press>>, i: nat, p: nat, restart: bool,
                                   intervened: bool, critic: real)
    requires TickResult(e0, e1, false, false, f1) && TickResult(e1, e2, false, done2, f2) && !Over(e1)
    requires Told(e1, e2, skipping, policy, polls, i, p, restart, intervened, false, critic)
    ensures var presented := Presented(polls, i, p);
      && (e2 == e1 <==> skipping && presented == [])
      && (e2 == e1 ==> f2 == f1)
      && (e2 != e1 ==> |e2.steps| > |e1.steps| && f2 == FeedbackOf(e2.steps[|e2.steps| - 1].outcome))
      && (!Over(e2) ==> |e2.steps| == |e1.steps| + if presented != [] then |presented| else if skipping then 0 else 1)
  {
    assert |Executed(e1, e2)| == |e2.steps| - |e1.steps|;
    if |e2.steps| == |e1.steps| {
      assert e2 == e1;
    }
  }

  ghost predicate LaneTicked(e0: Episode, e: Episode, m: Option<Outcome>, done0: bool, latest: Obs) {
    && m.Some? && Latest(e, m)
    && LaneLive(done0 || DoneFlag(m), e, m, latest)
    && TickResult(e0, e, done0, done0 || DoneFlag(m), if done0 then ZERO else FeedbackOf(m.value))
  }

  lemma TickedLane(e0: Episode, e: Episode, m: Option<Outcome>, done0: bool, latest: Obs)
    requires LaneTicked(e0, e, m, done0, latest)
    ensures m.Some? && Latest(e, m) && LaneLive(done0 || DoneFlag(m), e, m, latest)
    ensures TickResult(e0, e, done0, done0 || DoneFlag(m), if done0 then ZERO else FeedbackOf(m.value))
  {
  }

  lemma LaneAfterTick(e0: Episode, e: Episode, m0: Option<Outcome>, m: Option<Outcome>, done0: bool, latest0: Obs, latest: Obs)
    requires LaneLive(done0, e0, m0, latest0) && InTick(e0, e, m0, m, Over(e))
    requires latest0 == LastObs(e0) && latest == LastObs(e)
    requires !done0 && e == e0 ==> Latest(e0, m0)
    ensures m.Some? && LaneTicked(e0, e, m, done0, latest)
  {
  }

  //////////////////////////// Feedback ////////////////////////////

  ghost predicate Rows(feedback: seq<seq<Feedback>>, n: nat) {
    forall t :: 0 <= t < |feedback| ==> |feedback[t]| == n
  }

  predicate Raised(row: seq<Feedback>, i: nat) {
    i < |row| && row[i].Done()
  }

  ghost predicate AnyDone(feedback: seq<seq<Feedback>>, i: nat) {
    exists t :: 0 <= t < |feedback| && Raised(feedback[t], i)
  }

  predicate Silent(row: seq<Feedback>, i: nat) {
    i < |row| && row[i].reward == 0.0 && !row[i].terminated && !row[i].truncated && !row[i].success
  }

  /** Everything an environment reports after it is done is zero. */
  ghost predicate SilentWhenDone(feedback: seq<seq<Feedback>>, i: nat, done0: bool) {
    && (done0 ==> forall t :: 0 <= t < |feedback| ==> Silent(feedback[t], i))
    && forall s, t :: 0 <= s < t < |feedback| && Raised(feedback[s], i) ==> Silent(feedback[t], i)
  }

  lemma NothingRaised(i: nat)
    ensures SilentWhenDone([], i, false) && !AnyDone([], i)
  {
  }

  lemma NextRow(feedback: seq<seq<Feedback>>, row: seq<Feedback>, i: nat, done0: bool, before: bool, after: bool,
                e0: Episode, e: Episode)
    requires i < |row| && SilentWhenDone(feedback, i, done0) && before == (done0 || AnyDone(feedback, i))
    requires TickResult(e0, e, before, after, row[i])
    ensures SilentWhenDone(feedback + [row], i, done0) && after == (done0 || AnyDone(feedback + [row], i))
    ensures IsPrefix(e0, e) && (before ==> after)
  {
    var more := feedback + [row];
    assert more[|feedback|] == row;
    assert forall t :: 0 <= t < |feedback| ==> more[t] == feedback[t];
    assert AnyDone(more, i) <==> AnyDone(feedback, i) || Raised(row, i);
  }

  lemma SilenceContinues(a: seq<seq<Feedback>>, b: seq<seq<Feedback>>, i: nat, done0: bool, done: bool)
    requires SilentWhenDone(a, i, done0) && done == (done0 || AnyDone(a, i)) && SilentWhenDone(b, i, done)
    ensures SilentWhenDone(a + b, i, done0) && (done || AnyDone(b, i)) == (done0 || AnyDone(a + b, i))
  {
    var c := a + b;
    assert forall t :: 0 <= t < |a| ==> c[t] == a[t];
    assert forall t :: 0 <= t < |b| ==> c[|a| + t] == b[t];
    assert AnyDone(c, i) <==> AnyDone(a, i) || AnyDone(b, i);
    forall s, t | 0 <= s < t < |c| && Raised(c[s], i) ensures Silent(c[t], i) {
      if s < |a| <= t {
        assert AnyDone(a, i);
        assert c[t] == b[t - |a|];
      } else if |a| <= s {
        assert c[s] == b[s - |a|] && c[t] == b[t - |a|];
      }
    }
    forall t | done0 && 0 <= t < |c| ensures Silent(c[t], i) {
      if |a| <= t {
        assert c[t] == b[t - |a|];
      }
    }
  }

  /** How often an environment raises a done flag. */
  function RaisedTimes(feedback: seq<seq<Feedback>>, i: nat): nat {
    if feedback == [] then 0
    else RaisedTimes(feedback[..|feedback| - 1], i) + if Raised(feedback[|feedback| - 1], i) then 1 else 0
  }

  /** A done flag is raised at most once, and not at all by an environment that was done before. */
  lemma {:induction false} RaisedAtMostOnce(feedback: seq<seq<Feedback>>, i: nat, done0: bool)
    requires SilentWhenDone(feedback, i, done0)
    ensures RaisedTimes(feedback, i) == if AnyDone(feedback, i) then 1 else 0
    ensures done0 ==> RaisedTimes(feedback, i) == 0
  {
    if feedback != [] {
      var front, row := feedback[..|feedback| - 1], feedback[|feedback| - 1];
      RaisedAtMostOnce(front, i, done0);
      assert feedback == front + [row];
      assert Silent(row, i) ==> !Raised(row, i);
      assert AnyDone(feedback, i) <==> AnyDone(front, i) || Raised(row, i);
    }
  }
}
