/**
 The vector environment under serial execution: policy actions, human interventions, per-environment
 completion, automatic resets and the episode recorder.
 */
module EpisodeMachine {
  import opened Common
  import opened Episodes
  import opened VectorMasks

  predicate Polls(polls: seq<seq<Press>>, n: nat) {
    forall p :: 0 <= p < |polls| ==> |polls[p]| == n
  }

  lemma PollsHaveRows(polls: seq<seq<Press>>, n: nat)
    requires Polls(polls, n)
    ensures forall p :: 0 <= p < |polls| ==> |polls[p]| == n
  {
  }

  /** Somebody intervenes at poll `p`. */
  ghost predicate Asked(polls: seq<seq<Press>>, n: nat, p: nat) {
    exists i :: 0 <= i < n && PressAt(polls, i, p).intervening
  }

  /** apply_teleop_action at poll `p`: candidate actions, the intervention mask and the three buttons. */
  function Poll(polls: seq<seq<Press>>, p: nat, n: nat): (r: (seq<Action>, seq<bool>, seq<bool>, seq<bool>, seq<bool>))
    ensures |r.0| == |r.1| == |r.2| == |r.3| == |r.4| == n
    ensures forall i :: 0 <= i < n ==> Press(r.1[i], r.0[i], r.2[i], r.3[i], r.4[i]) == PressAt(polls, i, p)
  {
    (seq(n, i requires 0 <= i < n => PressAt(polls, i, p).action),
     seq(n, i requires 0 <= i < n => PressAt(polls, i, p).intervening),
     seq(n, i requires 0 <= i < n => PressAt(polls, i, p).manual),
     seq(n, i requires 0 <= i < n => PressAt(polls, i, p).restart),
     seq(n, i requires 0 <= i < n => PressAt(polls, i, p).stop))
  }

  /** _apply_manual_step_overrides, on local results. */
  method ApplyManualStepOverrides(raw: seq<Outcome>, ids: seq<nat>, manual: seq<bool>, stop: seq<bool>) returns (result: seq<Outcome>)
    requires |raw| == |ids| && |manual| == |stop| && InRange(ids, |manual|)
    ensures |result| == |ids|
    ensures forall l :: 0 <= l < |ids| ==> result[l] == Overridden(raw[l], manual[ids[l]], stop[ids[l]])
  {
    result := raw;
    for l := 0 to |ids|
      invariant |result| == |ids|
      invariant forall k :: 0 <= k < |ids| ==> result[k] == if k < l then Overridden(raw[k], manual[ids[k]], false) else raw[k]
    {
      if manual[ids[l]] {
        result := result[l := Outcome(result[l].obs, 1.0, true, false, true)];
      }
    }
    for l := 0 to |ids|
      invariant |result| == |ids|
      invariant forall k :: 0 <= k < |ids| ==> result[k] == Overridden(raw[k], manual[ids[k]], k < l && stop[ids[k]])
    {
      if stop[ids[l]] {
        result := result[l := Outcome(result[l].obs, 0.0, false, true, false)];
      }
    }
  }

  function MergedOf(m: Option<seq<Option<Outcome>>>, n: nat): seq<Option<Outcome>> {
    match m
    case None => seq(n, _ => None)
    case Some(results) => results
  }

  /** _update_step_result: the stepped environments' results replace theirs in the merged result. */
  method UpdateStepResult(m: Option<seq<Option<Outcome>>>, ids: seq<nat>, result: seq<Outcome>, n: nat,
                          ghost mask: seq<bool>, ghost steps: seq<Stepped>)
    returns (merged: seq<Option<Outcome>>)
    requires |mask| == |steps| == n && (m.Some? ==> |m.value| == n) && ids == FlatNonzero(mask) && |result| == |ids|
    requires forall l :: 0 <= l < |ids| ==> ids[l] < n && result[l] == steps[ids[l]].outcome
    ensures |merged| == n
    ensures forall i :: 0 <= i < n ==> merged[i] == if mask[i] then Some(steps[i].outcome) else MergedOf(m, n)[i]
  {
    hide FlatNonzero;
    merged := MergedOf(m, n);
    ghost var before := merged;
    ghost var after := seq(n, i requires 0 <= i < n => Some(steps[i].outcome));
    for local := 0 to |ids|
      invariant |merged| == n && Partly(merged, before, after, ids, local)
    {
      PartlyNext(merged, before, after, mask, local);
      merged := merged[ids[local] := Some(result[local])];
    }
    PartlyAll(merged, before, after, mask);
  }

  /** done[ids] |= terminated | truncated */
  method DoneAfter(done: seq<bool>, ids: seq<nat>, result: seq<Outcome>, n: nat, ghost mask: seq<bool>,
                   ghost steps: seq<Stepped>)
    returns (done': seq<bool>)
    requires |mask| == |steps| == |done| == n && ids == FlatNonzero(mask) && |result| == |ids|
    requires forall l :: 0 <= l < |ids| ==> ids[l] < n && result[l] == steps[ids[l]].outcome
    ensures |done'| == n
    ensures forall i :: 0 <= i < n ==> done'[i] == (done[i] || (mask[i] && steps[i].outcome.Done()))
  {
    hide FlatNonzero;
    done' := done;
    ghost var after := seq(n, i requires 0 <= i < n => done[i] || steps[i].outcome.Done());
    for local := 0 to |ids|
      invariant |done'| == n && Partly(done', done, after, ids, local)
    {
      PartlyNext(done', done, after, mask, local);
      done' := done'[ids[local] := done'[ids[local]] || result[local].Done()];
    }
    PartlyAll(done', done, after, mask);
  }

  /** (terminated | truncated).any over the ticks of a chunk. */
  method DoneMask(feedback: seq<seq<Feedback>>, n: nat) returns (done: seq<bool>)
    requires Rows(feedback, n)
    ensures |done| == n && forall i :: 0 <= i < n ==> done[i] == AnyDone(feedback, i)
  {
    done := Zeros(n);
    for t := 0 to |feedback|
      invariant |done| == n
      invariant forall i :: 0 <= i < n ==> done[i] == AnyDone(feedback[..t], i)
    {
      done := Or(done, seq(n, i requires 0 <= i < n => feedback[t][i].Done()));
    }
  }

  function Refreshed(m: Option<Outcome>, obs: Obs): Option<Outcome> {
    if m.Some? then Some(m.value.(obs := obs)) else None
  }

  lemma RefreshedResult()
    ensures forall m: Option<Outcome>, obs: Obs {:trigger Refreshed(m, obs)} ::
      m.Some? ==> Refreshed(m, obs).Some? && Refreshed(m, obs).value.obs == obs
  {
  }

  /** The reset environments' observations replace theirs in the merged result. */
  method RefreshResults(results: seq<Option<Outcome>>, ids: seq<nat>, resetObs: seq<Obs>, ghost mask: seq<bool>,
                        ghost reset: seq<Obs>)
    returns (r: seq<Option<Outcome>>)
    requires |mask| == |reset| == |results| && ids == FlatNonzero(mask) && |resetObs| == |ids|
    requires forall l :: 0 <= l < |ids| ==> ids[l] < |results| && resetObs[l] == reset[ids[l]]
    ensures |r| == |results|
    ensures forall i :: 0 <= i < |r| ==> r[i] == if mask[i] then Refreshed(results[i], reset[i]) else results[i]
  {
    hide FlatNonzero, Refreshed;
    r := results;
    ghost var after := seq(|results|, i requires 0 <= i < |results| => Refreshed(results[i], reset[i]));
    for l := 0 to |ids|
      invariant |r| == |results| && Partly(r, results, after, ids, l)
    {
      PartlyNext(r, results, after, mask, l);
      r := r[ids[l] := Refreshed(r[ids[l]], resetObs[l])];
    }
    PartlyAll(r, results, after, mask);
  }

  function ObsOf(results: seq<Option<Outcome>>): (obs: seq<Obs>)
    requires forall i :: 0 <= i < |results| ==> results[i].Some?
    ensures |obs| == |results| && forall i :: 0 <= i < |results| ==> obs[i] == results[i].value.obs
  {
    seq(|results|, i requires 0 <= i < |results| => results[i].value.obs)
  }

  class BaseEnv {
    const n: nat
    const autoReset: bool
    const sim: Simulator
    const resetSim: (nat, nat) -> Obs
    var started: bool
    var recorderMode: string
    var calls: nat
    var latestObs: seq<Obs>
    var tracks: seq<Track>
    var executionDone: seq<bool>
    var chunkIntervened: seq<bool>
    var restartEpisode: seq<bool>
    var merged: Option<seq<Option<Outcome>>>
    ghost var hist: seq<History>

    /** The recording of every environment is true. */
    ghost predicate Recording()
      reads this`tracks, this`latestObs, this`hist, this`calls
    {
      && |tracks| == |latestObs| == |hist| == n
      && forall i :: 0 <= i < n ==> TrackOk(tracks[i], hist[i], latestObs[i]) && Genuine(sim, i, hist[i].episode, calls)
    }

    /** record_step_result: each stepped environment records what was seen before its step. */
    method RecordStepResult(result: seq<Outcome>, action: seq<Action>, ids: seq<nat>, intervention: seq<bool>,
                            critic: seq<real>, ghost mask: seq<bool>, ghost after: seq<Track>)
      requires |mask| == |intervention| == |after| == |tracks| == |latestObs| == n && ids == FlatNonzero(mask)
      requires |result| == |action| == |critic| == |ids|
      requires forall l :: 0 <= l < |ids| ==>
        after[ids[l]] == Recorded(tracks[ids[l]], Frame(latestObs[ids[l]], action[l], FeedbackOf(result[l]), intervention[ids[l]], critic[l]))
      modifies this`tracks
      ensures tracks == Merge(mask, after, old(tracks))
    {
      hide FlatNonzero, Recorded, FeedbackOf;
      SelectedInRange(mask);
      ghost var before := tracks;
      var source := Gather(latestObs, ids);
      for local := 0 to |ids|
        invariant |tracks| == n && Partly(tracks, before, after, ids, local)
      {
        var env := ids[local];
        PartlyNext(tracks, before, after, mask, local);
        var frame := Frame(source[local], action[local], FeedbackOf(result[local]), intervention[env], critic[local]);
        tracks := tracks[env := Recorded(tracks[env], frame)];
      }
      PartlyAll(tracks, before, after, mask);
    }

    method UpdateLatestObs(ids: seq<nat>, result: seq<Outcome>, ghost mask: seq<bool>, ghost after: seq<Obs>)
      requires |mask| == |after| == |latestObs| == n && ids == FlatNonzero(mask) && |result| == |ids|
      requires InRange(ids, n) && forall l :: 0 <= l < |ids| ==> after[ids[l]] == result[l].obs
      modifies this`latestObs
      ensures latestObs == Merge(mask, after, old(latestObs))
    {
      hide FlatNonzero;
      ghost var before := latestObs;
      for local := 0 to |ids|
        invariant |latestObs| == n && Partly(latestObs, before, after, ids, local)
      {
        PartlyNext(latestObs, before, after, mask, local);
        latestObs := latestObs[ids[local] := result[local].obs];
      }
      PartlyAll(latestObs, before, after, mask);
    }

    /** env_step: one simulator call for the selected environments. */
    method EnvStep(action: seq<Action>, ids: seq<nat>) returns (result: seq<Outcome>)
      requires |action| == |ids|
      modifies this`calls
      ensures calls == old(calls) + 1
      ensures |result| == |ids| && forall l :: 0 <= l < |ids| ==> result[l] == sim(old(calls), ids[l], action[l])
    {
      result := [];
      for l := 0 to |ids|
        invariant |result| == l && forall k :: 0 <= k < l ==> result[k] == sim(calls, ids[k], action[k])
      {
        result := result + [sim(calls, ids[l], action[l])];
      }
      calls := calls + 1;
    }

    ghost function StepsOf(call: nat, action: seq<Action>, intervention: seq<bool>, critic: seq<real>, manual: seq<bool>,
                           stop: seq<bool>): (steps: seq<Stepped>)
      requires |action| == |intervention| == |critic| == |manual| == |stop| == n
      ensures |steps| == n
    {
      seq(n, i requires 0 <= i < n => StepOf(sim, call, i, action[i], intervention[i], critic[i], manual[i], stop[i]))
    }

    /**
     mask_step: only the selected environments are stepped, none of them over. Each one's episode grows by
     its step, its latest observation is what the simulator returned, and the recording stays true.
     */
    method MaskStep(action: seq<Action>, mask: seq<bool>, intervention: seq<bool>, critic: seq<real>, manual: seq<bool>,
                    stop: seq<bool>)
      returns (ids: seq<nat>, result: seq<Outcome>, ghost steps: seq<Stepped>)
      requires Recording() && |action| == |mask| == |intervention| == |critic| == |manual| == |stop| == n
      requires forall i :: 0 <= i < n && mask[i] ==> !Over(hist[i].episode)
      modifies this`calls, this`tracks, this`latestObs, this`hist
      ensures Recording() && calls == old(calls) + 1
      ensures steps == StepsOf(old(calls), action, intervention, critic, manual, stop)
      ensures ids == FlatNonzero(mask) && |result| == |ids|
      ensures forall l :: 0 <= l < |ids| ==> result[l] == steps[ids[l]].outcome
      ensures forall i :: 0 <= i < n && mask[i] ==> hist[i] == Advanced(old(hist[i]), old(tracks[i]), steps[i])
      ensures forall i :: 0 <= i < n && mask[i] ==> latestObs[i] == steps[i].outcome.obs
      ensures forall i :: 0 <= i < n && !mask[i] ==>
        hist[i] == old(hist[i]) && tracks[i] == old(tracks[i]) && latestObs[i] == old(latestObs[i])
    {
      hide FlatNonzero, Recorded, Overridden, TrackOk, Genuine, Advanced, Over;
      ids := FlatNonzero(mask);
      SelectedInRange(mask);
      var local := Gather(action, ids);
      ghost var h, t, o, c := hist, tracks, latestObs, calls;
      steps := StepsOf(calls, action, intervention, critic, manual, stop);
      ghost var afterTracks := seq(n, i requires 0 <= i < n => Recorded(t[i], FrameOf(o[i], steps[i])));
      ghost var afterObs := seq(n, i requires 0 <= i < n => steps[i].outcome.obs);
      var raw := EnvStep(local, ids);
      result := ApplyManualStepOverrides(raw, ids, manual, stop);
      RecordStepResult(result, local, ids, intervention, Gather(critic, ids), mask, afterTracks);
      UpdateLatestObs(ids, result, mask, afterObs);
      hist := Merge(mask, seq(n, i requires 0 <= i < n => Advanced(h[i], t[i], steps[i])), h);
      forall i | 0 <= i < n ensures TrackOk(tracks[i], hist[i], latestObs[i]) && Genuine(sim, i, hist[i].episode, calls) {
        if mask[i] {
          RecordingStaysTrue(t[i], h[i], o[i], steps[i]);
          AdvancedEpisode(h[i], t[i], steps[i]);
          GenuineExtends(sim, i, h[i].episode, c, steps[i]);
        } else {
          GenuineLater(sim, i, h[i].episode, c);
        }
      }
    }

    ghost predicate Ticking(e0: seq<Episode>, m0: seq<Option<Outcome>>, m: seq<Option<Outcome>>, done: seq<bool>)
      reads this`hist
    {
      && |e0| == |m0| == |m| == |done| == |hist| == n
      && forall i :: 0 <= i < n ==> InTick(e0[i], hist[i].episode, m0[i], m[i], done[i])
    }

    /** Step the selected environments, merge their results, and note which of them are done. */
    method StepAndMerge(action: seq<Action>, mask: seq<bool>, intervention: seq<bool>, critic: seq<real>, manual: seq<bool>,
                        stop: seq<bool>, m: Option<seq<Option<Outcome>>>, done: seq<bool>,
                        ghost e0: seq<Episode>, ghost m0: seq<Option<Outcome>>)
      returns (m': seq<Option<Outcome>>, done': seq<bool>)
      requires Recording() && |action| == |mask| == |intervention| == |critic| == |manual| == |stop| == n
      requires (m.Some? ==> |m.value| == n) && Ticking(e0, m0, MergedOf(m, n), done)
      requires forall i :: 0 <= i < n && mask[i] ==> !done[i]
      modifies this`calls, this`tracks, this`latestObs, this`hist
      ensures Recording() && Ticking(e0, m0, m', done')
      ensures forall i :: 0 <= i < n && mask[i] ==> hist[i].episode != e0[i]
      ensures forall i :: 0 <= i < n ==> RunOf(hist[i]) == RunOf(old(hist[i]))
      ensures forall i :: 0 <= i < n && !mask[i] ==> hist[i] == old(hist[i]) && done'[i] == done[i]
      ensures forall i :: 0 <= i < n && mask[i] ==>
        && GrewBy(old(hist[i].episode), hist[i].episode, action[i], intervention[i], critic[i])
        && (manual[i] || stop[i] ==> done'[i])
    {
      hide Recording, FlatNonzero, StepOf, Over, InTick, RunOf, GrewBy, Advanced, Extended;
      SelectedInRange(mask);
      RecordingShape();
      TickSoFar(e0, m0, MergedOf(m, n), done);
      ghost var h, t := hist, tracks;
      var ids, result;
      ghost var steps;
      ids, result, steps := MaskStep(action, mask, intervention, critic, manual, stop);
      m' := UpdateStepResult(m, ids, result, n, mask, steps);
      done' := DoneAfter(done, ids, result, n, mask, steps);
      RecordingShape();
      forall i | 0 <= i < n
        ensures InTick(e0[i], hist[i].episode, m0[i], m'[i], done'[i]) && (mask[i] ==> hist[i].episode != e0[i])
        ensures RunOf(hist[i]) == RunOf(h[i])
        ensures mask[i] ==> GrewBy(h[i].episode, hist[i].episode, action[i], intervention[i], critic[i]) && (manual[i] || stop[i] ==> done'[i])
      {
        if mask[i] {
          StepInTick(e0[i], h[i].episode, m0[i], MergedOf(m, n)[i], steps[i]);
          AdvancedEpisode(h[i], t[i], steps[i]);
          assert steps[i] == StepOf(sim, old(calls), i, action[i], intervention[i], critic[i], manual[i], stop[i]);
          StepGrows(sim, old(calls), i, h[i].episode, action[i], intervention[i], critic[i], manual[i], stop[i]);
        }
      }
    }

    lemma NothingStepped(e0: seq<Episode>, m0: seq<Option<Outcome>>, done: seq<bool>)
      requires |e0| == |m0| == |done| == |hist| == n
      requires forall i :: 0 <= i < n ==> e0[i] == hist[i].episode && done[i] == Over(e0[i])
      ensures Ticking(e0, m0, m0, done)
    {
    }

    lemma TickSoFar(e0: seq<Episode>, m0: seq<Option<Outcome>>, m: seq<Option<Outcome>>, done: seq<bool>)
      requires Ticking(e0, m0, m, done)
      ensures forall i :: 0 <= i < n ==> InTick(e0[i], hist[i].episode, m0[i], m[i], Over(hist[i].episode))
      ensures |hist| == |done| == n && forall i :: 0 <= i < n ==> done[i] == Over(hist[i].episode)
    {
    }

    lemma RecordingSees(i: nat)
      requires Recording() && i < n
      ensures |latestObs| == |hist| == n && latestObs[i] == LastObs(hist[i].episode)
    {
    }

    lemma RecordingShape()
      requires Recording()
      ensures |tracks| == |latestObs| == |hist| == n
    {
    }

    /** A step of the selected environments, if there are any. */
    method StepSelected(action: seq<Action>, mask: seq<bool>, intervention: seq<bool>, critic: seq<real>, manual: seq<bool>,
                        stop: seq<bool>, m: Option<seq<Option<Outcome>>>, done: seq<bool>,
                        ghost e0: seq<Episode>, ghost m0: seq<Option<Outcome>>)
      returns (m': Option<seq<Option<Outcome>>>, done': seq<bool>)
      requires Recording() && |action| == |mask| == |intervention| == |critic| == |manual| == |stop| == n
      requires (m.Some? ==> |m.value| == n) && Ticking(e0, m0, MergedOf(m, n), done)
      requires forall i :: 0 <= i < n && mask[i] ==> !done[i]
      modifies this`calls, this`tracks, this`latestObs, this`hist
      ensures Recording() && (m.Some? ==> m'.Some?) && (m'.Some? ==> |m'.value| == n) && Ticking(e0, m0, MergedOf(m', n), done')
      ensures m'.None? ==> hist == old(hist)
      ensures forall i :: 0 <= i < n ==> RunOf(hist[i]) == RunOf(old(hist[i]))
      ensures forall i :: 0 <= i < n ==>
        if mask[i] then
          && hist[i].episode != e0[i] && GrewBy(old(hist[i].episode), hist[i].episode, action[i], intervention[i], critic[i])
          && (manual[i] || stop[i] ==> done'[i])
        else hist[i] == old(hist[i]) && done'[i] == done[i]
    {
      hide Recording, InTick, RunOf, GrewBy, Over;
      m', done' := m, done;
      if Any(mask) {
        var r, d := StepAndMerge(action, mask, intervention, critic, manual, stop, m, done, e0, m0);
        m', done' := Some(r), d;
      }
    }

    ghost predicate AllHands(e0: seq<Episode>, policy: seq<Action>, polls: seq<seq<Press>>, p: nat, hands: seq<Hand>,
                             done: seq<bool>, done0: seq<bool>, critic: seq<real>)
      reads this`hist
    {
      && |e0| == |policy| == |hands| == |done| == |done0| == |critic| == |hist| == n
      && forall i :: 0 <= i < n ==> HandOk(e0[i], hist[i].episode, hands[i], policy[i], polls, i, p, done[i], done0[i], critic[i])
    }

    ghost function Hands(action: seq<Action>, pending: seq<bool>, manual: seq<bool>, stop: seq<bool>, restart: seq<bool>): (hands: seq<Hand>)
      requires |action| == |pending| == |manual| == |stop| == |restart| == n
      ensures |hands| == n
      ensures forall i :: 0 <= i < n ==> hands[i] == Hand(action[i], pending[i], manual[i], stop[i], restart[i])
    {
      seq(n, i requires 0 <= i < n => Hand(action[i], pending[i], manual[i], stop[i], restart[i]))
    }

    lemma NothingPolled(e0: seq<Episode>, policy: seq<Action>, polls: seq<seq<Press>>, hands: seq<Hand>, done: seq<bool>,
                        critic: seq<real>)
      requires |e0| == |policy| == |hands| == |done| == |critic| == |hist| == n
      requires forall i :: 0 <= i < n ==> e0[i] == hist[i].episode && done[i] == Over(e0[i])
      requires forall i :: 0 <= i < n ==> hands[i] == Hand(policy[i], false, false, false, false)
      ensures AllHands(e0, policy, polls, 0, hands, done, done, critic)
    {
      hide Over;
    }

    lemma AfterPoll(h: seq<History>, e0: seq<Episode>, policy: seq<Action>, polls: seq<seq<Press>>, p: nat, hands: seq<Hand>,
                    hands2: seq<Hand>, done: seq<bool>, done2: seq<bool>, done0: seq<bool>, critic: seq<real>)
      requires |h| == |e0| == |policy| == |hands| == |hands2| == |done| == |done2| == |done0| == |critic| == |hist| == n
      requires forall i :: 0 <= i < n ==> HandOk(e0[i], h[i].episode, hands[i], policy[i], polls, i, p, done[i], done0[i], critic[i])
      requires forall i :: 0 <= i < n ==>
        var press := PressAt(polls, i, p);
        && (done[i] ==> done2[i]) && hands2[i] == NextHand(hands[i], press, done[i], done2[i])
        && if hands[i].pending && press.intervening && !done[i] then GrewBy(h[i].episode, hist[i].episode, hands[i].action, true, critic[i])
           else hist[i] == h[i] && done2[i] == done[i]
      ensures AllHands(e0, policy, polls, p + 1, hands2, done2, done0, critic)
    {
      hide HandOk, GrewBy, NextHand, PressAt;
      forall i | 0 <= i < n
        ensures HandOk(e0[i], hist[i].episode, hands2[i], policy[i], polls, i, p + 1, done2[i], done0[i], critic[i])
      {
        PollKeepsHand(e0[i], h[i].episode, hist[i].episode, hands[i], policy[i], polls, i, p, done[i], done2[i], done0[i],
                      critic[i]);
      }
    }

    /**
     step_with_teleop_and_recording: poll the operator until nobody intervenes, executing a pending
     intervention whenever the next one arrives, then step everyone who is neither done nor skipping the
     rest of a chunk it was intervened in. `polls` is what the operator does; afterwards he is idle.
     */
    method StepWithTeleopAndRecording(policy: seq<Action>, ci: seq<bool>, m: Option<seq<Option<Outcome>>>,
                                      critic: seq<real>, polls: seq<seq<Press>>)
      returns (m': Option<seq<Option<Outcome>>>, restart: seq<bool>, ci': seq<bool>, ghost consumed: nat)
      requires Recording() && |policy| == |ci| == |critic| == |executionDone| == n && (m.Some? ==> |m.value| == n)
      requires forall i :: 0 <= i < n ==> executionDone[i] == Over(hist[i].episode)
      modifies this`calls, this`tracks, this`latestObs, this`hist
      ensures Recording() && |restart| == |ci'| == n && (m'.Some? ==> |m'.value| == n) && (m.Some? ==> m'.Some?)
      ensures forall i :: 0 <= i < n ==>
        InTick(old(hist[i].episode), hist[i].episode, MergedOf(m, n)[i], MergedOf(m', n)[i], Over(hist[i].episode))
      ensures forall i :: 0 <= i < n && !ci[i] && !executionDone[i] ==> hist[i].episode != old(hist[i].episode)
      ensures forall i :: 0 <= i < n ==> RunOf(hist[i]) == RunOf(old(hist[i]))
      ensures m'.None? ==> forall i :: 0 <= i < n ==> hist[i].episode == old(hist[i].episode)
      ensures forall i :: 0 <= i < n ==>
        Told(old(hist[i].episode), hist[i].episode, ci[i], policy[i], polls, i, consumed, restart[i], ci'[i], executionDone[i],
             critic[i])
      ensures PolledOut(polls, consumed)
    {
      hide Recording, Ticking, InTick, Over, RunOf, Told, HandOk, GrewBy, AndNot, Or, Not, Hands;
      RecordingShape();
      ghost var h := hist;
      ghost var e0 := seq(n, i requires 0 <= i < |h| => h[i].episode);
      var action, pending, manual, stop, done;
      m', action, pending, manual, stop, done, restart, ci', consumed := Intervene(policy, ci, m, critic, polls, e0);
      ghost var h1, d1 := hist, done;
      ghost var hands := Hands(action, pending, manual, stop, restart);
      TickSoFar(e0, MergedOf(m, n), MergedOf(m', n), done);
      var execute := AndNot(Or(Not(ci), pending), done);
      m', done := StepSelected(action, execute, pending, critic, manual, stop, m', done, e0, MergedOf(m, n));
      TickSoFar(e0, MergedOf(m, n), MergedOf(m', n), done);
      forall i | 0 <= i < n
        ensures Told(e0[i], hist[i].episode, ci[i], policy[i], polls, i, consumed, restart[i], ci'[i], executionDone[i],
             critic[i])
      {
        TickTold(e0[i], h1[i].episode, hist[i].episode, hands[i], ci[i], policy[i], polls, i, consumed, d1[i], executionDone[i],
                 critic[i]);
      }
    }

    /** The operator was polled while he intervened on somebody, and last when he left alone everyone still running. */
    ghost predicate PolledOut(polls: seq<seq<Press>>, consumed: nat)
      reads this`hist
    {
      && consumed > 0 && |hist| == n
      && (forall p: nat :: p < consumed - 1 ==> Asked(polls, n, p))
      && forall i :: 0 <= i < n && !Over(hist[i].episode) ==> !PressAt(polls, i, consumed - 1).intervening
    }

    /** The intervention loop: it leaves nothing but pending interventions to execute. */
    method Intervene(policy: seq<Action>, ci: seq<bool>, m: Option<seq<Option<Outcome>>>, critic: seq<real>,
                     polls: seq<seq<Press>>, ghost e0: seq<Episode>)
      returns (result: Option<seq<Option<Outcome>>>, action: seq<Action>, isIntervened: seq<bool>, manual: seq<bool>,
               stop: seq<bool>, done: seq<bool>, restart: seq<bool>, ci': seq<bool>, ghost consumed: nat)
      requires Recording() && |policy| == |ci| == |critic| == |executionDone| == |e0| == |hist| == n && (m.Some? ==> |m.value| == n)
      requires forall i :: 0 <= i < n ==> executionDone[i] == Over(hist[i].episode) && e0[i] == hist[i].episode
      modifies this`calls, this`tracks, this`latestObs, this`hist
      ensures Recording() && |action| == |isIntervened| == |manual| == |stop| == |restart| == |ci'| == |hist| == n
      ensures (result.Some? ==> |result.value| == n) && (m.Some? ==> result.Some?)
      ensures Ticking(e0, MergedOf(m, n), MergedOf(result, n), done)
      ensures forall i :: 0 <= i < n ==> RunOf(hist[i]) == RunOf(old(hist[i]))
      ensures result.None? ==> hist == old(hist)
      ensures forall i :: 0 <= i < n ==> ci'[i] == (ci[i] || isIntervened[i])
      ensures AllHands(e0, policy, polls, consumed, Hands(action, isIntervened, manual, stop, restart), done, executionDone, critic)
      ensures PolledOut(polls, consumed)
    {
      hide Recording, InTick, Over, RunOf, HandOk, Or, Hands, Zeros, Asked, PressAt;
      ghost var h := hist;
      ghost var m0 := MergedOf(m, n);
      action, result, done := policy, m, executionDone;
      NothingStepped(e0, m0, done);
      manual, stop, isIntervened := Zeros(n), Zeros(n), Zeros(n);
      restart, ci' := Zeros(n), ci;
      NothingPolled(e0, policy, polls, Hands(action, isIntervened, manual, stop, restart), done, critic);
      var p := 0;
      while true
        invariant 0 <= p <= |polls| && |action| == |manual| == |stop| == |isIntervened| == |restart| == |ci'| == |done| == n
        invariant Recording() && Ticking(e0, m0, MergedOf(result, n), done)
        invariant (result.Some? ==> |result.value| == n) && (m.Some? ==> result.Some?)
        invariant result.None? ==> hist == h
        invariant forall i :: 0 <= i < n ==> ci'[i] == (ci[i] || isIntervened[i])
        invariant |hist| == |h| == n && forall i :: 0 <= i < n ==> RunOf(hist[i]) == RunOf(h[i])
        invariant AllHands(e0, policy, polls, p, Hands(action, isIntervened, manual, stop, restart), done, executionDone, critic)
        invariant forall q: nat :: q < p ==> Asked(polls, n, q)
        decreases |polls| - p
      {
        var active, more;
        result, action, isIntervened, manual, stop, done, restart, active, more :=
          PollOnce(policy, critic, polls, p, e0, m0, result, action, isIntervened, manual, stop, done, restart);
        ci' := Or(ci', active);
        p := p + 1;
        if !more {
          assert forall i :: 0 <= i < n && !done[i] ==> !PressAt(polls, i, p - 1).intervening;
          break;
        }
      }
      consumed := p;
      TickSoFar(e0, m0, MergedOf(result, n), done);
    }

    /** One poll of the operator; without an intervention it is the last one. */
    method PollOnce(ghost policy: seq<Action>, critic: seq<real>, polls: seq<seq<Press>>, p: nat, ghost e0: seq<Episode>,
                    ghost m0: seq<Option<Outcome>>, m: Option<seq<Option<Outcome>>>, action: seq<Action>, pending: seq<bool>,
                    manual: seq<bool>, stop: seq<bool>, done: seq<bool>, restart: seq<bool>)
      returns (m': Option<seq<Option<Outcome>>>, action': seq<Action>, pending': seq<bool>, manual': seq<bool>,
               stop': seq<bool>, done': seq<bool>, restart': seq<bool>, active: seq<bool>, more: bool)
      requires Recording() && |action| == |pending| == |manual| == |stop| == |done| == |restart| == |critic| == n
      requires (m.Some? ==> |m.value| == n) && Ticking(e0, m0, MergedOf(m, n), done)
      requires AllHands(e0, policy, polls, p, Hands(action, pending, manual, stop, restart), done, executionDone, critic)
      modifies this`calls, this`tracks, this`latestObs, this`hist
      ensures Recording() && |action'| == |pending'| == |manual'| == |stop'| == |done'| == |restart'| == |active| == n
      ensures (m.Some? ==> m'.Some?) && (m'.Some? ==> |m'.value| == n) && Ticking(e0, m0, MergedOf(m', n), done')
      ensures m'.None? ==> hist == old(hist)
      ensures |hist| == |old(hist)| == n && forall i :: 0 <= i < n ==> RunOf(hist[i]) == RunOf(old(hist[i]))
      ensures forall i :: 0 <= i < n ==> pending'[i] == (pending[i] || active[i])
      ensures AllHands(e0, policy, polls, p + 1, Hands(action', pending', manual', stop', restart'), done', executionDone, critic)
      ensures more ==> p < |polls| && Asked(polls, n, p)
      ensures !more ==> forall i :: 0 <= i < n && !done'[i] ==> !PressAt(polls, i, p).intervening
    {
      hide Recording, InTick, Over, Poll, RunOf, HandOk, GrewBy, PressAt, Or, AndNot, OrAndNot, Hands, Zeros, Any;
      ghost var hands, h := Hands(action, pending, manual, stop, restart), hist;
      var (candidate, mask, pressed, again, ended) := Poll(polls, p, n);
      manual' := OrAndNot(manual, pressed, done);
      restart' := OrAndNot(restart, again, done);
      stop' := OrAndNot(stop, ended, done);
      mask := AndNot(mask, done);
      m', action', pending', done', active, more := m, action, pending, done, Zeros(n), Any(mask);
      if more {
        AskedAt(polls, p, mask);
        IdleAfterPolls(polls, p, mask);
        m', action', active, done' := ExecutePending(action, pending, candidate, mask, critic, manual', stop', m, done, e0, m0);
        pending' := Or(pending, active);
      }
      AfterPoll(h, e0, policy, polls, p, hands, Hands(action', pending', manual', stop', restart'), done, done', executionDone,
                critic);
    }

    /** Step the environments whose pending intervention is followed by another one, and take over the new candidates. */
    method ExecutePending(action: seq<Action>, pending: seq<bool>, candidate: seq<Action>, mask: seq<bool>, critic: seq<real>,
                          manual: seq<bool>, stop: seq<bool>, m: Option<seq<Option<Outcome>>>, done: seq<bool>,
                          ghost e0: seq<Episode>, ghost m0: seq<Option<Outcome>>)
      returns (m': Option<seq<Option<Outcome>>>, action': seq<Action>, active: seq<bool>, done': seq<bool>)
      requires Recording() && |action| == |pending| == |candidate| == |mask| == |critic| == |manual| == |stop| == n
      requires (m.Some? ==> |m.value| == n) && Ticking(e0, m0, MergedOf(m, n), done)
      requires forall i :: 0 <= i < n && mask[i] ==> !done[i]
      modifies this`calls, this`tracks, this`latestObs, this`hist
      ensures Recording() && (m.Some? ==> m'.Some?) && (m'.Some? ==> |m'.value| == n) && Ticking(e0, m0, MergedOf(m', n), done')
      ensures m'.None? ==> hist == old(hist)
      ensures |action'| == |active| == n
      ensures forall i :: 0 <= i < n ==>
        && RunOf(hist[i]) == RunOf(old(hist[i])) && (done[i] ==> done'[i])
        && active[i] == (mask[i] && !done'[i]) && action'[i] == (if active[i] then candidate[i] else action[i])
        && if pending[i] && mask[i] then GrewBy(old(hist[i].episode), hist[i].episode, action[i], true, critic[i])
           else hist[i] == old(hist[i]) && done'[i] == done[i]
    {
      hide Recording, InTick, RunOf, GrewBy, Over;
      var need := And(pending, mask);
      m', done' := StepSelected(action, need, mask, critic, manual, stop, m, done, e0, m0);
      active := AndNot(mask, done');
      action' := Merge(active, candidate, action);
    }

    lemma AskedAt(polls: seq<seq<Press>>, p: nat, mask: seq<bool>)
      requires |mask| == n && (exists i :: 0 <= i < |mask| && mask[i])
      requires forall i :: 0 <= i < |mask| && mask[i] ==> PressAt(polls, i, p).intervening
      ensures Asked(polls, n, p)
    {
    }

    /** Between two ticks: what the flags, the merged result and the recording say about each other. */
    ghost predicate Live()
      reads this
    {
      && n > 0 && Recording() && |executionDone| == |chunkIntervened| == |restartEpisode| == n
      && (merged.Some? ==> |merged.value| == n)
      && forall i :: 0 <= i < n ==> LaneLive(executionDone[i], hist[i].episode, MergedOf(merged, n)[i], latestObs[i])
    }

    /** Inside a chunk every environment has a current result. */
    ghost predicate Settled()
      reads this`merged, this`hist
    {
      merged.Some? && |merged.value| == |hist| == n && forall i :: 0 <= i < n ==> Latest(hist[i].episode, merged.value[i])
    }

    /**
     _execute_action_step: an environment that was done before the tick is not touched and reports zeros;
     any other reports its latest step, so a done flag is raised exactly in the tick that ends the episode.
     Which actions were executed is what `Told` says about the policy action and the polls.
     */
    method ExecuteActionStep(action: seq<Action>, critic: seq<real>, chunkStarted: bool, polls: seq<seq<Press>>)
      returns (feedback: seq<Feedback>, ghost restart: seq<bool>, ghost consumed: nat)
      requires Live() && |action| == |critic| == n && (chunkStarted || Settled())
      requires forall p :: 0 <= p < |polls| ==> |polls[p]| == n
      modifies this
      ensures Live() && Settled() && |feedback| == |restart| == n
      ensures forall i :: 0 <= i < n ==>
        TickResult(old(hist[i].episode), hist[i].episode, old(executionDone[i]), executionDone[i], feedback[i])
      ensures forall i :: 0 <= i < n ==> RunOf(hist[i]) == RunOf(old(hist[i]))
      ensures forall i :: 0 <= i < n ==>
        Told(old(hist[i].episode), hist[i].episode, !chunkStarted && old(chunkIntervened[i]), action[i], polls, i, consumed,
             restart[i], chunkIntervened[i], old(executionDone[i]), critic[i])
      ensures PolledOut(polls, consumed)
      ensures forall i :: 0 <= i < n ==> restartEpisode[i] == (old(restartEpisode[i]) || restart[i])
    {
      hide Recording, InTick, Over, Latest, LaneLive, FeedbackOf, TickResult, LastObs, RunOf, LaneTicked, Told;
      BeforeTick();
      var doneBefore := executionDone;
      ghost var h, o, m0 := hist, latestObs, MergedOf(merged, n);
      if chunkStarted {
        chunkIntervened := Zeros(n);
      }
      var m, again, ci;
      m, again, ci, consumed := StepWithTeleopAndRecording(action, chunkIntervened, merged, critic, polls);
      RecordingShape();
      merged, chunkIntervened := m, ci;
      restartEpisode := Or(restartEpisode, again);
      restart := again;
      assert m.Some? by {
        assert m0[0] == MergedOf(old(merged), n)[0];
        assert hist[0].episode == hist[0].episode;
      }
      feedback := ReportTick(m.value, doneBefore, h, o, m0);
    }

    /** Feedback and done flags from the merged result of a tick. */
    method ReportTick(m: seq<Option<Outcome>>, doneBefore: seq<bool>, ghost h: seq<History>, ghost o: seq<Obs>,
                      ghost m0: seq<Option<Outcome>>)
      returns (feedback: seq<Feedback>)
      requires Recording() && |h| == |o| == |m0| == |m| == n && executionDone == doneBefore && |doneBefore| == n
      requires forall i :: 0 <= i < n ==> LaneLive(doneBefore[i], h[i].episode, m0[i], o[i]) && o[i] == LastObs(h[i].episode)
      requires forall i :: 0 <= i < n ==> InTick(h[i].episode, hist[i].episode, m0[i], m[i], Over(hist[i].episode))
      requires forall i :: 0 <= i < n && !doneBefore[i] && hist[i].episode == h[i].episode ==> Latest(h[i].episode, m0[i])
      modifies this`executionDone
      ensures |feedback| == |executionDone| == |hist| == |latestObs| == n
      ensures forall i :: 0 <= i < n ==>
        && TickResult(h[i].episode, hist[i].episode, doneBefore[i], executionDone[i], feedback[i])
        && LaneLive(executionDone[i], hist[i].episode, m[i], latestObs[i]) && Latest(hist[i].episode, m[i])
    {
      hide Recording, InTick, Over, Latest, LaneLive, FeedbackOf, TickResult, LastObs, LaneTicked;
      RecordingShape();
      AfterTick(h, o, m0, m, doneBefore);
      feedback := seq(n, i requires 0 <= i < n => if doneBefore[i] then ZERO else FeedbackOf(m[i].value));
      executionDone := Or(executionDone, seq(n, i requires 0 <= i < n => DoneFlag(m[i])));
      forall i | 0 <= i < n
        ensures TickResult(h[i].episode, hist[i].episode, doneBefore[i], executionDone[i], feedback[i])
        ensures LaneLive(executionDone[i], hist[i].episode, m[i], latestObs[i]) && Latest(hist[i].episode, m[i])
      {
        TickedLane(h[i].episode, hist[i].episode, m[i], doneBefore[i], latestObs[i]);
      }
    }

    lemma BeforeTick()
      requires Live()
      ensures |latestObs| == |hist| == n
      ensures forall i :: 0 <= i < n ==>
        && executionDone[i] == Over(hist[i].episode) && (executionDone[i] ==> MergedOf(merged, n)[i].Some?)
        && latestObs[i] == LastObs(hist[i].episode)
    {
      hide Over, LastObs;
    }

    lemma AfterTick(h: seq<History>, o: seq<Obs>, m0: seq<Option<Outcome>>, m: seq<Option<Outcome>>, done0: seq<bool>)
      requires Recording() && |h| == |o| == |m0| == |m| == |done0| == n
      requires forall i :: 0 <= i < n ==> LaneLive(done0[i], h[i].episode, m0[i], o[i]) && o[i] == LastObs(h[i].episode)
      requires forall i :: 0 <= i < n ==> InTick(h[i].episode, hist[i].episode, m0[i], m[i], Over(hist[i].episode))
      requires forall i :: 0 <= i < n && !done0[i] && hist[i].episode == h[i].episode ==> Latest(h[i].episode, m0[i])
      ensures forall i :: 0 <= i < n ==> m[i].Some? && LaneTicked(h[i].episode, hist[i].episode, m[i], done0[i], latestObs[i])
    {
      hide Recording, InTick, Over, Latest, LaneLive, FeedbackOf, TickResult, LastObs, LaneTicked;
      RecordingShape();
      forall i | 0 <= i < n ensures m[i].Some? && LaneTicked(h[i].episode, hist[i].episode, m[i], done0[i], latestObs[i]) {
        RecordingSees(i);
        LaneAfterTick(h[i].episode, hist[i].episode, m0[i], m[i], done0[i], o[i], latestObs[i]);
      }
    }

    /** Between two chunks; with auto reset nobody is left done. */
    ghost predicate Between()
      reads this
    {
      && Live() && (autoReset ==> forall i :: 0 <= i < n ==> !executionDone[i])
      && forall i :: 0 <= i < n ==> !restartEpisode[i]
    }

    constructor (n: nat, autoReset: bool, sim: Simulator, resetSim: (nat, nat) -> Obs)
      requires n > 0
      ensures Between() && this.n == n && this.autoReset == autoReset && this.sim == sim && this.resetSim == resetSim
      ensures !started && forall i :: 0 <= i < n ==> hist[i].completed == []
    {
      this.n, this.autoReset, this.sim, this.resetSim := n, autoReset, sim, resetSim;
      started, recorderMode, calls := false, "train", 0;
      latestObs := seq(n, _ => []);
      tracks := seq(n, _ => Track(false, [], []));
      executionDone, chunkIntervened, restartEpisode := Zeros(n), Zeros(n), Zeros(n);
      merged := None;
      hist := seq(n, _ => History(Episode([], []), [], [], false));
    }

    /** reset_recorder_envs: pending frames are dropped and recording starts again. */
    method ResetRecorderEnvs(ids: seq<nat>, ghost mask: seq<bool>)
      requires |mask| == |tracks| == n && ids == FlatNonzero(mask)
      modifies this`tracks
      ensures |tracks| == n && forall i :: 0 <= i < n ==> tracks[i] == if mask[i] then Cleared(old(tracks[i])) else old(tracks[i])
    {
      hide FlatNonzero;
      SelectedInRange(mask);
      ghost var before := tracks;
      ghost var after := seq(n, i requires 0 <= i < |before| => Cleared(before[i]));
      for l := 0 to |ids|
        invariant |tracks| == n && Partly(tracks, before, after, ids, l)
      {
        PartlyNext(tracks, before, after, mask, l);
        tracks := tracks[ids[l] := Cleared(tracks[ids[l]])];
      }
      PartlyAll(tracks, before, after, mask);
    }

    /** env_reset: fresh observations for the selected environments. */
    method EnvReset(ids: seq<nat>) returns (obs: seq<Obs>)
      modifies this`calls
      ensures calls == old(calls) + 1
      ensures |obs| == |ids| && forall l :: 0 <= l < |ids| ==> obs[l] == resetSim(old(calls), ids[l])
    {
      var call, reset := calls, resetSim;
      obs := seq(|ids|, l requires 0 <= l < |ids| => reset(call, ids[l]));
      calls := calls + 1;
    }

    /** Every selected environment starts a new, truly recorded episode; the others go on. */
    lemma RestartKeepsRecording(i: nat, t: Track, h: History, latest: Obs, selected: bool, reset: Obs, t': Track, h': History,
                                latest': Obs, c: nat)
      requires TrackOk(t, h, latest) && Genuine(sim, i, h.episode, c)
      requires t' == (if selected then Cleared(t) else t) && h' == (if selected then Restarted(h, reset) else h)
      requires latest' == if selected then reset else latest
      ensures TrackOk(t', h', latest') && Genuine(sim, i, h'.episode, c + 1) && Genuine(sim, i, h'.episode, c)
      ensures selected ==> !Over(h'.episode)
    {
      if selected {
        ResetStartsRecording(t, h, latest, reset);
      } else {
        GenuineLater(sim, i, h.episode, c);
      }
    }

    /** _reset_done_envs under auto reset. */
    method ResetDoneEnvs(mask: seq<bool>)
      requires autoReset && Live() && Settled() && |mask| == n
      requires forall i :: 0 <= i < n && executionDone[i] ==> mask[i]
      modifies this
      ensures Recording() && merged.Some? && |merged.value| == n
      ensures executionDone == old(executionDone) && |chunkIntervened| == |restartEpisode| == n
      ensures forall i :: 0 <= i < n ==>
        && hist[i] == (if mask[i] then Restarted(old(hist[i]), resetSim(old(calls), i)) else old(hist[i]))
        && merged.value[i].Some? && merged.value[i].value.obs == latestObs[i] && !Over(hist[i].episode)
    {
      hide FlatNonzero, Over, TrackOk, Genuine, Restarted, Cleared, LaneLive, Latest, Refreshed;
      RefreshedResult();
      var ids := FlatNonzero(mask);
      SelectedInRange(mask);
      ghost var h, t, o, c := hist, tracks, latestObs, calls;
      var results := merged.value;
      forall i | 0 <= i < n
        ensures results[i].Some? && results[i].value.obs == latestObs[i] && executionDone[i] == Over(hist[i].episode)
      {
        SettledLane(executionDone[i], h[i].episode, results[i], o[i]);
      }
      if |ids| > 0 {
        var resetObs := EnvReset(ids);
        ghost var reset := seq(n, i requires 0 <= i < n => resetSim(c, i));
        results := RefreshResults(results, ids, resetObs, mask, reset);
        merged := Some(results);
        ResetRecorderEnvs(ids, mask);
        hist := Merge(mask, seq(n, i requires 0 <= i < n => Restarted(h[i], resetSim(c, i))), h);
        latestObs := ObsOf(results);
        forall i | 0 <= i < n
          ensures TrackOk(tracks[i], hist[i], latestObs[i]) && Genuine(sim, i, hist[i].episode, calls)
          ensures !Over(hist[i].episode)
        {
          RestartKeepsRecording(i, t[i], h[i], o[i], mask[i], resetSim(c, i), tracks[i], hist[i], latestObs[i], c);
        }
      } else {
        forall i | 0 <= i < n ensures !mask[i] && !Over(hist[i].episode) {
          NoneSelected(mask, i);
        }
      }
    }

    /**
     _finish_execution_slice: with auto reset every environment that finished or was asked to restart begins
     a new episode; without it nothing changes, so that finished environments stay finished.
     */
    method FinishExecutionSlice(feedback: seq<seq<Feedback>>) returns (obs: seq<Obs>, resetMask: seq<bool>)
      requires Live() && Settled() && Rows(feedback, n)
      requires autoReset ==> forall i :: 0 <= i < n && executionDone[i] ==> AnyDone(feedback, i)
      modifies this
      ensures Between() && obs == latestObs && |resetMask| == n
      ensures autoReset ==> forall i :: 0 <= i < n ==>
        && resetMask[i] == (AnyDone(feedback, i) || old(restartEpisode[i]))
        && hist[i] == if resetMask[i] then Restarted(old(hist[i]), resetSim(old(calls), i)) else old(hist[i])
      ensures !autoReset ==> hist == old(hist) && executionDone == old(executionDone) && resetMask == Zeros(n)
      ensures !autoReset ==> Settled() && tracks == old(tracks)
    {
      hide Recording, Restarted, AnyDone, TrackOk, Over, LaneLive, Latest;
      RecordingShape();
      var done := DoneMask(feedback, n);
      resetMask := Or(done, restartEpisode);
      ghost var before := latestObs;
      if autoReset {
        ResetDoneEnvs(resetMask);
      } else {
        resetMask := Zeros(n);
        forall i | 0 <= i < n ensures merged.value[i].Some? && merged.value[i].value.obs == latestObs[i] {
          SettledLane(executionDone[i], hist[i].episode, merged.value[i], latestObs[i]);
        }
      }
      obs := ObsOf(merged.value);
      RecordingShape();
      assert obs == latestObs;
      latestObs := obs;
      restartEpisode := Zeros(n);
      if autoReset {
        executionDone := Zeros(n);
        forall i | 0 <= i < n ensures LaneLive(executionDone[i], hist[i].episode, merged.value[i], latestObs[i]) {
          IdleLane(hist[i].episode, merged.value[i], latestObs[i]);
        }
      }
    }

    /**
     BaseEnv.step with the serial executor: every tick of the chunk, then the slice is finished. Each
     environment executes, tick by tick, what the operator presents to it or else the chunk's own action, until
     its episode ends; left alone, exactly the chunk's actions in order. At most one tick raises a done flag, and
     everything after it is zero. Under auto reset exactly the environments that ended or that the operator wants
     to restart begin a new episode, at the observation returned.
     */
    method Step(chunk: seq<seq<Action>>, values: seq<seq<real>>, operator: seq<seq<seq<Press>>>)
      returns (obs: seq<Obs>, feedback: seq<seq<Feedback>>, ghost consumed: seq<nat>, ghost ended: seq<History>)
      requires Between() && chunk != [] && |values| == |operator| == |chunk|
      requires forall t :: 0 <= t < |chunk| ==> |chunk[t]| == |values[t]| == n && Polls(operator[t], n)
      modifies this
      ensures Between() && obs == latestObs && |feedback| == |chunk| && Rows(feedback, n)
      ensures forall i :: 0 <= i < n ==> SilentWhenDone(feedback, i, old(executionDone[i]))
      ensures |consumed| == |chunk| && |ended| == |hist| == |obs| == n
      ensures forall i :: 0 <= i < n ==>
        && FollowedChunk(old(hist[i].episode), ended[i].episode, chunk, values, operator, consumed, i, feedback, old(executionDone[i]))
        && Over(ended[i].episode) == (old(executionDone[i]) || AnyDone(feedback, i))
        && ((forall t :: 0 <= t < |operator| ==> LeftAlone(operator[t], i)) ==>
              RanActions(old(hist[i].episode), ended[i].episode, ActionsFor(chunk, values, i), feedback, i, old(executionDone[i])))
      ensures forall i :: 0 <= i < n ==>
        hist[i] == if autoReset && (Over(ended[i].episode) || RestartWanted(operator, consumed, i, |chunk|)) then Restarted(ended[i], obs[i])
                   else ended[i]
      ensures !autoReset ==> hist == ended
      ensures !autoReset ==> forall i :: 0 <= i < n ==>
        && IsPrefix(old(hist[i].episode), hist[i].episode)
        && executionDone[i] == (old(executionDone[i]) || AnyDone(feedback, i))
        && RunOf(hist[i]) == RunOf(old(hist[i])) && hist[i].episode.steps != []
    {
      hide Recording, Live, Underway, Over, Restarted, RestartWanted, LastObs, SilentWhenDone, AnyDone, IsPrefix, RunOf, LeftAlone,
        FollowedChunk, RanActions, Latest;
      LiveShape();
      ghost var d0, h0 := executionDone, hist;
      feedback, consumed := RunTicks(chunk, values, operator);
      ended := hist;
      ghost var atEnd, ci, restart := calls, chunkIntervened, restartEpisode;
      LiveShape();
      forall i | 0 <= i < n
        ensures FollowedChunk(h0[i].episode, hist[i].episode, chunk, values, operator, consumed, i, feedback, d0[i])
        ensures (forall t :: 0 <= t < |operator| ==> LeftAlone(operator[t], i)) ==>
          RanActions(h0[i].episode, hist[i].episode, ActionsFor(chunk, values, i), feedback, i, d0[i])
        ensures SilentWhenDone(feedback, i, d0[i]) && executionDone[i] == (d0[i] || AnyDone(feedback, i)) == Over(hist[i].episode)
        ensures IsPrefix(h0[i].episode, hist[i].episode) && RunOf(hist[i]) == RunOf(h0[i]) && hist[i].episode.steps != []
        ensures !executionDone[i] ==> restart[i] == RestartWanted(operator, consumed, i, |chunk|)
      {
        UnderwayAtLast(h0[i], hist[i], d0[i], executionDone[i], ci[i], restart[i], chunk, values, operator, consumed, i, feedback);
        LatestSteps(hist[i].episode, merged.value[i]);
      }
      var resetMask;
      obs, resetMask := FinishExecutionSlice(feedback);
      LiveShape();
      forall i | autoReset && 0 <= i < n && resetMask[i] ensures hist[i] == Restarted(ended[i], obs[i]) {
        LiveSees(i);
        RestartedSees(ended[i], resetSim(atEnd, i));
      }
    }

    /** The ticks of a chunk, one after the other. */
    method RunTicks(chunk: seq<seq<Action>>, values: seq<seq<real>>, operator: seq<seq<seq<Press>>>)
      returns (feedback: seq<seq<Feedback>>, ghost consumed: seq<nat>)
      requires Between() && chunk != [] && |values| == |operator| == |chunk|
      requires forall t :: 0 <= t < |chunk| ==> |chunk[t]| == |values[t]| == n && Polls(operator[t], n)
      modifies this
      ensures Live() && Settled() && |hist| == |executionDone| == |chunkIntervened| == |restartEpisode| == n
      ensures |feedback| == |consumed| == |chunk| && Rows(feedback, n)
      ensures |old(hist)| == |old(executionDone)| == n
      ensures forall i :: 0 <= i < n ==>
        Underway(old(hist[i]), hist[i], old(executionDone[i]), executionDone[i], chunkIntervened[i], restartEpisode[i], chunk, values,
                 operator, consumed, i, feedback)
    {
      hide Recording, Live, Underway, TickResult, Over, Polls, RunOf, Told, Latest;
      LiveShape();
      feedback, consumed := [], [];
      ghost var d0, h0 := executionDone, hist;
      forall i | 0 <= i < n {
        UnderwayAtFirst(h0[i], d0[i], chunkIntervened[i], chunk, values, operator, i);
      }
      for t := 0 to |chunk|
        invariant Live() && |hist| == |executionDone| == |chunkIntervened| == |restartEpisode| == n
        invariant |feedback| == |consumed| == t && Rows(feedback, n) && (t > 0 ==> Settled())
        invariant forall i :: 0 <= i < n ==>
          Underway(h0[i], hist[i], d0[i], executionDone[i], chunkIntervened[i], restartEpisode[i], chunk, values, operator, consumed, i,
                   feedback)
      {
        ghost var d, h, ci, r := executionDone, hist, chunkIntervened, restartEpisode;
        assert Polls(operator[t], n);
        PollsHaveRows(operator[t], n);
        var row;
        ghost var again, polled;
        row, again, polled := ExecuteActionStep(chunk[t], values[t], t == 0, operator[t]);
        LiveShape();
        forall i | 0 <= i < n {
          UnderwayNext(h0[i], h[i], hist[i], d0[i], d[i], executionDone[i], ci[i], chunkIntervened[i], r[i], restartEpisode[i], chunk,
                       values, operator, consumed, polled, i, feedback, row, again[i]);
        }
        feedback, consumed := feedback + [row], consumed + [polled];
      }
    }

    lemma LiveShape()
      requires Live()
      ensures n > 0 && |hist| == |latestObs| == |executionDone| == |chunkIntervened| == |restartEpisode| == n
      ensures forall i :: 0 <= i < n ==> executionDone[i] == Over(hist[i].episode)
    {
      hide Over;
    }

    lemma LiveSees(i: nat)
      requires Live() && i < n
      ensures |latestObs| == |hist| == n && latestObs[i] == LastObs(hist[i].episode)
    {
      RecordingSees(i);
    }

    /**
     A full-vector reset. Under auto reset a started environment keeps running and the cached observation is
     returned; a change of recording mode drops pending frames and starts recording afresh from it.
     */
    method Reset(mode: string, resetEval: bool) returns (obs: seq<Obs>)
      requires Between()
      modifies this
      ensures Between() && started && obs == latestObs && |obs| == n && forall i :: 0 <= i < n ==> !executionDone[i]
      ensures !autoReset || !old(started) || resetEval ==>
        forall i :: 0 <= i < n ==> hist[i] == Restarted(old(hist[i]), obs[i]) && obs[i] == resetSim(old(calls), i) && !tracks[i].done
      ensures autoReset && old(started) && !resetEval ==> obs == old(latestObs)
      ensures autoReset && old(started) && !resetEval ==>
        forall i :: 0 <= i < n ==> hist[i] == if mode != old(recorderMode) then Restarted(old(hist[i]), obs[i]) else old(hist[i])
    {
      hide Recording, Restarted, TrackOk, Genuine, Over, Cleared, LaneLive, Latest;
      RecordingFacts();
      ghost var h, t, o, c := hist, tracks, latestObs, calls;
      ghost var changed := mode != recorderMode;
      merged := None;
      restartEpisode, executionDone := Zeros(n), Zeros(n);
      SetMode(mode);
      if autoReset && started && !resetEval {
        hist := if changed then seq(n, i requires 0 <= i < n => Restarted(h[i], o[i])) else h;
        RestartAll(h, t, o, c, changed, o);
        return latestObs;
      }
      obs := ResetAllEnvs(h, t, o);
    }

    /** Every environment starts a new episode; `t` are the tracks before a possible change of mode. */
    method ResetAllEnvs(ghost h: seq<History>, ghost t: seq<Track>, ghost o: seq<Obs>) returns (obs: seq<Obs>)
      requires |h| == |t| == |o| == |tracks| == n && n > 0
      requires forall i :: 0 <= i < n ==> TrackOk(t[i], h[i], o[i]) && Genuine(sim, i, h[i].episode, calls)
      requires forall i :: 0 <= i < n ==> tracks[i] == t[i] || tracks[i] == Cleared(t[i])
      requires merged.None? && executionDone == Zeros(n) && |chunkIntervened| == |restartEpisode| == n
      modifies this`calls, this`latestObs, this`started, this`hist, this`tracks
      ensures Live() && started && obs == latestObs && |obs| == |hist| == n
      ensures forall i :: 0 <= i < n ==>
        hist[i] == Restarted(h[i], obs[i]) && obs[i] == resetSim(old(calls), i) && !tracks[i].done
    {
      hide Recording, Restarted, TrackOk, Genuine, Over, Cleared, LaneLive, Latest;
      ghost var c := calls;
      obs := EnvReset(seq(n, i requires 0 <= i < n => i));
      latestObs, started := obs, true;
      hist := seq(n, i requires 0 <= i < n => Restarted(h[i], resetSim(c, i)));
      ClearAll();
      forall i | 0 <= i < n ensures tracks[i] == Cleared(t[i]) && !tracks[i].done {
        ClearedTwice(t[i]);
      }
      RestartAll(h, t, o, c, true, obs);
    }

    /** The recorder's set_mode: a real change drops every pending frame and every episode-done flag. */
    method SetMode(mode: string)
      requires |tracks| == n
      modifies this`recorderMode, this`tracks
      ensures recorderMode == mode && |tracks| == n
      ensures forall i :: 0 <= i < n ==> tracks[i] == if mode != old(recorderMode) then Cleared(old(tracks[i])) else old(tracks[i])
    {
      if mode != recorderMode {
        recorderMode := mode;
        ClearAll();
      }
    }

    method ClearAll()
      requires |tracks| == n
      modifies this`tracks
      ensures |tracks| == n && forall i :: 0 <= i < n ==> tracks[i] == Cleared(old(tracks[i]))
    {
      var mask := seq(n, _ => true);
      ResetRecorderEnvs(FlatNonzero(mask), mask);
    }

    lemma RecordingFacts()
      requires Live()
      ensures |tracks| == |latestObs| == |hist| == n
      ensures forall i :: 0 <= i < n ==> TrackOk(tracks[i], hist[i], latestObs[i]) && Genuine(sim, i, hist[i].episode, calls)
      ensures forall i :: 0 <= i < n ==> executionDone[i] == Over(hist[i].episode)
    {
    }

    /** All environments restarted at once (or none), with nothing merged: the machine is live again. */
    lemma RestartAll(h: seq<History>, t: seq<Track>, o: seq<Obs>, c: nat, selected: bool, reset: seq<Obs>)
      requires |h| == |t| == |o| == |reset| == |hist| == |tracks| == |latestObs| == n && n > 0 && (calls == c || calls == c + 1)
      requires forall i :: 0 <= i < n ==> TrackOk(t[i], h[i], o[i]) && Genuine(sim, i, h[i].episode, c)
      requires forall i :: 0 <= i < n ==>
        && tracks[i] == (if selected then Cleared(t[i]) else t[i])
        && hist[i] == (if selected then Restarted(h[i], reset[i]) else h[i])
        && latestObs[i] == (if selected then reset[i] else o[i])
        && (!selected ==> !Over(h[i].episode))
      requires merged.None? && executionDone == Zeros(n) && |chunkIntervened| == |restartEpisode| == n
      ensures Live()
    {
      hide TrackOk, Genuine, Over, Cleared, Restarted;
      forall i | 0 <= i < n
        ensures TrackOk(tracks[i], hist[i], latestObs[i]) && Genuine(sim, i, hist[i].episode, calls) && !Over(hist[i].episode)
      {
        RestartKeepsRecording(i, t[i], h[i], o[i], selected, reset[i], tracks[i], hist[i], latestObs[i], c);
      }
    }

    /** finish_rollout: without auto reset the unfinished episodes are saved; finished ones already are. */
    method FinishRollout()
      requires Between()
      modifies this`tracks, this`hist
      ensures Between()
      ensures autoReset ==> tracks == old(tracks) && hist == old(hist)
      ensures !autoReset ==> forall i :: 0 <= i < n ==>
        hist[i] == Closed(old(hist[i]), old(tracks[i])) && tracks[i] == Saved(old(tracks[i])) && tracks[i].done
    {
      if autoReset {
        return;
      }
      hide TrackOk, Genuine, Over, Saved, Closed, LaneLive;
      ghost var h, t := hist, tracks;
      for env := 0 to n
        invariant |tracks| == n && forall i :: 0 <= i < n ==> tracks[i] == if i < env then Saved(t[i]) else t[i]
      {
        SavedIsDone(tracks[env]);
        if !tracks[env].done {
          tracks := tracks[env := Saved(tracks[env])];
        }
      }
      hist := seq(n, i requires 0 <= i < n => Closed(h[i], t[i]));
      forall i | 0 <= i < n
        ensures TrackOk(tracks[i], hist[i], latestObs[i]) && hist[i].episode == h[i].episode && tracks[i].done
      {
        ClosingSaves(t[i], h[i], latestObs[i]);
        SavedIsDone(t[i]);
        ClosedEpisode(h[i], t[i]);
      }
    }
  }

  //////////////////////////// Whole rollouts ////////////////////////////

  /** One policy chunk with its values and what the operator does in each of its ticks. */
  datatype Chunk = Chunk(actions: seq<seq<Action>>, values: seq<seq<real>>, operator: seq<seq<seq<Press>>>)

  predicate ChunkOk(c: Chunk, n: nat) {
    && c.actions != [] && |c.values| == |c.operator| == |c.actions|
    && forall t :: 0 <= t < |c.actions| ==> |c.actions[t]| == |c.values[t]| == n && Polls(c.operator[t], n)
  }

  /** The operator leaves environment `i` alone during the chunk. */
  ghost predicate Alone(c: Chunk, i: nat) {
    forall t :: 0 <= t < |c.operator| ==> LeftAlone(c.operator[t], i)
  }

  /** The policy's actions and values for environment `i`. */
  ghost function PolicyFor(c: Chunk, n: nat, i: nat): seq<Command>
    requires ChunkOk(c, n) && i < n
  {
    ActionsFor(c.actions, c.values, i)
  }

  ghost predicate AlwaysAlone(chunks: seq<Chunk>, i: nat) {
    forall c :: 0 <= c < |chunks| ==> Alone(chunks[c], i)
  }

  /** The policy's actions for environment `i` in a whole rollout, chunk after chunk. */
  ghost function PolicyActions(chunks: seq<Chunk>, n: nat, i: nat): seq<Command>
    requires i < n && forall c :: 0 <= c < |chunks| ==> ChunkOk(chunks[c], n)
  {
    if chunks == [] then [] else PolicyActions(chunks[..|chunks| - 1], n, i) + PolicyFor(chunks[|chunks| - 1], n, i)
  }

  method RunChunk(env: BaseEnv, chunk: Chunk) returns (obs: seq<Obs>, rows: seq<seq<Feedback>>)
    requires env.Between() && !env.autoReset && ChunkOk(chunk, env.n)
    modifies env
    ensures env.Between() && |env.hist| == |old(env.hist)| == env.n && Rows(rows, env.n)
    ensures forall i :: 0 <= i < env.n ==> Alone(chunk, i) ==>
      RanActions(old(env.hist[i].episode), env.hist[i].episode, PolicyFor(chunk, env.n, i), rows, i, old(env.executionDone[i]))
    ensures forall i :: 0 <= i < env.n ==>
      && SilentWhenDone(rows, i, old(env.executionDone[i]))
      && IsPrefix(old(env.hist[i].episode), env.hist[i].episode)
      && env.executionDone[i] == (old(env.executionDone[i]) || AnyDone(rows, i))
      && RunOf(env.hist[i]) == RunOf(old(env.hist[i])) && env.hist[i].episode.steps != []
  {
    hide SilentWhenDone, AnyDone, IsPrefix, RunOf, TrackOk, Genuine, LaneLive, Polls, LeftAlone, RanActions, FollowedChunk;
    ghost var consumed, ended;
    obs, rows, consumed, ended := env.Step(chunk.actions, chunk.values, chunk.operator);
  }

  /** The rollout added exactly one saved episode, the one that started at the reset observation. */
  ghost predicate RolloutSaved(h0: History, h: History, first: Obs) {
    && h.completed == h0.completed + [h.episode]
    && h.episode.reset == first && h.episode.steps != [] && StopsWhenDone(h.episode)
  }

  lemma SavedOnce(h0: History, h1: History, h: History, t: Track, latest: Obs, first: Obs)
    requires h1 == Restarted(h0, first) && IsPrefix(h1.episode, h.episode) && RunOf(h) == RunOf(h1) && h.episode.steps != []
    requires TrackOk(t, h, latest)
    ensures RolloutSaved(h0, Closed(h, t), first)
  {
    hide AllFrames, FramesOf;
  }

  method CloseRollout(env: BaseEnv, ghost h0: seq<History>, ghost h1: seq<History>, ghost first: seq<Obs>)
    requires env.Between() && !env.autoReset && |h0| == |h1| == |first| == |env.hist| == env.n
    requires forall i :: 0 <= i < env.n ==>
      && h1[i] == Restarted(h0[i], first[i]) && IsPrefix(h1[i].episode, env.hist[i].episode)
      && RunOf(env.hist[i]) == RunOf(h1[i]) && env.hist[i].episode.steps != []
    modifies env`tracks, env`hist
    ensures env.Between() && |env.hist| == |env.tracks| == env.n
    ensures forall i :: 0 <= i < env.n ==>
      && RolloutSaved(h0[i], env.hist[i], first[i]) && env.hist[i].episode == old(env.hist[i].episode)
      && env.executionDone[i] == Over(env.hist[i].episode)
      && env.tracks[i].saved == AllFrames(env.hist[i].completed)
  {
    hide BaseEnv.Recording, IsPrefix, Over, TrackOk, RunOf, Genuine, Restarted, Closed, Saved, LaneLive, RolloutSaved, AllFrames;
    env.RecordingFacts();
    ghost var h, t, o := env.hist, env.tracks, env.latestObs;
    env.FinishRollout();
    env.RecordingFacts();
    forall i | 0 <= i < env.n
      ensures RolloutSaved(h0[i], env.hist[i], first[i]) && env.hist[i].episode == h[i].episode
      ensures env.tracks[i].saved == AllFrames(env.hist[i].completed)
    {
      SavedOnce(h0[i], h1[i], h[i], t[i], o[i], first[i]);
      ClosedEpisode(h[i], t[i]);
      SavedTruly(env.tracks[i], env.hist[i], env.latestObs[i]);
    }
  }

  lemma NothingRun(e: Episode, chunks: seq<Chunk>, n: nat, i: nat)
    requires chunks == [] && i < n
    ensures RanActions(e, e, PolicyActions(chunks, n, i), [], i, false)
  {
    PrefixOfItself(e);
    NothingExecuted(e);
  }

  lemma NextPolicy(chunks: seq<Chunk>, n: nat, i: nat, c: nat)
    requires i < n && c < |chunks| && forall d :: 0 <= d < |chunks| ==> ChunkOk(chunks[d], n)
    ensures PolicyActions(chunks[..c + 1], n, i) == PolicyActions(chunks[..c], n, i) + PolicyFor(chunks[c], n, i)
  {
    assert chunks[..c + 1][..c] == chunks[..c];
  }

  /**
   A rollout without auto reset, for any simulator, operator and policy: over all its chunks an environment
   raises its done flag at most once and is silent afterwards; it is never stepped once it is done; and its
   one episode is saved exactly once, gaplessly, from the reset observation on. An environment that the operator
   leaves alone executes the policy's chunks in order, up to the action that ends its episode.
   */
  method Rollout(env: BaseEnv, mode: string, resetEval: bool, chunks: seq<Chunk>)
    returns (first: seq<Obs>, feedback: seq<seq<Feedback>>)
    requires env.Between() && !env.autoReset && chunks != []
    requires forall c :: 0 <= c < |chunks| ==> ChunkOk(chunks[c], env.n)
    modifies env
    ensures env.Between() && |first| == |env.hist| == |env.tracks| == env.n && Rows(feedback, env.n)
    ensures forall i :: 0 <= i < env.n ==>
      && SilentWhenDone(feedback, i, false)
      && env.executionDone[i] == AnyDone(feedback, i) == Over(env.hist[i].episode)
      && RolloutSaved(old(env.hist[i]), env.hist[i], first[i])
      && env.tracks[i].saved == AllFrames(env.hist[i].completed)
    ensures forall i :: 0 <= i < env.n && AlwaysAlone(chunks, i) ==>
      RanActions(Episode(first[i], []), env.hist[i].episode, PolicyActions(chunks, env.n, i), feedback, i, false)
  {
    hide BaseEnv.Recording, SilentWhenDone, AnyDone, IsPrefix, Over, TrackOk, RunOf, Genuine, ChunkOk, RanActions, Alone, PolicyActions,
      PolicyFor;
    env.RecordingShape();
    ghost var h0 := env.hist;
    feedback := [];
    first := env.Reset(mode, resetEval);
    env.RecordingFacts();
    ghost var h1 := env.hist;
    forall i | 0 <= i < env.n
      ensures SilentWhenDone([], i, false) && !AnyDone([], i) && IsPrefix(h1[i].episode, h1[i].episode)
      ensures RanActions(h1[i].episode, h1[i].episode, PolicyActions(chunks[..0], env.n, i), [], i, false)
    {
      NothingRaised(i);
      PrefixOfItself(h1[i].episode);
      NothingRun(h1[i].episode, chunks[..0], env.n, i);
    }
    for c := 0 to |chunks|
      invariant env.Between() && |env.hist| == env.n && Rows(feedback, env.n)
      invariant forall i :: 0 <= i < env.n ==> SilentWhenDone(feedback, i, false)
      invariant forall i :: 0 <= i < env.n ==> env.executionDone[i] == AnyDone(feedback, i)
      invariant forall i :: 0 <= i < env.n ==> IsPrefix(h1[i].episode, env.hist[i].episode) && RunOf(env.hist[i]) == RunOf(h1[i])
      invariant c > 0 ==> forall i :: 0 <= i < env.n ==> env.hist[i].episode.steps != []
      invariant forall i :: 0 <= i < env.n && AlwaysAlone(chunks, i) ==>
        RanActions(h1[i].episode, env.hist[i].episode, PolicyActions(chunks[..c], env.n, i), feedback, i, false)
    {
      ghost var h, d := env.hist, env.executionDone;
      var obs, rows := RunChunk(env, chunks[c]);
      env.RecordingShape();
      forall i | 0 <= i < env.n
        ensures SilentWhenDone(feedback + rows, i, false) && env.executionDone[i] == AnyDone(feedback + rows, i)
        ensures IsPrefix(h1[i].episode, env.hist[i].episode)
        ensures AlwaysAlone(chunks, i) ==>
          RanActions(h1[i].episode, env.hist[i].episode, PolicyActions(chunks[..c + 1], env.n, i), feedback + rows, i, false)
      {
        SilenceContinues(feedback, rows, i, false, d[i]);
        PrefixTrans(h1[i].episode, h[i].episode, env.hist[i].episode);
        if AlwaysAlone(chunks, i) {
          NextPolicy(chunks, env.n, i, c);
          RanActionsJoin(h1[i].episode, h[i].episode, env.hist[i].episode, PolicyActions(chunks[..c], env.n, i),
                         PolicyFor(chunks[c], env.n, i), feedback, rows, i, false);
        }
      }
      feedback := feedback + rows;
    }
    assert chunks[..|chunks|] == chunks;
    forall i | 0 <= i < env.n ensures h1[i].episode == Episode(first[i], []) {
    }
    CloseRollout(env, h0, h1, first);
  }
}
