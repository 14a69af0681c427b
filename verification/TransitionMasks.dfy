/** Which low-level steps of a lane belong to finished, and to successful, episodes. */
module TransitionMasks {
  import opened Common

  /** Step `t` belongs to an episode that ends at `e`: no done step in [t, e), and one at `e`. */
  ghost predicate EndsAt(done: seq<bool>, t: nat, e: nat) {
    t <= e < |done| && done[e] && forall u :: t <= u < e ==> !done[u]
  }

  ghost predicate Ending(done: seq<bool>, t: nat) {
    exists e :: EndsAt(done, t, e)
  }

  /** ... and that starts at `b`: just after a done step, or at the beginning. */
  ghost predicate StartsAt(done: seq<bool>, t: nat, b: nat) {
    b <= t < |done| && (b == 0 || done[b - 1]) && forall u :: b <= u < t ==> !done[u]
  }

  ghost predicate AnySuccess(success: seq<bool>, b: nat, e: nat) {
    exists u :: b <= u <= e && u < |success| && success[u]
  }

  /** The indices of the done steps, ascending. */
  function DoneIndices(done: seq<bool>): (indices: seq<nat>)
    ensures forall k :: 0 <= k < |indices| ==> indices[k] < |done| && done[indices[k]]
    ensures forall j, k :: 0 <= j < k < |indices| ==> indices[j] < indices[k]
    ensures forall t: nat :: t < |done| && done[t] ==> t in indices
  {
    if done == [] then []
    else DoneIndices(done[..|done| - 1]) + if done[|done| - 1] then [|done| - 1] else []
  }

  /** The masks of the steps before `limit`, and nothing set from there on. */
  ghost predicate MasksUpTo(done: seq<bool>, success: seq<bool>, valid: seq<bool>, successful: seq<bool>, limit: nat) {
    && |valid| == |successful| == |done| && limit <= |done|
    && (forall t :: limit <= t < |done| ==> !valid[t] && !successful[t])
    && (forall t :: 0 <= t < limit ==> valid[t])
    && forall t, b, e :: 0 <= t < limit && StartsAt(done, t, b) && EndsAt(done, t, e) ==> (successful[t] <==> AnySuccess(success, b, e))
  }

  /** Mark one finished segment. */
  method MarkSegment(valid: array<bool>, successful: array<bool>, start: nat, stop: nat, succeeded: bool)
    requires valid.Length == successful.Length && start <= stop <= valid.Length && valid != successful
    modifies valid, successful
    ensures forall t :: 0 <= t < valid.Length ==> valid[t] == (start <= t < stop || old(valid[t]))
    ensures forall t :: 0 <= t < valid.Length ==> successful[t] == ((start <= t < stop && succeeded) || old(successful[t]))
  {
    for t := start to stop
      invariant forall u :: 0 <= u < valid.Length ==> valid[u] == (start <= u < t || old(valid[u]))
      invariant forall u :: 0 <= u < valid.Length ==> successful[u] == ((start <= u < t && succeeded) || old(successful[u]))
    {
      valid[t] := true;
      if succeeded {
        successful[t] := true;
      }
    }
  }

  /**
   _build_sac_transition_masks for one lane: a step is valid exactly when some done step follows it or is it,
   and successful exactly when moreover its own episode contains a success.
   */
  method BuildTransitionMasks(done: seq<bool>, success: seq<bool>, valid: array<bool>, successful: array<bool>)
    requires |done| == |success| == valid.Length == successful.Length && valid != successful
    requires forall t :: 0 <= t < |done| ==> !valid[t] && !successful[t]
    modifies valid, successful
    ensures forall t :: 0 <= t < |done| ==> (valid[t] <==> Ending(done, t))
    ensures forall t, b, e :: 0 <= t < |done| && StartsAt(done, t, b) && EndsAt(done, t, e) ==> (successful[t] <==> AnySuccess(success, b, e))
    ensures forall t :: 0 <= t < |done| && successful[t] ==> valid[t]
  {
    hide DoneIndices;
    var indices := DoneIndices(done);
    var start := 0;
    for k := 0 to |indices|
      invariant start == if k == 0 then 0 else indices[k - 1] + 1
      invariant MasksUpTo(done, success, valid[..], successful[..], start)
    {
      var stop := indices[k] + 1;
      ghost var v, s := valid[..], successful[..];
      var succeeded := exists u :: start <= u < stop && success[u];
      NoDoneBetween(done, k, start);
      MarkSegment(valid, successful, start, stop, succeeded);
      SegmentMarked(done, success, v, s, valid[..], successful[..], start, stop, succeeded);
      start := stop;
    }
    NoDoneAfter(done, start);
    ValidMeansEnding(done, success, valid[..], successful[..], start);
  }

  lemma NoDoneBetween(done: seq<bool>, k: nat, start: nat)
    requires k < |DoneIndices(done)| && start == if k == 0 then 0 else DoneIndices(done)[k - 1] + 1
    ensures start <= DoneIndices(done)[k] && forall u :: start <= u < DoneIndices(done)[k] ==> !done[u]
  {
    var indices := DoneIndices(done);
    forall j | 0 <= j < |indices| ensures indices[j] < start || indices[j] >= indices[k] {
      if j < k - 1 {
        assert indices[j] < indices[k - 1];
      } else if k < j {
        assert indices[k] < indices[j];
      }
    }
    assert forall u: nat :: u < |done| && done[u] ==> u in indices;
  }

  lemma NoDoneAfter(done: seq<bool>, start: nat)
    requires var indices := DoneIndices(done); start == if indices == [] then 0 else indices[|indices| - 1] + 1
    ensures forall u :: start <= u < |done| ==> !done[u]
  {
    var indices := DoneIndices(done);
    assert forall u: nat :: u < |done| && done[u] ==> u in indices;
  }

  lemma SegmentMarked(done: seq<bool>, success: seq<bool>, v: seq<bool>, s: seq<bool>, v2: seq<bool>, s2: seq<bool>, start: nat,
                      stop: nat, succeeded: bool)
    requires |success| == |done| && MasksUpTo(done, success, v, s, start) && start < stop <= |done|
    requires (start == 0 || done[start - 1]) && done[stop - 1] && forall u :: start <= u < stop - 1 ==> !done[u]
    requires succeeded <==> exists u :: start <= u < stop && success[u]
    requires |v2| == |s2| == |done|
    requires forall t :: 0 <= t < |done| ==> v2[t] == (start <= t < stop || v[t]) && s2[t] == ((start <= t < stop && succeeded) || s[t])
    ensures MasksUpTo(done, success, v2, s2, stop)
  {
    forall t, b, e | 0 <= t < stop && StartsAt(done, t, b) && EndsAt(done, t, e) ensures s2[t] <==> AnySuccess(success, b, e) {
      if t >= start {
        SegmentBounds(done, t, b, e, start, stop);
        assert AnySuccess(success, start, stop - 1) <==> succeeded;
      }
    }
  }

  lemma SegmentBounds(done: seq<bool>, t: nat, b: nat, e: nat, start: nat, stop: nat)
    requires start <= t < stop <= |done| && StartsAt(done, t, b) && EndsAt(done, t, e)
    requires (start == 0 || done[start - 1]) && done[stop - 1] && forall u :: start <= u < stop - 1 ==> !done[u]
    ensures b == start && e == stop - 1
  {
  }

  lemma ValidMeansEnding(done: seq<bool>, success: seq<bool>, valid: seq<bool>, successful: seq<bool>, start: nat)
    requires MasksUpTo(done, success, valid, successful, start)
    requires (start == 0 || done[start - 1]) && forall u :: start <= u < |done| ==> !done[u]
    ensures forall t :: 0 <= t < |done| ==> (valid[t] <==> Ending(done, t))
    ensures forall t, b, e :: 0 <= t < |done| && StartsAt(done, t, b) && EndsAt(done, t, e) ==> (successful[t] <==> AnySuccess(success, b, e))
  {
    forall t: nat | t < start ensures Ending(done, t) {
      var e := FirstDoneFrom(done, t, start - 1);
    }
  }

  lemma FirstDoneFrom(done: seq<bool>, t: nat, last: nat) returns (e: nat)
    requires t <= last < |done| && done[last]
    ensures EndsAt(done, t, e)
    decreases last - t
  {
    if done[t] {
      e := t;
    } else {
      e := FirstDoneFrom(done, t + 1, last);
    }
  }
}
