/** The serial action executor: it runs plan prefixes and blends each plan's unexecuted tail into the next plan. */
module SerialExecutor {
  import opened Common
  import opened ActionPlans

  datatype SmoothingError = EmptyChunk | ValueShape | PlanTooShort | ShapeChanged

  /** The plan of every environment of the vector; all of the same length. */
  type Plans = seq<Chunk>

  ghost predicate PlansOk(plans: Plans, steps: nat, width: nat) {
    forall i :: 0 <= i < |plans| ==> |plans[i]| == steps && Shaped(plans[i], width)
  }

  /** One environment's plan with its first `blend` steps eased out of the previous plan's tail. */
  function Blended(previous: Chunk, next: Chunk, execution: nat, blend: nat, ghost width: nat): (out: Chunk)
    requires execution + blend <= |next| == |previous| && Shaped(previous, width) && Shaped(next, width)
    ensures |out| == |next| && Shaped(out, width)
  {
    seq(|next|, j requires 0 <= j < |next| => if j < blend then Lerp(Ease(j, blend), previous[execution + j], next[j]) else next[j])
  }

  /**
   A blended plan starts with the very action the previous plan would have executed next, arrives at the new
   plan by its last blended step, and stays between the two in every coordinate.
   */
  lemma BlendIsContinuous(previous: Chunk, next: Chunk, execution: nat, blend: nat, width: nat, j: nat)
    requires execution + blend <= |next| == |previous| && Shaped(previous, width) && Shaped(next, width) && j < |next|
    ensures var out := Blended(previous, next, execution, blend, width);
      && (blend > 0 ==> out[0] == previous[execution])
      && (j >= blend || (blend >= 2 && j == blend - 1) ==> out[j] == next[j])
      && (j < blend ==> forall d :: 0 <= d < width ==> Between(out[j][d], previous[execution + j][d], next[j][d]))
      && (j < blend ==> OnLine(out[j], previous[execution + j], next[j], Ease(j, blend)))
  {
    hide Ease;
    var out := Blended(previous, next, execution, blend, width);
    if blend > 0 {
      EaseBounds(0, blend);
      assert out[0] == previous[execution];
    }
    if j < blend {
      EaseBounds(j, blend);
      LerpOnLine(Ease(j, blend), previous[execution + j], next[j]);
      forall d | 0 <= d < width ensures Between(out[j][d], previous[execution + j][d], next[j][d]) {
        ConvexBetween(Ease(j, blend), previous[execution + j][d], next[j][d]);
      }
    }
  }

  /** smooth_serial_action_chunks: only environments whose previous plan is still valid are blended. */
  method SmoothSerialActionChunks(previous: Option<Plans>, next: Plans, execution: nat, blend: nat, valid: Option<seq<bool>>,
                                  steps: nat, ghost width: nat, previousSteps: nat)
    returns (r: Result<Plans, SmoothingError>)
    requires PlansOk(next, steps, width) && (previous.Some? ==> PlansOk(previous.value, previousSteps, width))
    requires valid.Some? && previous.Some? ==> |valid.value| == |previous.value|
    ensures r.Ok? <==> execution + blend <= steps && (previous.Some? ==> |previous.value| == |next| && previousSteps == steps)
    ensures r.Err? ==> r.error == if execution + blend > steps then PlanTooShort else ShapeChanged
    ensures r.Ok? ==> |r.value| == |next| && PlansOk(r.value, steps, width)
    ensures r.Ok? ==> forall i :: 0 <= i < |next| ==>
      r.value[i] == if previous.Some? && (valid.Some? ==> valid.value[i])
                    then Blended(previous.value[i], next[i], execution, blend, width) else next[i]
  {
    hide Blended;
    if execution + blend > steps {
      return Err(PlanTooShort);
    }
    if previous.None? {
      return Ok(next);
    }
    if |previous.value| != |next| || previousSteps != steps {
      return Err(ShapeChanged);
    }
    var smoothed := next;
    for i := 0 to |next|
      invariant |smoothed| == |next|
      invariant forall k :: 0 <= k < |next| ==>
        smoothed[k] == if k < i && (valid.Some? ==> valid.value[k])
                       then Blended(previous.value[k], next[k], execution, blend, width) else next[k]
    {
      if valid.None? || valid.value[i] {
        smoothed := smoothed[i := Blended(previous.value[i], next[i], execution, blend, width)];
      }
    }
    r := Ok(smoothed);
  }

  //////////////////////////// Preparing a chunk ////////////////////////////

  /** Every environment's plan upsampled on its own. */
  ghost predicate AllUpsampled(plans: Plans, factor: nat, out: Plans) {
    |out| == |plans| && forall i :: 0 <= i < |plans| ==> Upsampled(plans[i], factor, out[i])
  }

  method InterpolateAll(plans: Plans, steps: nat, factor: nat, ghost width: nat) returns (out: Plans)
    requires PlansOk(plans, steps, width) && steps > 0 && factor >= 1
    ensures AllUpsampled(plans, factor, out) && PlansOk(out, steps * factor, width)
  {
    hide Upsampled, Interpolate;
    out := [];
    for i := 0 to |plans|
      invariant AllUpsampled(plans[..i], factor, out) && PlansOk(out, steps * factor, width)
    {
      InterpolateUpsamples(plans[i], factor, width);
      out := out + [Interpolate(plans[i], factor, width)];
    }
    assert plans[..|plans|] == plans;
  }

  /** What is executed of the prepared plans: blended where the previous plan is valid, cut to the executed steps. */
  ghost predicate ExecutedSlice(executed: Chunk, plan: Chunk, previous: Option<Chunk>, execution: nat, blend: nat) {
    && execution <= |plan| && |executed| == execution
    && (previous.None? ==> executed == plan[..execution])
    && (previous.Some? ==>
          && execution + blend <= |previous.value|
          && forall j :: 0 <= j < execution ==>
               if j < blend then OnLine(executed[j], previous.value[execution + j], plan[j], Ease(j, blend)) else executed[j] == plan[j])
  }

  lemma BlendIsExecuted(previous: Chunk, next: Chunk, execution: nat, blend: nat, width: nat)
    requires execution + blend <= |next| == |previous| && Shaped(previous, width) && Shaped(next, width)
    ensures ExecutedSlice(Blended(previous, next, execution, blend, width)[..execution], next, Some(previous), execution, blend)
  {
    hide Blended, Ease, OnLine;
    forall j | 0 <= j < execution {
      BlendIsContinuous(previous, next, execution, blend, width, j);
    }
  }

  class SerialActionExecutor {
    const smoothing: bool
    const execution: nat
    const blend: nat
    const factor: nat
    var previousActions: Option<Plans>
    var previousValid: Option<seq<bool>>
    var previousSteps: nat

    ghost predicate Valid(width: nat)
      reads this
    {
      && factor >= 1
      && (previousActions.Some? <==> previousValid.Some?) && (!smoothing ==> previousActions.None?)
      && (previousActions.Some? ==>
            && |previousValid.value| == |previousActions.value|
            && PlansOk(previousActions.value, previousSteps, width)
            && execution + blend <= previousSteps)
    }

    /** The plan that environment `i` still follows, if it was not reset since. */
    ghost function PreviousOf(i: nat): Option<Chunk>
      reads this
    {
      if previousActions.Some? && previousValid.Some? && i < |previousActions.value| && i < |previousValid.value| && previousValid.value[i] then
        Some(previousActions.value[i])
      else None
    }

    constructor (smoothing: bool, execution: nat, blend: nat, factor: nat, ghost width: nat)
      requires factor >= 1
      ensures Valid(width) && previousActions == None
      ensures this.smoothing == smoothing && this.execution == execution && this.blend == blend && this.factor == factor
    {
      this.smoothing, this.execution, this.blend, this.factor := smoothing, execution, blend, factor;
      previousActions, previousValid, previousSteps := None, None, 0;
    }

    method Reset(ghost width: nat)
      requires factor >= 1
      modifies this
      ensures Valid(width) && previousActions == None && previousValid == None
    {
      previousActions, previousValid := None, None;
    }

    /**
     exchange: the chunk is checked and upsampled; `resetMask` is what finishing the slice reports. Without
     smoothing all of it is executed. With smoothing, the executed slice of an environment that was not reset
     since the last exchange eases out of its last plan's tail, starting with the very action that plan would
     have executed next; any other follows the chunk at once. Values are only upsampled and cut.
     */
    method Exchange(actions: Plans, steps: nat, values: Plans, valueSteps: nat, resetMask: seq<bool>, ghost width: nat,
                    ghost valueWidth: nat)
      returns (r: Result<(Plans, Plans), SmoothingError>, ghost prepared: Plans, ghost preparedValues: Plans)
      requires Valid(width) && PlansOk(actions, steps, width) && PlansOk(values, valueSteps, valueWidth) && |resetMask| == |actions|
      modifies this
      ensures Valid(width)
      ensures r == Err(EmptyChunk) <==> steps == 0
      ensures r == Err(ValueShape) <==> steps > 0 && (valueSteps != steps || |values| != |actions|)
      ensures steps > 0 && valueSteps == steps && |values| == |actions| ==>
        AllUpsampled(actions, factor, prepared) && AllUpsampled(values, factor, preparedValues)
      ensures !smoothing && r.Ok? ==> r.value == (prepared, preparedValues) && previousActions == old(previousActions)
      ensures steps > 0 && valueSteps == steps && |values| == |actions| ==>
        (r.Ok? <==> (smoothing ==>
                       && execution + blend <= steps * factor
                       && (old(previousActions).Some? ==> old(previousSteps) == steps * factor && |old(previousActions).value| == |actions|)))
      ensures r.Err? ==> unchanged(this)
      ensures smoothing && r.Ok? ==>
        && |r.value.0| == |r.value.1| == |prepared| == |preparedValues| == |actions|
        && forall i :: 0 <= i < |actions| ==>
             && ExecutedSlice(r.value.0[i], prepared[i], old(PreviousOf(i)), execution, blend)
             && |preparedValues[i]| >= execution && r.value.1[i] == preparedValues[i][..execution]
      ensures smoothing && r.Ok? ==> previousActions.Some? && |previousActions.value| == |actions| && |prepared| == |actions|
      ensures smoothing && r.Ok? ==> forall i :: 0 <= i < |actions| ==>
        && previousValid.value[i] == !resetMask[i] && r.value.0[i] == previousActions.value[i][..execution]
        && |prepared[i]| == |previousActions.value[i]| >= execution + blend
        && forall j :: (if old(PreviousOf(i)).Some? then blend else 0) <= j < |prepared[i]| ==> previousActions.value[i][j] == prepared[i][j]
      ensures smoothing && r.Ok? && execution > 0 && blend > 0 ==> forall i :: 0 <= i < |actions| ==>
        (old(previousActions).Some? && old(previousValid.value[i]) ==> r.value.0[i][0] == old(previousActions.value[i])[execution])
    {
      hide Blended, AllUpsampled, ExecutedSlice;
      prepared, preparedValues := [], [];
      if steps == 0 {
        return Err(EmptyChunk), prepared, preparedValues;
      }
      if valueSteps != steps || |values| != |actions| {
        return Err(ValueShape), prepared, preparedValues;
      }
      var upsampled := InterpolateAll(actions, steps, factor, width);
      var upsampledValues := InterpolateAll(values, steps, factor, valueWidth);
      prepared, preparedValues := upsampled, upsampledValues;
      SizesKept(actions, factor, upsampled);
      SizesKept(values, factor, upsampledValues);
      if !smoothing {
        return Ok((upsampled, upsampledValues)), prepared, preparedValues;
      }
      var smoothed := SmoothSerialActionChunks(previousActions, upsampled, execution, blend, previousValid, steps * factor, width, previousSteps);
      if smoothed.Err? {
        return Err(smoothed.error), prepared, preparedValues;
      }
      var plans := smoothed.value;
      forall i | 0 <= i < |actions|
        ensures ExecutedSlice(plans[i][..execution], upsampled[i], PreviousOf(i), execution, blend)
        ensures PreviousOf(i).Some? && blend > 0 ==> plans[i][0] == previousActions.value[i][execution]
        ensures forall j :: (if PreviousOf(i).Some? then blend else 0) <= j < |plans[i]| ==> plans[i][j] == upsampled[i][j]
      {
        SliceOf(previousActions, previousValid, i, plans[i], upsampled[i], execution, blend, width);
      }
      var executed := seq(|plans|, i requires 0 <= i < |plans| => plans[i][..execution]);
      var executedValues := seq(|upsampledValues|, i requires 0 <= i < |upsampledValues| => upsampledValues[i][..execution]);
      previousActions, previousSteps := Some(plans), steps * factor;
      previousValid := Some(StillValid(seq(|plans|, _ => true), resetMask));
      r := Ok((executed, executedValues));
    }
  }

  lemma SizesKept(plans: Plans, factor: nat, out: Plans)
    requires AllUpsampled(plans, factor, out)
    ensures |out| == |plans|
  {
  }

  lemma SliceOf(previous: Option<Plans>, valid: Option<seq<bool>>, i: nat, plan: Chunk, prepared: Chunk, execution: nat, blend: nat, width: nat)
    requires previous.Some? <==> valid.Some?
    requires previous.Some? ==> i < |previous.value| == |valid.value| && |previous.value[i]| == |prepared| && Shaped(previous.value[i], width)
    requires execution + blend <= |prepared| && Shaped(prepared, width)
    requires plan == if previous.Some? && valid.value[i] then Blended(previous.value[i], prepared, execution, blend, width) else prepared
    ensures var before := if previous.Some? && valid.value[i] then Some(previous.value[i]) else None;
      && |plan| == |prepared|
      && ExecutedSlice(plan[..execution], prepared, before, execution, blend)
      && (before.Some? && blend > 0 ==> plan[0] == before.value[execution])
      && forall j :: (if before.Some? then blend else 0) <= j < |plan| ==> plan[j] == prepared[j]
  {
    hide Blended, Ease, OnLine;
    if previous.Some? && valid.value[i] {
      BlendIsExecuted(previous.value[i], prepared, execution, blend, width);
      forall j | 0 <= j < |prepared| {
        BlendIsContinuous(previous.value[i], prepared, execution, blend, width, j);
      }
    }
  }

  /** previous_valid &= ~reset_mask */
  function StillValid(valid: seq<bool>, resetMask: seq<bool>): (still: seq<bool>)
    requires |valid| == |resetMask|
    ensures |still| == |valid|
  {
    seq(|valid|, i requires 0 <= i < |valid| => valid[i] && !resetMask[i])
  }
}
