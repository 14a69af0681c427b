/** Serving several simulators from one model: merging their observations, microbatching, slicing the outputs. */
module ModelBroker {
  import opened Common

  type Row = seq<real>

  /** What the model answers for one row: the executed actions, the full plan, and the trace beside them. */
  datatype Output = Output(action: seq<seq<real>>, fullAction: seq<seq<real>>, trace: seq<real>) {
    predicate Shaped() {
      IsMatrix(action, 24, 14) && IsMatrix(fullAction, 32, 14)
    }
  }

  predicate IsMatrix(m: seq<seq<real>>, rows: nat, columns: nat) {
    |m| == rows && forall i :: 0 <= i < |m| ==> |m[i]| == columns
  }

  lemma ShapedMeans(o: Output)
    ensures o.Shaped() <==>
      && |o.action| == 24 && (forall i :: 0 <= i < 24 ==> |o.action[i]| == 14)
      && |o.fullAction| == 32 && forall i :: 0 <= i < 32 ==> |o.fullAction[i]| == 14
  {
  }

  predicate AllShaped(outputs: seq<Output>) {
    forall i :: 0 <= i < |outputs| ==> outputs[i].Shaped()
  }

  /** The optional identity fields of an observation. */
  datatype Field = TaskId | SuiteId | EvalEpisodeId | LayoutId | EnvironmentSeed | PolicySeed

  datatype Observation = Observation(rows: seq<Row>, tasks: seq<string>, fields: map<Field, seq<int>>) {
    /** One task and one value per present field for every row, and at least one row. */
    predicate Ok() {
      && rows != [] && |tasks| == |rows|
      && forall f :: f in fields ==> |fields[f]| == |rows|
    }

    /** What the model sees of row `i`. */
    function RowOf(i: nat): ModelRow
      requires Ok() && i < |rows|
    {
      ModelRow(rows[i], tasks[i], map f | f in fields :: fields[f][i])
    }

    /** The rows of a sub-batch. */
    function Part(start: nat, stop: nat): Observation
      requires start <= stop <= |rows| == |tasks| && forall f :: f in fields ==> |fields[f]| == |rows|
    {
      Observation(rows[start..stop], tasks[start..stop], map f | f in fields :: fields[f][start..stop])
    }
  }

  datatype ModelRow = ModelRow(row: Row, task: string, identity: map<Field, int>)

  /** The model: every row is answered from that row alone. */
  type Model = ModelRow -> Output

  function Answer(model: Model, obs: Observation): (outputs: seq<Output>)
    requires obs.Ok()
    ensures |outputs| == |obs.rows|
  {
    seq(|obs.rows|, i requires 0 <= i < |obs.rows| => model(obs.RowOf(i)))
  }

  datatype ServeError = NoRequests | FieldsDiffer | BadRows | BadField | BadShape

  //////////////////////////// Merging ////////////////////////////

  function AllRows(requests: seq<Observation>): seq<Row> {
    if requests == [] then [] else AllRows(requests[..|requests| - 1]) + requests[|requests| - 1].rows
  }

  function AllTasks(requests: seq<Observation>): seq<string> {
    if requests == [] then [] else AllTasks(requests[..|requests| - 1]) + requests[|requests| - 1].tasks
  }

  predicate HasField(requests: seq<Observation>, f: Field) {
    forall r :: 0 <= r < |requests| ==> f in requests[r].fields
  }

  function AllValues(requests: seq<Observation>, f: Field): seq<int>
    requires HasField(requests, f)
  {
    if requests == [] then [] else AllValues(requests[..|requests| - 1], f) + requests[|requests| - 1].fields[f]
  }

  predicate SameFields(requests: seq<Observation>) {
    forall r :: 0 <= r < |requests| ==> requests[r].fields.Keys == requests[0].fields.Keys
  }

  predicate AllOk(requests: seq<Observation>) {
    forall r :: 0 <= r < |requests| ==> requests[r].Ok()
  }

  /** The joined request. */
  function Merged(requests: seq<Observation>): Observation
    requires requests != [] && SameFields(requests)
  {
    Observation(AllRows(requests), AllTasks(requests), map f | f in requests[0].fields && HasField(requests, f) :: AllValues(requests, f))
  }

  /** Where the rows of request `r` begin. */
  function Offset(requests: seq<Observation>, r: nat): nat
    requires r <= |requests|
  {
    |AllRows(requests[..r])|
  }

  lemma {:induction false} MergedSizes(requests: seq<Observation>)
    requires AllOk(requests)
    ensures |AllTasks(requests)| == |AllRows(requests)|
    ensures requests != [] ==> AllRows(requests) != []
  {
    if requests != [] {
      MergedSizes(requests[..|requests| - 1]);
    }
  }

  lemma {:induction false} MergedValues(requests: seq<Observation>, f: Field)
    requires AllOk(requests) && HasField(requests, f)
    ensures |AllValues(requests, f)| == |AllRows(requests)|
  {
    if requests != [] {
      MergedValues(requests[..|requests| - 1], f);
    }
  }

  lemma MergedOk(requests: seq<Observation>)
    requires requests != [] && SameFields(requests) && AllOk(requests)
    ensures Merged(requests).Ok()
  {
    MergedSizes(requests);
    forall f | f in requests[0].fields ensures |AllValues(requests, f)| == |AllRows(requests)| {
      assert forall r :: 0 <= r < |requests| ==> f in requests[r].fields.Keys;
      MergedValues(requests, f);
    }
  }

  /** merge_ipc_observations: requests and rows keep their order; the slices say whose rows are whose. */
  method MergeIpcObservations(requests: seq<Observation>) returns (r: Result<(Observation, seq<(nat, nat)>), ServeError>)
    ensures r.Ok? <==> requests != [] && SameFields(requests) && AllOk(requests)
    ensures r.Ok? ==> r.value.0 == Merged(requests) && |r.value.1| == |requests|
    ensures r.Ok? ==> forall i :: 0 <= i < |requests| ==> r.value.1[i] == (Offset(requests, i), Offset(requests, i + 1))
    ensures r == Err(NoRequests) <==> requests == []
    ensures requests != [] ==> (r == Err(FieldsDiffer) <==> !SameFields(requests))
  {
    if requests == [] {
      return Err(NoRequests);
    }
    var present := requests[0].fields.Keys;
    for i := 1 to |requests|
      invariant forall j :: 0 <= j < i ==> requests[j].fields.Keys == present
    {
      if requests[i].fields.Keys != present {
        return Err(FieldsDiffer);
      }
    }
    r := JoinRequests(requests);
  }

  method CheckRequest(request: Observation) returns (error: Option<ServeError>)
    ensures error.None? <==> request.Ok()
    ensures error.Some? ==> error.value == BadRows || error.value == BadField
  {
    if request.rows == [] || |request.rows| != |request.tasks| {
      return Some(BadRows);
    }
    return if exists f :: f in request.fields && |request.fields[f]| != |request.rows| then Some(BadField) else None;
  }

  lemma NextRequest(requests: seq<Observation>, i: nat)
    requires i < |requests|
    ensures AllRows(requests[..i + 1]) == AllRows(requests[..i]) + requests[i].rows
    ensures AllTasks(requests[..i + 1]) == AllTasks(requests[..i]) + requests[i].tasks
    ensures Offset(requests, i + 1) == Offset(requests, i) + |requests[i].rows|
  {
    assert requests[..i + 1][..i] == requests[..i];
  }

  lemma NextValues(requests: seq<Observation>, i: nat, f: Field)
    requires i < |requests| && HasField(requests[..i], f) && f in requests[i].fields
    ensures HasField(requests[..i + 1], f)
    ensures AllValues(requests[..i + 1], f) == AllValues(requests[..i], f) + requests[i].fields[f]
  {
    assert requests[..i + 1][..i] == requests[..i];
  }

  /** The field values gathered from the first `i` requests. */
  ghost predicate Gathered(values: map<Field, seq<int>>, requests: seq<Observation>, present: set<Field>) {
    && values.Keys == present
    && forall f :: f in present ==> HasField(requests, f) && values[f] == AllValues(requests, f)
  }

  method AddFields(values: map<Field, seq<int>>, requests: seq<Observation>, i: nat, present: set<Field>)
    returns (values': map<Field, seq<int>>)
    requires i < |requests| && Gathered(values, requests[..i], present) && requests[i].fields.Keys == present
    ensures Gathered(values', requests[..i + 1], present)
  {
    hide AllValues, HasField;
    forall f | f in present
      ensures HasField(requests[..i + 1], f) && AllValues(requests[..i + 1], f) == values[f] + requests[i].fields[f]
    {
      NextValues(requests, i, f);
    }
    var fields := requests[i].fields;
    values' := map f | f in present :: values[f] + fields[f];
  }

  method JoinRequests(requests: seq<Observation>) returns (r: Result<(Observation, seq<(nat, nat)>), ServeError>)
    requires requests != [] && SameFields(requests)
    ensures r.Ok? <==> AllOk(requests)
    ensures r.Ok? ==> r.value.0 == Merged(requests) && |r.value.1| == |requests|
    ensures r.Ok? ==> forall i :: 0 <= i < |requests| ==> r.value.1[i] == (Offset(requests, i), Offset(requests, i + 1))
    ensures r.Err? ==> r.error == BadRows || r.error == BadField
  {
    hide AllRows, AllTasks, AllValues, Offset, Gathered, Observation.Ok;
    var rows, tasks, offset := [], [], 0;
    var present := requests[0].fields.Keys;
    var values: map<Field, seq<int>> := map f | f in present :: [];
    var slices: seq<(nat, nat)> := [];
    NothingMerged(requests, values);
    for i := 0 to |requests|
      invariant rows == AllRows(requests[..i]) && tasks == AllTasks(requests[..i]) && offset == Offset(requests, i)
      invariant Gathered(values, requests[..i], present)
      invariant AllOk(requests[..i])
      invariant |slices| == i && forall j :: 0 <= j < i ==> slices[j] == (Offset(requests, j), Offset(requests, j + 1))
    {
      var request := requests[i];
      var error := CheckRequest(request);
      if error.Some? {
        return Err(error.value);
      }
      NextRequest(requests, i);
      slices := slices + [(offset, offset + |request.rows|)];
      offset := offset + |request.rows|;
      rows, tasks := rows + request.rows, tasks + request.tasks;
      values := AddFields(values, requests, i, present);
      assert requests[..i + 1] == requests[..i] + [request];
    }
    assert requests[..|requests|] == requests;
    MergedIs(requests, values);
    r := Ok((Observation(rows, tasks, values), slices));
  }

  lemma NothingMerged(requests: seq<Observation>, values: map<Field, seq<int>>)
    requires requests != [] && values.Keys == requests[0].fields.Keys && forall f :: f in values ==> values[f] == []
    ensures AllRows(requests[..0]) == [] && AllTasks(requests[..0]) == [] && Offset(requests, 0) == 0
    ensures Gathered(values, requests[..0], requests[0].fields.Keys)
  {
  }

  lemma MergedIs(requests: seq<Observation>, values: map<Field, seq<int>>)
    requires requests != [] && SameFields(requests) && Gathered(values, requests, requests[0].fields.Keys)
    ensures Merged(requests) == Observation(AllRows(requests), AllTasks(requests), values)
  {
  }

  //////////////////////////// Microbatches ////////////////////////////

  lemma PartAnswers(model: Model, obs: Observation, start: nat, stop: nat)
    requires obs.Ok() && start < stop <= |obs.rows|
    ensures obs.Part(start, stop).Ok() && Answer(model, obs.Part(start, stop)) == Answer(model, obs)[start..stop]
  {
    var part := obs.Part(start, stop);
    forall i | 0 <= i < stop - start ensures part.RowOf(i) == obs.RowOf(start + i) {
      assert part.RowOf(i).identity == obs.RowOf(start + i).identity;
    }
  }

  /**
   infer_shared_model_outputs_in_microbatches: any positive microbatch size gives the answer to the whole batch,
   unless some row's actions do not have the model's two shapes.
   */
  method InferInMicrobatches(model: Model, obs: Observation, size: nat) returns (r: Result<seq<Output>, ServeError>)
    requires obs.Ok() && size > 0
    ensures r.Ok? <==> AllShaped(Answer(model, obs))
    ensures r == if r.Ok? then Ok(Answer(model, obs)) else Err(BadShape)
  {
    hide Answer, AllShaped;
    var outputs := [];
    var start := 0;
    while start < |obs.rows|
      invariant 0 <= start <= |obs.rows|
      invariant outputs == Answer(model, obs)[..start]
      decreases |obs.rows| - start
    {
      var stop := Min(start + size, |obs.rows|);
      PartAnswers(model, obs, start, stop);
      outputs := outputs + Answer(model, obs.Part(start, stop));
      start := stop;
    }
    assert outputs == Answer(model, obs);
    return if AllShaped(outputs) then Ok(outputs) else Err(BadShape);
  }

  //////////////////////////// Routing ////////////////////////////

  /** In the joined request, row `j` of request `i` sits at its offset and keeps its task and identity. */
  lemma {:induction false} MergedRow(requests: seq<Observation>, i: nat, j: nat)
    requires AllOk(requests) && i < |requests| && j < |requests[i].rows|
    ensures Offset(requests, i) + |requests[i].rows| <= |AllRows(requests)| == |AllTasks(requests)|
    ensures AllRows(requests)[Offset(requests, i) + j] == requests[i].rows[j]
    ensures AllTasks(requests)[Offset(requests, i) + j] == requests[i].tasks[j]
  {
    var front := requests[..|requests| - 1];
    MergedSizes(requests);
    MergedSizes(front);
    if i < |front| {
      assert front[..i] == requests[..i];
      MergedRow(front, i, j);
    } else {
      assert requests[..i] == front;
    }
  }

  lemma {:induction false} MergedValue(requests: seq<Observation>, f: Field, i: nat, j: nat)
    requires AllOk(requests) && HasField(requests, f) && i < |requests| && j < |requests[i].rows|
    ensures Offset(requests, i) + |requests[i].rows| <= |AllValues(requests, f)|
    ensures AllValues(requests, f)[Offset(requests, i) + j] == requests[i].fields[f][j]
  {
    var front := requests[..|requests| - 1];
    MergedValues(front, f);
    if i < |front| {
      assert front[..i] == requests[..i];
      MergedValue(front, f, i, j);
    } else {
      assert requests[..i] == front;
    }
  }

  lemma MergedRowOf(requests: seq<Observation>, i: nat, j: nat)
    requires requests != [] && SameFields(requests) && AllOk(requests) && i < |requests| && j < |requests[i].rows|
    ensures Merged(requests).Ok() && Offset(requests, i) + j < |Merged(requests).rows|
    ensures Merged(requests).RowOf(Offset(requests, i) + j) == requests[i].RowOf(j)
  {
    hide AllRows, AllTasks, AllValues, Offset;
    MergedOk(requests);
    MergedRow(requests, i, j);
    var merged := Merged(requests);
    forall f ensures f in merged.fields <==> f in requests[i].fields {
      assert requests[i].fields.Keys == requests[0].fields.Keys;
      assert f in requests[i].fields <==> f in requests[i].fields.Keys;
      FieldEverywhere(requests, f);
    }
    forall f | f in merged.fields ensures merged.fields[f][Offset(requests, i) + j] == requests[i].fields[f][j] {
      MergedValue(requests, f, i, j);
    }
    assert merged.RowOf(Offset(requests, i) + j).identity == requests[i].RowOf(j).identity;
  }

  lemma FieldEverywhere(requests: seq<Observation>, f: Field)
    requires requests != [] && SameFields(requests)
    ensures HasField(requests, f) <==> f in requests[0].fields
  {
    forall r | 0 <= r < |requests| ensures f in requests[r].fields <==> f in requests[0].fields {
      assert f in requests[r].fields.Keys <==> f in requests[0].fields.Keys;
    }
  }

  /** A request's slice of the joined answer is the answer to that request alone. */
  lemma SliceIsOwnAnswer(model: Model, requests: seq<Observation>, i: nat)
    requires requests != [] && SameFields(requests) && AllOk(requests) && i < |requests|
    ensures Merged(requests).Ok()
    ensures Offset(requests, i) <= Offset(requests, i + 1) <= |Answer(model, Merged(requests))|
    ensures Answer(model, Merged(requests))[Offset(requests, i)..Offset(requests, i + 1)] == Answer(model, requests[i])
  {
    hide Merged, Offset;
    NextRequest(requests, i);
    MergedRowOf(requests, i, |requests[i].rows| - 1);
    forall j | 0 <= j < |requests[i].rows|
      ensures Answer(model, Merged(requests))[Offset(requests, i) + j] == Answer(model, requests[i])[j]
    {
      MergedRowOf(requests, i, j);
    }
  }

  /** Every row of the joined request is some request's. */
  lemma {:induction false} RowHasOwner(requests: seq<Observation>, k: nat) returns (i: nat)
    requires k < |AllRows(requests)|
    ensures i < |requests| && Offset(requests, i) <= k < Offset(requests, i + 1)
  {
    var front := requests[..|requests| - 1];
    if k < |AllRows(front)| {
      i := RowHasOwner(front, k);
      assert front[..i] == requests[..i] && front[..i + 1] == requests[..i + 1];
    } else {
      i := |front|;
      assert requests[..i + 1] == requests;
    }
  }

  /** The joined answer has the right shapes exactly when each request's own answer has. */
  lemma ShapesAreOwn(model: Model, requests: seq<Observation>)
    requires requests != [] && SameFields(requests) && AllOk(requests)
    ensures Merged(requests).Ok()
    ensures AllShaped(Answer(model, Merged(requests))) <==>
      forall i :: 0 <= i < |requests| ==> AllShaped(Answer(model, requests[i]))
  {
    hide Merged, Offset, Answer, AllRows, Output.Shaped;
    MergedOk(requests);
    var joined := Answer(model, Merged(requests));
    forall i | 0 <= i < |requests|
      ensures AllShaped(joined) ==> AllShaped(Answer(model, requests[i]))
    {
      SliceIsOwnAnswer(model, requests, i);
    }
    if forall i :: 0 <= i < |requests| ==> AllShaped(Answer(model, requests[i])) {
      forall k | 0 <= k < |joined| ensures joined[k].Shaped() {
        MergedRows(requests);
        var i := RowHasOwner(requests, k);
        SliceIsOwnAnswer(model, requests, i);
        assert joined[k] == joined[Offset(requests, i)..Offset(requests, i + 1)][k - Offset(requests, i)];
      }
    }
  }

  lemma MergedRows(requests: seq<Observation>)
    requires requests != [] && SameFields(requests)
    ensures Merged(requests).rows == AllRows(requests)
  {
  }

  /**
   One inference round of the broker: whatever was coalesced and whatever the microbatch size, every request
   gets the answer to its own observation. One badly shaped answer fails the round.
   */
  method Serve(model: Model, requests: seq<Observation>, microbatch: nat) returns (r: Result<seq<seq<Output>>, ServeError>)
    requires microbatch > 0
    ensures r.Ok? <==> && requests != [] && SameFields(requests) && AllOk(requests)
                       && forall i :: 0 <= i < |requests| ==> AllShaped(Answer(model, requests[i]))
    ensures r.Ok? ==> |r.value| == |requests|
    ensures r.Ok? ==> forall i :: 0 <= i < |requests| ==> r.value[i] == Answer(model, requests[i])
  {
    hide Merged, Offset, Answer, Observation.Ok, AllShaped;
    var m := MergeIpcObservations(requests);
    if m.Err? {
      return Err(m.error);
    }
    var (merged, slices) := m.value;
    ShapesAreOwn(model, requests);
    var inferred := InferInMicrobatches(model, merged, microbatch);
    if inferred.Err? {
      return Err(inferred.error);
    }
    var outputs := inferred.value;
    var answers := [];
    for i := 0 to |slices|
      invariant |answers| == i && forall j :: 0 <= j < i ==> answers[j] == Answer(model, requests[j])
    {
      SliceIsOwnAnswer(model, requests, i);
      answers := answers + [outputs[slices[i].0..slices[i].1]];
    }
    r := Ok(answers);
  }
}
