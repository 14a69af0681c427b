/**
 Turning per-step done, reward and success streams of vector lanes into trajectory records: the
 auto-reset collector, which carries partial trajectories across calls, and the fixed-episode one.
 */
module TrajectoryRecords {
  import opened Common
  import Arithmetic

  datatype Step = Step(done: bool, reward: real, success: bool, score: Option<real>)

  /** One policy chunk of a lane: its low-level steps and the identity shown at its observation. */
  datatype Chunk = Chunk(steps: seq<Step>, taskId: int, episodeId: Option<int>)

  datatype Record = Record(length: nat, chunkLength: nat, ret: real, success: bool, taskId: int,
                           score: Option<real>, episodeId: Option<int>, metadata: map<string, int>)

  /** The part of a trajectory already seen but not finished. */
  datatype Carry = Carry(length: nat, ret: real)

  //////////////////////////// Segments ////////////////////////////

  function FirstDone(steps: seq<Step>): (d: Option<nat>)
    ensures d.Some? ==> d.value < |steps| && steps[d.value].done && forall i :: 0 <= i < d.value ==> !steps[i].done
    ensures d.None? ==> forall i :: 0 <= i < |steps| ==> !steps[i].done
  {
    if steps == [] then None
    else if steps[0].done then Some(0)
    else
      var rest := FirstDone(steps[1..]);
      if rest.Some? then Some(rest.value + 1) else None
  }

  function Return(steps: seq<Step>): real {
    if steps == [] then 0.0 else Return(steps[..|steps| - 1]) + steps[|steps| - 1].reward
  }

  /** Returns add up over pieces of a stream. */
  lemma {:induction false} ReturnAppend(a: seq<Step>, b: seq<Step>)
    ensures Return(a + b) == Return(a) + Return(b)
  {
    if b == [] {
      assert a + b == a;
    } else {
      ReturnAppend(a, b[..|b| - 1]);
      assert (a + b)[..|a + b| - 1] == a + b[..|b| - 1];
    }
  }

  /** The rewards of steps 0 .. n - 1, counted from the first one on. */
  function Rewards(row: seq<Step>, n: nat): real
    requires n <= |row|
  {
    if n == 0 then 0.0 else row[0].reward + Rewards(row[1..], n - 1)
  }

  lemma {:induction false} ReturnIsRewards(row: seq<Step>, n: nat)
    requires n <= |row|
    ensures Return(row[..n]) == Rewards(row, n)
  {
    if n > 0 {
      ReturnIsRewards(row[1..], n - 1);
      assert row[..n] == [row[0]] + row[1..][..n - 1];
      ReturnAppend([row[0]], row[1..][..n - 1]);
      assert Return([row[0]]) == row[0].reward by { assert [row[0]][..0] == []; }
    }
  }

  predicate AnySuccess(steps: seq<Step>) {
    exists i :: 0 <= i < |steps| && steps[i].success
  }

  ghost predicate Uniform(chunks: seq<Chunk>, k: nat) {
    forall i :: 0 <= i < |chunks| ==> |chunks[i].steps| == k
  }

  //////////////////////////// One lane with auto reset ////////////////////////////

  function CeilDiv(a: nat, b: nat): nat
    requires b > 0
  {
    (a + b - 1) / b
  }

  function Finished(carry: Carry, chunk: Chunk, d: nat): Record
    requires d < |chunk.steps|
  {
    var segment := chunk.steps[..d + 1];
    Record(carry.length + d + 1, CeilDiv(carry.length + d + 1, |chunk.steps|), carry.ret + Return(segment),
           AnySuccess(segment), chunk.taskId, chunk.steps[d].score, chunk.episodeId, map[])
  }

  /** The records of a lane and what it carries on, chunk by chunk. */
  function CollectLane(carry: Carry, chunks: seq<Chunk>): (seq<Record>, Carry) {
    if chunks == [] then ([], carry)
    else
      var (records, c) := CollectLane(carry, chunks[..|chunks| - 1]);
      var chunk := chunks[|chunks| - 1];
      match FirstDone(chunk.steps)
      case None => (records, Carry(c.length + |chunk.steps|, c.ret + Return(chunk.steps)))
      case Some(d) => (records + [Finished(c, chunk, d)], Carry(0, 0.0))
  }

  /** Cutting a stream into two calls, the second continuing the carry of the first, changes nothing. */
  lemma {:induction false} CollectIsFold(carry: Carry, first: seq<Chunk>, second: seq<Chunk>)
    ensures var (r1, c1) := CollectLane(carry, first);
      var (r2, c2) := CollectLane(c1, second);
      CollectLane(carry, first + second) == (r1 + r2, c2)
  {
    hide FirstDone, Finished, Return;
    if second == [] {
      assert first + second == first;
      assert CollectLane(carry, first).0 + [] == CollectLane(carry, first).0;
    } else {
      var front, chunk := second[..|second| - 1], second[|second| - 1];
      assert (first + second)[..|first + second| - 1] == first + front;
      CollectIsFold(carry, first, front);
      var (r1, c1) := CollectLane(carry, first);
      var (r2, c2) := CollectLane(c1, front);
      if FirstDone(chunk.steps).Some? {
        ConcatAssociative(r1, r2, [Finished(c2, chunk, FirstDone(chunk.steps).value)]);
      }
    }
  }

  lemma ConcatAssociative<T>(a: seq<T>, b: seq<T>, c: seq<T>)
    ensures (a + b) + c == a + (b + c)
  {
  }

  /** A lane fed by any number of consecutive calls. */
  function CollectCalls(carry: Carry, calls: seq<seq<Chunk>>): (seq<Record>, Carry) {
    if calls == [] then ([], carry)
    else
      var (records, c) := CollectCalls(carry, calls[..|calls| - 1]);
      var (more, c') := CollectLane(c, calls[|calls| - 1]);
      (records + more, c')
  }

  lemma {:induction false} CallsAreOneCall(carry: Carry, calls: seq<seq<Chunk>>)
    ensures CollectCalls(carry, calls) == CollectLane(carry, Flatten(calls))
  {
    if calls != [] {
      CallsAreOneCall(carry, calls[..|calls| - 1]);
      CollectIsFold(carry, Flatten(calls[..|calls| - 1]), calls[|calls| - 1]);
    }
  }

  //////////////////////////// Accounting for every step ////////////////////////////

  function TotalLength(records: seq<Record>): nat {
    if records == [] then 0 else TotalLength(records[..|records| - 1]) + records[|records| - 1].length
  }

  function TotalSteps(chunks: seq<Chunk>): nat {
    if chunks == [] then 0 else TotalSteps(chunks[..|chunks| - 1]) + |chunks[|chunks| - 1].steps|
  }

  /** Steps of a chunk after its first done step: they belong to no trajectory. */
  function Discarded(chunks: seq<Chunk>): nat {
    if chunks == [] then 0
    else
      var steps := chunks[|chunks| - 1].steps;
      Discarded(chunks[..|chunks| - 1])
      + match FirstDone(steps) { case None => 0 case Some(d) => |steps| - (d + 1) }
  }

  /** Recorded, carried and discarded steps add up to every step the lane produced. */
  lemma {:induction false} StepsAreConserved(carry: Carry, chunks: seq<Chunk>)
    ensures var (records, c) := CollectLane(carry, chunks);
      TotalLength(records) + c.length + Discarded(chunks) == carry.length + TotalSteps(chunks)
  {
    if chunks != [] {
      StepsAreConserved(carry, chunks[..|chunks| - 1]);
      var records := CollectLane(carry, chunks[..|chunks| - 1]).0;
      forall r: Record ensures TotalLength(records + [r]) == TotalLength(records) + r.length {
        assert (records + [r])[..|records|] == records;
      }
    }
  }

  /** The indices of the chunks in which a trajectory ends. */
  function Ends(chunks: seq<Chunk>): (ends: seq<nat>)
    ensures forall i :: 0 <= i < |ends| ==> ends[i] < |chunks|
  {
    if chunks == [] then []
    else Ends(chunks[..|chunks| - 1]) + if FirstDone(chunks[|chunks| - 1].steps).Some? then [|chunks| - 1] else []
  }

  /** The chunk a trajectory starts in; the first one may have started `carried` chunks before the call. */
  function StartOf(ends: seq<nat>, i: nat, carried: nat): int
    requires i <= |ends|
  {
    var before: int := 0 - carried as int;
    if i == 0 then before else ends[i - 1] + 1
  }

  /** The rewards of the whole chunks in [lo, hi). */
  function ChunkReturns(chunks: seq<Chunk>, lo: int, hi: int): real
    requires hi <= |chunks|
    decreases hi - lo
  {
    if hi <= lo || hi <= 0 then 0.0 else ChunkReturns(chunks, lo, hi - 1) + Return(chunks[hi - 1].steps)
  }

  /** The low-level steps of `n` chunks of size `k`. */
  function StepsIn(n: int, k: int): int {
    n * k
  }

  /**
   Record `i` covers exactly the chunks from its start to its end, cut at the first done step; `carried`
   chunks worth `ret` were carried into the call.
   */
  ghost predicate Spans(carried: nat, ret: real, chunks: seq<Chunk>, k: nat, i: nat, r: Record)
    requires i < |Ends(chunks)|
  {
    var end := Ends(chunks)[i];
    var start := StartOf(Ends(chunks), i, carried);
    var d := FirstDone(chunks[end].steps);
    && d.Some?
    && r.chunkLength == end - start + 1
    && r.length == StepsIn(end - start, k) + d.value + 1
    && r.ret == (if i == 0 then ret else 0.0) + ChunkReturns(chunks, start, end) + Return(chunks[end].steps[..d.value + 1])
    && r.success == AnySuccess(chunks[end].steps[..d.value + 1])
    && r.taskId == chunks[end].taskId && r.episodeId == chunks[end].episodeId
    && r.score == chunks[end].steps[d.value].score && r.metadata == map[]
  }

  /** What is carried on: whole chunks only, all of those since the last end. */
  ghost predicate CarriesOn(carried: nat, ret: real, chunks: seq<Chunk>, k: nat, c: Carry) {
    var start := StartOf(Ends(chunks), |Ends(chunks)|, carried);
    && c.length == StepsIn(|chunks| - start, k)
    && c.ret == (if Ends(chunks) == [] then ret else 0.0) + ChunkReturns(chunks, start, |chunks|)
  }

  lemma StepsInNext(n: int, k: int)
    ensures StepsIn(n + 1, k) == StepsIn(n, k) + k
    ensures StepsIn(0, k) == 0
  {
  }

  lemma SpanLength(n: nat, k: nat, d: nat)
    requires d < k
    ensures StepsIn(n, k) + d + 1 > 0 && CeilDiv(StepsIn(n, k) + d + 1, k) == n + 1
  {
    Arithmetic.ProductNonNegative(n, k);
    Arithmetic.DivModUnique(n + 1, k, d);
    assert (n + 1) * k + d == n * k + d + 1 + k - 1;
  }

  lemma {:induction false} ReturnsExtend(chunks: seq<Chunk>, chunk: Chunk, lo: int, hi: int)
    requires hi <= |chunks|
    ensures ChunkReturns(chunks + [chunk], lo, hi) == ChunkReturns(chunks, lo, hi)
    decreases hi - lo
  {
    if hi > lo && hi > 0 {
      ReturnsExtend(chunks, chunk, lo, hi - 1);
    }
  }

  lemma EndsExtend(front: seq<Chunk>, chunk: Chunk)
    ensures Ends(front + [chunk]) == Ends(front) + if FirstDone(chunk.steps).Some? then [|front|] else []
  {
    assert (front + [chunk])[..|front|] == front;
  }

  lemma SpansExtend(carried: nat, ret: real, front: seq<Chunk>, chunk: Chunk, k: nat, i: nat, r: Record)
    requires i < |Ends(front)| && Spans(carried, ret, front, k, i, r)
    ensures i < |Ends(front + [chunk])| && Spans(carried, ret, front + [chunk], k, i, r)
  {
    hide StepsIn;
    EndsExtend(front, chunk);
    ReturnsExtend(front, chunk, StartOf(Ends(front), i, carried), Ends(front)[i]);
  }

  lemma OpenChunk(carried: nat, ret: real, front: seq<Chunk>, chunk: Chunk, k: nat, c: Carry)
    requires |chunk.steps| == k && CarriesOn(carried, ret, front, k, c) && FirstDone(chunk.steps).None?
    ensures CarriesOn(carried, ret, front + [chunk], k, Carry(c.length + k, c.ret + Return(chunk.steps)))
  {
    hide StepsIn, Return, FirstDone;
    EndsExtend(front, chunk);
    var start := StartOf(Ends(front), |Ends(front)|, carried);
    ReturnsExtend(front, chunk, start, |front|);
    StepsInNext(|front| - start, k);
  }

  lemma EndingChunk(carried: nat, ret: real, front: seq<Chunk>, chunk: Chunk, k: nat, c: Carry)
    requires |chunk.steps| == k && CarriesOn(carried, ret, front, k, c) && FirstDone(chunk.steps).Some?
    ensures |Ends(front + [chunk])| == |Ends(front)| + 1
    ensures Spans(carried, ret, front + [chunk], k, |Ends(front)|, Finished(c, chunk, FirstDone(chunk.steps).value))
    ensures CarriesOn(carried, ret, front + [chunk], k, Carry(0, 0.0))
  {
    hide StepsIn, Return, CeilDiv, AnySuccess, FirstDone, Ends;
    EndsExtend(front, chunk);
    var start := StartOf(Ends(front), |Ends(front)|, carried);
    ReturnsExtend(front, chunk, start, |front|);
    SpanLength(|front| - start, k, FirstDone(chunk.steps).value);
    StepsInNext(0, k);
  }

  /**
   Each record spans the chunks between consecutive ends, so `chunkLength` counts them exactly, and
   the carried length is again a whole number of chunks.
   */
  lemma {:induction false} RecordsSpanTheirChunks(carried: nat, ret: real, chunks: seq<Chunk>, k: nat)
    requires Uniform(chunks, k) && StepsIn(carried, k) >= 0
    ensures var (records, c) := CollectLane(Carry(StepsIn(carried, k), ret), chunks);
      && |records| == |Ends(chunks)|
      && (forall i :: 0 <= i < |records| ==> Spans(carried, ret, chunks, k, i, records[i]))
      && CarriesOn(carried, ret, chunks, k, c)
  {
    hide StepsIn, Spans, FirstDone, Finished, Return;
    if chunks != [] {
      var front, chunk := chunks[..|chunks| - 1], chunks[|chunks| - 1];
      assert chunks == front + [chunk];
      RecordsSpanTheirChunks(carried, ret, front, k);
      var (records, c) := CollectLane(Carry(StepsIn(carried, k), ret), front);
      forall i | 0 <= i < |records| ensures i < |Ends(chunks)| && Spans(carried, ret, chunks, k, i, records[i]) {
        SpansExtend(carried, ret, front, chunk, k, i, records[i]);
      }
      if FirstDone(chunk.steps).None? {
        OpenChunk(carried, ret, front, chunk, k, c);
        EndsExtend(front, chunk);
      } else {
        EndingChunk(carried, ret, front, chunk, k, c);
      }
    }
  }

  /** A carry that is a whole number of chunks stays one, whatever the lane does. */
  lemma CarryStaysWholeChunks(carry: Carry, chunks: seq<Chunk>, k: nat)
    requires k > 0 && Uniform(chunks, k) && carry.length % k == 0
    ensures CollectLane(carry, chunks).1.length % k == 0
  {
    hide Spans, FirstDone, Finished, Return;
    var carried := carry.length / k;
    assert carry == Carry(StepsIn(carried, k), carry.ret);
    RecordsSpanTheirChunks(carried, carry.ret, chunks, k);
    Arithmetic.DivModUnique(|chunks| - StartOf(Ends(chunks), |Ends(chunks)|, carried), k, 0);
  }

  //////////////////////////// A batch of lanes with auto reset ////////////////////////////

  /** All records of the first `n` lanes, lane by lane. */
  function AllRecords(carries: seq<Carry>, lanes: seq<seq<Chunk>>, n: nat): seq<Record>
    requires n <= |lanes| == |carries|
  {
    if n == 0 then [] else AllRecords(carries, lanes, n - 1) + CollectLane(carries[n - 1], lanes[n - 1]).0
  }

  function Take<T>(s: seq<T>, limit: Option<nat>): seq<T> {
    match limit
    case None => s
    case Some(n) => s[..Min(n, |s|)]
  }

  predicate Reached(count: nat, limit: Option<nat>) {
    limit.Some? && count >= limit.value
  }

  function NoCarry(n: nat): seq<Carry> {
    seq(n, _ => Carry(0, 0.0))
  }

  /** What the lanes carry into a call: what the last call left, or nothing at all. */
  function CarryIn(carry: Option<seq<Carry>>, n: nat): (before: seq<Carry>)
    ensures carry.Some? ==> before == carry.value
    ensures carry.None? ==> |before| == n && forall i :: 0 <= i < n ==> before[i].length == 0 && before[i].ret == 0.0
  {
    if carry.None? then NoCarry(n) else carry.value
  }

  /** The carry lane `i` leaves behind: untouched when the limit was reached in or before it. */
  function CarryOut(before: seq<Carry>, lanes: seq<seq<Chunk>>, i: nat, remaining: Option<nat>): Carry
    requires i < |lanes| == |before|
  {
    if Reached(|AllRecords(before, lanes, i + 1)|, remaining) then before[i] else CollectLane(before[i], lanes[i]).1
  }

  /** What is left of a limit after `count` records. */
  function Rest(remaining: Option<nat>, count: nat): Option<nat> {
    match remaining
    case None => None
    case Some(n) => Some(if count <= n then n - count else 0)
  }

  lemma TakeAppend<T>(a: seq<T>, b: seq<T>, limit: Option<nat>)
    ensures Take(a + b, limit) == Take(a, limit) + Take(b, Rest(limit, |a|))
    ensures !Reached(|a|, limit) ==> Take(a, limit) == a
    ensures Reached(|a|, limit) ==> Take(a + b, limit) == Take(a, limit)
  {
  }

  /**
   _collect_trajectory_records with auto reset. The records come lane by lane, cut at `remaining`;
   every lane finished before the cut stores its new carry.
   */
  method CollectTrajectoryRecords(lanes: seq<seq<Chunk>>, carry: Option<seq<Carry>>, remaining: Option<nat>)
    returns (records: seq<Record>, carries: Option<seq<Carry>>)
    requires carry.Some? ==> |carry.value| == |lanes|
    ensures records == Take(AllRecords(CarryIn(carry, |lanes|), lanes, |lanes|), remaining)
    ensures remaining == Some(0) ==> carries == carry
    ensures remaining != Some(0) ==> carries.Some? && |carries.value| == |lanes|
    ensures remaining != Some(0) ==> forall i :: 0 <= i < |lanes| ==>
      carries.value[i] == CarryOut(CarryIn(carry, |lanes|), lanes, i, remaining)
  {
    hide CollectLane, Take;
    if remaining.Some? && remaining.value <= 0 {
      TakeNothing(AllRecords(CarryIn(carry, |lanes|), lanes, |lanes|), remaining);
      return [], carry;
    }
    records := [];
    var state := CarryIn(carry, |lanes|);
    ghost var before := state;
    TakeNothing<Record>([], remaining);
    for i := 0 to |lanes|
      invariant |state| == |lanes|
      invariant records == Take(AllRecords(before, lanes, i), remaining)
      invariant remaining.Some? ==> |records| == Min(|AllRecords(before, lanes, i)|, remaining.value)
      invariant forall j :: i <= j < |lanes| ==> state[j] == before[j]
      invariant forall j :: 0 <= j < i ==> state[j] == CarryOut(before, lanes, j, remaining)
    {
      ghost var all, more := AllRecords(before, lanes, i), CollectLane(before[i], lanes[i]).0;
      TakeAppend(all, more, remaining);
      TakeLength(all + more, remaining);
      // The loop ends once the limit is reached: the later lanes change nothing.
      if !(remaining.Some? && |records| >= remaining.value) {
        var taken, prefix := CollectOneLane(state[i], lanes[i], |records|, remaining);
        records := records + taken;
        if remaining.None? || |records| < remaining.value {
          state := state[i := prefix];
        }
      }
    }
    carries := Some(state);
  }

  lemma TakeNothing<T>(s: seq<T>, limit: Option<nat>)
    requires s == [] || limit == Some(0)
    ensures Take(s, limit) == []
  {
  }

  lemma TakeLength<T>(s: seq<T>, limit: Option<nat>)
    ensures |Take(s, limit)| == if limit.None? then |s| else Min(|s|, limit.value)
  {
  }

  /** One lane of the batch, stopping as soon as the limit is reached. */
  method CollectOneLane(carry: Carry, chunks: seq<Chunk>, count: nat, remaining: Option<nat>)
    returns (records: seq<Record>, prefix: Carry)
    requires !Reached(count, remaining)
    ensures records == Take(CollectLane(carry, chunks).0, Rest(remaining, count))
    ensures !Reached(count + |CollectLane(carry, chunks).0|, remaining) ==> prefix == CollectLane(carry, chunks).1
  {
    hide Return, FirstDone, Finished, AnySuccess;
    prefix := carry;
    records := [];
    var j := 0;
    while j < |chunks|
      invariant 0 <= j <= |chunks|
      invariant CollectLane(carry, chunks[..j]) == (records, prefix)
      invariant remaining.Some? ==> count + |records| <= remaining.value
    {
      if remaining.Some? && count + |records| >= remaining.value {
        break;
      }
      assert chunks[..j + 1][..j] == chunks[..j];
      records, prefix := CollectChunk(chunks[j], records, prefix);
      j := j + 1;
    }
    CollectIsFold(carry, chunks[..j], chunks[j..]);
    assert chunks[..j] + chunks[j..] == chunks;
    assert j == |chunks| ==> chunks[j..] == [];
  }

  method CollectChunk(chunk: Chunk, records: seq<Record>, prefix: Carry) returns (records': seq<Record>, prefix': Carry)
    ensures (records', prefix') == match FirstDone(chunk.steps)
      case None => (records, Carry(prefix.length + |chunk.steps|, prefix.ret + Return(chunk.steps)))
      case Some(d) => (records + [Finished(prefix, chunk, d)], Carry(0, 0.0))
  {
    var done := FirstDone(chunk.steps);
    if done.None? {
      return records, Carry(prefix.length + |chunk.steps|, prefix.ret + Return(chunk.steps));
    }
    var segment := chunk.steps[..done.value + 1];
    var length := prefix.length + done.value + 1;
    var record := Record(length, (length + |chunk.steps| - 1) / |chunk.steps|, prefix.ret + Return(segment),
                         AnySuccess(segment), chunk.taskId, chunk.steps[done.value].score, chunk.episodeId, map[]);
    return records + [record], Carry(0, 0.0);
  }

  //////////////////////////// Fixed episodes ////////////////////////////

  /** Where a fixed episode's record stops: its first done step, or its last step. */
  function StopAt(row: seq<Step>): (d: nat)
    requires row != []
    ensures d < |row|
    ensures forall i :: 0 <= i < d ==> !row[i].done
    ensures row[d].done || d == |row| - 1
  {
    match FirstDone(row)
    case Some(d) => d
    case None => |row| - 1
  }

  /** A lane's flattened steps, and the identity and metadata shown at its first observation. */
  datatype Lane = Lane(row: seq<Step>, taskId: int, episodeId: Option<int>, metadata: map<string, int>)

  function EpisodeRecord(lane: Lane, k: nat): Record
    requires lane.row != [] && k > 0
  {
    var d := StopAt(lane.row);
    var segment := lane.row[..d + 1];
    Record(d + 1, d / k + 1, Return(segment), AnySuccess(segment), lane.taskId, lane.row[d].score, lane.episodeId, lane.metadata)
  }

  /** Step `d` is the first done step of the row, or its last step when there is none. */
  ghost predicate StopsAt(row: seq<Step>, d: nat) {
    && d < |row| && (row[d].done || d == |row| - 1)
    && forall i :: 0 <= i < d ==> !row[i].done
  }

  /** What a record says about the episode of its lane, step by step. */
  ghost predicate Describes(r: Record, lane: Lane, k: nat) {
    && r.length > 0 && StopsAt(lane.row, r.length - 1)
    && k * (r.chunkLength - 1) < r.length <= k * r.chunkLength
    && r.ret == Rewards(lane.row, r.length)
    && (r.success <==> exists i :: 0 <= i < r.length && lane.row[i].success)
    && r.score == lane.row[r.length - 1].score
    && r.taskId == lane.taskId && r.episodeId == lane.episodeId && r.metadata == lane.metadata
  }

  lemma EpisodeIsDescribed(lane: Lane, k: nat)
    requires lane.row != [] && k > 0
    ensures Describes(EpisodeRecord(lane, k), lane, k)
  {
    hide Rewards, Return, StopAt;
    var d := StopAt(lane.row);
    var segment := lane.row[..d + 1];
    assert segment == lane.row[..d + 1];
    ReturnIsRewards(lane.row, d + 1);
    ChunkOfStep(d, k);
    assert forall i :: 0 <= i <= d ==> segment[i] == lane.row[i];
  }

  lemma ChunkOfStep(d: nat, k: nat)
    requires k > 0
    ensures k * (d / k) < d + 1 <= k * (d / k + 1)
  {
    assert d == (d / k) * k + d % k;
    assert k * (d / k + 1) == k * (d / k) + k;
  }

  /** _collect_non_auto_reset_trajectory_records: one record per lane, in lane order, cut at `remaining`. */
  method CollectEpisodeRecords(lanes: seq<Lane>, k: nat, remaining: Option<nat>) returns (records: seq<Record>)
    requires k > 0 && forall i :: 0 <= i < |lanes| ==> lanes[i].row != []
    ensures |records| == (if remaining.None? then |lanes| else Min(|lanes|, remaining.value))
    ensures forall i :: 0 <= i < |records| ==> records[i] == EpisodeRecord(lanes[i], k) && Describes(records[i], lanes[i], k)
  {
    hide EpisodeRecord, Describes;
    records := [];
    for i := 0 to |lanes|
      invariant |records| == (if remaining.None? then i else Min(i, remaining.value))
      invariant forall j :: 0 <= j < |records| ==> records[j] == EpisodeRecord(lanes[j], k) && Describes(records[j], lanes[j], k)
    {
      EpisodeIsDescribed(lanes[i], k);
      if !(remaining.Some? && |records| >= remaining.value) {
        records := records + [EpisodeRecord(lanes[i], k)];
      }
    }
  }
}
