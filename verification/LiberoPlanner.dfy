/** The LIBERO reset-state planner: an evaluation queue per process, padded cyclically to full waves. */
module LiberoPlanner {
  import opened Common
  import opened Batches
  import opened CaseSchedule
  import Arithmetic

  datatype ResetState = ResetState(taskId: int, trialId: int, resetStateId: int, evalId: int)

  datatype PlannerError = EmptyQueue

  /** Lock-step waves needed for `n` states on `slots` environments. */
  function Waves(n: nat, slots: nat): nat
    requires slots > 0
  {
    (n + slots - 1) / slots
  }

  /** np.resize: repeat the states cyclically up to `size`. */
  function Padded<T>(states: seq<T>, size: nat): (padded: seq<T>)
    requires states != []
    ensures |padded| == size
  {
    seq(size, k requires 0 <= k => states[k % |states|])
  }

  /** Process `p`'s rows of E environments: every P-th row of the padded queue, from row `p` on. */
  function ProcessRows<T>(rows: seq<seq<T>>, waves: nat, processes: nat, p: nat): (mine: seq<seq<T>>)
    requires |rows| == waves * processes && p < processes
    ensures |mine| == waves
  {
    seq(waves, b requires 0 <= b < waves => RowInRange(waves, processes, b, p); rows[b * processes + p])
  }

  lemma RowInRange(waves: nat, processes: nat, b: nat, p: nat)
    requires b < waves && p < processes
    ensures 0 <= b * processes + p < waves * processes
  {
    Arithmetic.ProductMonotone(b, waves - 1, processes);
    Arithmetic.ProductNonNegative(b, processes);
    assert (waves - 1) * processes == waves * processes - processes;
  }

  /**
   The queue of process `p`: reshape the padded states to [waves, processes, envs], move the process axis
   first and flatten the rest.
   */
  function Queue<T>(states: seq<T>, processes: nat, envs: nat, p: nat): seq<T>
    requires states != [] && p < processes && envs > 0
  {
    Arithmetic.ProductMonotone(1, processes, envs);
    var waves := Waves(|states|, processes * envs);
    RowsFit(waves, processes, envs);
    var padded := Padded(states, waves * (processes * envs));
    Flatten(ProcessRows(Chunked(padded, envs, waves * processes), waves, processes, p))
  }

  lemma RowsFit(waves: nat, processes: nat, envs: nat)
    ensures 0 <= waves * processes && 0 <= waves * (processes * envs)
    ensures waves * (processes * envs) == (waves * processes) * envs
  {
    Arithmetic.ProductNonNegative(waves, processes);
    Arithmetic.ProductNonNegative(waves * processes, envs);
  }

  function BuildProcessQueues<T>(states: seq<T>, processes: nat, envs: nat): (r: Result<seq<seq<T>>, PlannerError>)
    requires processes > 0 && envs > 0
    ensures r.Err? <==> states == []
    ensures r.Ok? ==> |r.value| == processes && forall p :: 0 <= p < processes ==> r.value[p] == Queue(states, processes, envs, p)
  {
    if states == [] then Err(EmptyQueue)
    else Ok(seq(processes, p requires 0 <= p < processes => Queue(states, processes, envs, p)))
  }

  /** The layout seen as a grid of processes with a single stage each. */
  function Layout(processes: nat, envs: nat): Grid {
    Grid(processes, 1, envs)
  }

  /** Entry b * E + e of process p is padded state b * P * E + p * E + e. */
  lemma QueueEntry<T>(states: seq<T>, processes: nat, envs: nat, p: nat, b: nat, e: nat)
    requires states != [] && p < processes && e < envs && processes * envs > 0 && b < Waves(|states|, processes * envs)
    ensures |Queue(states, processes, envs, p)| == Waves(|states|, processes * envs) * envs
    ensures 0 <= b * envs + e < |Queue(states, processes, envs, p)|
    ensures Queue(states, processes, envs, p)[b * envs + e]
         == states[Layout(processes, envs).Index(b, 0, p, e) % |states|]
  {
    hide Flatten, Chunked, Waves;
    var waves := Waves(|states|, processes * envs);
    RowsFit(waves, processes, envs);
    var padded := Padded(states, waves * (processes * envs));
    var rows := Chunked(padded, envs, waves * processes);
    RowInRange(waves, processes, b, p);
    ProcessRowsSized(padded, waves, processes, envs, p);
    FlattenAt(ProcessRows(rows, waves, processes, p), envs, b, e);
    ChunkedAt(padded, envs, waves * processes, b * processes + p);
    PositionOf(processes, envs, b, p, e);
    QueueIs(states, processes, envs, p);
  }

  lemma PositionOf(processes: nat, envs: nat, b: nat, p: nat, e: nat)
    ensures (b * processes + p) * envs + e == Layout(processes, envs).Index(b, 0, p, e)
  {
    assert (b * processes + p) * envs == b * (processes * envs) + p * envs;
  }

  lemma QueueIs<T>(states: seq<T>, processes: nat, envs: nat, p: nat)
    requires states != [] && p < processes && envs > 0 && processes * envs > 0
    ensures var waves := Waves(|states|, processes * envs);
      && 0 <= waves * (processes * envs) == (waves * processes) * envs && 0 <= waves * processes
      && Queue(states, processes, envs, p)
         == Flatten(ProcessRows(Chunked(Padded(states, waves * (processes * envs)), envs, waves * processes), waves, processes, p))
  {
    RowsFit(Waves(|states|, processes * envs), processes, envs);
  }

  lemma ProcessRowsSized<T>(padded: seq<T>, waves: nat, processes: nat, envs: nat, p: nat)
    requires |padded| == (waves * processes) * envs && 0 <= waves * processes && p < processes
    ensures AllSized(ProcessRows(Chunked(padded, envs, waves * processes), waves, processes, p), envs)
  {
    hide Chunked;
    forall b | 0 <= b < waves
      ensures 0 <= b * processes + p < waves * processes
      ensures |Chunked(padded, envs, waves * processes)[b * processes + p]| == envs
    {
      RowInRange(waves, processes, b, p);
      ChunkedAt(padded, envs, waves * processes, b * processes + p);
    }
  }

  //////////////////////////// Drawing ////////////////////////////

  function Entry<T>(queue: seq<T>, i: nat): T
    requires queue != []
  {
    queue[i % |queue|]
  }

  /** `count` consecutive entries of a cyclic queue. */
  function Cyclic<T>(queue: seq<T>, start: nat, count: nat): (drawn: seq<T>)
    requires queue != []
    ensures |drawn| == count
  {
    seq(count, i requires 0 <= i => Entry(queue, start + i))
  }

  class LiberoResetStatePlanner {
    const states: seq<ResetState>
    const process: nat
    const processes: nat
    const envs: nat
    var evalCursor: nat
    var queues: seq<seq<ResetState>>

    ghost predicate Valid()
      reads this
    {
      && states != [] && process < processes && envs > 0 && processes * envs > 0
      && |queues| == processes && queues[process] == Queue(states, processes, envs, process)
      && evalCursor < |queues[process]|
    }

    /** The filter before this point has already rejected an empty benchmark. */
    constructor (states: seq<ResetState>, process: nat, processes: nat, envs: nat)
      requires states != [] && process < processes && envs > 0
      ensures Valid() && evalCursor == 0
      ensures this.states == states && this.process == process && this.processes == processes && this.envs == envs
    {
      hide Queue;
      this.states, this.process, this.processes, this.envs := states, process, processes, envs;
      evalCursor := 0;
      Arithmetic.ProductMonotone(1, processes, envs);
      queues := BuildProcessQueues(states, processes, envs).value;
      QueueNotEmpty(states, processes, envs, process);
    }

    method ResetEvalCursor()
      requires Valid()
      modifies this
      ensures Valid() && evalCursor == 0
    {
      hide Queue;
      evalCursor := 0;
      queues := BuildProcessQueues(states, processes, envs).value;
      QueueNotEmpty(states, processes, envs, process);
    }

    /** The next `count` entries of this process's queue, read cyclically from the cursor. */
    method NextEvalStates(count: nat) returns (drawn: seq<ResetState>)
      requires Valid()
      modifies this`evalCursor
      ensures Valid()
      ensures drawn == Cyclic(queues[process], old(evalCursor), count)
      ensures forall i :: 0 <= i < count ==> drawn[i] == Entry(queues[process], old(evalCursor) + i)
      ensures evalCursor == (old(evalCursor) + count) % |queues[process]|
    {
      hide Queue, Entry;
      var queue := queues[process];
      drawn := Cyclic(queue, evalCursor, count);
      evalCursor := (evalCursor + count) % |queue|;
    }

    /** Any split of the draws reads the same cyclic stream. */
    method DrawAll(counts: seq<nat>) returns (drawn: seq<ResetState>)
      requires Valid()
      modifies this`evalCursor
      ensures Valid()
      ensures drawn == Cyclic(queues[process], old(evalCursor), SumNat(counts))
      ensures evalCursor == (old(evalCursor) + SumNat(counts)) % |queues[process]|
    {
      hide Queue, Cyclic;
      drawn := [];
      ghost var queue, start := queues[process], evalCursor;
      NothingDrawn(queue, start);
      for i := 0 to |counts|
        invariant Valid() && queues[process] == queue
        invariant drawn == Cyclic(queue, start, SumNat(counts[..i]))
        invariant evalCursor == (start + SumNat(counts[..i])) % |queue|
      {
        assert counts[..i + 1][..i] == counts[..i];
        SplitDraw(queue, start, SumNat(counts[..i]), counts[i]);
        var more := NextEvalStates(counts[i]);
        drawn := drawn + more;
      }
      assert counts[..|counts|] == counts;
    }
  }

  lemma QueueNotEmpty<T>(states: seq<T>, processes: nat, envs: nat, p: nat)
    requires states != [] && p < processes && envs > 0 && processes * envs > 0
    ensures |Queue(states, processes, envs, p)| == Waves(|states|, processes * envs) * envs > 0
  {
    hide Queue;
    SomeWave(|states|, processes * envs);
    QueueEntry(states, processes, envs, p, 0, 0);
  }

  lemma SomeWave(n: nat, slots: nat)
    requires n > 0 && slots > 0
    ensures Waves(n, slots) > 0 && (Waves(n, slots) - 1) * slots < n <= Waves(n, slots) * slots
  {
    var waves := Waves(n, slots);
    assert n + slots - 1 == waves * slots + (n + slots - 1) % slots;
    assert (waves - 1) * slots == waves * slots - slots;
  }

  lemma NothingDrawn<T>(queue: seq<T>, start: nat)
    requires queue != [] && start < |queue|
    ensures Cyclic(queue, start, 0) == [] && start % |queue| == start
  {
    Arithmetic.DivModUnique(0, |queue|, start);
  }

  lemma SameRemainder(x: nat, y: nat, k: nat)
    requires k > 0
    ensures (x % k + y) % k == (x + y) % k
  {
    var r := x % k + y;
    Arithmetic.DivModUnique(x / k + r / k, k, r % k);
    assert x + y == (x / k + r / k) * k + r % k by {
      assert x == (x / k) * k + x % k;
      assert r == (r / k) * k + r % k;
    }
  }

  lemma SplitDraw<T>(queue: seq<T>, start: nat, a: nat, b: nat)
    requires queue != []
    ensures Cyclic(queue, start, a + b) == Cyclic(queue, start, a) + Cyclic(queue, (start + a) % |queue|, b)
    ensures ((start + a) % |queue| + b) % |queue| == (start + a + b) % |queue|
  {
    hide Entry;
    SameRemainder(start + a, b, |queue|);
    var second, whole := Cyclic(queue, (start + a) % |queue|, b), Cyclic(queue, start, a + b);
    forall i | 0 <= i < b ensures second[i] == whole[a + i] {
      SameEntry(queue, start + a, i);
    }
  }

  lemma SameEntry<T>(queue: seq<T>, start: nat, i: nat)
    requires queue != []
    ensures Entry(queue, start % |queue| + i) == Entry(queue, start + i)
  {
    SameRemainder(start, i, |queue|);
  }

  //////////////////////////// The exact cover ////////////////////////////

  /** What environment `e` of process `p` draws in lock-step wave `w` of a fresh evaluation. */
  function Drawn<T>(states: seq<T>, processes: nat, envs: nat, w: nat, p: nat, e: nat): T
    requires states != [] && p < processes && e < envs && processes * envs > 0
  {
    QueueNotEmpty(states, processes, envs, p);
    var queue := Queue(states, processes, envs, p);
    Arithmetic.ProductNonNegative(w, envs);
    Cyclic(queue, w * envs, envs)[e]
  }

  /** Wave by wave the processes read the padded benchmark; a padding entry can only come in the last wave. */
  lemma DrawsFollowTheStream<T>(states: seq<T>, processes: nat, envs: nat, w: nat, p: nat, e: nat)
    requires states != [] && p < processes && e < envs && processes * envs > 0 && w < Waves(|states|, processes * envs)
    ensures var position := Layout(processes, envs).Index(w, 0, p, e);
      && Drawn(states, processes, envs, w, p, e) == states[position % |states|]
      && (position >= |states| ==> w == Waves(|states|, processes * envs) - 1)
  {
    hide Queue, Waves;
    var n, slots := |states|, processes * envs;
    QueueNotEmpty(states, processes, envs, p);
    QueueEntry(states, processes, envs, p, w, e);
    var queue := Queue(states, processes, envs, p);
    Arithmetic.DivModUnique(0, |queue|, w * envs + e);
    SomeWave(n, slots);
    RowBounds(Layout(processes, envs), 0, p, e);
    if w < Waves(n, slots) - 1 {
      Arithmetic.ProductMonotone(w + 1, Waves(n, slots) - 1, slots);
      assert (w + 1) * slots == w * slots + slots;
    }
  }

  /**
   Exact cover: state `i` is drawn within ceil(n / (P * E)) waves by exactly one wave, process and
   environment, not counting padding.
   */
  lemma EveryStateIsDrawnOnce<T>(states: seq<T>, processes: nat, envs: nat, i: nat)
    requires i < |states| && processes > 0 && envs > 0
    ensures processes * envs > 0
    ensures Layout(processes, envs).Width() > 0
    ensures var (w, s, p, e) := Server(Layout(processes, envs), i);
      && w < Waves(|states|, processes * envs) && p < processes && e < envs
      && Drawn(states, processes, envs, w, p, e) == states[i]
      && forall w': nat, p': nat, e': nat :: p' < processes && e' < envs && Layout(processes, envs).Index(w', 0, p', e') == i
           ==> (w', p', e') == (w, p, e)
  {
    var g := Layout(processes, envs);
    Arithmetic.ProductMonotone(1, processes, envs);
    WidthPositive(g);
    EveryPositionIsServed(g, i);
    var (w, s, p, e) := Server(g, i);
    hide Queue, Waves, Drawn, Server;
    SomeWave(|states|, processes * envs);
    if w >= Waves(|states|, processes * envs) {
      Arithmetic.ProductMonotone(Waves(|states|, processes * envs), w, processes * envs);
      assert false;
    }
    DrawsFollowTheStream(states, processes, envs, w, p, e);
    Arithmetic.DivModUnique(0, |states|, i);
    forall w': nat, p': nat, e': nat | p' < processes && e' < envs && g.Index(w', 0, p', e') == i
      ensures (w', p', e') == (w, p, e)
    {
      ServersAreUnique(g, w', 0, p', e');
    }
  }
}
