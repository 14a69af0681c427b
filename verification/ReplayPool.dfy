/**
 The replay pool: per task one ring of positive and one ring of negative transitions, refined to a
 bounded first-in-first-out list, and the two-sided sampler over all tasks.
 */
module ReplayPool {
  import opened Common
  import Allocation

  /** A stored transition: its contents, its validity flag and its success mask. */
  datatype Row = Row(payload: int, valid: bool, success: bool)

  datatype PoolError = LengthMismatch | NegativeInPositiveOnly | EmptyPool

  //////////////////////////// The bounded FIFO ////////////////////////////

  function LastN<T>(s: seq<T>, n: nat): seq<T> {
    if |s| <= n then s else s[|s| - n..]
  }

  /** An inserted block is first cut to its leading `cap` rows. */
  function Cut(block: seq<Row>, cap: nat): seq<Row> {
    block[..Min(|block|, cap)]
  }

  function Push(fifo: seq<Row>, block: seq<Row>, cap: nat): seq<Row> {
    LastN(fifo + Cut(block, cap), cap)
  }

  function PushAll(blocks: seq<seq<Row>>, cap: nat): seq<Row> {
    if blocks == [] then [] else Push(PushAll(blocks[..|blocks| - 1], cap), blocks[|blocks| - 1], cap)
  }

  function CutAll(blocks: seq<seq<Row>>, cap: nat): seq<Row> {
    if blocks == [] then [] else CutAll(blocks[..|blocks| - 1], cap) + Cut(blocks[|blocks| - 1], cap)
  }

  lemma LastNAbsorbs<T>(s: seq<T>, t: seq<T>, n: nat)
    ensures LastN(LastN(s, n) + t, n) == LastN(s + t, n)
  {
  }

  /** Pushing block after block keeps exactly the most recent `cap` of all inserted rows. */
  lemma {:induction false} PushAllKeepsMostRecent(blocks: seq<seq<Row>>, cap: nat)
    ensures PushAll(blocks, cap) == LastN(CutAll(blocks, cap), cap)
    ensures |PushAll(blocks, cap)| == Min(|CutAll(blocks, cap)|, cap)
  {
    if blocks != [] {
      var front := blocks[..|blocks| - 1];
      PushAllKeepsMostRecent(front, cap);
      LastNAbsorbs(CutAll(front, cap), Cut(blocks[|blocks| - 1], cap), cap);
    }
  }

  //////////////////////////// One ring ////////////////////////////

  /** The slot of the `j`-th oldest live row: slot `position` is the oldest once the ring is full. */
  function SlotOf(cap: nat, size: nat, position: nat, j: nat): nat {
    if size < cap then j else if position + j < cap then position + j else position + j - cap
  }

  /** The live slots of a ring in insertion order. */
  ghost function Ordered(slots: seq<Row>, size: nat, position: nat): (fifo: seq<Row>)
    requires size <= |slots| && position <= |slots|
    ensures |fifo| == size
  {
    seq(size, j requires 0 <= j < size => slots[SlotOf(|slots|, size, position, j)])
  }

  ghost predicate RingOk(cap: nat, size: nat, position: nat) {
    position < cap && size <= cap && (size < cap ==> position == size)
  }

  /** `slots` after `block[..n]` was written from `position` on, wrapping at the end. */
  ghost predicate Written(before: seq<Row>, slots: seq<Row>, position: nat, block: seq<Row>, n: nat)
    requires position < |before|
  {
    && |slots| == |before|
    && n <= |block|
    && forall k :: 0 <= k < |slots| ==>
         var offset := if k >= position then k - position else k - position + |slots|;
         slots[k] == if offset < n then block[offset] else before[k]
  }

  /** Wrapped writes of at most one full round never hit the same slot twice. */
  lemma WrappedWritesAreDistinct(position: nat, cap: nat, i: nat, j: nat)
    requires position < cap && i < j < cap
    ensures (position + i) % cap != (position + j) % cap
  {
    WrapIs(position, cap, i);
    WrapIs(position, cap, j);
  }

  lemma WrapIs(position: nat, cap: nat, i: nat)
    requires position < cap && i <= cap
    ensures (position + i) % cap == if position + i < cap then position + i else position + i - cap
  {
    if position + i >= cap {
      assert (position + i) % cap == (position + i - cap) % cap;
    }
  }

  /** A wrapped write followed by the pointer updates is a push on the ring's FIFO view. */
  lemma WriteIsPush(before: seq<Row>, after: seq<Row>, size: nat, position: nat, block: seq<Row>)
    requires RingOk(|before|, size, position) && |block| <= |before|
    requires Written(before, after, position, block, |block|)
    ensures var cap := |before|;
      var size' := Min(size + |block|, cap);
      var position' := (position + |block|) % cap;
      && RingOk(cap, size', position')
      && Ordered(after, size', position') == LastN(Ordered(before, size, position) + block, cap)
  {
    WrapIs(position, |before|, |block|);
    var size' := Min(size + |block|, |before|);
    var position' := if position + |block| < |before| then position + |block| else position + |block| - |before|;
    OrderedPush(before, after, size, position, block, size', position');
  }

  lemma OrderedPush(before: seq<Row>, after: seq<Row>, size: nat, position: nat, block: seq<Row>,
                    size': nat, position': nat)
    requires RingOk(|before|, size, position) && |block| <= |before| == |after|
    requires Written(before, after, position, block, |block|)
    requires size' == Min(size + |block|, |before|)
    requires position' == if position + |block| < |before| then position + |block| else position + |block| - |before|
    ensures RingOk(|before|, size', position')
    ensures Ordered(after, size', position') == LastN(Ordered(before, size, position) + block, |before|)
  {
    hide Written, Ordered;
    assert RingOk(|before|, size', position');
    var fifo := Ordered(before, size, position) + block;
    assert LastN(fifo, |before|) == fifo[|fifo| - size'..];
    hide RingOk, LastN, Min;
    var got := Ordered(after, size', position');
    forall j | 0 <= j < size' ensures got[j] == fifo[|fifo| - size' + j] {
      PushedRow(before, after, size, position, block, size', position', j);
    }
  }

  lemma PushedRow(before: seq<Row>, after: seq<Row>, size: nat, position: nat, block: seq<Row>,
                  size': nat, position': nat, j: nat)
    requires RingOk(|before|, size, position) && |block| <= |before| == |after|
    requires Written(before, after, position, block, |block|)
    requires size' == Min(size + |block|, |before|) && j < size'
    requires position' == if position + |block| < |before| then position + |block| else position + |block| - |before|
    ensures Ordered(after, size', position')[j] == (Ordered(before, size, position) + block)[size + |block| - size' + j]
  {
    hide Written;
    PushedAt(before, after, size, position, block, size', position', j);
    FifoAt(before, size, position, block, size + |block| - size' + j);
  }

  lemma FifoAt(slots: seq<Row>, size: nat, position: nat, block: seq<Row>, index: nat)
    requires size <= |slots| && position <= |slots| && index < size + |block|
    ensures (Ordered(slots, size, position) + block)[index]
         == if index < size then Ordered(slots, size, position)[index] else block[index - size]
  {
    hide Ordered;
  }

  /** Where the `j`-th oldest row of the result comes from: an old slot left alone, or the block. */
  lemma SlotAfterPush(cap: nat, size: nat, position: nat, len: nat, size': nat, position': nat, j: nat)
    requires RingOk(cap, size, position) && len <= cap && size' == Min(size + len, cap) && j < size'
    requires position' == if position + len < cap then position + len else position + len - cap
    ensures RingOk(cap, size', position')
    ensures var slot := SlotOf(cap, size', position', j);
      var index := size + len - size' + j;
      && slot < cap
      && var offset := if slot >= position then slot - position else slot - position + cap;
      if index < size then slot == SlotOf(cap, size, position, index) && offset >= len else offset == index - size
  {
  }

  lemma PushedAt(before: seq<Row>, after: seq<Row>, size: nat, position: nat, block: seq<Row>,
                 size': nat, position': nat, j: nat)
    requires RingOk(|before|, size, position) && |block| <= |before|
    requires Written(before, after, position, block, |block|)
    requires size' == Min(size + |block|, |before|) && j < size'
    requires position' == if position + |block| < |before| then position + |block| else position + |block| - |before|
    ensures RingOk(|before|, size', position')
    ensures var slot, index := SlotOf(|before|, size', position', j), size + |block| - size' + j;
      && slot < |after|
      && if index < size then
           SlotOf(|before|, size, position, index) < |before| && after[slot] == before[SlotOf(|before|, size, position, index)]
         else after[slot] == block[index - size]
  {
    SlotAfterPush(|before|, size, position, |block|, size', position', j);
  }

  lemma OrderedMultiset(slots: seq<Row>, size: nat, position: nat)
    requires RingOk(|slots|, size, position)
    ensures multiset(Ordered(slots, size, position)) == multiset(slots[..size])
  {
    if size == |slots| {
      assert Ordered(slots, size, position) == slots[position..] + slots[..position];
      assert slots[..size] == slots[..position] + slots[position..];
    } else {
      assert Ordered(slots, size, position) == slots[..size];
    }
  }

  //////////////////////////// The pools of one task ////////////////////////////

  /** Fixed-capacity storage; the first `size` slots are initialised and the next write goes to `position`. */
  datatype Ring = Ring(slots: seq<Row>, size: nat, position: nat) {
    ghost predicate Ok(cap: nat) {
      cap > 0 && |slots| == cap && RingOk(cap, size, position)
    }

    /** The live rows, oldest first. */
    ghost function Fifo(): seq<Row> {
      if size <= |slots| && position <= |slots| then Ordered(slots, size, position) else []
    }
  }

  /** A positive-only pool has no negative ring. */
  datatype DualPool = DualPool(positive: Ring, negative: Option<Ring>) {
    ghost predicate Ok(cap: nat, positiveOnly: bool) {
      && positive.Ok(cap)
      && (negative.None? <==> positiveOnly)
      && (negative.Some? ==> negative.value.Ok(cap))
      && Labeled(Fifo(true), true) && Labeled(Fifo(false), false)
    }

    ghost function Fifo(isPositive: bool): seq<Row> {
      if isPositive then positive.Fifo() else if negative.None? then [] else negative.value.Fifo()
    }

    function Size(isPositive: bool): nat {
      if isPositive then positive.size else if negative.None? then 0 else negative.value.size
    }
  }

  /** index_copy_ of `block` at the wrapped indices from `position` on. */
  method CopyWrapped(before: seq<Row>, position: nat, block: seq<Row>) returns (slots: seq<Row>)
    requires position < |before| && |block| <= |before|
    ensures Written(before, slots, position, block, |block|)
  {
    slots := before;
    for i := 0 to |block|
      invariant Written(before, slots, position, block, i)
    {
      WrapIs(position, |slots|, i);
      slots := slots[(position + i) % |slots| := block[i]];
    }
  }

  lemma RingPush(ring: Ring, r: Ring, block: seq<Row>, cap: nat)
    requires ring.Ok(cap) && |block| <= cap
    requires Written(ring.slots, r.slots, ring.position, block, |block|)
    requires r.size == Min(ring.size + |block|, cap) && r.position == (ring.position + |block|) % cap
    ensures r.Ok(cap) && r.Fifo() == LastN(ring.Fifo() + block, cap)
  {
    WriteIsPush(ring.slots, r.slots, ring.size, ring.position, block);
  }

  /** Writing one block into a ring is a push on its FIFO. */
  method InsertBlock(ring: Ring, source: seq<Row>, cap: nat) returns (r: Ring)
    requires ring.Ok(cap)
    ensures r.Ok(cap) && r.Fifo() == Push(ring.Fifo(), source, cap)
  {
    if |source| == 0 {
      PushNothing(ring.Fifo(), cap);
      return ring;
    }
    var length := Min(|source|, cap);
    var slots := CopyWrapped(ring.slots, ring.position, source[..length]);
    r := Ring(slots, Min(ring.size + length, cap), (ring.position + length) % cap);
    RingPush(ring, r, source[..length], cap);
  }

  //////////////////////////// Batches ////////////////////////////

  datatype Tagged = Tagged(row: Row, task: string)

  /** The valid rows of a batch with their tasks; a positive-only pool relabels them all successful. */
  function Kept(batch: seq<Row>, tasks: seq<string>, positiveOnly: bool): seq<Tagged>
    requires |batch| == |tasks|
  {
    if batch == [] then []
    else
      var n := |batch| - 1;
      var row := batch[n];
      Kept(batch[..n], tasks[..n], positiveOnly)
      + if row.valid then [Tagged(row.(success := row.success || positiveOnly), tasks[n])] else []
  }

  /** The rows of one task and polarity, in batch order. */
  function Select(kept: seq<Tagged>, task: string, isPositive: bool): seq<Row> {
    if kept == [] then []
    else
      var last := kept[|kept| - 1];
      Select(kept[..|kept| - 1], task, isPositive) + if last.task == task && last.row.success == isPositive then [last.row] else []
  }

  ghost predicate Labeled(rows: seq<Row>, isPositive: bool) {
    forall i :: 0 <= i < |rows| ==> rows[i].valid && rows[i].success == isPositive
  }

  lemma {:induction false} KeptIsValid(batch: seq<Row>, tasks: seq<string>, positiveOnly: bool)
    requires |batch| == |tasks|
    ensures forall i :: 0 <= i < |Kept(batch, tasks, positiveOnly)| ==>
      Kept(batch, tasks, positiveOnly)[i].row.valid && (positiveOnly ==> Kept(batch, tasks, positiveOnly)[i].row.success)
  {
    if batch != [] {
      KeptIsValid(batch[..|batch| - 1], tasks[..|batch| - 1], positiveOnly);
    }
  }

  lemma {:induction false} SelectIsLabeled(kept: seq<Tagged>, task: string, isPositive: bool)
    requires forall i :: 0 <= i < |kept| ==> kept[i].row.valid
    ensures Labeled(Select(kept, task, isPositive), isPositive)
    ensures (forall i :: 0 <= i < |kept| ==> kept[i].task != task) ==> Select(kept, task, isPositive) == []
    ensures !isPositive && (forall i :: 0 <= i < |kept| ==> kept[i].row.success) ==> Select(kept, task, isPositive) == []
  {
    if kept != [] {
      SelectIsLabeled(kept[..|kept| - 1], task, isPositive);
    }
  }

  lemma PushLabeled(fifo: seq<Row>, block: seq<Row>, cap: nat, isPositive: bool)
    requires Labeled(fifo, isPositive) && Labeled(block, isPositive)
    ensures Labeled(Push(fifo, block, cap), isPositive)
  {
  }

  lemma PushNothing(fifo: seq<Row>, cap: nat)
    requires |fifo| <= cap
    ensures Push(fifo, [], cap) == fifo
  {
    assert fifo + Cut([], cap) == fifo;
  }

  method FilterValid(batch: seq<Row>, tasks: seq<string>, positiveOnly: bool) returns (kept: seq<Tagged>)
    requires |batch| == |tasks|
    ensures kept == Kept(batch, tasks, positiveOnly)
  {
    kept := [];
    for i := 0 to |batch|
      invariant kept == Kept(batch[..i], tasks[..i], positiveOnly)
    {
      assert batch[..i + 1][..i] == batch[..i] && tasks[..i + 1][..i] == tasks[..i];
      if batch[i].valid {
        kept := kept + [Tagged(batch[i].(success := batch[i].success || positiveOnly), tasks[i])];
      }
    }
    assert batch[..|batch|] == batch && tasks[..|tasks|] == tasks;
  }

  /** `order` lists every key once. */
  ghost predicate Lists(order: seq<string>, keys: set<string>) {
    && (forall t :: t in order <==> t in keys)
    && forall i, j :: 0 <= i < j < |order| ==> order[i] != order[j]
  }

  lemma ListsExtends(order: seq<string>, keys: set<string>, t: string)
    requires Lists(order, keys)
    ensures t !in keys ==> Lists(order + [t], keys + {t})
  {
  }

  ghost predicate TaskSeen(kept: seq<Tagged>, t: string) {
    exists i :: 0 <= i < |kept| && kept[i].task == t
  }

  lemma TaskSeenStep(kept: seq<Tagged>, i: nat, t: string)
    requires i < |kept|
    ensures TaskSeen(kept[..i + 1], t) <==> TaskSeen(kept[..i], t) || kept[i].task == t
  {
    if kept[i].task == t {
      assert kept[..i + 1][i].task == t;
    }
    if j :| 0 <= j < i && kept[..i][j].task == t {
      assert kept[..i + 1][j].task == t;
    }
  }

  /** The two dictionaries hold every task seen, with its rows of each polarity. */
  ghost predicate Grouped(kept: seq<Tagged>, positives: map<string, seq<Row>>, negatives: map<string, seq<Row>>) {
    && positives.Keys == negatives.Keys
    && (forall t :: t in positives <==> TaskSeen(kept, t))
    && forall t :: t in positives ==> positives[t] == Select(kept, t, true) && negatives[t] == Select(kept, t, false)
  }

  lemma NothingGrouped()
    ensures Grouped([], map[], map[])
  {
  }

  /** One more row: a new task gets two empty lists first, then the row is appended under its polarity. */
  lemma GroupNext(kept: seq<Tagged>, i: nat, p0: map<string, seq<Row>>, q0: map<string, seq<Row>>, p: map<string, seq<Row>>,
                  q: map<string, seq<Row>>)
    requires i < |kept| && Grouped(kept[..i], p0, q0)
    requires var task, row := kept[i].task, kept[i].row;
      var p1, q1 := if task in p0 then p0 else p0[task := []], if task in q0 then q0 else q0[task := []];
      if row.success then p == p1[task := p1[task] + [row]] && q == q1 else p == p1 && q == q1[task := q1[task] + [row]]
    ensures Grouped(kept[..i + 1], p, q)
  {
    hide Select, TaskSeen;
    if kept[i].task !in p0 {
      SelectNone(kept[..i], kept[i].task);
    }
    forall t ensures t in p <==> TaskSeen(kept[..i + 1], t) {
      TaskSeenStep(kept, i, t);
    }
    forall t | t in p ensures p[t] == Select(kept[..i + 1], t, true) && q[t] == Select(kept[..i + 1], t, false) {
      SelectStep(kept, i, t, true);
      SelectStep(kept, i, t, false);
    }
  }

  /** Group the kept rows by task and polarity, tasks in order of first appearance. */
  method Group(kept: seq<Tagged>)
    returns (order: seq<string>, positives: map<string, seq<Row>>, negatives: map<string, seq<Row>>)
    ensures Lists(order, positives.Keys) && positives.Keys == negatives.Keys
    ensures forall t :: t in positives <==> TaskSeen(kept, t)
    ensures forall t :: t in positives ==> positives[t] == Select(kept, t, true) && negatives[t] == Select(kept, t, false)
  {
    order, positives, negatives := [], map[], map[];
    hide Select, TaskSeen, Lists;
    ListsNothing();
    NothingGrouped();
    assert positives.Keys == {};
    for i := 0 to |kept|
      invariant Lists(order, positives.Keys) && Grouped(kept[..i], positives, negatives)
    {
      var task := kept[i].task;
      ghost var before := (positives, negatives);
      if task !in positives {
        ListsExtends(order, positives.Keys, task);
        order := order + [task];
        positives, negatives := positives[task := []], negatives[task := []];
        assert positives.Keys == before.0.Keys + {task};
      }
      ghost var keys := positives.Keys;
      if kept[i].row.success {
        positives := positives[task := positives[task] + [kept[i].row]];
      } else {
        negatives := negatives[task := negatives[task] + [kept[i].row]];
      }
      assert positives.Keys == keys;
      GroupNext(kept, i, before.0, before.1, positives, negatives);
    }
    assert kept[..|kept|] == kept;
  }

  lemma ListsNothing()
    ensures Lists([], {})
  {
  }

  lemma NothingSeen(kept: seq<Tagged>)
    requires kept == []
    ensures forall t :: !TaskSeen(kept, t)
  {
  }

  lemma SelectStep(kept: seq<Tagged>, i: nat, t: string, isPositive: bool)
    requires i < |kept|
    ensures Select(kept[..i + 1], t, isPositive)
         == Select(kept[..i], t, isPositive) + if kept[i].task == t && kept[i].row.success == isPositive then [kept[i].row] else []
  {
    assert kept[..i + 1][..i] == kept[..i];
  }

  lemma {:induction false} SelectNone(kept: seq<Tagged>, task: string)
    requires !TaskSeen(kept, task)
    ensures Select(kept, task, true) == [] && Select(kept, task, false) == []
  {
    if kept != [] {
      var front := kept[..|kept| - 1];
      assert forall i :: 0 <= i < |front| ==> front[i] == kept[i];
      SelectNone(front, task);
    }
  }

  //////////////////////////// Random draws ////////////////////////////

  /** Indices below `n`, none of them twice. */
  ghost predicate DistinctBelow(p: seq<nat>, n: nat) {
    Distinct(p) && forall i :: 0 <= i < |p| ==> p[i] < n
  }

  function Gather(s: seq<Row>, p: seq<nat>): (rows: seq<Row>)
    requires forall i :: 0 <= i < |p| ==> p[i] < |s|
    ensures |rows| == |p|
  {
    seq(|p|, i requires 0 <= i < |p| => s[p[i]])
  }

  /** Rows gathered at distinct indices are a sub-multiset. */
  lemma {:induction false} GatherIsSubset(s: seq<Row>, p: seq<nat>)
    requires DistinctBelow(p, |s|)
    ensures multiset(Gather(s, p)) <= multiset(s)
    decreases |s|
  {
    if p == [] {
      assert Gather(s, p) == [];
    } else {
      assert p[0] < |s|;
      var n := |s| - 1;
      assert s == s[..n] + [s[n]];
      if k :| 0 <= k < |p| && p[k] == n {
        var rest := p[..k] + p[k + 1..];
        GatherIsSubset(s[..n], rest);
        assert Gather(s, p) == Gather(s[..n], rest)[..k] + [s[n]] + Gather(s[..n], rest)[k..];
        assert Gather(s[..n], rest) == Gather(s[..n], rest)[..k] + Gather(s[..n], rest)[k..];
      } else {
        GatherIsSubset(s[..n], p);
        assert Gather(s, p) == Gather(s[..n], p);
      }
    }
  }

  lemma PermutationKeepsMultiset(s: seq<Row>, p: seq<nat>)
    requires DistinctBelow(p, |s|) && |p| == |s|
    ensures multiset(Gather(s, p)) == multiset(s)
  {
    GatherIsSubset(s, p);
    var rest := multiset(s) - multiset(Gather(s, p));
    assert |rest| == |s| - |Gather(s, p)| == 0;
    assert multiset(s) == rest + multiset(Gather(s, p));
  }

  /** torch.randperm: callers only learn that the result is some permutation of 0..n-1. */
  method RandPerm(n: nat) returns (p: seq<nat>)
    ensures |p| == n && DistinctBelow(p, n)
  {
    p := seq(n, i => i);
  }

  /** `count` distinct live slots of one task's ring. */
  method SampleFromRing(ring: Ring, count: nat, cap: nat) returns (rows: seq<Row>)
    requires ring.Ok(cap) && count <= ring.size
    ensures |rows| == count && multiset(rows) <= multiset(ring.Fifo())
  {
    var p := RandPerm(ring.size);
    var idx := p[..count];
    rows := seq(count, i requires 0 <= i < count => ring.slots[idx[i]]);
    var live := ring.slots[..ring.size];
    assert rows == Gather(live, idx);
    GatherIsSubset(live, idx);
    OrderedMultiset(ring.slots, ring.size, ring.position);
  }

  //////////////////////////// The requested split ////////////////////////////

  /** int(round(x)) for x >= 0: to the nearest integer, halves to the even one. */
  function RoundHalfEven(x: real): int {
    var low := x.Floor;
    var part := x - low as real;
    if part < 0.5 || (part == 0.5 && low % 2 == 0) then low else low + 1
  }

  /** `n` is the integer nearest to `x`, the even one of two equally near ones. */
  ghost predicate IsNearest(n: int, x: real) {
    && x - 0.5 <= n as real <= x + 0.5
    && (n as real == x - 0.5 || n as real == x + 0.5 ==> n % 2 == 0)
  }

  lemma RoundIsNearest(x: real)
    ensures IsNearest(RoundHalfEven(x), x)
  {
  }

  function Abs(x: int): int {
    if x < 0 then -x else x
  }

  function TargetPositive(batchSize: nat, ratio: real, positiveOnly: bool): (target: nat)
    ensures target <= batchSize
    ensures positiveOnly || ratio >= 1.0 ==> target == batchSize
    ensures !positiveOnly && ratio <= 0.0 ==> target == 0
    ensures !positiveOnly && 0.0 <= ratio <= 1.0 ==> IsNearest(target, batchSize as real * ratio)
  {
    var clamped := if positiveOnly || ratio > 1.0 then 1.0 else if ratio < 0.0 then 0.0 else ratio;
    RoundWithin(batchSize, clamped);
    RoundIsNearest(batchSize as real * clamped);
    RoundHalfEven(batchSize as real * clamped)
  }

  lemma RoundWithin(n: nat, ratio: real)
    requires 0.0 <= ratio <= 1.0
    ensures 0 <= RoundHalfEven(n as real * ratio) <= n
    ensures ratio == 1.0 ==> RoundHalfEven(n as real * ratio) == n
    ensures ratio == 0.0 ==> RoundHalfEven(n as real * ratio) == 0
  {
    ScaleWithin(n as real, ratio);
    var x := n as real * ratio;
    if x == n as real {
      assert x.Floor == n;
    } else {
      assert x.Floor < n;
    }
  }

  lemma ScaleWithin(n: real, ratio: real)
    requires 0.0 <= ratio <= 1.0 && 0.0 <= n
    ensures 0.0 <= n * ratio <= n
  {
    assert n - n * ratio == n * (1.0 - ratio);
  }

  /** `total` rows can be drawn with exactly `q` positives. */
  predicate Divides(q: int, total: nat, positives: nat, negatives: nat) {
    0 <= q <= positives && 0 <= total - q <= negatives
  }

  ghost predicate ClosestTo(target: int, p: int, total: nat, positives: nat, negatives: nat) {
    && Divides(p, total, positives, negatives)
    && forall q :: Divides(q, total, positives, negatives) ==> Abs(p - target) <= Abs(q - target)
  }

  /**
   How many rows to draw from each polarity: as many as requested and available in all, and among all
   such divisions the one closest to the requested number of positives.
   */
  method SplitRequest(batchSize: nat, target: nat, positives: nat, negatives: nat) returns (p: nat, n: nat)
    requires target <= batchSize
    ensures p <= positives && n <= negatives && p + n == Min(batchSize, positives + negatives)
    ensures ClosestTo(target, p, p + n, positives, negatives)
    ensures target <= positives && batchSize - target <= negatives ==> p == target && n == batchSize - target
  {
    p := Min(target, positives);
    n := Min(batchSize - target, negatives);
    var deficit := batchSize - p - n;
    if deficit > 0 {
      var remainingPositive, remainingNegative := positives - p, negatives - n;
      if remainingPositive >= remainingNegative {
        var extra := Min(deficit, remainingPositive);
        p := p + extra;
        deficit := deficit - extra;
        n := n + Min(deficit, remainingNegative);
      } else {
        var extra := Min(deficit, remainingNegative);
        n := n + extra;
        deficit := deficit - extra;
        p := p + Min(deficit, remainingPositive);
      }
    }
  }

  //////////////////////////// Insertion ////////////////////////////

  method InsertBoth(pool: DualPool, pos: seq<Row>, neg: seq<Row>, cap: nat, positiveOnly: bool) returns (r: DualPool)
    requires pool.Ok(cap, positiveOnly) && Labeled(pos, true) && Labeled(neg, false) && (positiveOnly ==> neg == [])
    ensures r.Ok(cap, positiveOnly)
    ensures r.Fifo(true) == Push(pool.Fifo(true), pos, cap) && r.Fifo(false) == Push(pool.Fifo(false), neg, cap)
  {
    r := pool;
    PushLabeled(pool.Fifo(true), pos, cap, true);
    PushLabeled(pool.Fifo(false), neg, cap, false);
    PushNothing(pool.Fifo(true), cap);
    PushNothing(pool.Fifo(false), cap);
    if |pos| > 0 {
      var ring := InsertBlock(pool.positive, pos, cap);
      r := r.(positive := ring);
    }
    if |neg| > 0 && !positiveOnly {
      var ring := InsertBlock(pool.negative.value, neg, cap);
      r := r.(negative := Some(ring));
    }
  }

  ghost function FifoOf(pools: map<string, DualPool>, t: string, isPositive: bool): seq<Row> {
    if t in pools then pools[t].Fifo(isPositive) else []
  }

  lemma AllListed(order: seq<string>, keys: set<string>)
    requires Lists(order, keys)
    ensures SetOf(order[..0]) == {} && SetOf(order[..|order|]) == keys
  {
    assert order[..|order|] == order;
  }

  lemma NextListed(order: seq<string>, keys: set<string>, i: nat)
    requires Lists(order, keys) && i < |order|
    ensures order[i] in keys && order[i] !in SetOf(order[..i])
    ensures SetOf(order[..i + 1]) == SetOf(order[..i]) + {order[i]}
  {
    assert order[..i + 1] == order[..i] + [order[i]];
  }

  lemma ListsKeys(order: seq<string>, keys: set<string>)
    requires Lists(order, keys)
    ensures forall t :: t in order <==> t in keys
    ensures forall i, j :: 0 <= i < j < |order| ==> order[i] != order[j]
  {
  }

  function Sizes(order: seq<string>, pools: map<string, DualPool>, isPositive: bool): (sizes: seq<nat>)
    requires forall t :: t in order ==> t in pools
    ensures |sizes| == |order|
  {
    seq(|order|, i requires 0 <= i < |order| => pools[order[i]].Size(isPositive))
  }

  //////////////////////////// Sampling across tasks ////////////////////////////

  /** The tasks that hold any row of the polarity, in dictionary order. */
  function Live(order: seq<string>, pools: map<string, DualPool>, isPositive: bool): (live: seq<string>)
    requires forall t :: t in order ==> t in pools
    ensures forall t :: t in live ==> t in order
  {
    if order == [] then []
    else
      var last := order[|order| - 1];
      Live(order[..|order| - 1], pools, isPositive) + if pools[last].Size(isPositive) > 0 then [last] else []
  }

  /** Exactly the tasks that hold rows of the polarity, in the order of the tasks. */
  lemma {:induction false} LiveMembers(order: seq<string>, pools: map<string, DualPool>, isPositive: bool, t: string)
    requires forall u :: u in order ==> u in pools
    ensures t in Live(order, pools, isPositive) <==> t in order && pools[t].Size(isPositive) > 0
  {
    hide DualPool.Size;
    if order != [] {
      LiveMembers(order[..|order| - 1], pools, isPositive, t);
      assert order == order[..|order| - 1] + [order[|order| - 1]];
    }
  }

  lemma {:induction false} LiveKeepsOrder(order: seq<string>, pools: map<string, DualPool>, isPositive: bool, a: nat, b: nat)
    returns (i: nat, j: nat)
    requires forall u :: u in order ==> u in pools
    requires a < b < |Live(order, pools, isPositive)|
    ensures i < j < |order| && order[i] == Live(order, pools, isPositive)[a] && order[j] == Live(order, pools, isPositive)[b]
  {
    hide DualPool.Size;
    var front := order[..|order| - 1];
    var live := Live(front, pools, isPositive);
    if b < |live| {
      i, j := LiveKeepsOrder(front, pools, isPositive, a, b);
    } else {
      assert live[a] in live && live[a] in front;
      i :| 0 <= i < |front| && front[i] == live[a];
      j := |front|;
    }
  }

  lemma SizesAppend(order: seq<string>, t: string, pools: map<string, DualPool>, isPositive: bool)
    requires (forall u :: u in order ==> u in pools) && t in pools
    ensures SumNat(Sizes(order + [t], pools, isPositive)) == SumNat(Sizes(order, pools, isPositive)) + pools[t].Size(isPositive)
  {
    hide DualPool.Size;
    var sizes := Sizes(order + [t], pools, isPositive);
    assert sizes[..|sizes| - 1] == Sizes(order, pools, isPositive);
  }

  lemma {:induction false} LiveHoldsEverything(order: seq<string>, pools: map<string, DualPool>, isPositive: bool)
    requires forall t :: t in order ==> t in pools
    ensures SumNat(Sizes(Live(order, pools, isPositive), pools, isPositive))
         == SumNat(Sizes(order, pools, isPositive))
  {
    hide Sizes, SumNat, DualPool.Size;
    if order != [] {
      var front, last := order[..|order| - 1], order[|order| - 1];
      assert order == front + [last];
      LiveHoldsEverything(front, pools, isPositive);
      SizesAppend(front, last, pools, isPositive);
      SizesAppend(Live(front, pools, isPositive), last, pools, isPositive);
      var live := Live(front, pools, isPositive);
      assert Live(order, pools, isPositive) == if pools[last].Size(isPositive) > 0 then live + [last] else live;
    } else {
      assert Live(order, pools, isPositive) == order;
    }
  }

  ghost function Lengths(parts: seq<seq<Row>>): (lengths: seq<nat>)
    ensures |lengths| == |parts|
  {
    seq(|parts|, i requires 0 <= i < |parts| => |parts[i]|)
  }

  lemma AppendPart(parts: seq<seq<Row>>, part: seq<Row>)
    ensures Lengths(parts + [part]) == Lengths(parts) + [|part|]
    ensures Flatten(parts + [part]) == Flatten(parts) + part
  {
    assert (parts + [part])[..|parts|] == parts;
  }

  lemma {:induction false} FlattenLength(parts: seq<seq<Row>>)
    ensures |Flatten(parts)| == SumNat(Lengths(parts))
  {
    if parts != [] {
      FlattenLength(parts[..|parts| - 1]);
      assert Lengths(parts)[..|parts| - 1] == Lengths(parts[..|parts| - 1]);
    }
  }

  /** `parts[i]` was drawn without repetition from task `live[i]`. */
  ghost predicate DrawnFrom(parts: seq<seq<Row>>, live: seq<string>, pools: map<string, DualPool>, isPositive: bool) {
    && |parts| <= |live|
    && forall i :: 0 <= i < |parts| ==> multiset(parts[i]) <= multiset(FifoOf(pools, live[i], isPositive))
  }

  /** The draw is a level division of the request over the live tasks, each part drawn without repetition. */
  ghost predicate FairDraw(rows: seq<Row>, live: seq<string>, pools: map<string, DualPool>, isPositive: bool) {
    exists parts, level, cut ::
      && rows == Flatten(parts)
      && |parts| == |live|
      && DrawnFrom(parts, live, pools, isPositive)
      && (forall t :: t in live ==> t in pools)
      && Allocation.Leveled(Lengths(parts), Sizes(live, pools, isPositive), level, cut)
  }

  /** One task's share; a share of zero is never drawn. */
  method DrawShare(pool: DualPool, share: nat, isPositive: bool, cap: nat, positiveOnly: bool) returns (part: seq<Row>)
    requires pool.Ok(cap, positiveOnly) && share <= pool.Size(isPositive)
    ensures |part| == share && multiset(part) <= multiset(pool.Fifo(isPositive)) && Labeled(part, isPositive)
  {
    part := [];
    if share > 0 {
      part := SampleFromRing(if isPositive then pool.positive else pool.negative.value, share, cap);
      SubMultisetLabeled(part, pool.Fifo(isPositive), isPositive);
    }
  }

  lemma NoDraw(live: seq<string>, pools: map<string, DualPool>, isPositive: bool)
    ensures DrawnFrom([], live, pools, isPositive) && Labeled([], isPositive) && Lengths([]) == []
  {
  }

  lemma ExtendDraw(parts: seq<seq<Row>>, part: seq<Row>, rows: seq<Row>, live: seq<string>, pools: map<string, DualPool>, isPositive: bool)
    requires DrawnFrom(parts, live, pools, isPositive) && |parts| < |live|
    requires multiset(part) <= multiset(FifoOf(pools, live[|parts|], isPositive))
    requires Labeled(rows, isPositive) && Labeled(part, isPositive)
    ensures DrawnFrom(parts + [part], live, pools, isPositive) && Labeled(rows + part, isPositive)
  {
    hide FifoOf;
  }

  method DrawShares(live: seq<string>, pools: map<string, DualPool>, shares: seq<nat>, isPositive: bool,
                    cap: nat, positiveOnly: bool) returns (rows: seq<Row>, ghost parts: seq<seq<Row>>)
    requires forall t :: t in live ==> t in pools && pools[t].Ok(cap, positiveOnly)
    requires |shares| == |live| && forall i :: 0 <= i < |live| ==> shares[i] <= Sizes(live, pools, isPositive)[i]
    ensures rows == Flatten(parts) && Lengths(parts) == shares
    ensures DrawnFrom(parts, live, pools, isPositive) && Labeled(rows, isPositive)
  {
    hide DualPool.Ok, DualPool.Fifo, DualPool.Size, Lengths, DrawnFrom, Labeled;
    rows, parts := [], [];
    NoDraw(live, pools, isPositive);
    for i := 0 to |live|
      invariant |parts| == i && rows == Flatten(parts)
      invariant DrawnFrom(parts, live, pools, isPositive)
      invariant Lengths(parts) == shares[..i]
      invariant Labeled(rows, isPositive)
    {
      var part := DrawShare(pools[live[i]], shares[i], isPositive, cap, positiveOnly);
      AppendPart(parts, part);
      ExtendDraw(parts, part, rows, live, pools, isPositive);
      assert shares[..i + 1] == shares[..i] + [shares[i]];
      parts := parts + [part];
      rows := rows + part;
    }
    assert shares[..|live|] == shares;
  }

  method SampleFromTaskPools(order: seq<string>, pools: map<string, DualPool>, count: nat, isPositive: bool,
                             cap: nat, positiveOnly: bool) returns (rows: seq<Row>)
    requires (forall t :: t in order ==> t in pools) && forall t :: t in pools ==> pools[t].Ok(cap, positiveOnly)
    requires count <= SumNat(Sizes(order, pools, isPositive))
    ensures |rows| == count
    ensures FairDraw(rows, Live(order, pools, isPositive), pools, isPositive)
    ensures Labeled(rows, isPositive)
  {
    hide DualPool.Ok, DualPool.Size, Live, DrawnFrom, Lengths, Sizes;
    var live := Live(order, pools, isPositive);
    LiveHoldsEverything(order, pools, isPositive);
    var division := Allocation.AllocateCounts(Sizes(live, pools, isPositive), count);
    ghost var level, cut :| Allocation.Leveled(division.value, Sizes(live, pools, isPositive), level, cut);
    Allocation.LeveledWithin(division.value, Sizes(live, pools, isPositive), level, cut);
    ghost var parts;
    rows, parts := DrawShares(live, pools, division.value, isPositive, cap, positiveOnly);
    FlattenLength(parts);
  }

  lemma SubMultisetLabeled(part: seq<Row>, fifo: seq<Row>, isPositive: bool)
    requires multiset(part) <= multiset(fifo) && Labeled(fifo, isPositive)
    ensures Labeled(part, isPositive)
  {
    forall i | 0 <= i < |part| ensures part[i].valid && part[i].success == isPositive {
      assert part[i] in multiset(part);
      assert part[i] in multiset(fifo);
      assert part[i] in fifo;
    }
  }

  //////////////////////////// Padding and shuffling ////////////////////////////

  function Repeat(row: Row, n: nat): seq<Row> {
    seq(n, _ => row)
  }

  function Valids(rows: seq<Row>): seq<Row> {
    if rows == [] then []
    else Valids(rows[..|rows| - 1]) + if rows[|rows| - 1].valid then [rows[|rows| - 1]] else []
  }

  lemma {:induction false} ValidsMultiplicity(rows: seq<Row>, x: Row)
    ensures multiset(Valids(rows))[x] == if x.valid then multiset(rows)[x] else 0
  {
    if rows != [] {
      assert rows == rows[..|rows| - 1] + [rows[|rows| - 1]];
      ValidsMultiplicity(rows[..|rows| - 1], x);
    }
  }

  lemma ValidsOfPermuted(rows: seq<Row>, shuffled: seq<Row>)
    requires multiset(rows) == multiset(shuffled)
    ensures multiset(Valids(rows)) == multiset(Valids(shuffled))
  {
    forall x ensures multiset(Valids(rows))[x] == multiset(Valids(shuffled))[x] {
      ValidsMultiplicity(rows, x);
      ValidsMultiplicity(shuffled, x);
    }
  }

  lemma {:induction false} ValidsAppend(a: seq<Row>, b: seq<Row>)
    ensures Valids(a + b) == Valids(a) + Valids(b)
  {
    if b == [] {
      assert a + b == a;
    } else {
      var front, last := b[..|b| - 1], b[|b| - 1];
      assert (a + b)[..|a + b| - 1] == a + front;
      ValidsAppend(a, front);
      assert Valids(a + b) == (Valids(a) + Valids(front)) + if last.valid then [last] else [];
    }
  }

  lemma {:induction false} ValidsUniform(rows: seq<Row>, valid: bool)
    requires forall i :: 0 <= i < |rows| ==> rows[i].valid == valid
    ensures Valids(rows) == if valid then rows else []
  {
    if rows != [] {
      ValidsUniform(rows[..|rows| - 1], valid);
    }
  }

  /** The returned batch holds exactly the drawn rows, shuffled, and invalidated copies of drawn rows. */
  ghost predicate PadsTo(out: seq<Row>, drawn: seq<Row>, batchSize: nat) {
    && |out| == batchSize
    && multiset(Valids(out)) == multiset(drawn)
    && forall i :: 0 <= i < |out| && !out[i].valid ==> exists k :: 0 <= k < |drawn| && out[i] == drawn[k].(valid := false)
  }

  /** _pad_sampled_batch followed by the shuffle. */
  method PadAndShuffle(drawn: seq<Row>, batchSize: nat) returns (out: seq<Row>)
    requires 0 < |drawn| <= batchSize && forall i :: 0 <= i < |drawn| ==> drawn[i].valid
    ensures PadsTo(out, drawn, batchSize)
  {
    hide Valids, DistinctBelow, Gather;
    var pads := seq(batchSize - |drawn|, _ => drawn[0].(valid := false));
    var padded := drawn + pads;
    var shuffle := RandPerm(batchSize);
    out := Shuffle(padded, shuffle);
    PaddedShape(drawn, pads, out);
  }

  method Shuffle(rows: seq<Row>, shuffle: seq<nat>) returns (out: seq<Row>)
    requires |shuffle| == |rows| && DistinctBelow(shuffle, |rows|)
    ensures |out| == |rows| && multiset(out) == multiset(rows)
  {
    out := seq(|rows|, i requires 0 <= i < |rows| => rows[shuffle[i]]);
    assert out == Gather(rows, shuffle);
    PermutationKeepsMultiset(rows, shuffle);
  }

  lemma PaddedShape(drawn: seq<Row>, pads: seq<Row>, out: seq<Row>)
    requires |drawn| > 0 && forall i :: 0 <= i < |drawn| ==> drawn[i].valid
    requires forall i :: 0 <= i < |pads| ==> pads[i] == drawn[0].(valid := false)
    requires |out| == |drawn + pads| && multiset(out) == multiset(drawn + pads)
    ensures PadsTo(out, drawn, |drawn| + |pads|)
  {
    hide Valids;
    ValidsAppend(drawn, pads);
    ValidsUniform(drawn, true);
    ValidsUniform(pads, false);
    ValidsOfPermuted(drawn + pads, out);
    assert Valids(drawn + pads) == drawn;
    forall i | 0 <= i < |out| && !out[i].valid ensures exists k :: 0 <= k < |drawn| && out[i] == drawn[k].(valid := false) {
      assert out[i] in multiset(out);
      assert out[i] in drawn + pads;
    }
  }

  /** What the tasks in `done` gained from the kept rows, and that all others are as before. */
  ghost predicate Pushed(before: map<string, DualPool>, pools: map<string, DualPool>, kept: seq<Tagged>, done: set<string>, cap: nat) {
    && pools.Keys == before.Keys + done
    && forall t, s :: FifoOf(pools, t, s)
         == if t in done then Push(FifoOf(before, t, s), Select(kept, t, s), cap) else FifoOf(before, t, s)
  }

  lemma NonePushed(pools: map<string, DualPool>, kept: seq<Tagged>, cap: nat)
    ensures Pushed(pools, pools, kept, {}, cap)
  {
  }

  lemma PushedExtends(before: map<string, DualPool>, pools: map<string, DualPool>, kept: seq<Tagged>, done: set<string>,
                      cap: nat, t: string, pool: DualPool)
    requires Pushed(before, pools, kept, done, cap) && t !in done
    requires forall s :: pool.Fifo(s) == Push(FifoOf(pools, t, s), Select(kept, t, s), cap)
    ensures Pushed(before, pools[t := pool], kept, done + {t}, cap)
  {
    hide Push, DualPool.Fifo, Select;
    forall u, s ensures FifoOf(pools[t := pool], u, s)
      == if u in done + {t} then Push(FifoOf(before, u, s), Select(kept, u, s), cap) else FifoOf(before, u, s)
    {
      if u != t {
        assert FifoOf(pools[t := pool], u, s) == FifoOf(pools, u, s);
      }
    }
  }

  class SACReplayPool {
    const capacity: nat
    const positiveOnly: bool
    var taskPools: map<string, DualPool>
    /** The dictionary's keys in insertion order. */
    var taskOrder: seq<string>
    var size: nat
    var positiveSize: nat
    var negativeSize: nat
    var invalidSample: Option<Row>

    ghost predicate PoolsValid()
      reads this
    {
      && capacity > 0
      && Lists(taskOrder, taskPools.Keys)
      && forall t :: t in taskPools ==> taskPools[t].Ok(capacity, positiveOnly)
    }

    ghost predicate Valid()
      reads this
    {
      && PoolsValid()
      && positiveSize == SumNat(Sizes(taskOrder, taskPools, true))
      && negativeSize == SumNat(Sizes(taskOrder, taskPools, false))
      && size == positiveSize + negativeSize
    }

    constructor (capacity: nat, positiveOnly: bool)
      requires capacity > 0
      ensures Valid() && taskPools == map[] && invalidSample == None
      ensures this.capacity == capacity && this.positiveOnly == positiveOnly
    {
      this.capacity, this.positiveOnly := capacity, positiveOnly;
      taskPools, taskOrder, size, positiveSize, negativeSize, invalidSample := map[], [], 0, 0, 0, None;
    }

    /** One task's share of a batch; its pool is created first if needed. */
    method AddToTask(t: string, pos: seq<Row>, neg: seq<Row>) returns (pool: DualPool)
      requires PoolsValid() && Labeled(pos, true) && Labeled(neg, false) && (positiveOnly ==> neg == [])
      modifies this`taskPools, this`taskOrder
      ensures PoolsValid()
      ensures taskOrder == if t in old(taskPools) then old(taskOrder) else old(taskOrder) + [t]
      ensures taskPools == old(taskPools)[t := pool]
      ensures pool.Fifo(true) == Push(FifoOf(old(taskPools), t, true), pos, capacity)
      ensures pool.Fifo(false) == Push(FifoOf(old(taskPools), t, false), neg, capacity)
    {
      hide Push, DualPool.Fifo, Labeled, Lists, DualPool.Ok, FifoOf;
      var before := GetOrCreateTaskPool(t);
      pool := InsertBoth(before, pos, neg, capacity, positiveOnly);
      ghost var keys := taskPools.Keys;
      taskPools := taskPools[t := pool];
      assert taskPools.Keys == keys;
    }

    method GetOrCreateTaskPool(t: string) returns (pool: DualPool)
      requires PoolsValid()
      modifies this`taskPools, this`taskOrder
      ensures PoolsValid() && pool.Ok(capacity, positiveOnly)
      ensures taskOrder == if t in old(taskPools) then old(taskOrder) else old(taskOrder) + [t]
      ensures taskPools == old(taskPools)[t := pool]
      ensures pool.Fifo(true) == FifoOf(old(taskPools), t, true) && pool.Fifo(false) == FifoOf(old(taskPools), t, false)
    {
      if t in taskPools {
        return taskPools[t];
      }
      var blank := Ring(seq(capacity, _ => Row(0, false, false)), 0, 0);
      pool := DualPool(blank, if positiveOnly then None else Some(blank));
      taskPools := taskPools[t := pool];
      taskOrder := taskOrder + [t];
    }

    method RefreshGlobalStats()
      requires PoolsValid()
      modifies this`size, this`positiveSize, this`negativeSize
      ensures Valid()
    {
      hide DualPool.Ok, DualPool.Fifo, Labeled, DualPool.Size, Lists;
      assert forall t :: t in taskOrder ==> t in taskPools by { ListsKeys(taskOrder, taskPools.Keys); }
      positiveSize, negativeSize := 0, 0;
      ghost var p, n := Sizes(taskOrder, taskPools, true), Sizes(taskOrder, taskPools, false);
      for i := 0 to |taskOrder|
        invariant positiveSize == SumNat(p[..i]) && negativeSize == SumNat(n[..i])
      {
        assert p[..i + 1] == p[..i] + [p[i]] && n[..i + 1] == n[..i] + [n[i]];
        assert p[..i + 1][..i] == p[..i] && n[..i + 1][..i] == n[..i];
        positiveSize := positiveSize + taskPools[taskOrder[i]].Size(true);
        negativeSize := negativeSize + taskPools[taskOrder[i]].Size(false);
      }
      assert p[..|taskOrder|] == p && n[..|taskOrder|] == n;
      size := positiveSize + negativeSize;
    }

    method AddGroups(kept: seq<Tagged>, order: seq<string>, positives: map<string, seq<Row>>, negatives: map<string, seq<Row>>)
      requires PoolsValid()
      requires forall i :: 0 <= i < |kept| ==> kept[i].row.valid && (positiveOnly ==> kept[i].row.success)
      requires Lists(order, positives.Keys) && positives.Keys == negatives.Keys
      requires forall t :: t in positives ==> positives[t] == Select(kept, t, true) && negatives[t] == Select(kept, t, false)
      modifies this`taskPools, this`taskOrder
      ensures PoolsValid() && old(taskOrder) <= taskOrder
      ensures Pushed(old(taskPools), taskPools, kept, positives.Keys, capacity)
    {
      hide Push, DualPool.Fifo, Labeled, Lists, Pushed, Select, FifoOf, PoolsValid, SetOf;
      CapacityPositive();
      AllListed(order, positives.Keys);
      NonePushed(taskPools, kept, capacity);
      for i := 0 to |order|
        invariant PoolsValid() && old(taskOrder) <= taskOrder
        invariant Pushed(old(taskPools), taskPools, kept, SetOf(order[..i]), capacity)
      {
        var t := order[i];
        NextListed(order, positives.Keys, i);
        SelectIsLabeled(kept, t, true);
        SelectIsLabeled(kept, t, false);
        ghost var before := taskPools;
        var pool := AddToTask(t, positives[t], negatives[t]);
        PushedExtends(old(taskPools), before, kept, SetOf(order[..i]), capacity, t, pool);
      }
    }

    lemma CapacityPositive()
      requires PoolsValid()
      ensures capacity > 0
    {
    }

    /** Every task's FIFO is pushed by its valid rows of the batch, in batch order, and nothing else changes. */
    method AddBatch(batch: seq<Row>, tasks: seq<string>) returns (r: Result<(), PoolError>)
      requires Valid()
      modifies this
      ensures Valid()
      ensures r.Err? <==> batch != [] && |tasks| != |batch|
      ensures r.Err? || batch == [] ==> taskPools == old(taskPools) && taskOrder == old(taskOrder)
      ensures r.Ok? && batch != [] ==>
        var kept := Kept(batch, tasks, positiveOnly);
        && (forall t, s :: FifoOf(taskPools, t, s) == Push(FifoOf(old(taskPools), t, s), Select(kept, t, s), capacity))
        && (forall t :: t in taskPools <==> t in old(taskPools) || TaskSeen(kept, t))
        && old(taskOrder) <= taskOrder
        && invalidSample == if kept == [] && old(size) == 0 && old(invalidSample) == None then Some(batch[0]) else old(invalidSample)
    {
      hide Push, DualPool.Fifo, Labeled, DualPool.Ok, Lists, TaskSeen, Select;
      if |batch| == 0 {
        return Ok(());
      }
      if |tasks| != |batch| {
        return Err(LengthMismatch);
      }
      var kept := FilterValid(batch, tasks, positiveOnly);
      NothingPushed(taskPools);
      if |kept| == 0 {
        NothingSeen(kept);
        forall t, s ensures Select(kept, t, s) == [] {
          SelectNone(kept, t);
        }
        if size == 0 && invalidSample == None {
          invalidSample := Some(batch[0]);
        }
        return Ok(());
      }
      KeptIsValid(batch, tasks, positiveOnly);
      var order, positives, negatives := Group(kept);
      AddGroups(kept, order, positives, negatives);
      forall t, s | t !in positives ensures Select(kept, t, s) == [] {
        SelectNone(kept, t);
      }
      RefreshGlobalStats();
      return Ok(());
    }

    lemma NothingPushed(pools: map<string, DualPool>)
      requires capacity > 0 && forall t :: t in pools ==> pools[t].Ok(capacity, positiveOnly)
      ensures forall t, s :: FifoOf(pools, t, s) == Push(FifoOf(pools, t, s), [], capacity)
    {
      forall t, s ensures FifoOf(pools, t, s) == Push(FifoOf(pools, t, s), [], capacity) {
        PushNothing(FifoOf(pools, t, s), capacity);
      }
    }

    /**
     Sampling from a non-empty pool: `batchSize` rows of which min(batchSize, size) are valid. The valid
     ones are the drawn positives and negatives, divided as close to the request as the pools allow,
     each polarity a fair draw over its tasks.
     */
    method SampleBatch(batchSize: nat, ratio: real)
      returns (r: Result<seq<Row>, PoolError>, positives: nat, negatives: nat, ghost pos: seq<Row>, ghost neg: seq<Row>)
      requires Valid() && batchSize > 0
      ensures r.Err? <==> size == 0 && invalidSample == None
      ensures size == 0 && r.Ok? ==> r.value == Repeat(invalidSample.value.(valid := false), batchSize)
      ensures size > 0 ==>
        && positives + negatives == Min(batchSize, size) == |Valids(r.value)|
        && ClosestTo(TargetPositive(batchSize, ratio, positiveOnly), positives, positives + negatives, positiveSize, negativeSize)
        && |pos| == positives && |neg| == negatives
        && Labeled(pos, true) && Labeled(neg, false)
        && (positives > 0 ==> FairDraw(pos, Live(taskOrder, taskPools, true), taskPools, true))
        && (negatives > 0 ==> FairDraw(neg, Live(taskOrder, taskPools, false), taskPools, false))
        && PadsTo(r.value, pos + neg, batchSize)
    {
      hide DualPool.Ok, DualPool.Fifo, FairDraw, Live, Sizes, ClosestTo, PadsTo;
      positives, negatives, pos, neg := 0, 0, [], [];
      if size == 0 {
        if invalidSample == None {
          return Err(EmptyPool), 0, 0, [], [];
        }
        var row := invalidSample.value.(valid := false);
        return Ok(Repeat(row, batchSize)), 0, 0, [], [];
      }
      var target := TargetPositive(batchSize, ratio, positiveOnly);
      positives, negatives := SplitRequest(batchSize, target, positiveSize, negativeSize);
      var drawn: seq<Row> := [];
      if positives > 0 {
        var part := SampleFromTaskPools(taskOrder, taskPools, positives, true, capacity, positiveOnly);
        drawn, pos := part, part;
      }
      if negatives > 0 {
        var part := SampleFromTaskPools(taskOrder, taskPools, negatives, false, capacity, positiveOnly);
        drawn, neg := drawn + part, part;
      }
      assert drawn == pos + neg;
      var out := PadAndShuffle(drawn, batchSize);
      PadsToCounts(out, drawn, batchSize);
      r := Ok(out);
    }
  }

  lemma PadsToCounts(out: seq<Row>, drawn: seq<Row>, batchSize: nat)
    requires PadsTo(out, drawn, batchSize)
    ensures |Valids(out)| == |drawn|
  {
    assert |multiset(Valids(out))| == |multiset(drawn)|;
  }

  //////////////////////////// Streams of batches ////////////////////////////

  datatype Batch = Batch(rows: seq<Row>, tasks: seq<string>)

  /** What one batch contributes to a task and polarity; a mismatched batch is rejected whole. */
  ghost function BlockOf(b: Batch, positiveOnly: bool, t: string, isPositive: bool): seq<Row> {
    if |b.rows| == |b.tasks| then Select(Kept(b.rows, b.tasks, positiveOnly), t, isPositive) else []
  }

  ghost function BlocksOf(stream: seq<Batch>, positiveOnly: bool, t: string, isPositive: bool): (blocks: seq<seq<Row>>)
    ensures |blocks| == |stream|
  {
    seq(|stream|, i requires 0 <= i < |stream| => BlockOf(stream[i], positiveOnly, t, isPositive))
  }

  /** A batch is a push of its block on every FIFO, also when it is empty or rejected. */
  method AddOne(pool: SACReplayPool, batch: Batch)
    requires pool.Valid()
    modifies pool
    ensures pool.Valid()
    ensures forall t, s ::
      FifoOf(pool.taskPools, t, s)
      == Push(FifoOf(old(pool.taskPools), t, s), BlockOf(batch, pool.positiveOnly, t, s), pool.capacity)
  {
    hide FifoOf, Push, Labeled, DualPool.Ok, DualPool.Fifo, Lists, TaskSeen;
    pool.NothingPushed(pool.taskPools);
    var r := pool.AddBatch(batch.rows, batch.tasks);
  }

  /**
   After any sequence of batches, every task's FIFO of either polarity is the most recent `capacity` of
   the rows inserted for it, each batch first cut to its leading `capacity` rows.
   */
  method Ingest(capacity: nat, positiveOnly: bool, stream: seq<Batch>) returns (pool: SACReplayPool)
    requires capacity > 0
    ensures fresh(pool) && pool.Valid() && pool.capacity == capacity
    ensures forall t, s :: FifoOf(pool.taskPools, t, s) == LastN(CutAll(BlocksOf(stream, positiveOnly, t, s), capacity), capacity)
  {
    hide FifoOf, Push, LastN, CutAll, BlocksOf, BlockOf, Labeled, DualPool.Ok, Lists, TaskSeen;
    pool := new SACReplayPool(capacity, positiveOnly);
    NothingIngested(pool, positiveOnly);
    for i := 0 to |stream|
      invariant fresh(pool) && pool.Valid() && pool.capacity == capacity && pool.positiveOnly == positiveOnly
      invariant forall t, s :: FifoOf(pool.taskPools, t, s) == PushAll(BlocksOf(stream[..i], positiveOnly, t, s), capacity)
    {
      AddOne(pool, stream[i]);
      forall t, s ensures FifoOf(pool.taskPools, t, s) == PushAll(BlocksOf(stream[..i + 1], positiveOnly, t, s), capacity) {
        StreamStep(stream, i, capacity, positiveOnly, t, s);
      }
    }
    assert stream[..|stream|] == stream;
    forall t, s ensures FifoOf(pool.taskPools, t, s) == LastN(CutAll(BlocksOf(stream, positiveOnly, t, s), capacity), capacity) {
      PushAllKeepsMostRecent(BlocksOf(stream, positiveOnly, t, s), capacity);
    }
  }

  lemma NothingIngested(pool: SACReplayPool, positiveOnly: bool)
    requires pool.taskPools == map[]
    ensures forall t, s :: FifoOf(pool.taskPools, t, s) == PushAll(BlocksOf([], positiveOnly, t, s), pool.capacity)
  {
  }

  lemma StreamStep(stream: seq<Batch>, i: nat, cap: nat, positiveOnly: bool, t: string, s: bool)
    requires i < |stream|
    ensures PushAll(BlocksOf(stream[..i + 1], positiveOnly, t, s), cap)
         == Push(PushAll(BlocksOf(stream[..i], positiveOnly, t, s), cap), BlockOf(stream[i], positiveOnly, t, s), cap)
    ensures |PushAll(BlocksOf(stream[..i], positiveOnly, t, s), cap)| <= cap
  {
    var blocks := BlocksOf(stream[..i + 1], positiveOnly, t, s);
    assert blocks[..i] == BlocksOf(stream[..i], positiveOnly, t, s);
    PushAllKeepsMostRecent(blocks[..i], cap);
  }
}
