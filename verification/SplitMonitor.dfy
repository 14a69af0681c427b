/**
 The split-evaluation monitor: which physical lane runs which work item in each launch mode, what the
 monitor charges to each lane, and how it resubmits lanes.
 */
module SplitMonitor {
  import opened Common
  import opened EvalItems
  import opened Coalescing
  import Arithmetic

  //////////////////////////// What the lanes run ////////////////////////////

  /** The bundles of one lane under an ownership rule. */
  function Owned(bundles: seq<seq<Item>>, owner: nat -> nat, lane: nat): seq<seq<Item>> {
    if bundles == [] then []
    else Owned(bundles[..|bundles| - 1], owner, lane)
         + if owner(|bundles| - 1) == lane then [bundles[|bundles| - 1]] else []
  }

  /** Round robin over `lanes`. */
  function RoundRobin(lanes: nat): nat -> nat
    requires lanes > 0
  {
    i => i % lanes
  }

  /** The physical lane of item `i` when each physical lane runs `evaluators` logical lanes. */
  function PackedOwner(lanes: nat, evaluators: nat, i: nat): nat
    requires lanes * evaluators > 0 && evaluators > 0
  {
    i % (lanes * evaluators) / evaluators
  }

  /** Every item on its own. */
  function Singles(items: seq<Item>): (bundles: seq<seq<Item>>)
    ensures |bundles| == |items|
  {
    seq(|items|, i requires 0 <= i < |items| => [items[i]])
  }

  datatype LaneError = BadLane | BadCount | EmptyPlan | EmptyBundle | DuplicateItem | UnknownItem

  /** command_lane and the coalesced lane commands: the lane's bundles, in manifest order. */
  method RunLane(bundles: seq<seq<Item>>, laneCount: nat, lane: int) returns (r: Result<seq<seq<Item>>, LaneError>)
    ensures r.Err? <==> !(0 <= lane < laneCount)
    ensures r.Ok? ==> laneCount > 0 && r.value == Owned(bundles, RoundRobin(laneCount), lane)
  {
    if !(0 <= lane < laneCount) {
      return Err(BadLane);
    }
    var own := [];
    for i := 0 to |bundles|
      invariant own == Owned(bundles[..i], RoundRobin(laneCount), lane)
    {
      assert bundles[..i + 1][..i] == bundles[..i];
      if i % laneCount == lane {
        own := own + [bundles[i]];
      }
    }
    assert bundles[..|bundles|] == bundles;
    r := Ok(own);
  }

  /** packed_logical_lanes. */
  function PackedLogicalLanes(physical: int, lanes: int, evaluators: int): (r: Result<seq<nat>, LaneError>)
    ensures r.Ok? <==> lanes >= 1 && evaluators >= 1 && 0 <= physical < lanes
    ensures r.Ok? ==> |r.value| == evaluators && forall e :: 0 <= e < evaluators ==> r.value[e] == physical * evaluators + e
  {
    if lanes < 1 || evaluators < 1 then Err(BadCount)
    else if !(0 <= physical < lanes) then Err(BadLane)
    else
      Arithmetic.ProductNonNegative(physical, evaluators);
      Ok(seq(evaluators, e requires 0 <= e => physical * evaluators + e))
  }

  /** The items of the first `n` logical lanes of a physical lane. */
  function PackedRuns(items: seq<Item>, lanes: nat, evaluators: nat, physical: nat, n: nat): seq<Item>
    requires lanes * evaluators > 0
  {
    if n == 0 then []
    else
      Arithmetic.ProductNonNegative(physical, evaluators);
      PackedRuns(items, lanes, evaluators, physical, n - 1)
      + Flatten(Owned(Singles(items), RoundRobin(lanes * evaluators), physical * evaluators + (n - 1)))
  }

  /** command_packed_lane: every logical lane of the physical lane runs its items, lane after lane. */
  method RunPackedLane(items: seq<Item>, physical: int, lanes: int, evaluators: int) returns (r: Result<seq<Item>, LaneError>)
    ensures r.Ok? <==> lanes >= 1 && evaluators >= 1 && 0 <= physical < lanes
    ensures r.Ok? ==> lanes * evaluators > 0 && r.value == PackedRuns(items, lanes, evaluators, physical, evaluators)
  {
    hide Flatten, Owned;
    var logical := PackedLogicalLanes(physical, lanes, evaluators);
    if logical.Err? {
      return Err(logical.error);
    }
    Arithmetic.ProductMonotone(1, lanes, evaluators);
    var runs := [];
    for e := 0 to evaluators
      invariant runs == PackedRuns(items, lanes, evaluators, physical, e)
    {
      LogicalLaneInRange(lanes, evaluators, physical, e);
      var lane := RunLane(Singles(items), lanes * evaluators, logical.value[e]);
      runs := runs + Flatten(lane.value);
    }
    r := Ok(runs);
  }

  lemma LogicalLaneInRange(lanes: nat, evaluators: nat, physical: nat, e: nat)
    requires physical < lanes && e < evaluators
    ensures 0 <= physical * evaluators + e < lanes * evaluators
  {
    Arithmetic.ProductNonNegative(physical, evaluators);
    Arithmetic.ProductMonotone(physical + 1, lanes, evaluators);
    assert (physical + 1) * evaluators == physical * evaluators + evaluators;
  }

  datatype Mode = Packed(evaluators: nat) | Coalesced(size: nat) | Plan(bundles: seq<seq<Item>>)

  predicate ModeOk(mode: Mode) {
    match mode
    case Packed(e) => e > 0
    case Coalesced(size) => size > 0
    case Plan(_) => true
  }

  /** All items a mode is responsible for. */
  function Covered(items: seq<Item>, mode: Mode): seq<Item>
    requires ModeOk(mode)
  {
    match mode
    case Packed(_) => items
    case Coalesced(size) => Flatten(Bundles(items, size))
    case Plan(bundles) => Flatten(bundles)
  }

  /** What one physical lane runs. */
  function Runs(items: seq<Item>, lanes: nat, mode: Mode, lane: nat): seq<Item>
    requires ModeOk(mode) && lanes > 0
  {
    match mode
    case Packed(e) => Arithmetic.ProductMonotone(1, lanes, e); PackedRuns(items, lanes, e, lane, e)
    case Coalesced(size) => Flatten(Owned(Bundles(items, size), RoundRobin(lanes), lane))
    case Plan(bundles) => Flatten(Owned(bundles, RoundRobin(lanes), lane))
  }

  //////////////////////////// Ownership by weight ////////////////////////////

  /** The weight charged to a lane: that of its bundles. */
  function Charged(bundles: seq<seq<Item>>, owner: nat -> nat, lane: nat, f: Item -> nat): nat {
    if bundles == [] then 0
    else Charged(bundles[..|bundles| - 1], owner, lane, f)
         + if owner(|bundles| - 1) == lane then Weight(bundles[|bundles| - 1], f) else 0
  }

  /** A lane is charged exactly what it runs. */
  lemma {:induction false} ChargedIsRun(bundles: seq<seq<Item>>, owner: nat -> nat, lane: nat, f: Item -> nat)
    ensures Charged(bundles, owner, lane, f) == Weight(Flatten(Owned(bundles, owner, lane)), f)
  {
    hide Flatten;
    if bundles == [] {
      FlattenNothing<Item>();
    } else {
      var front, last := bundles[..|bundles| - 1], bundles[|bundles| - 1];
      ChargedIsRun(front, owner, lane, f);
      var own := Owned(front, owner, lane);
      if owner(|front|) == lane {
        FlattenLast(own + [last]);
        assert (own + [last])[..|own|] == own;
        WeightAppend(Flatten(own), last, f);
      } else {
        assert Owned(bundles, owner, lane) == own;
      }
    }
  }

  ghost function LaneCharges(bundles: seq<seq<Item>>, owner: nat -> nat, lanes: nat, f: Item -> nat): (charges: seq<nat>)
    ensures |charges| == lanes
  {
    seq(lanes, lane requires 0 <= lane => Charged(bundles, owner, lane, f))
  }

  /** The charges of all lanes add up to everything. */
  lemma {:induction false} ChargesAddUp(bundles: seq<seq<Item>>, owner: nat -> nat, lanes: nat, f: Item -> nat)
    requires forall b: nat :: owner(b) < lanes
    ensures SumNat(LaneCharges(bundles, owner, lanes, f)) == Weight(Flatten(bundles), f)
  {
    hide Flatten, SumNat, Weight;
    if bundles == [] {
      FlattenNothing<Item>();
      SumZeros(lanes);
      assert LaneCharges(bundles, owner, lanes, f) == seq(lanes, _ => 0);
      assert Weight([], f) == 0 by { WeightNothing(f); }
    } else {
      var front, last := bundles[..|bundles| - 1], bundles[|bundles| - 1];
      ChargesAddUp(front, owner, lanes, f);
      FlattenLast(bundles);
      WeightAppend(Flatten(front), last, f);
      var before, o := LaneCharges(front, owner, lanes, f), owner(|front|);
      SumUpdate(before, o, before[o] + Weight(last, f));
      assert LaneCharges(bundles, owner, lanes, f) == before[o := before[o] + Weight(last, f)];
    }
  }

  //////////////////////////// Packed lanes ////////////////////////////

  /** The physical lane's logical lanes are exactly those that PackedOwner maps to it. */
  lemma LogicalLaneOwner(lanes: nat, evaluators: nat, physical: nat, logical: nat)
    requires lanes * evaluators > 0 && evaluators > 0
    ensures logical / evaluators == physical <==> physical * evaluators <= logical < physical * evaluators + evaluators
  {
    if physical * evaluators <= logical < physical * evaluators + evaluators {
      Arithmetic.DivModUnique(physical, evaluators, logical - physical * evaluators);
    } else {
      assert logical == (logical / evaluators) * evaluators + logical % evaluators;
    }
  }

  lemma PackedOwnerInRange(lanes: nat, evaluators: nat, i: nat)
    requires lanes * evaluators > 0 && evaluators > 0
    ensures PackedOwner(lanes, evaluators, i) < lanes
  {
    var logical := i % (lanes * evaluators);
    if logical / evaluators >= lanes {
      Arithmetic.ProductMonotone(lanes, logical / evaluators, evaluators);
    }
  }

  /** Whether item `i` is run by one of the first `n` logical lanes of a physical lane. */
  predicate InFirst(lanes: nat, evaluators: nat, physical: nat, n: nat, i: nat)
    requires lanes * evaluators > 0
  {
    physical * evaluators <= i % (lanes * evaluators) < physical * evaluators + n
  }

  /** The weight of the items run by the first `n` logical lanes. */
  ghost function FirstWeight(items: seq<Item>, lanes: nat, evaluators: nat, physical: nat, n: nat, f: Item -> nat): nat
    requires lanes * evaluators > 0
  {
    if items == [] then 0
    else
      FirstWeight(items[..|items| - 1], lanes, evaluators, physical, n, f)
      + if InFirst(lanes, evaluators, physical, n, |items| - 1) then f(items[|items| - 1]) else 0
  }

  /** One logical lane's share, item by item. */
  lemma {:induction false} LogicalShare(items: seq<Item>, lanes: nat, evaluators: nat, physical: nat, n: nat, f: Item -> nat)
    requires lanes * evaluators > 0 && n > 0
    ensures physical * evaluators + (n - 1) >= 0
    ensures FirstWeight(items, lanes, evaluators, physical, n, f)
         == FirstWeight(items, lanes, evaluators, physical, n - 1, f)
            + Charged(Singles(items), RoundRobin(lanes * evaluators), physical * evaluators + (n - 1), f)
  {
    Arithmetic.ProductNonNegative(physical, evaluators);
    if items != [] {
      var front := items[..|items| - 1];
      LogicalShare(front, lanes, evaluators, physical, n, f);
      assert Singles(items)[..|front|] == Singles(front);
      WeightOne(items[|front|], f);
    }
  }

  lemma {:induction false} PackedRunsWeight(items: seq<Item>, lanes: nat, evaluators: nat, physical: nat, n: nat, f: Item -> nat)
    requires lanes * evaluators > 0
    ensures Weight(PackedRuns(items, lanes, evaluators, physical, n), f) == FirstWeight(items, lanes, evaluators, physical, n, f)
  {
    hide FirstWeight, Flatten, Owned, Charged, Weight;
    if n == 0 {
      NothingFirst(items, lanes, evaluators, physical, f);
      WeightNothing(f);
    } else {
      Arithmetic.ProductNonNegative(physical, evaluators);
      var logical := physical * evaluators + (n - 1);
      PackedRunsWeight(items, lanes, evaluators, physical, n - 1, f);
      LogicalShare(items, lanes, evaluators, physical, n, f);
      ChargedIsRun(Singles(items), RoundRobin(lanes * evaluators), logical, f);
      WeightAppend(PackedRuns(items, lanes, evaluators, physical, n - 1),
                   Flatten(Owned(Singles(items), RoundRobin(lanes * evaluators), logical)), f);
    }
  }

  lemma {:induction false} NothingFirst(items: seq<Item>, lanes: nat, evaluators: nat, physical: nat, f: Item -> nat)
    requires lanes * evaluators > 0
    ensures FirstWeight(items, lanes, evaluators, physical, 0, f) == 0
  {
    if items != [] {
      NothingFirst(items[..|items| - 1], lanes, evaluators, physical, f);
    }
  }

  /** A physical lane runs exactly the items it owns. */
  lemma {:induction false} FirstIsOwned(items: seq<Item>, lanes: nat, evaluators: nat, physical: nat, f: Item -> nat)
    requires lanes * evaluators > 0 && evaluators > 0
    ensures FirstWeight(items, lanes, evaluators, physical, evaluators, f)
         == Charged(Singles(items), (i: nat) => PackedOwner(lanes, evaluators, i), physical, f)
  {
    hide InFirst, PackedOwner;
    if items != [] {
      var front := items[..|items| - 1];
      FirstIsOwned(front, lanes, evaluators, physical, f);
      assert Singles(items)[..|front|] == Singles(front);
      WeightOne(items[|front|], f);
      OwnedFirst(lanes, evaluators, physical, |front|);
    }
  }

  lemma OwnedFirst(lanes: nat, evaluators: nat, physical: nat, i: nat)
    requires lanes * evaluators > 0 && evaluators > 0
    ensures InFirst(lanes, evaluators, physical, evaluators, i) <==> PackedOwner(lanes, evaluators, i) == physical
  {
    LogicalLaneOwner(lanes, evaluators, physical, i % (lanes * evaluators));
  }

  //////////////////////////// All modes ////////////////////////////

  /** The units a mode deals out to its lanes: single items or whole bundles. */
  function Units(items: seq<Item>, mode: Mode): seq<seq<Item>>
    requires ModeOk(mode)
  {
    match mode
    case Packed(_) => Singles(items)
    case Coalesced(size) => Bundles(items, size)
    case Plan(bundles) => bundles
  }

  function OwnerOf(lanes: nat, mode: Mode): nat -> nat
    requires ModeOk(mode) && lanes > 0
  {
    match mode
    case Packed(e) => Arithmetic.ProductMonotone(1, lanes, e); i => PackedOwner(lanes, e, i)
    case Coalesced(_) => RoundRobin(lanes)
    case Plan(_) => RoundRobin(lanes)
  }

  lemma OwnersInRange(lanes: nat, mode: Mode)
    requires ModeOk(mode) && lanes > 0
    ensures forall i: nat :: OwnerOf(lanes, mode)(i) < lanes
  {
    if mode.Packed? {
      Arithmetic.ProductMonotone(1, lanes, mode.evaluators);
      forall i: nat ensures OwnerOf(lanes, mode)(i) < lanes {
        PackedOwnerInRange(lanes, mode.evaluators, i);
      }
    }
  }

  lemma {:induction false} FlattenSingles(items: seq<Item>)
    ensures Flatten(Singles(items)) == items
  {
    if items != [] {
      var front := items[..|items| - 1];
      FlattenSingles(front);
      assert Singles(items)[..|front|] == Singles(front);
    }
  }

  /** In every mode a lane runs, weight for weight, the units it owns. */
  lemma RunsAreOwned(items: seq<Item>, lanes: nat, mode: Mode, lane: nat, f: Item -> nat)
    requires ModeOk(mode) && lanes > 0
    ensures Weight(Runs(items, lanes, mode, lane), f) == Charged(Units(items, mode), OwnerOf(lanes, mode), lane, f)
  {
    hide Weight, Charged, Bundles, Flatten, Owned, FirstWeight, PackedRuns;
    match mode
    case Packed(e) =>
      Arithmetic.ProductMonotone(1, lanes, e);
      PackedRunsWeight(items, lanes, e, lane, e, f);
      FirstIsOwned(items, lanes, e, lane, f);
      SameOwner(Singles(items), (i: nat) => PackedOwner(lanes, e, i), OwnerOf(lanes, mode), lane, f);
    case Coalesced(size) =>
      ChargedIsRun(Bundles(items, size), RoundRobin(lanes), lane, f);
    case Plan(bundles) =>
      ChargedIsRun(bundles, RoundRobin(lanes), lane, f);
  }

  lemma {:induction false} SameOwner(bundles: seq<seq<Item>>, a: nat -> nat, b: nat -> nat, lane: nat, f: Item -> nat)
    requires forall i: nat :: a(i) == b(i)
    ensures Charged(bundles, a, lane, f) == Charged(bundles, b, lane, f)
  {
    if bundles != [] {
      SameOwner(bundles[..|bundles| - 1], a, b, lane, f);
    }
  }

  ghost function RunWeights(items: seq<Item>, lanes: nat, mode: Mode, f: Item -> nat): (weights: seq<nat>)
    requires ModeOk(mode) && lanes > 0
    ensures |weights| == lanes
  {
    seq(lanes, lane requires 0 <= lane => Weight(Runs(items, lanes, mode, lane), f))
  }

  /** Whatever is counted, the lanes together run exactly what the mode covers. */
  lemma LanesCoverEverything(items: seq<Item>, lanes: nat, mode: Mode, f: Item -> nat)
    requires ModeOk(mode) && lanes > 0
    ensures SumNat(RunWeights(items, lanes, mode, f)) == Weight(Covered(items, mode), f)
  {
    hide Weight, Charged, Bundles, Flatten, Runs, OwnerOf, SumNat;
    OwnersInRange(lanes, mode);
    ChargesAddUp(Units(items, mode), OwnerOf(lanes, mode), lanes, f);
    FlattenSingles(items);
    forall lane | 0 <= lane < lanes
      ensures RunWeights(items, lanes, mode, f)[lane] == LaneCharges(Units(items, mode), OwnerOf(lanes, mode), lanes, f)[lane]
    {
      RunsAreOwned(items, lanes, mode, lane, f);
    }
    assert RunWeights(items, lanes, mode, f) == LaneCharges(Units(items, mode), OwnerOf(lanes, mode), lanes, f);
  }

  /** A lane runs an item that no other lane runs. */
  ghost predicate OnlyLane(items: seq<Item>, lanes: nat, mode: Mode, x: Item, lane: nat)
    requires ModeOk(mode) && lanes > 0
  {
    lane < lanes && x in Runs(items, lanes, mode, lane)
    && forall other: nat :: other < lanes && other != lane ==> x !in Runs(items, lanes, mode, other)
  }

  /** Every covered item has exactly one physical owner. */
  lemma EveryItemHasOneLane(items: seq<Item>, lanes: nat, mode: Mode, x: Item) returns (lane: nat)
    requires ModeOk(mode) && lanes > 0 && Distinct(Covered(items, mode)) && x in Covered(items, mode)
    ensures OnlyLane(items, lanes, mode, x, lane)
  {
    hide Runs, Covered, Weight;
    WeightInDistinct(Covered(items, mode), x);
    LanesCoverEverything(items, lanes, mode, One(x));
    var weights := RunWeights(items, lanes, mode, One(x));
    lane := OneAmong(weights);
    forall other: nat | other < lanes ensures x in Runs(items, lanes, mode, other) <==> weights[other] > 0 {
      WeightOfMember(Runs(items, lanes, mode, other), x);
    }
  }

  lemma {:induction false} OneAmong(s: seq<nat>) returns (i: nat)
    requires SumNat(s) == 1
    ensures i < |s| && s[i] == 1 && forall j :: 0 <= j < |s| && j != i ==> s[j] == 0
  {
    if s == [] {
      assert false;
    }
    var front := s[..|s| - 1];
    if s[|front|] == 1 {
      i := |front|;
      NoneAmong(front);
    } else {
      i := OneAmong(front);
    }
  }

  lemma {:induction false} NoneAmong(s: seq<nat>)
    requires SumNat(s) == 0
    ensures forall j :: 0 <= j < |s| ==> s[j] == 0
  {
    if s != [] {
      NoneAmong(s[..|s| - 1]);
    }
  }

  /** Distinct manifest items stay distinct in coalesced bundles. */
  lemma CoveredIsDistinct(items: seq<Item>, mode: Mode)
    requires ModeOk(mode) && !mode.Plan? && Distinct(items)
    ensures Distinct(Covered(items, mode)) && forall x :: x in Covered(items, mode) <==> x in items
  {
    hide Weight, Bundles, Flatten;
    if mode.Coalesced? {
      var all := Flatten(Bundles(items, mode.size));
      forall x: Item ensures (x in all <==> x in items) && (x in items ==> Weight(all, One(x)) == 1) {
        BundlesKeepWeight(items, mode.size, One(x));
        WeightOfMember(items, x);
        WeightOfMember(all, x);
        if x in items {
          WeightInDistinct(items, x);
        }
      }
      OnceEachIsDistinct(all);
    }
  }

  lemma {:induction false} OnceEachIsDistinct(items: seq<Item>)
    requires forall x: Item :: x in items ==> Weight(items, One(x)) == 1
    ensures Distinct(items)
  {
    if items != [] {
      var front, last := items[..|items| - 1], items[|items| - 1];
      assert items == front + [last];
      WeightOfMember(front, last);
      forall x | x in front ensures Weight(front, One(x)) == 1 {
        WeightOfMember(front, x);
      }
      OnceEachIsDistinct(front);
    }
  }

  //////////////////////////// What the monitor charges ////////////////////////////

  /** 1 for an item without a completion marker. */
  function MissingIn(complete: set<string>): Item -> nat {
    (i: Item) => if i.id in complete then 0 else 1
  }

  method CountMissing(bundle: seq<Item>, complete: set<string>) returns (missing: nat)
    ensures missing == Weight(bundle, MissingIn(complete))
  {
    missing := 0;
    for i := 0 to |bundle|
      invariant missing == Weight(bundle[..i], MissingIn(complete))
    {
      assert bundle[..i + 1][..i] == bundle[..i];
      if bundle[i].id !in complete {
        missing := missing + 1;
      }
    }
    assert bundle[..|bundle|] == bundle;
  }

  /** The counts after the first units were charged to their owners. */
  ghost predicate CountsAre(counts: seq<nat>, units: seq<seq<Item>>, owner: nat -> nat, lanes: nat, complete: set<string>) {
    counts == LaneCharges(units, owner, lanes, MissingIn(complete))
  }

  lemma ChargeNext(counts: seq<nat>, front: seq<seq<Item>>, unit: seq<Item>, owner: nat -> nat, lanes: nat, complete: set<string>)
    requires CountsAre(counts, front, owner, lanes, complete) && owner(|front|) < lanes
    ensures |counts| == lanes
    ensures var lane := owner(|front|);
      CountsAre(counts[lane := counts[lane] + Weight(unit, MissingIn(complete))], front + [unit], owner, lanes, complete)
  {
    hide Weight;
    assert (front + [unit])[..|front|] == front;
  }

  lemma NothingCharged(owner: nat -> nat, lanes: nat, complete: set<string>)
    ensures CountsAre(seq(lanes, _ => 0), [], owner, lanes, complete)
  {
  }

  /** The plan and coalesced branches: bundle after bundle, round robin over the lanes. */
  method ChargeBundles(counts: seq<nat>, bundles: seq<seq<Item>>, first: nat, lanes: nat, complete: set<string>,
                       ghost before: seq<seq<Item>>)
    returns (counts': seq<nat>)
    requires lanes > 0 && first == |before| && CountsAre(counts, before, RoundRobin(lanes), lanes, complete)
    ensures CountsAre(counts', before + bundles, RoundRobin(lanes), lanes, complete)
  {
    hide CountsAre, Weight;
    counts' := counts;
    assert before + bundles[..0] == before;
    for i := 0 to |bundles|
      invariant CountsAre(counts', before + bundles[..i], RoundRobin(lanes), lanes, complete)
    {
      var missing := CountMissing(bundles[i], complete);
      ChargeNext(counts', before + bundles[..i], bundles[i], RoundRobin(lanes), lanes, complete);
      assert before + bundles[..i + 1] == (before + bundles[..i]) + [bundles[i]];
      var lane := (first + i) % lanes;
      if missing > 0 {
        counts' := counts'[lane := counts'[lane] + missing];
      } else {
        assert counts'[lane := counts'[lane] + missing] == counts';
      }
    }
    assert bundles[..|bundles|] == bundles;
  }

  /** The monitor's own grouping of the manifest, with a running bundle index. */
  method ChargeCoalesced(items: seq<Item>, size: nat, lanes: nat, complete: set<string>) returns (counts: seq<nat>)
    requires lanes > 0 && size > 0
    ensures CountsAre(counts, Bundles(items, size), RoundRobin(lanes), lanes, complete)
  {
    hide CountsAre, Slices, Group, GroupsAre;
    var groups, order := GroupItems(items);
    GroupsOf(groups, order, items);
    counts := seq(lanes, _ => 0);
    NothingCharged(RoundRobin(lanes), lanes, complete);
    var bundleIndex := 0;
    for k := 0 to |order|
      invariant bundleIndex == |BundlesOf(items, order[..k], size)|
      invariant CountsAre(counts, BundlesOf(items, order[..k], size), RoundRobin(lanes), lanes, complete)
    {
      assert order[..k + 1][..k] == order[..k];
      var slices := Slices(groups[order[k]], size);
      counts := ChargeBundles(counts, slices, bundleIndex, lanes, complete, BundlesOf(items, order[..k], size));
      bundleIndex := bundleIndex + |slices|;
    }
    assert order[..|order|] == order;
  }

  method ChargePacked(items: seq<Item>, evaluators: nat, lanes: nat, complete: set<string>) returns (counts: seq<nat>)
    requires lanes > 0 && evaluators > 0
    ensures CountsAre(counts, Singles(items), OwnerOf(lanes, Packed(evaluators)), lanes, complete)
  {
    hide CountsAre, Weight;
    ghost var owner := OwnerOf(lanes, Packed(evaluators));
    counts := seq(lanes, _ => 0);
    NothingCharged(owner, lanes, complete);
    Arithmetic.ProductMonotone(1, lanes, evaluators);
    for i := 0 to |items|
      invariant CountsAre(counts, Singles(items[..i]), owner, lanes, complete)
    {
      PackedOwnerInRange(lanes, evaluators, i);
      ChargeNext(counts, Singles(items[..i]), [items[i]], owner, lanes, complete);
      WeightOne(items[i], MissingIn(complete));
      assert Singles(items[..i + 1]) == Singles(items[..i]) + [[items[i]]];
      var logical := i % (lanes * evaluators);
      var lane := logical / evaluators;
      assert lane == owner(i);
      if items[i].id !in complete {
        counts := counts[lane := counts[lane] + 1];
      } else {
        assert counts[lane := counts[lane] + 0] == counts;
      }
    }
    assert items[..|items|] == items;
  }

  /**
   missing_physical_lanes: in every mode a lane is charged exactly the missing items among those it would run,
   and the charges add up to the missing items the mode covers.
   */
  method MissingPhysicalLanes(items: seq<Item>, lanes: nat, mode: Mode, complete: set<string>) returns (counts: seq<nat>)
    requires lanes > 0 && ModeOk(mode)
    ensures |counts| == lanes
    ensures forall lane :: 0 <= lane < lanes ==> counts[lane] == Weight(Runs(items, lanes, mode, lane), MissingIn(complete))
    ensures SumNat(counts) == Weight(Covered(items, mode), MissingIn(complete))
  {
    hide CountsAre, Weight, Runs, Covered, Bundles, SumNat;
    match mode {
      case Plan(bundles) =>
        NothingCharged(RoundRobin(lanes), lanes, complete);
        counts := ChargeBundles(seq(lanes, _ => 0), bundles, 0, lanes, complete, []);
        assert [] + bundles == bundles;
      case Coalesced(size) =>
        counts := ChargeCoalesced(items, size, lanes, complete);
      case Packed(evaluators) =>
        counts := ChargePacked(items, evaluators, lanes, complete);
    }
    CountsAreRuns(counts, items, lanes, mode, complete);
  }

  lemma CountsAreRuns(counts: seq<nat>, items: seq<Item>, lanes: nat, mode: Mode, complete: set<string>)
    requires lanes > 0 && ModeOk(mode) && CountsAre(counts, Units(items, mode), OwnerOf(lanes, mode), lanes, complete)
    ensures counts == RunWeights(items, lanes, mode, MissingIn(complete))
    ensures SumNat(counts) == Weight(Covered(items, mode), MissingIn(complete))
  {
    hide Weight, Runs, Covered, Units, OwnerOf, Charged, SumNat;
    var f := MissingIn(complete);
    forall lane | 0 <= lane < lanes ensures counts[lane] == RunWeights(items, lanes, mode, f)[lane] {
      RunsAreOwned(items, lanes, mode, lane, f);
    }
    LanesCoverEverything(items, lanes, mode, f);
  }

  lemma {:induction false} MissingWeight(items: seq<Item>, complete: set<string>)
    ensures Weight(items, MissingIn(complete)) > 0 <==> exists x :: x in items && x.id !in complete
  {
    if items != [] {
      var front, last := items[..|items| - 1], items[|items| - 1];
      assert items == front + [last];
      MissingWeight(front, complete);
      assert last in items;
    }
  }

  /** Resubmitting a charged lane always reaches a missing item. */
  lemma ChargedLaneHasWork(items: seq<Item>, lanes: nat, mode: Mode, lane: nat, complete: set<string>) returns (x: Item)
    requires lanes > 0 && ModeOk(mode) && Weight(Runs(items, lanes, mode, lane), MissingIn(complete)) > 0
    ensures x in Runs(items, lanes, mode, lane) && x.id !in complete
  {
    MissingWeight(Runs(items, lanes, mode, lane), complete);
    x :| x in Runs(items, lanes, mode, lane) && x.id !in complete;
  }

  /** When the monitor stops, everything the mode covers is complete; otherwise some lane is charged. */
  lemma StopMeansComplete(items: seq<Item>, mode: Mode, complete: set<string>)
    requires ModeOk(mode)
    ensures Weight(Covered(items, mode), MissingIn(complete)) == 0
       <==> forall x :: x in Covered(items, mode) ==> x.id in complete
  {
    MissingWeight(Covered(items, mode), complete);
  }

  //////////////////////////// Frozen plans ////////////////////////////

  /** command_freeze_missing_plan: the bundles of the items missing now. */
  method FreezeMissingPlan(items: seq<Item>, complete: set<string>, size: int) returns (r: Result<seq<seq<Item>>, BundleError>)
    ensures r.Ok? ==> size >= 1 && r.value == Bundles(Unfinished(items, complete), size)
  {
    r := CoalescedItemBundles(Unfinished(items, complete), size);
  }

  lemma {:induction false} UnfinishedAre(items: seq<Item>, complete: set<string>)
    ensures forall x :: x in Unfinished(items, complete) <==> x in items && x.id !in complete
    ensures Distinct(items) ==> Distinct(Unfinished(items, complete))
  {
    if items != [] {
      var front, last := items[..|items| - 1], items[|items| - 1];
      assert items == front + [last];
      UnfinishedAre(front, complete);
    }
  }

  /**
   A plan frozen from the missing set covers exactly what is missing, so when all it covers is complete, and
   markers only ever appear, every item of the manifest is complete.
   */
  lemma FrozenPlanCompletes(items: seq<Item>, size: nat, frozen: set<string>, complete: set<string>)
    requires size > 0 && Distinct(items) && frozen <= complete
    requires forall x :: x in Covered(items, Plan(Bundles(Unfinished(items, frozen), size))) ==> x.id in complete
    ensures forall x :: x in items ==> x.id in complete
  {
    hide Bundles, Unfinished;
    UnfinishedAre(items, frozen);
    CoveredIsDistinct(Unfinished(items, frozen), Coalesced(size));
    assert Covered(items, Plan(Bundles(Unfinished(items, frozen), size))) == Covered(Unfinished(items, frozen), Coalesced(size));
  }
}
