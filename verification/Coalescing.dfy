/** Packing compatible work items into bundles that share one native simulator vector. */
module Coalescing {
  import opened Common
  import opened EvalItems

  /** Items may share a simulator only when all of this agrees. */
  type Key = (string, string, int, int, nat)

  function KeyOf(i: Item): Key {
    (i.policy, i.task, i.taskId, i.suite, i.repeat)
  }

  //////////////////////////// The bundles ////////////////////////////

  /** The items with a key, in their order. */
  function Group(items: seq<Item>, key: Key): (group: seq<Item>)
    ensures forall i :: 0 <= i < |group| ==> KeyOf(group[i]) == key && group[i] in items
  {
    if items == [] then []
    else Group(items[..|items| - 1], key) + if KeyOf(items[|items| - 1]) == key then [items[|items| - 1]] else []
  }

  /** The keys in the order in which they first occur. */
  function Order(items: seq<Item>): (order: seq<Key>)
    ensures Distinct(order)
    ensures forall i :: 0 <= i < |items| ==> KeyOf(items[i]) in order
  {
    if items == [] then []
    else
      var front, key := Order(items[..|items| - 1]), KeyOf(items[|items| - 1]);
      if key in front then front else front + [key]
  }

  /** Slices of `size` items, the last one possibly shorter. */
  function Slices(group: seq<Item>, size: nat): (slices: seq<seq<Item>>)
    requires size > 0
    decreases |group|
  {
    if group == [] then [] else [group[..Min(size, |group|)]] + Slices(group[Min(size, |group|)..], size)
  }

  /** The bundles of the first `n` keys. */
  function BundlesOf(items: seq<Item>, order: seq<Key>, size: nat): seq<seq<Item>>
    requires size > 0
  {
    if order == [] then []
    else BundlesOf(items, order[..|order| - 1], size) + Slices(Group(items, order[|order| - 1]), size)
  }

  function Bundles(items: seq<Item>, size: nat): seq<seq<Item>>
    requires size > 0
  {
    BundlesOf(items, Order(items), size)
  }

  /** The groups one after the other. */
  function Grouped(items: seq<Item>, order: seq<Key>): seq<Item> {
    if order == [] then [] else Grouped(items, order[..|order| - 1]) + Group(items, order[|order| - 1])
  }

  //////////////////////////// What the pieces are ////////////////////////////

  /** Items with one key agree on policy, task, task id, suite and repeat; layouts and seeds are free. */
  lemma SameKeyMeans(items: seq<Item>)
    ensures SameKey(items) <==>
      forall i, j :: 0 <= i < |items| && 0 <= j < |items| ==>
        && items[i].policy == items[j].policy && items[i].task == items[j].task && items[i].taskId == items[j].taskId
        && items[i].suite == items[j].suite && items[i].repeat == items[j].repeat
  {
  }

  /** There are just enough slices for the group. */
  lemma {:induction false} SliceCount(group: seq<Item>, size: nat)
    requires size > 0 && group != []
    ensures |Slices(group, size)| > 0
    ensures (|Slices(group, size)| - 1) * size < |group| <= |Slices(group, size)| * size
    decreases |group|
  {
    var rest := group[Min(size, |group|)..];
    LastSlice(group, size);
    if rest != [] {
      SliceCount(rest, size);
      OneMoreSlice(|Slices(rest, size)|, size);
    }
  }

  lemma LastSlice(group: seq<Item>, size: nat)
    requires size > 0 && group != []
    ensures var cut := Min(size, |group|);
      && Slices(group, size) == [group[..cut]] + Slices(group[cut..], size)
      && (group[cut..] == [] ==> Slices(group[cut..], size) == [])
  {
  }

  lemma OneMoreSlice(n: nat, size: nat)
    ensures (n + 1) * size == n * size + size && (n - 1) * size + size == n * size
  {
  }

  /** Slice `j` starts at item `j * size`, and all but the last are full. */
  lemma {:induction false} SliceAt(group: seq<Item>, size: nat, j: nat)
    requires size > 0 && j < |Slices(group, size)|
    ensures 0 <= j * size < |group| && Slices(group, size)[j] == group[j * size..Min(j * size + size, |group|)]
    decreases |group|
  {
    hide Slices;
    NoSlices(size);
    LastSlice(group, size);
    if j > 0 {
      var rest := group[Min(size, |group|)..];
      SliceAt(rest, size, j - 1);
      OneMoreSlice(j, size);
      assert |group| > size && |rest| == |group| - size;
      assert rest[(j - 1) * size..Min(j * size, |rest|)] == group[j * size..Min(j * size + size, |group|)];
    }
  }

  lemma NoSlices(size: nat)
    requires size > 0
    ensures Slices([], size) == []
  {
  }

  /** Item `i` is the first one with the key. */
  ghost predicate FirstAt(items: seq<Item>, key: Key, i: nat) {
    i < |items| && KeyOf(items[i]) == key && forall j :: 0 <= j < i ==> KeyOf(items[j]) != key
  }

  /** The keys come in the order of their first items. */
  lemma {:induction false} OrderIsFirstOccurrence(items: seq<Item>, a: nat, b: nat) returns (i: nat, j: nat)
    requires a < b < |Order(items)|
    ensures FirstAt(items, Order(items)[a], i) && FirstAt(items, Order(items)[b], j) && i < j
  {
    hide KeyOf, Order, Distinct;
    NoOrder();
    var front := items[..|items| - 1];
    assert items == front + [items[|items| - 1]];
    OrderGrows(front, items[|items| - 1]);
    if b < |Order(front)| {
      i, j := OrderIsFirstOccurrence(front, a, b);
    } else {
      i := FirstOf(front, a);
      j := |front|;
    }
  }

  lemma NoOrder()
    ensures Order([]) == []
  {
  }

  lemma {:induction false} FirstOf(items: seq<Item>, a: nat) returns (i: nat)
    requires a < |Order(items)|
    ensures FirstAt(items, Order(items)[a], i)
  {
    hide KeyOf, Order, Distinct;
    NoOrder();
    var front := items[..|items| - 1];
    assert items == front + [items[|items| - 1]];
    OrderGrows(front, items[|items| - 1]);
    if a < |Order(front)| {
      i := FirstOf(front, a);
    } else {
      i := |front|;
    }
  }

  /** Keeping items works piece by piece. */
  lemma {:induction false} KeptAppend(a: seq<Item>, b: seq<Item>, keep: Item -> bool)
    ensures Kept(a + b, keep) == Kept(a, keep) + Kept(b, keep)
  {
    if b == [] {
      assert a + b == a;
    } else {
      KeptAppend(a, b[..|b| - 1], keep);
      assert (a + b)[..|a + b| - 1] == a + b[..|b| - 1];
    }
  }

  lemma KeptOne(item: Item, keep: Item -> bool)
    ensures Kept([item], keep) == if keep(item) then [item] else []
  {
    assert [item][..0] == [];
  }

  //////////////////////////// Every bundle is compatible and bounded ////////////////////////////

  ghost predicate SameKey(items: seq<Item>) {
    forall i, j :: 0 <= i < |items| && 0 <= j < |items| ==> KeyOf(items[i]) == KeyOf(items[j])
  }

  /** A bundle shares one key, is not empty and fits the vector. */
  ghost predicate BundleOk(bundle: seq<Item>, size: nat) {
    0 < |bundle| <= size && SameKey(bundle)
  }

  ghost predicate BundlesOk(bundles: seq<seq<Item>>, size: nat) {
    forall b :: 0 <= b < |bundles| ==> BundleOk(bundles[b], size)
  }

  lemma SameKeyParts(group: seq<Item>, cut: nat)
    requires SameKey(group) && cut <= |group|
    ensures SameKey(group[..cut]) && SameKey(group[cut..])
  {
    hide KeyOf;
  }

  lemma {:induction false} SlicesOk(group: seq<Item>, size: nat)
    requires size > 0 && SameKey(group)
    ensures BundlesOk(Slices(group, size), size) && Flatten(Slices(group, size)) == group
    decreases |group|
  {
    hide SameKey, Flatten;
    if group == [] {
      FlattenNothing<Item>();
    } else {
      var cut := Min(size, |group|);
      SameKeyParts(group, cut);
      SlicesOk(group[cut..], size);
      FlattenFront(group[..cut], Slices(group[cut..], size));
      assert group == group[..cut] + group[cut..];
    }
  }

  lemma FlattenFront(first: seq<Item>, rest: seq<seq<Item>>)
    ensures Flatten([first] + rest) == first + Flatten(rest)
  {
    FlattenAppend([first], rest);
    FlattenLast([first]);
    FlattenNothing<Item>();
    assert [first][..0] == [];
  }

  lemma SameKeyGroup(items: seq<Item>, key: Key)
    ensures SameKey(Group(items, key))
  {
  }

  lemma {:induction false} BundlesOfOk(items: seq<Item>, order: seq<Key>, size: nat)
    requires size > 0
    ensures BundlesOk(BundlesOf(items, order, size), size)
    ensures Flatten(BundlesOf(items, order, size)) == Grouped(items, order)
  {
    hide Slices, Group, Flatten;
    if order == [] {
      FlattenNothing<Item>();
    } else {
      var front, key := order[..|order| - 1], order[|order| - 1];
      BundlesOfOk(items, front, size);
      SameKeyGroup(items, key);
      SlicesOk(Group(items, key), size);
      FlattenAppend(BundlesOf(items, front, size), Slices(Group(items, key), size));
    }
  }

  /** Bundling is a stable partition: laid out, the bundles are the groups in order of first occurrence. */
  lemma BundlesAreAStablePartition(items: seq<Item>, size: nat)
    requires size > 0
    ensures BundlesOk(Bundles(items, size), size)
    ensures Flatten(Bundles(items, size)) == Grouped(items, Order(items))
  {
    BundlesOfOk(items, Order(items), size);
  }

  //////////////////////////// Nothing is lost or doubled ////////////////////////////

  /** The total weight of a list of items. */
  function Weight(items: seq<Item>, f: Item -> nat): nat {
    if items == [] then 0 else Weight(items[..|items| - 1], f) + f(items[|items| - 1])
  }

  lemma {:induction false} WeightAppend(a: seq<Item>, b: seq<Item>, f: Item -> nat)
    ensures Weight(a + b, f) == Weight(a, f) + Weight(b, f)
  {
    if b == [] {
      assert a + b == a;
    } else {
      WeightAppend(a, b[..|b| - 1], f);
      assert (a + b)[..|a + b| - 1] == a + b[..|b| - 1];
    }
  }

  /** Adding an item adds its weight to its own group and to no other. */
  lemma {:induction false} GroupedGrows(front: seq<Item>, item: Item, order: seq<Key>, f: Item -> nat)
    requires Distinct(order)
    ensures Weight(Grouped(front + [item], order), f)
         == Weight(Grouped(front, order), f) + if KeyOf(item) in order then f(item) else 0
  {
    hide Weight, Group, KeyOf;
    if order == [] {
      assert Grouped(front + [item], order) == Grouped(front, order);
    } else {
      var rest, key := order[..|order| - 1], order[|order| - 1];
      assert order == rest + [key];
      GroupedGrows(front, item, rest, f);
      GroupGrows(front, item, key);
      WeightAppend(Grouped(front, rest), Group(front, key), f);
      WeightAppend(Grouped(front + [item], rest), Group(front + [item], key), f);
      WeightOne(item, f);
      WeightAppend(Group(front, key), [item], f);
      assert KeyOf(item) in order <==> KeyOf(item) in rest || KeyOf(item) == key;
      assert KeyOf(item) == key ==> KeyOf(item) !in rest;
      assert Grouped(front, order) == Grouped(front, rest) + Group(front, key);
      assert Grouped(front + [item], order) == Grouped(front + [item], rest) + Group(front + [item], key);
    }
  }

  lemma GroupGrows(front: seq<Item>, item: Item, key: Key)
    ensures Group(front + [item], key) == if KeyOf(item) == key then Group(front, key) + [item] else Group(front, key)
  {
    assert (front + [item])[..|front|] == front;
  }

  lemma OrderGrows(front: seq<Item>, item: Item)
    ensures Order(front + [item]) == if KeyOf(item) in Order(front) then Order(front) else Order(front) + [KeyOf(item)]
  {
    assert (front + [item])[..|front|] == front;
  }

  lemma WeightNothing(f: Item -> nat)
    ensures Weight([], f) == 0
  {
  }

  lemma WeightOne(item: Item, f: Item -> nat)
    ensures Weight([item], f) == f(item)
  {
    assert [item][..0] == [];
  }

  lemma {:induction false} GroupAbsent(items: seq<Item>, key: Key)
    requires key !in Order(items)
    ensures Group(items, key) == []
  {
    if items != [] {
      GroupAbsent(items[..|items| - 1], key);
    }
  }

  /** Whatever is counted, the bundles hold exactly what the items hold. */
  lemma {:induction false} GroupedKeepsWeight(items: seq<Item>, f: Item -> nat)
    ensures Weight(Grouped(items, Order(items)), f) == Weight(items, f)
  {
    hide Weight, Grouped, Group, Order, KeyOf;
    if items == [] {
      NothingGrouped();
    } else {
      var front, item := items[..|items| - 1], items[|items| - 1];
      assert items == front + [item];
      GroupedKeepsWeight(front, f);
      WeightAppend(front, [item], f);
      WeightOne(item, f);
      GroupedGrows(front, item, Order(front), f);
      OrderGrows(front, item);
      if KeyOf(item) !in Order(front) {
        NewKeyLast(front, item);
        WeightAppend(Grouped(items, Order(front)), [item], f);
      }
    }
  }

  lemma NothingGrouped()
    ensures Order([]) == [] && Grouped([], []) == []
  {
  }

  lemma NewKeyLast(front: seq<Item>, item: Item)
    requires KeyOf(item) !in Order(front)
    ensures var items := front + [item];
      Grouped(items, Order(front) + [KeyOf(item)]) == Grouped(items, Order(front)) + [item]
  {
    hide Group, Order, KeyOf;
    var order := Order(front) + [KeyOf(item)];
    GroupAbsent(front, KeyOf(item));
    GroupGrows(front, item, KeyOf(item));
    assert order[..|order| - 1] == Order(front);
    assert [] + [item] == [item];
  }

  lemma BundlesKeepWeight(items: seq<Item>, size: nat, f: Item -> nat)
    requires size > 0
    ensures Weight(Flatten(Bundles(items, size)), f) == Weight(items, f)
  {
    BundlesAreAStablePartition(items, size);
    GroupedKeepsWeight(items, f);
  }

  function One(x: Item): Item -> nat {
    i => if i == x then 1 else 0
  }

  lemma {:induction false} WeightOfMember(items: seq<Item>, x: Item)
    ensures x in items <==> Weight(items, One(x)) > 0
  {
    if items != [] {
      var front := items[..|items| - 1];
      assert items == front + [items[|items| - 1]];
      WeightOfMember(front, x);
    }
  }

  lemma {:induction false} WeightInDistinct(items: seq<Item>, x: Item)
    requires Distinct(items) && x in items
    ensures Weight(items, One(x)) == 1
  {
    var front, last := items[..|items| - 1], items[|items| - 1];
    assert items == front + [last];
    WeightOfMember(front, x);
    if last == x {
      assert x !in front;
    } else {
      WeightInDistinct(front, x);
    }
  }

  /** `x` is in bundle `b` and in no other. */
  ghost predicate OnlyIn(bundles: seq<seq<Item>>, x: Item, b: nat) {
    b < |bundles| && x in bundles[b] && forall c :: 0 <= c < |bundles| && c != b ==> x !in bundles[c]
  }

  lemma {:induction false} WeightOneMeansOnce(bundles: seq<seq<Item>>, x: Item) returns (b: nat)
    requires Weight(Flatten(bundles), One(x)) == 1
    ensures OnlyIn(bundles, x, b)
  {
    hide Flatten, Weight;
    WeightNothing(One(x));
    FlattenNothing<Item>();
    var front, last := bundles[..|bundles| - 1], bundles[|bundles| - 1];
    FlattenLast(bundles);
    WeightAppend(Flatten(front), last, One(x));
    WeightOfMember(last, x);
    assert forall c :: 0 <= c < |front| ==> front[c] == bundles[c];
    if x in last {
      b := |front|;
      WeightZero(front, x);
    } else {
      b := WeightOneMeansOnce(front, x);
    }
  }

  lemma {:induction false} WeightZero(bundles: seq<seq<Item>>, x: Item)
    requires Weight(Flatten(bundles), One(x)) == 0
    ensures forall c :: 0 <= c < |bundles| ==> x !in bundles[c]
  {
    hide Flatten;
    if bundles != [] {
      var front, last := bundles[..|bundles| - 1], bundles[|bundles| - 1];
      FlattenLast(bundles);
      WeightAppend(Flatten(front), last, One(x));
      WeightOfMember(last, x);
      WeightZero(front, x);
      assert forall c :: 0 <= c < |front| ==> front[c] == bundles[c];
    }
  }

  /** Every item is in exactly one bundle. */
  lemma EveryItemHasOneBundle(items: seq<Item>, size: nat, x: Item) returns (b: nat)
    requires size > 0 && Distinct(items) && x in items
    ensures OnlyIn(Bundles(items, size), x, b)
  {
    hide Bundles, Weight;
    WeightInDistinct(items, x);
    BundlesKeepWeight(items, size, One(x));
    b := WeightOneMeansOnce(Bundles(items, size), x);
  }

  //////////////////////////// No duplicate cases ////////////////////////////

  /** The (layout, policy seed) cases of a bundle, item by item. */
  function Cases(bundle: seq<Item>): seq<(int, int)> {
    if bundle == [] then [] else Cases(bundle[..|bundle| - 1]) + ItemCases(bundle[|bundle| - 1])
  }

  function ItemCases(item: Item): (cases: seq<(int, int)>)
    ensures |cases| == |item.seeds|
  {
    seq(|item.seeds|, s requires 0 <= s < |item.seeds| => (item.layout, item.seeds[s]))
  }

  /** Compatible items of a valid specification: the same key, different layouts, full seed vectors. */
  ghost predicate VectorOk(bundle: seq<Item>, numEnvs: int) {
    SameKey(bundle) && ItemsOk(bundle, numEnvs)
  }

  lemma {:induction false} CasesAre(bundle: seq<Item>, numEnvs: nat)
    requires VectorOk(bundle, numEnvs)
    ensures |Cases(bundle)| == numEnvs * |bundle|
    ensures Distinct(Cases(bundle))
    ensures forall c :: c in Cases(bundle) ==> exists i :: 0 <= i < |bundle| && bundle[i].layout == c.0
  {
    hide ItemCases;
    if bundle != [] {
      var front, last := bundle[..|bundle| - 1], bundle[|bundle| - 1];
      CasesAre(front, numEnvs);
      var a, b := Cases(front), ItemCases(last);
      ItemCasesAre(last);
      assert numEnvs * |bundle| == numEnvs * |front| + numEnvs;
      forall i, j | 0 <= i < |a| && 0 <= j < |b| ensures a[i] != b[j] {
        assert a[i] in a;
        var k :| 0 <= k < |front| && front[k].layout == a[i].0;
        assert Condition(bundle[k]) != Condition(bundle[|front|]) && KeyOf(bundle[k]) == KeyOf(bundle[|front|]);
      }
      DistinctAppend(a, b);
      forall c | c in a + b ensures exists i :: 0 <= i < |bundle| && bundle[i].layout == c.0 {
        if c in a {
          var i :| 0 <= i < |front| && front[i].layout == c.0;
          assert bundle[i].layout == c.0;
        } else {
          assert bundle[|front|].layout == c.0;
        }
      }
    }
  }

  /** The vector's lanes: item after item, each with its seeds in order. */
  lemma {:induction false} CaseAt(bundle: seq<Item>, numEnvs: nat, i: nat, s: nat)
    requires VectorOk(bundle, numEnvs) && i < |bundle| && s < numEnvs
    ensures |bundle[i].seeds| == numEnvs && 0 <= i * numEnvs + s < |Cases(bundle)|
    ensures Cases(bundle)[i * numEnvs + s] == (bundle[i].layout, bundle[i].seeds[s])
  {
    hide KeyOf, Condition, Distinct;
    var front := bundle[..|bundle| - 1];
    CasesAre(front, numEnvs);
    if i < |front| {
      CaseAt(front, numEnvs, i, s);
    } else {
      assert numEnvs * |front| == i * numEnvs;
    }
  }

  lemma ItemCasesAre(item: Item)
    requires Distinct(item.seeds)
    ensures Distinct(ItemCases(item)) && forall c :: c in ItemCases(item) ==> c.0 == item.layout
  {
  }

  lemma DistinctAppend<T>(a: seq<T>, b: seq<T>)
    requires Distinct(a) && Distinct(b) && forall i, j :: 0 <= i < |a| && 0 <= j < |b| ==> a[i] != b[j]
    ensures Distinct(a + b)
  {
  }

  lemma {:induction false} GroupIsKept(items: seq<Item>, key: Key)
    ensures Group(items, key) == Kept(items, (i: Item) => KeyOf(i) == key)
  {
    hide KeyOf;
    if items != [] {
      GroupIsKept(items[..|items| - 1], key);
    }
  }

  lemma GroupItemsOk(items: seq<Item>, key: Key, numEnvs: int)
    requires ItemsOk(items, numEnvs)
    ensures VectorOk(Group(items, key), numEnvs)
  {
    hide ItemsOk, Kept, KeyOf, Group;
    GroupIsKept(items, key);
    SubsetItemsOk(items, (i: Item) => KeyOf(i) == key, numEnvs);
  }

  lemma {:induction false} SlicesVectorOk(group: seq<Item>, size: nat, numEnvs: int, b: nat)
    requires size > 0 && VectorOk(group, numEnvs) && b < |Slices(group, size)|
    ensures VectorOk(Slices(group, size)[b], numEnvs)
    decreases |group|
  {
    hide Condition, Distinct, KeyOf;
    var cut := Min(size, |group|);
    assert VectorOk(group[cut..], numEnvs) && VectorOk(group[..cut], numEnvs);
    if b > 0 {
      SlicesVectorOk(group[cut..], size, numEnvs, b - 1);
    }
  }

  lemma {:induction false} BundlesVectorOk(items: seq<Item>, order: seq<Key>, size: nat, numEnvs: int, b: nat)
    requires size > 0 && ItemsOk(items, numEnvs) && b < |BundlesOf(items, order, size)|
    ensures VectorOk(BundlesOf(items, order, size)[b], numEnvs)
  {
    hide Slices, Group, VectorOk, ItemsOk;
    var front, key := order[..|order| - 1], order[|order| - 1];
    var before := |BundlesOf(items, front, size)|;
    if b < before {
      BundlesVectorOk(items, front, size, numEnvs, b);
    } else {
      GroupItemsOk(items, key, numEnvs);
      SlicesVectorOk(Group(items, key), size, numEnvs, b - before);
    }
  }

  /**
   For items of a valid specification, and any part of them, no bundle holds a (layout, seed) case twice and
   every bundle has exactly one seed vector per item.
   */
  lemma BundlesHaveNoDuplicateCases(items: seq<Item>, size: nat, numEnvs: nat, b: nat)
    requires size > 0 && ItemsOk(items, numEnvs) && b < |Bundles(items, size)|
    ensures Distinct(Cases(Bundles(items, size)[b]))
    ensures |Cases(Bundles(items, size)[b])| == numEnvs * |Bundles(items, size)[b]|
  {
    BundlesVectorOk(items, Order(items), size, numEnvs, b);
    CasesAre(Bundles(items, size)[b], numEnvs);
  }

  /** Dropping items keeps the rest valid. */
  lemma {:induction false} SubsetItemsOk(items: seq<Item>, keep: Item -> bool, numEnvs: int)
    requires ItemsOk(items, numEnvs)
    ensures ItemsOk(Kept(items, keep), numEnvs)
  {
    hide Condition, Distinct;
    if items != [] {
      var front, last := items[..|items| - 1], items[|items| - 1];
      assert items == front + [last];
      SubsetItemsOk(front, keep, numEnvs);
      forall i | 0 <= i < |Kept(front, keep)| ensures Condition(Kept(front, keep)[i]) != Condition(last) {
        var j :| 0 <= j < |front| && front[j] == Kept(front, keep)[i];
        assert items[j] == front[j];
      }
    }
  }

  /** The items that satisfy a test, in order. */
  function Kept(items: seq<Item>, keep: Item -> bool): (kept: seq<Item>)
    ensures forall i :: 0 <= i < |kept| ==> kept[i] in items && keep(kept[i])
  {
    if items == [] then []
    else Kept(items[..|items| - 1], keep) + if keep(items[|items| - 1]) then [items[|items| - 1]] else []
  }

  //////////////////////////// Building the bundles ////////////////////////////

  datatype BundleError = BadBundleSize | DuplicateCases | Incompatible | WrongVectorSize | CaseMismatch

  /** The dictionary of groups and the order of its keys, after the items read so far. */
  ghost predicate GroupsAre(groups: map<Key, seq<Item>>, order: seq<Key>, items: seq<Item>) {
    && order == Order(items)
    && (forall key :: key in groups <==> key in order)
    && forall key :: key in groups ==> groups[key] == Group(items, key)
  }

  lemma GroupsGrow(groups: map<Key, seq<Item>>, order: seq<Key>, front: seq<Item>, item: Item)
    requires GroupsAre(groups, order, front)
    ensures var key := KeyOf(item);
      var before := if key in groups then groups[key] else [];
      GroupsAre(groups[key := before + [item]], if key in groups then order else order + [key], front + [item])
  {
    hide Group, KeyOf, Order;
    var key := KeyOf(item);
    OrderGrows(front, item);
    if key !in groups {
      GroupAbsent(front, key);
    }
    var after := groups[key := (if key in groups then groups[key] else []) + [item]];
    forall k | k in after ensures after[k] == Group(front + [item], k) {
      GroupGrows(front, item, k);
    }
  }

  method GroupItems(items: seq<Item>) returns (groups: map<Key, seq<Item>>, order: seq<Key>)
    ensures GroupsAre(groups, order, items)
  {
    hide GroupsAre, KeyOf, Group;
    groups, order := map[], [];
    NoGroups();
    for i := 0 to |items|
      invariant GroupsAre(groups, order, items[..i])
    {
      var item := items[i];
      var key := KeyOf(item);
      GroupsGrow(groups, order, items[..i], item);
      assert items[..i + 1] == items[..i] + [item];
      ghost var before := groups;
      if key !in groups {
        groups := groups[key := []];
        order := order + [key];
      }
      groups := groups[key := groups[key] + [item]];
      assert groups == before[key := (if key in before then before[key] else []) + [item]];
    }
    assert items[..|items|] == items;
  }

  lemma NoGroups()
    ensures GroupsAre(map[], [], [])
  {
  }

  ghost predicate NoRepeatedCase(bundles: seq<seq<Item>>) {
    forall b :: 0 <= b < |bundles| ==> Distinct(Cases(bundles[b]))
  }

  /** Slice one group into bundles, refusing a bundle with a repeated case. */
  method SliceGroup(group: seq<Item>, size: nat) returns (r: Result<seq<seq<Item>>, BundleError>)
    requires size > 0
    ensures r.Ok? <==> NoRepeatedCase(Slices(group, size))
    ensures r.Ok? ==> r.value == Slices(group, size)
    ensures r.Err? ==> r.error == DuplicateCases
  {
    hide Cases, Distinct;
    var bundles := [];
    var start := 0;
    while start < |group|
      invariant 0 <= start <= |group|
      invariant bundles + Slices(group[start..], size) == Slices(group, size)
      invariant NoRepeatedCase(bundles)
      decreases |group| - start
    {
      var end := Min(start + size, |group|);
      var bundle := group[start..end];
      NextSlice(group, start, size);
      var cases := Cases(bundle);
      DistinctByCount(cases);
      if |cases| != |SetOf(cases)| {
        assert Slices(group, size)[|bundles|] == bundle;
        return Err(DuplicateCases);
      }
      bundles := bundles + [bundle];
      start := end;
    }
    assert group[|group|..] == [];
    r := Ok(bundles);
  }

  lemma NextSlice(group: seq<Item>, start: nat, size: nat)
    requires size > 0 && start < |group|
    ensures Slices(group[start..], size)
         == [group[start..Min(start + size, |group|)]] + Slices(group[Min(start + size, |group|)..], size)
  {
    var rest, end := group[start..], Min(start + size, |group|);
    var cut := Min(size, |rest|);
    assert rest[..cut] == group[start..end] && rest[cut..] == group[end..];
  }

  /** coalesced_item_bundles. */
  method CoalescedItemBundles(items: seq<Item>, size: int) returns (r: Result<seq<seq<Item>>, BundleError>)
    ensures r == Err(BadBundleSize) <==> size < 1
    ensures size >= 1 ==> (r.Ok? <==> NoRepeatedCase(Bundles(items, size)))
    ensures r.Ok? ==> r.value == Bundles(items, size)
  {
    if size < 1 {
      return Err(BadBundleSize);
    }
    hide NoRepeatedCase, Slices, Group, GroupsAre;
    var groups, order := GroupItems(items);
    GroupsOf(groups, order, items);
    r := BundleGroups(items, groups, order, size);
  }

  lemma GroupsOf(groups: map<Key, seq<Item>>, order: seq<Key>, items: seq<Item>)
    requires GroupsAre(groups, order, items)
    ensures order == Order(items)
    ensures forall i :: 0 <= i < |order| ==> order[i] in groups && groups[order[i]] == Group(items, order[i])
  {
    hide Order, Group;
  }

  method BundleGroups(ghost items: seq<Item>, groups: map<Key, seq<Item>>, order: seq<Key>, size: nat)
    returns (r: Result<seq<seq<Item>>, BundleError>)
    requires size > 0
    requires forall i :: 0 <= i < |order| ==> order[i] in groups && groups[order[i]] == Group(items, order[i])
    ensures r.Ok? <==> NoRepeatedCase(BundlesOf(items, order, size))
    ensures r.Ok? ==> r.value == BundlesOf(items, order, size)
    ensures r.Err? ==> r.error == DuplicateCases
  {
    hide NoRepeatedCase, Slices, Group;
    var bundles := [];
    NoRepeatIn([], []);
    for i := 0 to |order|
      invariant bundles == BundlesOf(items, order[..i], size) && NoRepeatedCase(bundles)
    {
      assert order[..i + 1][..i] == order[..i];
      var slices := SliceGroup(groups[order[i]], size);
      NoRepeatIn(bundles, Slices(groups[order[i]], size));
      if slices.Err? {
        RepeatStays(items, order, i + 1, size);
        return slices;
      }
      bundles := bundles + slices.value;
    }
    assert order[..|order|] == order;
    r := Ok(bundles);
  }

  lemma NoRepeatIn(a: seq<seq<Item>>, b: seq<seq<Item>>)
    ensures NoRepeatedCase(a + b) <==> NoRepeatedCase(a) && NoRepeatedCase(b)
    ensures NoRepeatedCase([])
  {
    hide Cases, Distinct;
    assert forall i :: 0 <= i < |a| ==> (a + b)[i] == a[i];
    assert forall i :: 0 <= i < |b| ==> (a + b)[|a| + i] == b[i];
  }

  lemma {:induction false} RepeatStays(items: seq<Item>, order: seq<Key>, i: nat, size: nat)
    requires size > 0 && i <= |order| && !NoRepeatedCase(BundlesOf(items, order[..i], size))
    ensures !NoRepeatedCase(BundlesOf(items, order, size))
    decreases |order|
  {
    hide NoRepeatedCase, Slices, Group;
    if i == |order| {
      assert order[..i] == order;
    } else {
      var front := order[..|order| - 1];
      assert front[..i] == order[..i];
      RepeatStays(items, front, i, size);
      NoRepeatIn(BundlesOf(items, front, size), Slices(Group(items, order[|order| - 1]), size));
    }
  }

  /**
   For any part of the items of a valid specification the duplicate-case error is unreachable: every
   positive bundle size succeeds.
   */
  lemma BundlingSucceeds(items: seq<Item>, keep: Item -> bool, size: nat, numEnvs: nat)
    requires size > 0 && ItemsOk(items, numEnvs)
    ensures NoRepeatedCase(Bundles(Kept(items, keep), size))
  {
    hide ItemsOk, Bundles, Cases, Distinct;
    SubsetItemsOk(items, keep, numEnvs);
    forall b | 0 <= b < |Bundles(Kept(items, keep), size)| ensures Distinct(Cases(Bundles(Kept(items, keep), size)[b])) {
      BundlesHaveNoDuplicateCases(Kept(items, keep), size, numEnvs, b);
    }
  }

  //////////////////////////// Running a bundle ////////////////////////////

  datatype Request = Skip | Single(item: Item) | Vector(items: seq<Item>, cases: seq<(int, int)>)

  function Unfinished(bundle: seq<Item>, complete: set<string>): seq<Item> {
    Kept(bundle, (i: Item) => i.id !in complete)
  }

  lemma {:induction false} KeptVectorOk(bundle: seq<Item>, keep: Item -> bool, numEnvs: int)
    requires VectorOk(bundle, numEnvs)
    ensures VectorOk(Kept(bundle, keep), numEnvs)
  {
    SubsetItemsOk(bundle, keep, numEnvs);
  }

  /**
   The start of run_coalesced_bundle: what is still missing decides between nothing, a single run and one
   vector over all missing items; a vector of incompatible items or of the wrong size is refused.
   */
  method PrepareBundle(bundle: seq<Item>, complete: set<string>, numEnvs: int) returns (r: Result<Request, BundleError>)
    ensures var missing := Unfinished(bundle, complete);
      && (|missing| == 0 ==> r == Ok(Skip))
      && (|missing| == 1 ==> r == Ok(Single(missing[0])))
      && (|missing| > 1 ==> (r.Ok? <==> SameKey(missing) && |Cases(missing)| == numEnvs * |missing|))
      && (|missing| > 1 && r.Ok? ==> r.value == Vector(missing, Cases(missing)))
  {
    hide Cases, KeyOf, Kept;
    var missing := Unfinished(bundle, complete);
    if |missing| == 0 {
      return Ok(Skip);
    }
    if |missing| == 1 {
      return Ok(Single(missing[0]));
    }
    var compatibility := KeyOf(missing[0]);
    for i := 1 to |missing|
      invariant forall j :: 0 <= j < i ==> KeyOf(missing[j]) == compatibility
    {
      if KeyOf(missing[i]) != compatibility {
        return Err(Incompatible);
      }
    }
    var cases := Cases(missing);
    return if |cases| != numEnvs * |missing| then Err(WrongVectorSize) else Ok(Vector(missing, cases));
  }

  /** Whatever part of a bundle is missing, it can be run: neither refusal is reachable. */
  lemma BundlesCanRun(bundle: seq<Item>, complete: set<string>, numEnvs: nat)
    requires VectorOk(bundle, numEnvs)
    ensures var missing := Unfinished(bundle, complete);
      SameKey(missing) && |Cases(missing)| == numEnvs * |missing| && Distinct(Cases(missing))
  {
    KeptVectorOk(bundle, (i: Item) => i.id !in complete, numEnvs);
    CasesAre(Unfinished(bundle, complete), numEnvs);
  }

  //////////////////////////// Splitting the combined cases ////////////////////////////

  datatype Case = Case(layout: int, seed: int, success: bool, score: real, done: bool)

  function CaseKey(c: Case): (int, int) {
    (c.layout, c.seed)
  }

  function CaseKeys(cases: seq<Case>): (keys: seq<(int, int)>)
    ensures |keys| == |cases|
  {
    seq(|cases|, i requires 0 <= i < |cases| => CaseKey(cases[i]))
  }

  /** The index of cases by key; a later case replaces an earlier one with the same key. */
  ghost predicate IndexOf(index: map<(int, int), Case>, cases: seq<Case>) {
    && (forall c :: c in cases ==> CaseKey(c) in index)
    && (forall k :: k in index ==> index[k] in cases && CaseKey(index[k]) == k)
  }

  method BuildIndex(cases: seq<Case>) returns (index: map<(int, int), Case>)
    ensures IndexOf(index, cases)
  {
    index := map[];
    for i := 0 to |cases|
      invariant IndexOf(index, cases[..i])
    {
      assert cases[..i + 1] == cases[..i] + [cases[i]];
      index := index[CaseKey(cases[i]) := cases[i]];
    }
    assert cases[..|cases|] == cases;
  }

  /** What the items get back: for each item and each of its seeds the case with that layout and seed. */
  ghost predicate SplitOk(items: seq<Item>, parts: seq<seq<Case>>, cases: seq<Case>) {
    && |parts| == |items|
    && forall i :: 0 <= i < |items| ==>
         && |parts[i]| == |items[i].seeds|
         && forall s :: 0 <= s < |parts[i]| ==> CaseKey(parts[i][s]) == (items[i].layout, items[i].seeds[s]) && parts[i][s] in cases
  }

  /**
   The split step of run_coalesced_bundle: the combined cases must be exactly the requested ones, in any
   order; then every item receives its own cases in seed order.
   */
  method SplitCases(items: seq<Item>, cases: seq<Case>) returns (r: Result<seq<seq<Case>>, BundleError>)
    ensures r.Ok? <==> multiset(CaseKeys(cases)) == multiset(Cases(items))
    ensures r.Err? ==> r.error == CaseMismatch
    ensures r.Ok? ==> SplitOk(items, r.value, cases)
  {
    hide Cases;
    if multiset(CaseKeys(cases)) != multiset(Cases(items)) {
      return Err(CaseMismatch);
    }
    var index := BuildIndex(cases);
    var parts := [];
    for i := 0 to |items|
      invariant SplitOk(items[..i], parts, cases)
    {
      forall s | 0 <= s < |items[i].seeds| ensures (items[i].layout, items[i].seeds[s]) in index {
        RequestedCase(items, i, s);
        SameKeys(cases, Cases(items), (items[i].layout, items[i].seeds[s]));
      }
      var item := items[i];
      parts := parts + [seq(|item.seeds|, s requires 0 <= s < |item.seeds| => index[(item.layout, item.seeds[s])])];
    }
    assert items[..|items|] == items;
    r := Ok(parts);
  }

  lemma {:induction false} RequestedCase(items: seq<Item>, i: nat, s: nat)
    requires i < |items| && s < |items[i].seeds|
    ensures (items[i].layout, items[i].seeds[s]) in Cases(items)
  {
    if i < |items| - 1 {
      RequestedCase(items[..|items| - 1], i, s);
    } else {
      assert ItemCases(items[i])[s] == (items[i].layout, items[i].seeds[s]);
    }
  }

  lemma SameKeys(cases: seq<Case>, keys: seq<(int, int)>, key: (int, int))
    requires multiset(CaseKeys(cases)) == multiset(keys) && key in keys
    ensures exists c :: c in cases && CaseKey(c) == key
  {
    assert key in multiset(CaseKeys(cases));
    var i :| 0 <= i < |cases| && CaseKeys(cases)[i] == key;
    assert cases[i] in cases;
  }

  /** Item `i` holds the case at seed position `s`. */
  predicate Holds(parts: seq<seq<Case>>, i: nat, s: nat, c: Case) {
    i < |parts| && s < |parts[i]| && parts[i][s] == c
  }

  /** Every combined case goes to exactly one item, at exactly one of its seeds. */
  lemma EveryCaseHasOneItem(items: seq<Item>, parts: seq<seq<Case>>, cases: seq<Case>, numEnvs: nat, c: Case)
    returns (i: nat, s: nat)
    requires VectorOk(items, numEnvs) && SplitOk(items, parts, cases)
    requires multiset(CaseKeys(cases)) == multiset(Cases(items)) && c in cases
    ensures Holds(parts, i, s, c)
    ensures forall j, u :: Holds(parts, j, u, c) ==> j == i && u == s
  {
    hide Cases;
    CasesAre(items, numEnvs);
    var k :| 0 <= k < |cases| && cases[k] == c;
    assert CaseKeys(cases)[k] == CaseKey(c);
    assert CaseKey(c) in multiset(Cases(items));
    i, s := WhoAsked(items, CaseKey(c));
    UniqueCase(cases, Cases(items), c, parts[i][s]);
    forall j: nat, u: nat | Holds(parts, j, u, c) ensures j == i && u == s {
      OneAsker(items, numEnvs, i, s, j, u);
    }
  }

  /** Item `i` holds the case at seed position `s`, and it is held nowhere else. */
  ghost predicate HeldOnce(parts: seq<seq<Case>>, c: Case) {
    exists i, s :: Holds(parts, i, s, c) && forall j, u :: Holds(parts, j, u, c) ==> j == i && u == s
  }

  //////////////////////////// From the specification to the split cases ////////////////////////////

  datatype BundleRun = Nothing | Alone(item: Item) | Together(items: seq<Item>, parts: seq<seq<Case>>)

  /** run_coalesced_bundle, with the vector evaluator's answer to any list of cases. */
  method RunCoalescedBundle(bundle: seq<Item>, complete: set<string>, numEnvs: int, evaluate: seq<(int, int)> -> seq<Case>)
    returns (r: Result<BundleRun, BundleError>)
    ensures var missing := Unfinished(bundle, complete);
      && (|missing| == 0 ==> r == Ok(Nothing))
      && (|missing| == 1 ==> r == Ok(Alone(missing[0])))
      && (|missing| > 1 ==>
            (r.Ok? <==> && SameKey(missing) && |Cases(missing)| == numEnvs * |missing|
                        && multiset(CaseKeys(evaluate(Cases(missing)))) == multiset(Cases(missing))))
      && (|missing| > 1 && r.Ok? ==> r.value.Together? && r.value.items == missing
                                     && SplitOk(missing, r.value.parts, evaluate(Cases(missing))))
  {
    hide Cases, Kept, SameKey;
    var request := PrepareBundle(bundle, complete, numEnvs);
    if request.Err? {
      return Err(request.error);
    }
    match request.value {
      case Skip => return Ok(Nothing);
      case Single(item) => return Ok(Alone(item));
      case Vector(items, cases) =>
        var parts := SplitCases(items, evaluate(cases));
        return if parts.Ok? then Ok(Together(items, parts.value)) else Err(parts.error);
    }
  }

  /** The unfinished part of a bundle passes all checks, and any answer to its cases is split without loss. */
  ghost predicate RunsAndSplits(bundle: seq<Item>, complete: set<string>, numEnvs: nat) {
    var missing := Unfinished(bundle, complete);
    && SameKey(missing) && |Cases(missing)| == numEnvs * |missing|
    && forall parts, cases :: SplitOk(missing, parts, cases) && multiset(CaseKeys(cases)) == multiset(Cases(missing)) ==>
         forall c :: c in cases ==> HeldOnce(parts, c)
  }

  /** `x` is to be run from bundle `b`, from no other, and `b` can be run. */
  ghost predicate RunFrom(bundles: seq<seq<Item>>, x: Item, b: nat, complete: set<string>, numEnvs: nat) {
    OnlyIn(bundles, x, b) && x in Unfinished(bundles[b], complete) && RunsAndSplits(bundles[b], complete, numEnvs)
  }

  /**
   From an accepted specification to the split cases. Take any items built from it, keep any part of them,
   bundle them at any size, and let any of them be complete already: bundling succeeds, every kept unfinished
   item is run from exactly one bundle, that bundle passes all checks, and each case of a matching answer goes
   to one item at one of its seeds.
   */
  lemma AcceptedItemsRunOnce(s: Spec, items: seq<Item>, sources: seq<Source>, keep: Item -> bool, size: nat, complete: set<string>,
                             x: Item)
    returns (b: nat)
    requires ValidSpec(s) && BuiltAll(s, items, sources) && size > 0
    requires x in items && keep(x) && x.id !in complete
    ensures NoRepeatedCase(Bundles(Kept(items, keep), size))
    ensures RunFrom(Bundles(Kept(items, keep), size), x, b, complete, s.numEnvs)
  {
    hide Bundles, ItemsOk, RunsAndSplits, NoRepeatedCase, VectorOk, BuiltUpTo, Kept, OnlyIn, Distinct;
    BuiltItemsOk(s, items, sources, (|s.labels|, 0, 0));
    BundlingSucceeds(items, keep, size, s.numEnvs);
    SubsetItemsOk(items, keep, s.numEnvs);
    KeptHas(items, keep, x);
    ItemsAreDistinct(Kept(items, keep), s.numEnvs);
    b := EveryItemHasOneBundle(Kept(items, keep), size, x);
    OnlyInHas(Bundles(Kept(items, keep), size), x, b);
    var bundle := Bundles(Kept(items, keep), size)[b];
    KeptHas(bundle, (i: Item) => i.id !in complete, x);
    BundleIsVector(Kept(items, keep), size, s.numEnvs, b);
    BundleRunsAndSplits(bundle, complete, s.numEnvs);
  }

  lemma OnlyInHas(bundles: seq<seq<Item>>, x: Item, b: nat)
    requires OnlyIn(bundles, x, b)
    ensures b < |bundles| && x in bundles[b]
  {
  }

  lemma BundleIsVector(items: seq<Item>, size: nat, numEnvs: int, b: nat)
    requires size > 0 && ItemsOk(items, numEnvs) && b < |Bundles(items, size)|
    ensures VectorOk(Bundles(items, size)[b], numEnvs)
  {
    BundlesVectorOk(items, Order(items), size, numEnvs, b);
  }

  lemma {:induction false} KeptHas(items: seq<Item>, keep: Item -> bool, x: Item)
    ensures x in Kept(items, keep) <==> x in items && keep(x)
  {
    if items != [] {
      KeptHas(items[..|items| - 1], keep, x);
      assert items == items[..|items| - 1] + [items[|items| - 1]];
    }
  }

  lemma ItemsAreDistinct(items: seq<Item>, numEnvs: int)
    requires ItemsOk(items, numEnvs)
    ensures Distinct(items)
  {
    forall i, j | 0 <= i < j < |items| ensures items[i] != items[j] {
      assert Condition(items[i]) != Condition(items[j]);
    }
  }

  lemma BundleRunsAndSplits(bundle: seq<Item>, complete: set<string>, numEnvs: nat)
    requires VectorOk(bundle, numEnvs)
    ensures RunsAndSplits(bundle, complete, numEnvs)
  {
    hide Cases, VectorOk, SplitOk, SameKey, Kept, Holds;
    var missing := Unfinished(bundle, complete);
    BundlesCanRun(bundle, complete, numEnvs);
    KeptVectorOk(bundle, (i: Item) => i.id !in complete, numEnvs);
    forall parts, cases, c |
      SplitOk(missing, parts, cases) && multiset(CaseKeys(cases)) == multiset(Cases(missing)) && c in cases
      ensures HeldOnce(parts, c)
    {
      var i, u := EveryCaseHasOneItem(missing, parts, cases, numEnvs, c);
    }
  }

  lemma {:induction false} WhoAsked(items: seq<Item>, key: (int, int)) returns (i: nat, s: nat)
    requires key in Cases(items)
    ensures i < |items| && s < |items[i].seeds| && key == (items[i].layout, items[i].seeds[s])
  {
    var front, last := items[..|items| - 1], items[|items| - 1];
    if key in ItemCases(last) {
      i := |front|;
      s :| 0 <= s < |ItemCases(last)| && ItemCases(last)[s] == key;
    } else {
      i, s := WhoAsked(front, key);
    }
  }

  lemma OneAsker(items: seq<Item>, numEnvs: nat, i: nat, s: nat, j: nat, u: nat)
    requires VectorOk(items, numEnvs) && i < |items| && j < |items| && s < |items[i].seeds| && u < |items[j].seeds|
    requires items[i].layout == items[j].layout && items[i].seeds[s] == items[j].seeds[u]
    ensures i == j && s == u
  {
    assert KeyOf(items[i]) == KeyOf(items[j]);
    assert Condition(items[i]) == Condition(items[j]);
  }

  /** With distinct keys, two combined cases with the same key are the same case. */
  lemma UniqueCase(cases: seq<Case>, keys: seq<(int, int)>, c: Case, d: Case)
    requires multiset(CaseKeys(cases)) == multiset(keys) && Distinct(keys)
    requires c in cases && d in cases && CaseKey(c) == CaseKey(d)
    ensures c == d
  {
    DistinctMultiset(keys);
    MultisetDistinct(CaseKeys(cases));
    var i :| 0 <= i < |cases| && cases[i] == c;
    var j :| 0 <= j < |cases| && cases[j] == d;
    assert CaseKeys(cases)[i] == CaseKeys(cases)[j];
  }

  lemma {:induction false} DistinctMultiset<T>(s: seq<T>)
    requires Distinct(s)
    ensures forall x :: multiset(s)[x] <= 1
  {
    if s != [] {
      var front, last := s[..|s| - 1], s[|s| - 1];
      assert s == front + [last];
      DistinctMultiset(front);
      assert last !in front;
    }
  }

  lemma MultisetDistinct<T>(s: seq<T>)
    requires forall x :: multiset(s)[x] <= 1
    ensures Distinct(s)
  {
    forall i, j | 0 <= i < j < |s| ensures s[i] != s[j] {
      assert s == s[..j] + [s[j]] + s[j + 1..];
      assert s[..j][i] == s[i];
      assert multiset(s) == multiset(s[..j]) + multiset{s[j]} + multiset(s[j + 1..]);
      assert multiset(s)[s[j]] >= multiset(s[..j])[s[j]] + 1;
      assert s[i] in s[..j];
    }
  }
}
