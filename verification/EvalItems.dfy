/** Decimal numerals: their value, and reading them back from the end of a text. */
module Numerals {
  import opened Common

  /** A decimal numeral. */
  function Digits(n: nat): string {
    if n < 10 then [('0' as int + n) as char] else Digits(n / 10) + [('0' as int + n % 10) as char]
  }

  /** A numeral padded with zeros to a minimum width. */
  function Padded(n: nat, width: nat): string {
    var d := Digits(n);
    Zeros(if |d| < width then width - |d| else 0) + d
  }

  function Zeros(k: nat): string {
    seq(k, _ => '0')
  }

  predicate IsDigit(c: char) {
    '0' <= c <= '9'
  }

  predicate IsNumeral(s: string) {
    forall i :: 0 <= i < |s| ==> IsDigit(s[i])
  }

  function Value(s: string): nat
    requires IsNumeral(s)
  {
    if s == "" then 0 else 10 * Value(s[..|s| - 1]) + (s[|s| - 1] as int - '0' as int)
  }

  lemma {:induction false} DigitsValue(n: nat)
    ensures IsNumeral(Digits(n)) && Value(Digits(n)) == n
  {
    if n >= 10 {
      DigitsValue(n / 10);
      assert Digits(n)[..|Digits(n)| - 1] == Digits(n / 10);
    }
  }

  lemma {:induction false} LeadingZeros(k: nat, s: string)
    requires IsNumeral(s)
    ensures IsNumeral(Zeros(k) + s) && Value(Zeros(k) + s) == Value(s)
  {
    var t := Zeros(k) + s;
    if s != "" {
      LeadingZeros(k, s[..|s| - 1]);
      assert t[..|t| - 1] == Zeros(k) + s[..|s| - 1];
    } else if k > 0 {
      LeadingZeros(k - 1, s);
      assert t[..|t| - 1] == Zeros(k - 1) + s;
    }
  }

  lemma PaddedValue(n: nat, width: nat)
    ensures IsNumeral(Padded(n, width)) && Value(Padded(n, width)) == n
  {
    var d := Digits(n);
    DigitsValue(n);
    LeadingZeros(if |d| < width then width - |d| else 0, d);
  }

  /** A text, a mark that ends in no digit, and a numeral can be told apart again from the end. */
  lemma SplitAtNumeral(a: string, b: string, mark: string, d: string, e: string)
    requires mark != "" && !IsDigit(mark[|mark| - 1]) && IsNumeral(d) && IsNumeral(e)
    requires a + mark + d == b + mark + e
    ensures a == b && d == e
  {
    var x, y := a + mark + d, b + mark + e;
    var i, j := |a + mark| - 1, |b + mark| - 1;
    assert x[i] == mark[|mark| - 1] && y[j] == mark[|mark| - 1];
    assert forall k :: i < k < |x| ==> IsDigit(x[k]);
    assert forall k :: j < k < |y| ==> IsDigit(y[k]);
    assert i == j && |a| == |b|;
    assert x[..|a|] == a && y[..|a|] == b;
    assert x[|a + mark|..] == d && y[|a + mark|..] == e;
  }

  /** A padded numeral is as short as it can be: nothing but zeros before the first other digit, and those only up to the width. */
  lemma PaddedShape(n: nat, width: nat)
    ensures var p, d := Padded(n, width), Digits(n);
      && |d| > 0 && (d[0] == '0' ==> n == 0 && |d| == 1)
      && |p| == Max(|d|, width) && p[|p| - |d|..] == d && forall i :: 0 <= i < |p| - |d| ==> p[i] == '0'
  {
    NoLeadingZero(n);
  }

  lemma PaddedExamples()
    ensures Padded(1, 2) == "01" && Padded(23, 3) == "023" && Padded(456, 2) == "456"
  {
    OneDigit(1);
    MoreDigits(2, 3);
    OneDigit(2);
    MoreDigits(45, 6);
    MoreDigits(4, 5);
    OneDigit(4);
    hide Digits;
    assert Digits(23) == "2" + "3" == "23";
    assert Digits(45) == "4" + "5" == "45";
    assert Digits(456) == "45" + "6" == "456";
    assert Zeros(1) == "0" && Zeros(0) == "";
    assert "0" + "1" == "01" && "0" + "23" == "023" && "" + "456" == "456";
  }

  lemma OneDigit(d: nat)
    requires d < 10
    ensures Digits(d) == [('0' as int + d) as char]
  {
  }

  lemma MoreDigits(n: nat, d: nat)
    requires n > 0 && d < 10
    ensures Digits(10 * n + d) == Digits(n) + [('0' as int + d) as char]
  {
    assert (10 * n + d) / 10 == n && (10 * n + d) % 10 == d;
  }

  lemma {:induction false} NoLeadingZero(n: nat)
    ensures |Digits(n)| > 0 && (Digits(n)[0] == '0' ==> n == 0 && |Digits(n)| == 1)
  {
    if n >= 10 {
      NoLeadingZero(n / 10);
    }
  }

  lemma SplitAtPadded(a: string, b: string, mark: string, m: nat, n: nat, width: nat)
    requires mark != "" && !IsDigit(mark[|mark| - 1])
    requires a + mark + Padded(m, width) == b + mark + Padded(n, width)
    ensures a == b && m == n
  {
    hide Padded;
    PaddedValue(m, width);
    PaddedValue(n, width);
    SplitAtNumeral(a, b, mark, Padded(m, width), Padded(n, width));
  }
}

/**
 Durable evaluation: which work items a specification yields, how compatible items are coalesced into one
 simulator vector, and how the combined cases are handed back to the items.
 */
module EvalItems {
  import opened Common
  import opened Numerals

  datatype Target = Target(task: string, taskId: int, suite: int, layout: int, seeds: seq<int>)

  /** The parts of a specification that decide identity and vector sizes. */
  datatype Spec = Spec(labels: seq<string>, targets: seq<Target>, repeats: int, numEnvs: int, microbatch: int, targetedReplay: bool)

  datatype SpecError = BadTopology | NoPolicies | NoTargets | BadLabel | BadTarget | DuplicateTarget | WrongSeedCount
                     | DuplicateSeeds | TooFewTrials

  datatype Item = Item(id: string, policy: string, task: string, taskId: int, suite: int, layout: int, seeds: seq<int>, repeat: nat)

  //////////////////////////// Validation ////////////////////////////

  predicate WordChar(c: char) {
    'A' <= c <= 'Z' || 'a' <= c <= 'z' || '0' <= c <= '9' || c == '_'
  }

  predicate IsTask(s: string) {
    s != "" && forall i :: 0 <= i < |s| ==> WordChar(s[i])
  }

  predicate IsLabel(s: string) {
    s != "" && forall i :: 0 <= i < |s| ==> WordChar(s[i]) || s[i] == '.' || s[i] == '-'
  }

  predicate NonNegative(s: seq<int>) {
    forall i :: 0 <= i < |s| ==> s[i] >= 0
  }

  function TargetKey(t: Target): (string, int, int) {
    (t.task, t.suite, t.layout)
  }

  predicate TargetOk(t: Target, numEnvs: int) {
    && IsTask(t.task) && t.taskId >= 0 && t.suite >= 0 && t.layout >= 0
    && |t.seeds| == numEnvs && NonNegative(t.seeds) && Distinct(t.seeds)
  }

  predicate TargetsOk(targets: seq<Target>, numEnvs: int) {
    && (forall i :: 0 <= i < |targets| ==> TargetOk(targets[i], numEnvs))
    && forall i, j :: 0 <= i < j < |targets| ==> TargetKey(targets[i]) != TargetKey(targets[j])
  }

  predicate LabelsOk(labels: seq<string>) {
    Distinct(labels) && forall i :: 0 <= i < |labels| ==> IsLabel(labels[i])
  }

  /** What an accepted specification guarantees. */
  predicate ValidSpec(s: Spec) {
    && s.repeats >= 1 && s.labels != [] && s.targets != [] && LabelsOk(s.labels)
    && s.numEnvs >= 1 && 1 <= s.microbatch <= s.numEnvs
    && TargetsOk(s.targets, s.numEnvs)
    && (s.targetedReplay ==> s.repeats * s.numEnvs >= 6)
  }

  /** Letters, digits and the underscore, by code. */
  predicate InAlphabet(code: int) {
    65 <= code < 91 || 97 <= code < 123 || 48 <= code < 58 || code == 95
  }

  /** Task names are non-empty words over the alphabet; labels may also hold dots and dashes. */
  lemma NamesAre(s: string)
    ensures IsTask(s) <==> |s| > 0 && forall i :: 0 <= i < |s| ==> InAlphabet(s[i] as int)
    ensures IsLabel(s) <==> |s| > 0 && forall i :: 0 <= i < |s| ==> InAlphabet(s[i] as int) || s[i] as int == 45 || s[i] as int == 46
  {
  }

  /** What acceptance means, written out. */
  lemma AcceptedMeans(s: Spec)
    ensures ValidSpec(s) <==>
      && s.repeats >= 1 && |s.labels| >= 1 && |s.targets| >= 1 && 1 <= s.microbatch <= s.numEnvs
      && (forall i, j :: 0 <= i < j < |s.labels| ==> s.labels[i] != s.labels[j])
      && (forall i :: 0 <= i < |s.labels| ==> IsLabel(s.labels[i]))
      && (forall i :: 0 <= i < |s.targets| ==>
            var t := s.targets[i];
            && IsTask(t.task) && t.taskId >= 0 && t.suite >= 0 && t.layout >= 0 && |t.seeds| == s.numEnvs
            && (forall k :: 0 <= k < |t.seeds| ==> t.seeds[k] >= 0)
            && forall k, l :: 0 <= k < l < |t.seeds| ==> t.seeds[k] != t.seeds[l])
      && (forall i, j :: 0 <= i < j < |s.targets| ==>
            s.targets[i].task != s.targets[j].task || s.targets[i].suite != s.targets[j].suite || s.targets[i].layout != s.targets[j].layout)
      && (s.targetedReplay ==> s.repeats * s.numEnvs >= 6)
  {
    hide IsLabel, IsTask;
  }

  method CheckLabels(names: seq<string>) returns (error: Option<SpecError>)
    ensures error.None? <==> LabelsOk(names)
  {
    var labels: set<string> := {};
    for i := 0 to |names|
      invariant labels == set j | 0 <= j < i :: names[j]
      invariant LabelsOk(names[..i])
    {
      if !IsLabel(names[i]) || names[i] in labels {
        return Some(BadLabel);
      }
      assert names[..i + 1] == names[..i] + [names[i]];
      labels := labels + {names[i]};
    }
    assert names[..|names|] == names;
    return None;
  }

  method CheckTargets(targets: seq<Target>, numEnvs: int) returns (error: Option<SpecError>)
    ensures error.None? <==> TargetsOk(targets, numEnvs)
  {
    hide TargetOk, TargetKey;
    var keys: set<(string, int, int)> := {};
    for i := 0 to |targets|
      invariant keys == set j | 0 <= j < i :: TargetKey(targets[j])
      invariant TargetsOk(targets[..i], numEnvs)
    {
      var t := targets[i];
      error := CheckTarget(t, keys, numEnvs);
      if error.Some? {
        return;
      }
      assert targets[..i + 1] == targets[..i] + [t];
      keys := keys + {TargetKey(t)};
    }
    assert targets[..|targets|] == targets;
    return None;
  }

  method CheckTarget(t: Target, keys: set<(string, int, int)>, numEnvs: int) returns (error: Option<SpecError>)
    ensures error.None? <==> TargetOk(t, numEnvs) && TargetKey(t) !in keys
  {
    if !IsTask(t.task) || t.taskId < 0 || t.suite < 0 || t.layout < 0 {
      return Some(BadTarget);
    }
    if TargetKey(t) in keys {
      return Some(DuplicateTarget);
    }
    if |t.seeds| != numEnvs {
      return Some(WrongSeedCount);
    }
    if !NonNegative(t.seeds) {
      return Some(BadTarget);
    }
    return if Distinct(t.seeds) then None else Some(DuplicateSeeds);
  }

  /** validate_spec, its checks of counts, labels and targets. */
  method ValidateSpec(s: Spec) returns (error: Option<SpecError>)
    ensures error.None? <==> ValidSpec(s)
  {
    hide LabelsOk, TargetsOk;
    if s.repeats < 1 {
      return Some(BadTopology);
    }
    if s.labels == [] {
      return Some(NoPolicies);
    }
    if s.targets == [] {
      return Some(NoTargets);
    }
    error := CheckLabels(s.labels);
    if error.Some? {
      return;
    }
    if s.numEnvs < 1 || s.microbatch < 1 || s.microbatch > s.numEnvs {
      return Some(BadTopology);
    }
    error := CheckTargets(s.targets, s.numEnvs);
    if error.Some? {
      return;
    }
    return if s.repeats * s.numEnvs < 6 && s.targetedReplay then Some(TooFewTrials) else None;
  }

  //////////////////////////// Work items ////////////////////////////

  function ItemId(policy: string, t: Target, repeat: nat): string
    requires t.suite >= 0 && t.layout >= 0
  {
    policy + "__" + t.task + "__s" + Padded(t.suite, 2) + "__l" + Padded(t.layout, 3) + "__r" + Padded(repeat, 2)
  }

  function ItemOf(policy: string, t: Target, repeat: nat): Item
    requires t.suite >= 0 && t.layout >= 0
  {
    Item(ItemId(policy, t, repeat), policy, t.task, t.taskId, t.suite, t.layout, t.seeds, repeat)
  }

  /** The form of an id, at an example. */
  lemma ItemIdExample(seeds: seq<int>)
    ensures ItemId("policy-1", Target("stack", 7, 1, 23, seeds), 456) == "policy-1__stack__s01__l023__r456"
  {
    hide Padded;
    PaddedExamples();
    var stem := "policy-1" + "__" + "stack";
    assert stem == "policy-1__stack";
    var suite := stem + "__s" + "01";
    assert suite == "policy-1__stack__s01";
    var layout := suite + "__l" + "023";
    assert layout == "policy-1__stack__s01__l023";
    assert layout + "__r" + "456" == "policy-1__stack__s01__l023__r456";
  }

  /** Which (policy, target, repeat) an item stands for. */
  function Condition(i: Item): (string, string, int, int, nat) {
    (i.policy, i.task, i.suite, i.layout, i.repeat)
  }

  /** Items of a valid specification: full seed vectors without repetition, one item per condition. */
  ghost predicate ItemsOk(items: seq<Item>, numEnvs: int) {
    && (forall i :: 0 <= i < |items| ==> |items[i].seeds| == numEnvs && Distinct(items[i].seeds))
    && forall i, j :: 0 <= i < j < |items| ==> Condition(items[i]) != Condition(items[j])
  }

  function IdList(items: seq<Item>): (ids: seq<string>)
    ensures |ids| == |items|
  {
    seq(|items|, i requires 0 <= i < |items| => items[i].id)
  }

  predicate UniqueIds(items: seq<Item>) {
    Distinct(IdList(items))
  }

  //////////////////////////// Building the items ////////////////////////////

  /** Policy, target and repeat of an item, in nesting order. */
  type Source = (nat, nat, nat)

  predicate Earlier(a: Source, b: Source) {
    a.0 < b.0 || (a.0 == b.0 && (a.1 < b.1 || (a.1 == b.1 && a.2 < b.2)))
  }

  predicate InSpec(s: Spec, a: Source) {
    a.0 < |s.labels| && a.1 < |s.targets| && a.2 < s.repeats
  }

  /** The items come from the sources, in nesting order, and from every source before `next`. */
  ghost predicate BuiltUpTo(s: Spec, items: seq<Item>, sources: seq<Source>, next: Source) {
    && |items| == |sources|
    && (forall i :: 0 <= i < |items| ==> Built(s, items[i], sources[i]) && Earlier(sources[i], next))
    && (forall i, j :: 0 <= i < j < |sources| ==> Earlier(sources[i], sources[j]))
    && forall a :: InSpec(s, a) && Earlier(a, next) ==> a in sources
  }

  ghost predicate Built(s: Spec, item: Item, a: Source) {
    && InSpec(s, a) && s.targets[a.1].suite >= 0 && s.targets[a.1].layout >= 0
    && var t := s.targets[a.1];
    && item.id == ItemId(s.labels[a.0], t, a.2) && item.policy == s.labels[a.0] && item.task == t.task && item.taskId == t.taskId
    && item.suite == t.suite && item.layout == t.layout && item.seeds == t.seeds && item.repeat == a.2
  }

  lemma BuildNext(s: Spec, items: seq<Item>, sources: seq<Source>, item: Item, next: Source, after: Source)
    requires BuiltUpTo(s, items, sources, next) && Built(s, item, next)
    requires forall a :: InSpec(s, a) && Earlier(a, after) ==> Earlier(a, next) || a == next
    requires forall a :: Earlier(a, next) || a == next ==> Earlier(a, after)
    ensures BuiltUpTo(s, items + [item], sources + [next], after)
  {
    hide Built;
    var more := sources + [next];
    forall a | InSpec(s, a) && Earlier(a, after) ensures a in more {
      assert a == next ==> more[|sources|] == a;
      assert Earlier(a, next) ==> a in sources;
    }
  }

  lemma BuildSkip(s: Spec, items: seq<Item>, sources: seq<Source>, next: Source, after: Source)
    requires BuiltUpTo(s, items, sources, next)
    requires forall a :: InSpec(s, a) && Earlier(a, after) ==> Earlier(a, next)
    requires forall a :: Earlier(a, next) ==> Earlier(a, after)
    ensures BuiltUpTo(s, items, sources, after)
  {
    hide Built;
  }

  datatype BuildError = DuplicateIds

  /** The sources of a complete build. */
  ghost predicate BuiltAll(s: Spec, items: seq<Item>, sources: seq<Source>) {
    BuiltUpTo(s, items, sources, (|s.labels|, 0, 0))
  }

  /** build_work_items: every policy on every target in every repeat, exactly once; ids must not collide. */
  method BuildWorkItems(s: Spec) returns (r: Result<seq<Item>, BuildError>, ghost sources: seq<Source>)
    requires ValidSpec(s)
    ensures r.Ok? <==> !Ambiguous(s)
    ensures r.Ok? ==> BuiltAll(s, r.value, sources) && UniqueIds(r.value)
    ensures r.Err? ==> exists items :: BuiltAll(s, items, sources) && !UniqueIds(items)
  {
    hide BuiltUpTo, ItemId, LabelsOk, Ambiguous;
    var items := [];
    sources := [];
    NothingBuilt(s);
    for p := 0 to |s.labels|
      invariant BuiltUpTo(s, items, sources, (p, 0, 0))
    {
      for t := 0 to |s.targets|
        invariant BuiltUpTo(s, items, sources, (p, t, 0))
      {
        for repeat := 0 to s.repeats
          invariant BuiltUpTo(s, items, sources, (p, t, repeat))
        {
          var item := ItemOf(s.labels[p], s.targets[t], repeat);
          BuildNext(s, items, sources, item, (p, t, repeat), (p, t, repeat + 1));
          items, sources := items + [item], sources + [(p, t, repeat)];
        }
        BuildSkip(s, items, sources, (p, t, s.repeats), (p, t + 1, 0));
      }
      BuildSkip(s, items, sources, (p, |s.targets|, 0), (p + 1, 0, 0));
    }
    DistinctByCount(IdList(items));
    IdsAreUniqueIffUnambiguous(s, items, sources);
    return if |SetOf(IdList(items))| != |items| then Err(DuplicateIds) else Ok(items), sources;
  }

  lemma NothingBuilt(s: Spec)
    ensures BuiltUpTo(s, [], [], (0, 0, 0))
  {
  }

  /** Items built from a valid specification have distinct conditions and full, repetition-free seed vectors. */
  lemma BuiltItemsOk(s: Spec, items: seq<Item>, sources: seq<Source>, next: Source)
    requires ValidSpec(s) && BuiltUpTo(s, items, sources, next)
    ensures ItemsOk(items, s.numEnvs)
  {
    hide ItemId, Distinct;
    forall i | 0 <= i < |items| ensures |items[i].seeds| == s.numEnvs && Distinct(items[i].seeds) {
      assert TargetOk(s.targets[sources[i].1], s.numEnvs);
    }
    forall i, j | 0 <= i < j < |items| ensures Condition(items[i]) != Condition(items[j]) {
      DifferentSources(s, items[i], items[j], sources[i], sources[j]);
    }
  }

  lemma DifferentSources(s: Spec, a: Item, b: Item, x: Source, y: Source)
    requires ValidSpec(s) && Built(s, a, x) && Built(s, b, y) && x != y
    ensures Condition(a) != Condition(b)
  {
    hide ItemId;
    if x.0 == y.0 && x.2 == y.2 {
      var lo, hi := if x.1 < y.1 then x.1 else y.1, if x.1 < y.1 then y.1 else x.1;
      assert TargetKey(s.targets[lo]) != TargetKey(s.targets[hi]);
    } else if x.0 != y.0 {
      var lo, hi := if x.0 < y.0 then x.0 else y.0, if x.0 < y.0 then y.0 else x.0;
      assert s.labels[lo] != s.labels[hi];
    }
  }

  //////////////////////////// Colliding ids ////////////////////////////

  /** The part of an id before its numbers. */
  function Stem(policy: string, task: string): string {
    policy + "__" + task
  }

  /** Two labels run into the task names of two targets that agree on suite and layout. */
  predicate Ambiguous(s: Spec) {
    exists p, q, t, u :: 0 <= p < q < |s.labels| && 0 <= t < |s.targets| && 0 <= u < |s.targets| && Collide(s, p, q, t, u)
  }

  predicate Collide(s: Spec, p: nat, q: nat, t: nat, u: nat)
    requires p < |s.labels| && q < |s.labels| && t < |s.targets| && u < |s.targets|
  {
    && s.targets[t].suite == s.targets[u].suite && s.targets[t].layout == s.targets[u].layout
    && Stem(s.labels[p], s.targets[t].task) == Stem(s.labels[q], s.targets[u].task)
  }

  /** Everything but the boundary between label and task can be read back from an id. */
  lemma IdsDetermineConditions(p: string, t: Target, i: nat, q: string, u: Target, j: nat)
    requires t.suite >= 0 && t.layout >= 0 && u.suite >= 0 && u.layout >= 0
    ensures ItemId(p, t, i) == ItemId(q, u, j) <==>
      Stem(p, t.task) == Stem(q, u.task) && t.suite == u.suite && t.layout == u.layout && i == j
  {
    hide Padded;
    if ItemId(p, t, i) == ItemId(q, u, j) {
      var a, b := Stem(p, t.task) + "__s" + Padded(t.suite, 2), Stem(q, u.task) + "__s" + Padded(u.suite, 2);
      var c, d := a + "__l" + Padded(t.layout, 3), b + "__l" + Padded(u.layout, 3);
      SplitAtPadded(c, d, "__r", i, j, 2);
      SplitAtPadded(a, b, "__l", t.layout, u.layout, 3);
      SplitAtPadded(Stem(p, t.task), Stem(q, u.task), "__s", t.suite, u.suite, 2);
    }
  }

  /** The ids of a complete build are unique exactly when the specification is not ambiguous. */
  lemma IdsAreUniqueIffUnambiguous(s: Spec, items: seq<Item>, sources: seq<Source>)
    requires ValidSpec(s) && BuiltAll(s, items, sources)
    ensures UniqueIds(items) <==> !Ambiguous(s)
  {
    hide ValidSpec, BuiltUpTo, Collide, ItemId;
    if !UniqueIds(items) {
      var i, j :| 0 <= i < j < |items| && items[i].id == items[j].id;
      BuiltAt(s, items, sources, i, j);
      EqualIdsCollide(s, items[i], items[j], sources[i], sources[j]);
    }
    if Ambiguous(s) {
      var p, q, t, u :| 0 <= p < q < |s.labels| && 0 <= t < |s.targets| && 0 <= u < |s.targets| && Collide(s, p, q, t, u);
      var i, j := FindSource(s, items, sources, (p, t, 0)), FindSource(s, items, sources, (q, u, 0));
      CollidingIdsEqual(s, p, q, t, u);
      assert items[i].id == items[j].id && i != j;
      assert IdList(items)[i] == IdList(items)[j];
    }
  }

  lemma BuiltAt(s: Spec, items: seq<Item>, sources: seq<Source>, i: nat, j: nat)
    requires BuiltAll(s, items, sources) && i < j < |items|
    ensures |sources| == |items| && Built(s, items[i], sources[i]) && Built(s, items[j], sources[j]) && Earlier(sources[i], sources[j])
  {
  }

  /** The item of a first repeat. */
  ghost function FindSource(s: Spec, items: seq<Item>, sources: seq<Source>, a: Source): (i: nat)
    requires ValidSpec(s) && BuiltAll(s, items, sources) && a.0 < |s.labels| && a.1 < |s.targets| && a.2 == 0
    ensures i < |items| && |sources| == |items| && sources[i] == a && Built(s, items[i], a)
  {
    assert InSpec(s, a) && Earlier(a, (|s.labels|, 0, 0));
    var i :| 0 <= i < |sources| && sources[i] == a;
    i
  }

  lemma EqualIdsCollide(s: Spec, a: Item, b: Item, x: Source, y: Source)
    requires ValidSpec(s) && Built(s, a, x) && Built(s, b, y) && Earlier(x, y) && a.id == b.id
    ensures x.0 < y.0 && Collide(s, x.0, y.0, x.1, y.1)
  {
    hide ItemId, Stem;
    var t, u := s.targets[x.1], s.targets[y.1];
    IdsDetermineConditions(s.labels[x.0], t, x.2, s.labels[y.0], u, y.2);
    assert x.0 == y.0 ==> TargetKey(t) != TargetKey(u);
    if x.0 == y.0 {
      SameStem(s.labels[x.0], t.task, u.task);
    }
  }

  lemma SameStem(policy: string, a: string, b: string)
    requires Stem(policy, a) == Stem(policy, b)
    ensures a == b
  {
    var x, y := Stem(policy, a), Stem(policy, b);
    assert x[|policy| + 2..] == a && y[|policy| + 2..] == b;
  }

  lemma CollidingIdsEqual(s: Spec, p: nat, q: nat, t: nat, u: nat)
    requires ValidSpec(s) && p < |s.labels| && q < |s.labels| && t < |s.targets| && u < |s.targets| && Collide(s, p, q, t, u)
    ensures forall a, b :: Built(s, a, (p, t, 0)) && Built(s, b, (q, u, 0)) ==> a.id == b.id
  {
    hide ItemId, Stem;
    assert TargetOk(s.targets[t], s.numEnvs) && TargetOk(s.targets[u], s.numEnvs);
    IdsDetermineConditions(s.labels[p], s.targets[t], 0, s.labels[q], s.targets[u], 0);
  }

  /** An accepted specification whose ids collide: a task name swallows part of the other policy's label. */
  lemma IdsCanCollide(seeds: seq<int>, repeats: nat)
    requires seeds != [] && NonNegative(seeds) && Distinct(seeds) && repeats >= 1
    ensures var s := Spec(["p", "p__t"], [Target("t__x", 0, 0, 0, seeds), Target("x", 0, 0, 0, seeds)], repeats, |seeds|, 1, false);
      && ValidSpec(s) && Ambiguous(s)
      && forall items, sources :: BuiltAll(s, items, sources) ==> !UniqueIds(items)
  {
    hide BuiltAll, UniqueIds;
    var s := Spec(["p", "p__t"], [Target("t__x", 0, 0, 0, seeds), Target("x", 0, 0, 0, seeds)], repeats, |seeds|, 1, false);
    assert Stem(s.labels[0], s.targets[0].task) == "p__t__x" == Stem(s.labels[1], s.targets[1].task);
    assert Collide(s, 0, 1, 0, 1);
    forall items, sources | BuiltAll(s, items, sources) ensures !UniqueIds(items) {
      IdsAreUniqueIffUnambiguous(s, items, sources);
    }
  }
}
