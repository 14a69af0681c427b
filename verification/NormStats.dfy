/**
 Streaming normalization statistics: per dimension a fixed number of equal bins over the running
 range. When the range grows, the counts of each old bin move to the new bin that contains the old
 bin's left edge.
 */
module NormStats {
  import opened Common
  import Arithmetic

  const WIDENING := 0.000001

  //////////////////////////// Edges and bins ////////////////////////////

  function Edge(lo: real, hi: real, bins: nat, j: nat): real
    requires bins > 0
  {
    lo + (hi - lo) * (j as real / bins as real)
  }

  function Linspace(lo: real, hi: real, bins: nat): (edges: seq<real>)
    requires bins > 0
    ensures |edges| == bins + 1
  {
    seq(bins + 1, j requires 0 <= j => Edge(lo, hi, bins, j))
  }

  lemma EdgesIncrease(lo: real, hi: real, bins: nat, i: nat, j: nat)
    requires bins > 0 && lo < hi && i < j <= bins
    ensures Edge(lo, hi, bins, i) < Edge(lo, hi, bins, j)
  {
    var a, c := i as real / bins as real, j as real / bins as real;
    QuotientIncreases(i as real, j as real, bins as real);
    Arithmetic.RealProductPositive(hi - lo, c - a);
    assert (hi - lo) * (c - a) == (hi - lo) * c - (hi - lo) * a;
  }

  /** The bins are equally wide. */
  lemma EdgesAreEven(lo: real, hi: real, bins: nat, j: nat)
    requires j < bins
    ensures (Linspace(lo, hi, bins)[j + 1] - Linspace(lo, hi, bins)[j]) * bins as real == hi - lo
    ensures Linspace(lo, hi, bins)[0] == lo && Linspace(lo, hi, bins)[bins] == hi
  {
    var b, w := bins as real, hi - lo;
    EdgeLandmarks(lo, hi, bins);
    var a, c := j as real / b, (j + 1) as real / b;
    assert a * b == j as real && c * b == (j + 1) as real;
    assert (c - a) * b == c * b - a * b == 1.0;
    assert (w * c - w * a) * b == w * ((c - a) * b);
  }

  lemma QuotientIncreases(x: real, y: real, b: real)
    requires x < y && 0.0 < b
    ensures x / b < y / b
  {
    var a, c := x / b, y / b;
    assert a * b == x && c * b == y;
    assert (a - c) * b == a * b - c * b;
    if c <= a {
      Arithmetic.RealProductNonNegative(a - c, b);
    }
  }

  lemma EdgeLandmarks(lo: real, hi: real, bins: nat)
    requires bins > 0
    ensures Edge(lo, hi, bins, 0) == lo && Edge(lo, hi, bins, bins) == hi
    ensures bins % 2 == 0 ==> Edge(lo, hi, bins, bins / 2) == (lo + hi) / 2.0
  {
    var b := bins as real;
    assert 0.0 / b == 0.0;
    assert b / b == 1.0;
    if bins % 2 == 0 {
      assert (bins / 2) as real == b / 2.0;
      assert (b / 2.0) / b == 0.5;
    }
  }

  /** The last bin no later than `j` whose left edge is at most `x`. */
  function LastAtMost(edges: seq<real>, x: real, j: nat): (k: nat)
    requires j < |edges| && edges[0] <= x
    ensures k <= j && edges[k] <= x
    ensures k < j ==> x < edges[k + 1]
  {
    if edges[j] <= x then j else LastAtMost(edges, x, j - 1)
  }

  /** np.histogram's bin for `x`: half-open bins, the last one closed, None outside the range. */
  function BinOf(edges: seq<real>, x: real): (bin: Option<nat>)
    requires |edges| >= 2
    ensures bin.Some? ==> bin.value < |edges| - 1
  {
    if x < edges[0] || x > edges[|edges| - 1] then None else Some(LastAtMost(edges, x, |edges| - 2))
  }

  function WeightIn(values: seq<real>, weights: seq<real>, edges: seq<real>, n: nat, bin: nat): real
    requires n <= |values| == |weights| && |edges| >= 2
  {
    if n == 0 then 0.0
    else WeightIn(values, weights, edges, n - 1, bin) + if BinOf(edges, values[n - 1]) == Some(bin) then weights[n - 1] else 0.0
  }

  /** np.histogram(values, bins=edges, weights=weights). */
  function Histogram(values: seq<real>, weights: seq<real>, edges: seq<real>): (hist: seq<real>)
    requires |values| == |weights| && |edges| >= 2
    ensures |hist| == |edges| - 1
  {
    seq(|edges| - 1, k requires 0 <= k => WeightIn(values, weights, edges, |values|, k))
  }

  function Ones(n: nat): seq<real> {
    seq(n, _ => 1.0)
  }

  //////////////////////////// One dimension of the stream ////////////////////////////

  datatype Dim = Dim(min: real, max: real, hist: seq<real>, edges: seq<real>)

  function Range(min: real, max: real): (real, real) {
    if max <= min then (min - WIDENING, max + WIDENING) else (min, max)
  }

  function EdgesFor(min: real, max: real, bins: nat): (edges: seq<real>)
    requires bins > 0
    ensures |edges| == bins + 1
  {
    Linspace(Range(min, max).0, Range(min, max).1, bins)
  }

  function MinOf(xs: seq<real>): (m: real)
    requires xs != []
    ensures forall i :: 0 <= i < |xs| ==> m <= xs[i]
    ensures exists i :: 0 <= i < |xs| && m == xs[i]
  {
    if |xs| == 1 then xs[0]
    else
      var rest := MinOf(xs[..|xs| - 1]);
      if rest <= xs[|xs| - 1] then rest else xs[|xs| - 1]
  }

  function MaxOf(xs: seq<real>): (m: real)
    requires xs != []
    ensures forall i :: 0 <= i < |xs| ==> xs[i] <= m
    ensures exists i :: 0 <= i < |xs| && m == xs[i]
  {
    if |xs| == 1 then xs[0]
    else
      var rest := MaxOf(xs[..|xs| - 1]);
      if rest >= xs[|xs| - 1] then rest else xs[|xs| - 1]
  }

  function Empty(xs: seq<real>, bins: nat): (d: Dim)
    requires xs != [] && bins > 0
    ensures |d.hist| == bins && |d.edges| == bins + 1
  {
    Dim(MinOf(xs), MaxOf(xs), seq(bins, _ => 0.0), EdgesFor(MinOf(xs), MaxOf(xs), bins))
  }

  /** A constant dimension is binned over a range of 1e-6 to either side, any other over its own range. */
  lemma RangeOfBins(min: real, max: real, bins: nat)
    requires bins > 0 && min <= max
    ensures var edges := EdgesFor(min, max, bins);
      if min == max then edges[0] == min - 0.000001 && edges[bins] == max + 0.000001 else edges[0] == min && edges[bins] == max
  {
    EdgeLandmarks(Range(min, max).0, Range(min, max).1, bins);
  }

  /** Re-bin the existing counts over the range [min, max]. */
  function Rebin(d: Dim, min: real, max: real, bins: nat): (d': Dim)
    requires bins > 0 && |d.hist| == bins && |d.edges| == bins + 1
    ensures |d'.hist| == bins && |d'.edges| == bins + 1
  {
    var edges := EdgesFor(min, max, bins);
    Dim(min, max, Histogram(d.edges[..bins], d.hist, edges), edges)
  }

  function AddSamples(d: Dim, xs: seq<real>): (d': Dim)
    requires |d.edges| == |d.hist| + 1 >= 2
    ensures |d'.hist| == |d.hist| && d'.edges == d.edges
  {
    var more := Histogram(xs, Ones(|xs|), d.edges);
    d.(hist := seq(|d.hist|, k requires 0 <= k < |d.hist| => d.hist[k] + more[k]))
  }

  function MinReal(a: real, b: real): real {
    if a <= b then a else b
  }

  function MaxReal(a: real, b: real): real {
    if a >= b then a else b
  }

  predicate Grows(d: Dim, xs: seq<real>)
    requires xs != []
  {
    MinOf(xs) < d.min || MaxOf(xs) > d.max
  }

  /** The range grown by the samples, with the counts re-binned over it. */
  function Widened(d: Dim, xs: seq<real>, bins: nat): (d': Dim)
    requires xs != [] && bins > 0 && |d.hist| == bins && |d.edges| == bins + 1
    ensures |d'.hist| == bins && |d'.edges| == bins + 1
  {
    Rebin(d, MinReal(d.min, MinOf(xs)), MaxReal(d.max, MaxOf(xs)), bins)
  }

  /** One update: `regrow` is set as soon as any dimension's range grows. */
  function Absorb(d: Dim, xs: seq<real>, regrow: bool, bins: nat): (d': Dim)
    requires xs != [] && bins > 0 && |d.hist| == bins && |d.edges| == bins + 1
    ensures |d'.hist| == bins && |d'.edges| == bins + 1
  {
    AddSamples(if regrow then Widened(d, xs, bins) else d, xs)
  }

  //////////////////////////// Where every sample is counted ////////////////////////////

  function Count(bins: seq<nat>, k: nat): nat {
    if bins == [] then 0 else Count(bins[..|bins| - 1], k) + if bins[|bins| - 1] == k then 1 else 0
  }

  function CountBelow(bins: seq<nat>, k: nat): (c: nat)
    ensures c <= |bins|
  {
    if bins == [] then 0 else CountBelow(bins[..|bins| - 1], k) + if bins[|bins| - 1] < k then 1 else 0
  }

  /**
   `place[i]` is the bin that currently counts sample `i`. Every bin holds exactly its samples, and the
   left edge of a sample's bin lies between the running minimum and the sample.
   */
  ghost predicate Accounts(d: Dim, bins: nat, samples: seq<real>, place: seq<nat>) {
    && bins > 0
    && |place| == |samples|
    && d.min <= d.max
    && |d.hist| == bins
    && d.edges == EdgesFor(d.min, d.max, bins)
    && (forall i :: 0 <= i < |samples| ==> d.min <= samples[i] <= d.max)
    && (forall i :: 0 <= i < |place| ==> place[i] < bins && d.min <= d.edges[place[i]] <= samples[i])
    && (forall k :: 0 <= k < bins ==> d.hist[k] == Count(place, k) as real)
  }

  /** A value of the range is binned, at a left edge between the range's minimum and the value. */
  lemma BinFloor(min: real, max: real, bins: nat, x: real)
    requires bins > 0 && bins % 2 == 0 && min <= x <= max
    ensures var edges := EdgesFor(min, max, bins);
      BinOf(edges, x).Some? && min <= edges[BinOf(edges, x).value] <= x
  {
    var (lo, hi) := Range(min, max);
    var edges := EdgesFor(min, max, bins);
    EdgeLandmarks(lo, hi, bins);
    assert edges[0] == lo && edges[bins] == hi;
    var k := BinOf(edges, x).value;
    if max <= min {
      assert edges[bins / 2] == x;
      if k < bins / 2 {
        assert x < edges[k + 1];
        if k + 1 < bins / 2 {
          EdgesIncrease(lo, hi, bins, k + 1, bins / 2);
        }
        assert false;
      }
      if k > bins / 2 {
        EdgesIncrease(lo, hi, bins, bins / 2, k);
      }
    } else if k > 0 {
      EdgesIncrease(lo, hi, bins, 0, k);
    }
  }

  lemma {:induction false} CountAppend(a: seq<nat>, b: seq<nat>, k: nat)
    ensures Count(a + b, k) == Count(a, k) + Count(b, k)
  {
    if b == [] {
      assert a + b == a;
    } else {
      assert (a + b)[..|a + b| - 1] == a + b[..|b| - 1];
      CountAppend(a, b[..|b| - 1], k);
    }
  }

  /** The bins of `xs`, all of which lie inside the edges. */
  ghost function Places(edges: seq<real>, xs: seq<real>): (place: seq<nat>)
    requires |edges| >= 2 && forall i :: 0 <= i < |xs| ==> BinOf(edges, xs[i]).Some?
    ensures |place| == |xs|
  {
    seq(|xs|, i requires 0 <= i < |xs| => BinOf(edges, xs[i]).value)
  }

  /** Counting samples bin by bin is counting their places. */
  lemma {:induction false} HistogramCountsPlaces(edges: seq<real>, xs: seq<real>, n: nat, k: nat)
    requires |edges| >= 2 && n <= |xs| && forall i :: 0 <= i < |xs| ==> BinOf(edges, xs[i]).Some?
    ensures WeightIn(xs, Ones(|xs|), edges, n, k) == Count(Places(edges, xs)[..n], k) as real
  {
    if n > 0 {
      HistogramCountsPlaces(edges, xs, n - 1, k);
      var place := Places(edges, xs);
      assert place[..n][..n - 1] == place[..n - 1];
    }
  }

  /** Samples of the first `n` bins whose left edge falls into new bin `k`. */
  ghost function Moved(lefts: seq<real>, place: seq<nat>, edges: seq<real>, n: nat, k: nat): nat
    requires |edges| >= 2 && n <= |lefts|
  {
    if place == [] then 0
    else
      var p := place[|place| - 1];
      Moved(lefts, place[..|place| - 1], edges, n, k) + if p < n && BinOf(edges, lefts[p]) == Some(k) then 1 else 0
  }

  lemma {:induction false} MovedStep(lefts: seq<real>, place: seq<nat>, edges: seq<real>, n: nat, k: nat)
    requires |edges| >= 2 && n < |lefts|
    ensures Moved(lefts, place, edges, n + 1, k)
         == Moved(lefts, place, edges, n, k) + if BinOf(edges, lefts[n]) == Some(k) then Count(place, n) else 0
  {
    if place != [] {
      MovedStep(lefts, place[..|place| - 1], edges, n, k);
    }
  }

  lemma {:induction false} MovedNone(lefts: seq<real>, place: seq<nat>, edges: seq<real>, k: nat)
    requires |edges| >= 2
    ensures Moved(lefts, place, edges, 0, k) == 0
  {
    if place != [] {
      MovedNone(lefts, place[..|place| - 1], edges, k);
    }
  }

  /** Re-binning weights is moving every sample along with its old bin's left edge. */
  lemma {:induction false} RebinMovesSamples(lefts: seq<real>, hist: seq<real>, place: seq<nat>, edges: seq<real>, n: nat, k: nat)
    requires |edges| >= 2 && n <= |hist| == |lefts|
    requires forall j :: 0 <= j < |hist| ==> hist[j] == Count(place, j) as real
    ensures WeightIn(lefts, hist, edges, n, k) == Moved(lefts, place, edges, n, k) as real
  {
    if n == 0 {
      MovedNone(lefts, place, edges, k);
    } else {
      RebinMovesSamples(lefts, hist, place, edges, n - 1, k);
      MovedStep(lefts, place, edges, n - 1, k);
    }
  }

  ghost function LeftEdges(edges: seq<real>, place: seq<nat>): (lefts: seq<real>)
    requires forall i :: 0 <= i < |place| ==> place[i] < |edges|
    ensures |lefts| == |place|
  {
    seq(|place|, i requires 0 <= i < |place| => edges[place[i]])
  }

  lemma {:induction false} MovedIsRecounted(lefts: seq<real>, place: seq<nat>, edges: seq<real>, k: nat)
    requires |edges| >= 2
    requires forall i :: 0 <= i < |place| ==> place[i] < |lefts| && BinOf(edges, lefts[place[i]]).Some?
    ensures Moved(lefts, place, edges, |lefts|, k) == Count(Places(edges, LeftEdges(lefts, place)), k)
  {
    if place != [] {
      var front := place[..|place| - 1];
      MovedIsRecounted(lefts, front, edges, k);
      assert Places(edges, LeftEdges(lefts, place))[..|front|] == Places(edges, LeftEdges(lefts, front));
    }
  }

  /** Every sample lies inside its bin, not beyond it. */
  ghost predicate Tight(d: Dim, samples: seq<real>, place: seq<nat>) {
    |place| == |samples| && forall i :: 0 <= i < |place| ==> place[i] + 1 < |d.edges| && samples[i] <= d.edges[place[i] + 1]
  }

  lemma BinHolds(edges: seq<real>, x: real)
    requires |edges| >= 2 && BinOf(edges, x).Some?
    ensures x <= edges[BinOf(edges, x).value + 1]
  {
  }

  lemma PlacesAreTight(edges: seq<real>, xs: seq<real>)
    requires |edges| >= 2 && forall i :: 0 <= i < |xs| ==> BinOf(edges, xs[i]).Some?
    ensures forall i :: 0 <= i < |xs| ==> Places(edges, xs)[i] + 1 < |edges| && xs[i] <= edges[Places(edges, xs)[i] + 1]
  {
    hide BinOf;
    forall i | 0 <= i < |xs| ensures xs[i] <= edges[Places(edges, xs)[i] + 1] {
      BinHolds(edges, xs[i]);
    }
  }

  /** A left edge is binned at its own bin. */
  lemma LeftEdgeStays(min: real, max: real, bins: nat, j: nat)
    requires bins > 0 && min <= max && j < bins
    ensures BinOf(EdgesFor(min, max, bins), EdgesFor(min, max, bins)[j]) == Some(j)
  {
    hide LastAtMost;
    var edges := EdgesFor(min, max, bins);
    EdgesOrdered(min, max, bins, 0, j);
    EdgesOrdered(min, max, bins, j, bins);
    var k := LastAtMost(edges, edges[j], bins - 1);
    var (lo, hi) := Range(min, max);
    if k < j {
      EdgesOrdered(min, max, bins, k + 1, j);
    } else if k > j {
      EdgesIncrease(lo, hi, bins, j, k);
    }
  }

  //////////////////////////// What every update keeps ////////////////////////////

  lemma EmptyAccounts(xs: seq<real>, bins: nat)
    requires xs != [] && bins > 0
    ensures Accounts(Empty(xs, bins), bins, [], [])
  {
    var d := Empty(xs, bins);
    assert d.min <= xs[0] <= d.max;
  }

  lemma RebinAccounts(d: Dim, bins: nat, samples: seq<real>, place: seq<nat>, min: real, max: real)
    returns (place': seq<nat>)
    requires bins % 2 == 0 && Accounts(d, bins, samples, place) && min <= d.min && d.max <= max
    ensures Accounts(Rebin(d, min, max, bins), bins, samples, place')
    ensures min == d.min && max == d.max ==> place' == place
  {
    hide EdgesFor, BinOf;
    var edges := EdgesFor(min, max, bins);
    var lefts := d.edges[..bins];
    forall i | 0 <= i < |place|
      ensures BinOf(edges, lefts[place[i]]).Some? && min <= edges[BinOf(edges, lefts[place[i]]).value] <= lefts[place[i]]
    {
      BinFloor(min, max, bins, lefts[place[i]]);
    }
    place' := Places(edges, LeftEdges(lefts, place));
    forall k | 0 <= k < bins ensures Rebin(d, min, max, bins).hist[k] == Count(place', k) as real {
      RebinMovesSamples(lefts, d.hist, place, edges, bins, k);
      MovedIsRecounted(lefts, place, edges, k);
    }
    if min == d.min && max == d.max {
      forall i | 0 <= i < |place| ensures place'[i] == place[i] {
        LeftEdgeStays(min, max, bins, place[i]);
      }
    }
  }

  lemma AddSamplesAccounts(d: Dim, bins: nat, samples: seq<real>, place: seq<nat>, xs: seq<real>)
    returns (place': seq<nat>)
    requires bins % 2 == 0 && Accounts(d, bins, samples, place)
    requires forall i :: 0 <= i < |xs| ==> d.min <= xs[i] <= d.max
    ensures Accounts(AddSamples(d, xs), bins, samples + xs, place')
    ensures Tight(d, samples, place) ==> Tight(AddSamples(d, xs), samples + xs, place')
  {
    hide EdgesFor, BinOf;
    forall i | 0 <= i < |xs|
      ensures BinOf(d.edges, xs[i]).Some? && d.min <= d.edges[BinOf(d.edges, xs[i]).value] <= xs[i]
    {
      BinFloor(d.min, d.max, bins, xs[i]);
    }
    var more := Places(d.edges, xs);
    PlacesAreTight(d.edges, xs);
    place' := place + more;
    forall k | 0 <= k < bins ensures AddSamples(d, xs).hist[k] == Count(place', k) as real {
      HistogramCountsPlaces(d.edges, xs, |xs|, k);
      assert more[..|xs|] == more;
      CountAppend(place, more, k);
    }
  }

  /** With an even number of bins, every update keeps each sample in one bin, at or below the sample. */
  lemma AbsorbAccounts(d: Dim, bins: nat, samples: seq<real>, place: seq<nat>, xs: seq<real>, regrow: bool)
    returns (place': seq<nat>)
    requires bins % 2 == 0 && Accounts(d, bins, samples, place) && xs != [] && (Grows(d, xs) ==> regrow)
    ensures Accounts(Absorb(d, xs, regrow, bins), bins, samples + xs, place')
    ensures Tight(d, samples, place) && !Grows(d, xs) ==> Tight(Absorb(d, xs, regrow, bins), samples + xs, place')
  {
    hide Histogram, EdgesFor, MinOf, MaxOf, Count;
    if regrow {
      var min, max := MinReal(d.min, MinOf(xs)), MaxReal(d.max, MaxOf(xs));
      var middle := RebinAccounts(d, bins, samples, place, min, max);
      place' := AddSamplesAccounts(Rebin(d, min, max, bins), bins, samples, middle, xs);
    } else {
      place' := AddSamplesAccounts(d, bins, samples, place, xs);
    }
  }

  //////////////////////////// Conservation of mass ////////////////////////////

  function Cumulative(hist: seq<real>, k: nat): real
    requires k <= |hist|
  {
    if k == 0 then 0.0 else Cumulative(hist, k - 1) + hist[k - 1]
  }

  lemma {:induction false} CountBelowStep(place: seq<nat>, k: nat)
    ensures CountBelow(place, k + 1) == CountBelow(place, k) + Count(place, k)
    ensures CountBelow(place, 0) == 0
  {
    if place != [] {
      CountBelowStep(place[..|place| - 1], k);
    }
  }

  lemma {:induction false} CumulativeCounts(d: Dim, bins: nat, samples: seq<real>, place: seq<nat>, k: nat)
    requires Accounts(d, bins, samples, place) && k <= bins
    ensures Cumulative(d.hist, k) == CountBelow(place, k) as real
  {
    if k == 0 {
      CountBelowStep(place, 0);
    } else {
      CumulativeCounts(d, bins, samples, place, k - 1);
      CountBelowStep(place, k - 1);
    }
  }

  lemma {:induction false} AllBelow(place: seq<nat>, k: nat)
    requires forall i :: 0 <= i < |place| ==> place[i] < k
    ensures CountBelow(place, k) == |place|
  {
    if place != [] {
      AllBelow(place[..|place| - 1], k);
    }
  }

  /** The bins sum to the number of samples. */
  lemma MassIsCount(d: Dim, bins: nat, samples: seq<real>, place: seq<nat>)
    requires Accounts(d, bins, samples, place)
    ensures Cumulative(d.hist, bins) == |samples| as real
  {
    CumulativeCounts(d, bins, samples, place, bins);
    AllBelow(place, bins);
  }

  datatype Batch = Batch(xs: seq<real>, regrow: bool)

  /** A dimension after a stream of updates, the first of which initializes it. */
  function Track(bins: nat, batches: seq<Batch>): (d: Dim)
    requires bins > 0 && batches != [] && forall b :: b in batches ==> b.xs != []
    ensures |d.hist| == bins && |d.edges| == bins + 1
  {
    var last := batches[|batches| - 1];
    if |batches| == 1 then AddSamples(Empty(last.xs, bins), last.xs)
    else Absorb(Track(bins, batches[..|batches| - 1]), last.xs, last.regrow, bins)
  }

  /** The update flag is raised at least whenever this dimension's own range grows. */
  ghost predicate Admissible(bins: nat, batches: seq<Batch>)
    requires bins > 0 && batches != []
  {
    && (forall b :: b in batches ==> b.xs != [])
    && forall n :: 0 < n < |batches| ==> (Grows(Track(bins, batches[..n]), batches[n].xs) ==> batches[n].regrow)
  }

  /** The dimension's range is that of the first update throughout. */
  ghost predicate NeverGrows(bins: nat, batches: seq<Batch>)
    requires bins > 0 && batches != [] && forall b :: b in batches ==> b.xs != []
  {
    forall n :: 0 < n < |batches| ==> !Grows(Track(bins, batches[..n]), batches[n].xs)
  }

  function Samples(batches: seq<Batch>): seq<real> {
    if batches == [] then [] else Samples(batches[..|batches| - 1]) + batches[|batches| - 1].xs
  }

  lemma {:induction false} StreamAccounts(bins: nat, batches: seq<Batch>) returns (place: seq<nat>)
    requires bins > 0 && bins % 2 == 0 && batches != [] && Admissible(bins, batches)
    ensures Accounts(Track(bins, batches), bins, Samples(batches), place)
    ensures NeverGrows(bins, batches) ==> Tight(Track(bins, batches), Samples(batches), place)
  {
    hide Histogram, EdgesFor, MinOf, MaxOf, Count, Accounts;
    var front := batches[..|batches| - 1];
    var last := batches[|batches| - 1];
    if |batches| == 1 {
      EmptyAccounts(last.xs, bins);
      place := AddSamplesAccounts(Empty(last.xs, bins), bins, [], [], last.xs);
      assert Samples(front) == [];
    } else {
      forall n | 0 < n < |front| ensures front[..n] == batches[..n] {}
      assert batches[..|front|] == front;
      var before := StreamAccounts(bins, front);
      place := AbsorbAccounts(Track(bins, front), bins, Samples(front), before, last.xs, last.regrow);
    }
  }

  /** With an even bin count no stream loses mass, whatever its growth, constant dimensions included. */
  lemma EvenBinsConserveMass(bins: nat, batches: seq<Batch>)
    requires bins > 0 && bins % 2 == 0 && batches != [] && Admissible(bins, batches)
    ensures Cumulative(Track(bins, batches).hist, bins) == |Samples(batches)| as real
  {
    var place := StreamAccounts(bins, batches);
    MassIsCount(Track(bins, batches), bins, Samples(batches), place);
  }

  ghost predicate Conserves(bins: nat, batches: seq<Batch>)
    requires bins > 0 && batches != [] && forall b :: b in batches ==> b.xs != []
  {
    Cumulative(Track(bins, batches).hist, bins) == |Samples(batches)| as real
  }

  lemma {:induction false} OneHot(hist: seq<real>, p: nat, k: nat)
    requires k <= |hist| && forall j :: 0 <= j < |hist| ==> hist[j] == if j == p then 1.0 else 0.0
    ensures Cumulative(hist, k) == if p < k then 1.0 else 0.0
  {
    if k > 0 {
      OneHot(hist, p, k - 1);
    }
  }

  lemma {:induction false} NothingCaught(values: seq<real>, weights: seq<real>, edges: seq<real>, n: nat, bin: nat)
    requires n <= |values| == |weights| && |edges| >= 2
    requires forall j :: 0 <= j < |values| ==> BinOf(edges, values[j]) == None || weights[j] == 0.0
    ensures WeightIn(values, weights, edges, n, bin) == 0.0
  {
    if n > 0 {
      NothingCaught(values, weights, edges, n - 1, bin);
    }
  }

  lemma SingleSample(edges: seq<real>, x: real, k: nat)
    requires |edges| >= 2
    ensures WeightIn([x], Ones(1), edges, 1, k) == if BinOf(edges, x) == Some(k) then 1.0 else 0.0
  {
    assert WeightIn([x], Ones(1), edges, 0, k) == 0.0;
  }

  const LosingStream := [Batch([0.0], false), Batch([1.0], true)]

  /**
   With an odd bin count the middle bin of a constant dimension starts below the constant, so growing
   the range upwards drops its whole count: the stream 0, 1 keeps one of its two samples.
   */
  lemma OddBinsLoseMass(bins: nat)
    requires bins % 2 == 1
    ensures Admissible(bins, LosingStream) && !Conserves(bins, LosingStream)
    ensures Cumulative(Track(bins, LosingStream).hist, bins) == 1.0
  {
    var batches := LosingStream;
    assert batches[..1] == [Batch([0.0], false)];
    var first := Track(bins, batches[..1]);
    assert first == AddSamples(Empty([0.0], bins), [0.0]);
    ConstantZeroFallsLeft(bins);
    var grown := Rebin(first, 0.0, 1.0, bins);
    EdgeLandmarks(0.0, 1.0, bins);
    assert grown.edges[0] == 0.0 && grown.edges[bins] == 1.0;
    forall k | 0 <= k < bins ensures grown.hist[k] == 0.0 {
      NothingCaught(first.edges[..bins], first.hist, grown.edges, bins, k);
    }
    var second := Track(bins, batches);
    assert second == AddSamples(grown, [1.0]);
    forall k | 0 <= k < bins ensures second.hist[k] == if k == BinOf(grown.edges, 1.0).value then 1.0 else 0.0 {
      SingleSample(grown.edges, 1.0, k);
    }
    OneHot(second.hist, BinOf(grown.edges, 1.0).value, bins);
    assert Samples(batches[..1]) == Samples([]) + [0.0];
    assert |Samples(batches)| == 2;
  }

  lemma OddHasNoMiddleEdge(bins: nat, j: nat)
    requires bins % 2 == 1
    ensures Edge(-WIDENING, WIDENING, bins, j) != 0.0
  {
    var part := j as real / bins as real;
    assert part * bins as real == j as real;
    assert 2 * j != bins;
    assert part == 0.5 ==> (2 * j) as real == bins as real;
  }

  lemma ConstantZeroFallsLeft(bins: nat)
    requires bins % 2 == 1
    ensures var d := AddSamples(Empty([0.0], bins), [0.0]);
      && d.min == d.max == 0.0
      && forall j :: 0 <= j < bins && d.hist[j] != 0.0 ==> d.edges[j] < 0.0
  {
    var d := AddSamples(Empty([0.0], bins), [0.0]);
    assert d.min == d.max == 0.0;
    forall j | 0 <= j < bins && d.hist[j] != 0.0 ensures d.edges[j] < 0.0 {
      SingleSample(d.edges, 0.0, j);
      assert d.edges[j] <= 0.0;
      assert d.edges[j] == Edge(-WIDENING, WIDENING, bins, j);
      OddHasNoMiddleEdge(bins, j);
    }
  }

  /** Every stream conserves mass exactly when the bin count is even. */
  lemma MassConservedIffBinsEven(bins: nat)
    requires bins > 0
    ensures bins % 2 == 0 <==>
      forall batches: seq<Batch> :: batches != [] && Admissible(bins, batches) ==> Conserves(bins, batches)
  {
    if bins % 2 == 0 {
      forall batches: seq<Batch> | batches != [] && Admissible(bins, batches) ensures Conserves(bins, batches) {
        EvenBinsConserveMass(bins, batches);
      }
    } else {
      OddBinsLoseMass(bins);
    }
  }

  //////////////////////////// Quantiles ////////////////////////////

  /** np.searchsorted(cumsum(hist), target, side="left"), searching from bin `k`. */
  function FirstReaching(hist: seq<real>, target: real, k: nat): (idx: nat)
    requires k <= |hist|
    ensures k <= idx <= |hist|
    ensures idx < |hist| ==> Cumulative(hist, idx + 1) >= target
    ensures forall j :: k < j <= idx ==> Cumulative(hist, j) < target
    decreases |hist| - k
  {
    if k == |hist| || Cumulative(hist, k + 1) >= target then k else FirstReaching(hist, target, k + 1)
  }

  function EdgeReaching(hist: seq<real>, edges: seq<real>, target: real): real
    requires |edges| == |hist| + 1 >= 2
  {
    edges[Min(FirstReaching(hist, target, 0), |edges| - 2)]
  }

  function Quantile(d: Dim, q: real, count: nat): real
    requires |d.edges| == |d.hist| + 1 >= 2
  {
    EdgeReaching(d.hist, d.edges, q * count as real)
  }

  function Below(samples: seq<real>, v: real): nat {
    if samples == [] then 0 else Below(samples[..|samples| - 1], v) + if samples[|samples| - 1] < v then 1 else 0
  }

  function AtMost(samples: seq<real>, v: real): nat {
    if samples == [] then 0 else AtMost(samples[..|samples| - 1], v) + if samples[|samples| - 1] <= v then 1 else 0
  }

  lemma {:induction false} BelowWithinBins(samples: seq<real>, place: seq<nat>, v: real, k: nat)
    requires |samples| == |place| && forall i :: 0 <= i < |samples| && samples[i] < v ==> place[i] < k
    ensures Below(samples, v) <= CountBelow(place, k)
  {
    if samples != [] {
      BelowWithinBins(samples[..|samples| - 1], place[..|place| - 1], v, k);
    }
  }

  lemma {:induction false} AtMostBelow(samples: seq<real>, v: real, w: real)
    requires v < w
    ensures AtMost(samples, v) <= Below(samples, w)
  {
    if samples != [] {
      AtMostBelow(samples[..|samples| - 1], v, w);
    }
  }

  lemma {:induction false} CountedSomewhere(place: seq<nat>, k: nat) returns (i: nat)
    requires Count(place, k) > 0
    ensures i < |place| && place[i] == k
  {
    if place[|place| - 1] == k {
      i := |place| - 1;
    } else {
      i := CountedSomewhere(place[..|place| - 1], k);
    }
  }

  lemma ShareBounds(q: real, n: nat)
    requires 0.0 < q <= 1.0 && n > 0
    ensures 0.0 < q * n as real <= n as real
  {
    Arithmetic.RealProductPositive(q, n as real);
    Arithmetic.RealProductNonNegative(1.0 - q, n as real);
    assert (1.0 - q) * n as real == n as real - q * n as real;
  }

  ghost predicate LowerBoundsQuantile(min: real, samples: seq<real>, q: real, r: real) {
    && min <= r
    && Below(samples, r) as real < q * |samples| as real
    && forall v :: AtMost(samples, v) as real >= q * |samples| as real ==> r <= v
  }

  /** `r` is the left edge of the first bin with which the running mass reaches the target; of the last bin when none does. */
  ghost predicate IsReached(hist: seq<real>, edges: seq<real>, target: real, r: real, idx: nat) {
    && idx < |hist| < |edges| && r == edges[idx]
    && (forall j :: 0 <= j <= idx ==> Cumulative(hist, j) < target)
    && (target <= Cumulative(hist, idx + 1) || (idx + 1 == |hist| && Cumulative(hist, |hist|) < target))
  }

  ghost predicate ReachesTarget(hist: seq<real>, edges: seq<real>, target: real, r: real) {
    exists idx :: IsReached(hist, edges, target, r, idx)
  }

  /** Whatever the histogram holds, also one that has lost mass. */
  lemma EdgeIsReached(hist: seq<real>, edges: seq<real>, target: real)
    requires |edges| == |hist| + 1 >= 2 && target > 0.0
    ensures ReachesTarget(hist, edges, target, EdgeReaching(hist, edges, target))
  {
    hide FirstReaching, Cumulative;
    var first := FirstReaching(hist, target, 0);
    var idx := Min(first, |hist| - 1);
    NoMassYet(hist);
    assert IsReached(hist, edges, target, EdgeReaching(hist, edges, target), idx);
  }

  lemma NoMassYet(hist: seq<real>)
    ensures Cumulative(hist, 0) == 0.0
  {
  }

  /** At least `target` samples are at most the right edge of the bin whose left edge is `r`. */
  ghost predicate HeldBelow(samples: seq<real>, edges: seq<real>, target: real, r: real) {
    exists idx :: 0 <= idx < |edges| - 1 && edges[idx] == r && target <= AtMost(samples, edges[idx + 1]) as real
  }

  /** While the range has not grown, a quantile lies at most one bin below the order statistic. */
  lemma QuantileWithinOneBin(d: Dim, bins: nat, samples: seq<real>, place: seq<nat>, q: real)
    requires Accounts(d, bins, samples, place) && Tight(d, samples, place) && samples != [] && 0.0 < q <= 1.0
    ensures HeldBelow(samples, d.edges, q * |samples| as real, Quantile(d, q, |samples|))
  {
    hide Accounts, EdgeReaching, Below, AtMost, Cumulative;
    AccountsShape(d, bins, samples, place);
    var target := q * |samples| as real;
    ShareBounds(q, |samples|);
    var idx := ReachedBin(d, bins, samples, place, target);
    HeldUpTo(d, bins, samples, place, idx);
  }

  lemma HeldUpTo(d: Dim, bins: nat, samples: seq<real>, place: seq<nat>, idx: nat)
    requires Accounts(d, bins, samples, place) && Tight(d, samples, place) && idx < bins
    ensures Cumulative(d.hist, idx + 1) <= AtMost(samples, d.edges[idx + 1]) as real
  {
    hide AtMost, CountBelow, Count, Cumulative, EdgesFor;
    CumulativeCounts(d, bins, samples, place, idx + 1);
    forall i | 0 <= i < |samples| && place[i] < idx + 1 ensures samples[i] <= d.edges[idx + 1] {
      EdgesOrdered(d.min, d.max, bins, place[i] + 1, idx + 1);
    }
    BinsWithinAtMost(samples, place, d.edges[idx + 1], idx + 1);
  }

  lemma {:induction false} BinsWithinAtMost(samples: seq<real>, place: seq<nat>, v: real, k: nat)
    requires |samples| == |place| && forall i :: 0 <= i < |samples| && place[i] < k ==> samples[i] <= v
    ensures CountBelow(place, k) <= AtMost(samples, v)
  {
    if samples != [] {
      BinsWithinAtMost(samples[..|samples| - 1], place[..|place| - 1], v, k);
    }
  }

  /** The bin whose left edge is reported: the mass before it falls short of the target, and it holds some itself. */
  lemma ReachedBin(d: Dim, bins: nat, samples: seq<real>, place: seq<nat>, target: real) returns (idx: nat)
    requires Accounts(d, bins, samples, place) && 0.0 < target <= |samples| as real
    ensures idx < bins && EdgeReaching(d.hist, d.edges, target) == d.edges[idx]
    ensures Cumulative(d.hist, idx) < target <= Cumulative(d.hist, idx + 1) && d.hist[idx] > 0.0
  {
    hide FirstReaching, Count, EdgesFor;
    MassIsCount(d, bins, samples, place);
    idx := FirstReaching(d.hist, target, 0);
  }

  lemma BelowReachedEdge(d: Dim, bins: nat, samples: seq<real>, place: seq<nat>, idx: nat)
    requires Accounts(d, bins, samples, place) && idx < bins
    ensures Below(samples, d.edges[idx]) as real <= Cumulative(d.hist, idx)
  {
    hide Below, CountBelow, Count, Cumulative;
    CumulativeCounts(d, bins, samples, place, idx);
    var (lo, hi) := Range(d.min, d.max);
    forall i | 0 <= i < |samples| && samples[i] < d.edges[idx] ensures place[i] < idx {
      if place[i] > idx {
        EdgesIncrease(lo, hi, bins, idx, place[i]);
      }
    }
    BelowWithinBins(samples, place, d.edges[idx], idx);
  }

  lemma UsedEdgeAboveMin(d: Dim, bins: nat, samples: seq<real>, place: seq<nat>, idx: nat)
    requires Accounts(d, bins, samples, place) && idx < bins && d.hist[idx] > 0.0
    ensures d.min <= d.edges[idx]
  {
    hide Count, EdgesFor;
    var i := CountedSomewhere(place, idx);
  }

  lemma NothingSmallerReaches(samples: seq<real>, r: real, target: real)
    requires Below(samples, r) as real < target
    ensures forall v :: AtMost(samples, v) as real >= target ==> r <= v
  {
    hide Below, AtMost;
    forall v | AtMost(samples, v) as real >= target ensures r <= v {
      if v < r {
        AtMostBelow(samples, v, r);
      }
    }
  }

  /**
   A reported quantile is never below the running minimum and never above the exact order statistic:
   fewer than `q * count` samples lie below it, so it is at most any value that `q * count` samples reach.
   */
  lemma QuantileIsLowerBound(d: Dim, bins: nat, samples: seq<real>, place: seq<nat>, q: real)
    requires Accounts(d, bins, samples, place) && samples != [] && 0.0 < q <= 1.0
    ensures LowerBoundsQuantile(d.min, samples, q, Quantile(d, q, |samples|))
  {
    hide Accounts, EdgeReaching, Below, AtMost, Cumulative;
    AccountsShape(d, bins, samples, place);
    var target := q * |samples| as real;
    ShareBounds(q, |samples|);
    var idx := ReachedBin(d, bins, samples, place, target);
    BelowReachedEdge(d, bins, samples, place, idx);
    UsedEdgeAboveMin(d, bins, samples, place, idx);
    NothingSmallerReaches(samples, d.edges[idx], target);
  }

  lemma AccountsShape(d: Dim, bins: nat, samples: seq<real>, place: seq<nat>)
    requires Accounts(d, bins, samples, place)
    ensures |d.edges| == |d.hist| + 1 == bins + 1 >= 2 && |place| == |samples|
  {
  }

  lemma {:induction false} ReachingMonotone(hist: seq<real>, low: real, high: real, k: nat)
    requires k <= |hist| && low <= high
    ensures FirstReaching(hist, low, k) <= FirstReaching(hist, high, k)
    decreases |hist| - k
  {
    if k < |hist| {
      ReachingMonotone(hist, low, high, k + 1);
    }
  }

  lemma EdgesOrdered(min: real, max: real, bins: nat, i: nat, j: nat)
    requires i <= j <= bins && bins > 0 && min <= max
    ensures EdgesFor(min, max, bins)[i] <= EdgesFor(min, max, bins)[j]
  {
    if i < j {
      EdgesIncrease(Range(min, max).0, Range(min, max).1, bins, i, j);
    }
  }

  lemma SharesOrdered(q: real, q': real, n: nat)
    requires q <= q' && n > 0
    ensures q * n as real <= q' * n as real
  {
    Arithmetic.RealProductNonNegative(q' - q, n as real);
    assert (q' - q) * n as real == q' * n as real - q * n as real;
  }

  lemma EdgesAtOrdered(d: Dim, bins: nat, low: real, high: real)
    requires bins > 0 && d.min <= d.max && |d.hist| == bins && d.edges == EdgesFor(d.min, d.max, bins) && low <= high
    ensures d.edges[Min(FirstReaching(d.hist, low, 0), bins - 1)] <= d.edges[Min(FirstReaching(d.hist, high, 0), bins - 1)]
  {
    ReachingMonotone(d.hist, low, high, 0);
    EdgesOrdered(d.min, d.max, bins, Min(FirstReaching(d.hist, low, 0), bins - 1), Min(FirstReaching(d.hist, high, 0), bins - 1));
  }

  /** Quantiles of one histogram are ordered like their levels; in particular q01 <= q99. */
  lemma QuantilesMonotone(d: Dim, bins: nat, samples: seq<real>, place: seq<nat>, q: real, q': real)
    requires Accounts(d, bins, samples, place) && samples != [] && q <= q'
    ensures Quantile(d, q, |samples|) <= Quantile(d, q', |samples|)
  {
    hide FirstReaching, EdgesFor, Count;
    SharesOrdered(q, q', |samples|);
    EdgesAtOrdered(d, bins, q * |samples| as real, q' * |samples| as real);
  }

  //////////////////////////// The statistics object ////////////////////////////

  datatype StatsError = VectorLength | NoData

  const VARIANCE_FLOOR := 0.000000000001

  datatype Statistics = Statistics(range: Option<(seq<real>, seq<real>)>, mean: seq<real>, variance: seq<real>,
                                   q01: seq<real>, q99: seq<real>)

  type Rows = seq<seq<real>>

  ghost predicate Rectangular(x: Rows, width: nat) {
    forall r :: 0 <= r < |x| ==> |x[r]| == width
  }

  function Column(x: Rows, i: nat): (column: seq<real>)
    requires forall r :: 0 <= r < |x| ==> i < |x[r]|
    ensures |column| == |x|
  {
    seq(|x|, r requires 0 <= r < |x| => x[r][i])
  }

  function Total(xs: seq<real>): real {
    if xs == [] then 0.0 else Total(xs[..|xs| - 1]) + xs[|xs| - 1]
  }

  function SquareTotal(xs: seq<real>): real {
    if xs == [] then 0.0 else SquareTotal(xs[..|xs| - 1]) + xs[|xs| - 1] * xs[|xs| - 1]
  }

  lemma {:induction false} TotalsAppend(a: seq<real>, b: seq<real>)
    ensures Total(a + b) == Total(a) + Total(b)
    ensures SquareTotal(a + b) == SquareTotal(a) + SquareTotal(b)
  {
    if b == [] {
      assert a + b == a;
    } else {
      assert (a + b)[..|a + b| - 1] == a + b[..|b| - 1];
      TotalsAppend(a, b[..|b| - 1]);
    }
  }

  function Times(a: real, b: real): real {
    a * b
  }

  function Square(x: real): real {
    Times(x, x)
  }

  lemma TimesPositive(a: real, b: real)
    requires 0.0 < a && 0.0 < b
    ensures 0.0 < Times(a, b)
  {
  }

  lemma MirroredSquare(x: real, y: real)
    requires y == -x
    ensures Square(x) == Square(y)
  {
  }

  lemma NoSquare()
    ensures Square(0.0) == 0.0
  {
  }

  lemma SquareSign(x: real)
    ensures x == 0.0 ==> Square(x) == 0.0
    ensures x != 0.0 ==> Square(x) > 0.0
  {
    hide Times;
    if x > 0.0 {
      TimesPositive(x, x);
    } else if x < 0.0 {
      MirroredSquare(x, -x);
      TimesPositive(-x, -x);
    } else {
      NoSquare();
    }
  }

  /** The sum of squared deviations from `m`. */
  function Deviation(xs: seq<real>, m: real): (d: real)
    ensures d >= 0.0
  {
    if xs == [] then 0.0
    else
      SquareSign(xs[|xs| - 1] - m);
      Deviation(xs[..|xs| - 1], m) + Square(xs[|xs| - 1] - m)
  }

  function Mean(xs: seq<real>): real
    requires xs != []
  {
    Total(xs) / |xs| as real
  }

  /** The mean squared deviation from the mean. */
  function Variance(xs: seq<real>): real
    requires xs != []
  {
    Deviation(xs, Mean(xs)) / |xs| as real
  }

  lemma {:induction false} DeviationExpands(xs: seq<real>, m: real)
    ensures Deviation(xs, m) == SquareTotal(xs) - 2.0 * (m * Total(xs)) + |xs| as real * (m * m)
  {
    hide Deviation, SquareTotal, Total, Square;
    if xs == [] {
      NothingSummed(m);
    } else {
      var front, x := xs[..|xs| - 1], xs[|xs| - 1];
      DeviationExpands(front, m);
      LastSummed(xs, m);
      OneMoreSquare(x, m);
      OneMoreProduct(m, Total(front), x);
      OneMoreMultiple(|front|, m * m);
    }
  }

  lemma NothingSummed(m: real)
    ensures Deviation([], m) == SquareTotal([]) == Total([]) == 0.0
  {
  }

  lemma LastSummed(xs: seq<real>, m: real)
    requires xs != []
    ensures var front, x := xs[..|xs| - 1], xs[|xs| - 1];
      && Deviation(xs, m) == Deviation(front, m) + Square(x - m)
      && SquareTotal(xs) == SquareTotal(front) + x * x
      && Total(xs) == Total(front) + x
  {
  }

  lemma OneMoreSquare(x: real, m: real)
    ensures Square(x - m) == x * x - 2.0 * (m * x) + m * m
  {
  }

  lemma OneMoreProduct(m: real, t: real, x: real)
    ensures m * (t + x) == m * t + m * x
  {
  }

  lemma OneMoreMultiple(n: nat, q: real)
    ensures (n + 1) as real * q == n as real * q + q
  {
    assert (n + 1) as real == n as real + 1.0;
  }

  /** What the program computes from the two running sums. */
  function OnePass(total: real, squares: real, count: nat): real
    requires count > 0
  {
    squares / count as real - (total / count as real) * (total / count as real)
  }

  /** The one-pass variance is the mean squared deviation, in particular never negative. */
  lemma OnePassVariance(xs: seq<real>)
    requires xs != []
    ensures OnePass(Total(xs), SquareTotal(xs), |xs|) == Variance(xs) >= 0.0
  {
    hide SquareTotal, Total, Deviation;
    var n, m := |xs| as real, Mean(xs);
    DeviationExpands(xs, m);
    MeanTimesCount(xs);
    MeanSquares(m, n, Total(xs));
    DivideDifference(SquareTotal(xs), m * m, n);
    NonNegativeQuotient(Deviation(xs, m), n);
  }

  lemma MeanTimesCount(xs: seq<real>)
    requires xs != []
    ensures Mean(xs) * |xs| as real == Total(xs)
  {
  }

  lemma MeanSquares(m: real, n: real, t: real)
    requires m * n == t
    ensures m * t == n * (m * m)
  {
    assert m * (m * n) == n * (m * m);
  }

  lemma DivideDifference(a: real, b: real, n: real)
    requires n > 0.0
    ensures (a - n * b) / n == a / n - b
  {
    var q := (a - n * b) / n;
    assert q * n == a - n * b;
    assert (q + b) * n == q * n + n * b;
    assert a / n == q + b;
  }

  lemma NonNegativeQuotient(a: real, n: real)
    requires n > 0.0
    ensures (a >= 0.0 <==> a / n >= 0.0) && (a == 0.0 <==> a / n == 0.0)
  {
    var q := a / n;
    assert q * n == a;
    if q > 0.0 {
      Arithmetic.RealProductPositive(q, n);
    } else if q < 0.0 {
      Arithmetic.RealProductPositive(-q, n);
    }
  }

  lemma {:induction false} NoDeviation(xs: seq<real>, m: real)
    requires forall i :: 0 <= i < |xs| ==> xs[i] == m
    ensures Deviation(xs, m) == 0.0
  {
    hide Square;
    if xs != [] {
      NoDeviation(xs[..|xs| - 1], m);
      SquareSign(xs[|xs| - 1] - m);
    }
  }

  lemma {:induction false} SomeDeviation(xs: seq<real>, m: real, i: nat)
    requires i < |xs| && xs[i] != m
    ensures Deviation(xs, m) > 0.0
  {
    hide Square;
    SquareSign(xs[|xs| - 1] - m);
    if i < |xs| - 1 {
      SomeDeviation(xs[..|xs| - 1], m, i);
    }
  }

  lemma {:induction false} TotalIsInside(xs: seq<real>, lo: real, hi: real)
    requires forall i :: 0 <= i < |xs| ==> lo <= xs[i] <= hi
    ensures lo * |xs| as real <= Total(xs) <= hi * |xs| as real
  {
    if xs != [] {
      TotalIsInside(xs[..|xs| - 1], lo, hi);
      assert lo * |xs| as real == lo * (|xs| - 1) as real + lo;
      assert hi * |xs| as real == hi * (|xs| - 1) as real + hi;
    }
  }

  /** The mean lies in the range. */
  lemma MeanIsInside(xs: seq<real>)
    requires xs != []
    ensures MinOf(xs) <= Mean(xs) <= MaxOf(xs)
  {
    hide Total, MinOf, MaxOf;
    TotalIsInside(xs, MinOf(xs), MaxOf(xs));
    Arithmetic.QuotientBetween(Total(xs), |xs| as real, MinOf(xs), MaxOf(xs));
  }

  /** The variance vanishes exactly for constant samples. */
  lemma NoVarianceIffConstant(xs: seq<real>)
    requires xs != []
    ensures Variance(xs) == 0.0 <==> MinOf(xs) == MaxOf(xs)
  {
    hide Total, Deviation, MinOf, MaxOf, Mean;
    NonNegativeQuotient(Deviation(xs, Mean(xs)), |xs| as real);
    MeanIsInside(xs);
    if MinOf(xs) == MaxOf(xs) {
      NoDeviation(xs, Mean(xs));
    } else {
      var i :| 0 <= i < |xs| && xs[i] != Mean(xs);
      SomeDeviation(xs, Mean(xs), i);
    }
  }

  /** The running minimum and maximum are those of all samples. */
  ghost predicate Ranged(min: real, max: real, samples: seq<real>) {
    samples != [] && min == MinOf(samples) && max == MaxOf(samples)
  }

  lemma AbsorbKeepsRange(d: Dim, bins: nat, samples: seq<real>, xs: seq<real>, regrow: bool)
    requires bins > 0 && |d.hist| == bins && |d.edges| == bins + 1
    requires Ranged(d.min, d.max, samples) && xs != [] && (Grows(d, xs) ==> regrow)
    ensures Ranged(Absorb(d, xs, regrow, bins).min, Absorb(d, xs, regrow, bins).max, samples + xs)
  {
    hide Histogram, EdgesFor, MinOf, MaxOf;
    RangeOfBoth(samples, xs);
  }

  lemma RangeOfBoth(a: seq<real>, b: seq<real>)
    requires a != [] && b != []
    ensures MinOf(a + b) == MinReal(MinOf(a), MinOf(b)) && MaxOf(a + b) == MaxReal(MaxOf(a), MaxOf(b))
  {
    hide MinOf, MaxOf;
    var c := a + b;
    assert forall i :: 0 <= i < |a| ==> c[i] == a[i];
    assert forall i :: 0 <= i < |b| ==> c[|a| + i] == b[i];
  }

  lemma ColumnAt(x: Rows, i: nat)
    requires forall r :: 0 <= r < |x| ==> i < |x[r]|
    ensures forall r :: 0 <= r < |x| ==> Column(x, i)[r] == x[r][i]
  {
  }

  lemma ColumnAppend(a: Rows, b: Rows, i: nat)
    requires forall r :: 0 <= r < |a| ==> i < |a[r]|
    requires forall r :: 0 <= r < |b| ==> i < |b[r]|
    ensures Column(a + b, i) == Column(a, i) + Column(b, i)
  {
  }

  /** The dimension accounts for the samples, tightly while it is steady. */
  ghost predicate Summarizes(d: Dim, bins: nat, samples: seq<real>, steady: bool) {
    exists place :: Accounts(d, bins, samples, place) && (steady ==> Tight(d, samples, place))
  }

  /** Column `i` still has the range it had in the first batch. */
  ghost predicate Steady(rows: Rows, first: nat, i: nat)
    requires forall r :: 0 <= r < |rows| ==> i < |rows[r]|
  {
    && 0 < first <= |rows|
    && var all, head := Column(rows, i), Column(rows[..first], i);
       MinOf(all) == MinOf(head) && MaxOf(all) == MaxOf(head)
  }

  lemma SteadyFirst(x: Rows, width: nat, i: nat)
    requires x != [] && Rectangular(x, width) && i < width
    ensures Steady(x, |x|, i)
  {
    assert x[..|x|] == x;
  }

  lemma SteadyBefore(before: Rows, x: Rows, width: nat, first: nat, i: nat, d: Dim)
    requires Rectangular(before, width) && Rectangular(x, width) && i < width && x != [] && 0 < first <= |before|
    requires Ranged(d.min, d.max, Column(before, i)) && Rectangular(before + x, width) && Steady(before + x, first, i)
    ensures Steady(before, first, i) && !Grows(d, Column(x, i))
  {
    hide MinOf, MaxOf, Column;
    assert (before + x)[..first] == before[..first];
    assert before[..first] + before[first..] == before;
    ColumnAppend(before, x, i);
    ColumnAppend(before[..first], before[first..], i);
    RangeOfBoth(Column(before, i), Column(x, i));
    if first < |before| {
      RangeOfBoth(Column(before[..first], i), Column(before[first..], i));
    } else {
      assert before[..first] == before;
    }
  }

  lemma FirstSummarizes(bins: nat, xs: seq<real>)
    requires bins > 0 && bins % 2 == 0 && xs != []
    ensures Summarizes(AddSamples(Empty(xs, bins), xs), bins, xs, true)
  {
    hide AddSamples, Empty, Accounts;
    EmptyAccounts(xs, bins);
    EmptyRange(xs, bins);
    var place := AddSamplesAccounts(Empty(xs, bins), bins, [], [], xs);
    assert [] + xs == xs;
  }

  lemma EmptyRange(xs: seq<real>, bins: nat)
    requires xs != [] && bins > 0
    ensures forall i :: 0 <= i < |xs| ==> Empty(xs, bins).min <= xs[i] <= Empty(xs, bins).max
    ensures Tight(Empty(xs, bins), [], [])
  {
  }

  lemma AbsorbSummarizes(d: Dim, bins: nat, samples: seq<real>, xs: seq<real>, regrow: bool, before: bool, after: bool)
    requires bins % 2 == 0 && Summarizes(d, bins, samples, before) && xs != [] && (Grows(d, xs) ==> regrow)
    requires after ==> before && !Grows(d, xs)
    ensures Summarizes(Absorb(d, xs, regrow, bins), bins, samples + xs, after)
  {
    hide Absorb, Accounts, Tight, Grows;
    var place :| Accounts(d, bins, samples, place) && (before ==> Tight(d, samples, place));
    var place' := AbsorbAccounts(d, bins, samples, place, xs, regrow);
  }

  /** How many of `n` samples a quantile asks for. */
  function Wanted(q: real, n: nat): real {
    q * n as real
  }

  lemma WantedBounds(q: real, n: nat)
    requires 0.0 < q <= 1.0 && n > 0
    ensures 0.0 < Wanted(q, n) <= n as real
  {
    ShareBounds(q, n);
  }

  lemma SummaryQuantile(d: Dim, bins: nat, samples: seq<real>, steady: bool, q: real, target: real)
    requires Summarizes(d, bins, samples, steady) && samples != [] && 0.0 < q <= 1.0 && target == Wanted(q, |samples|)
    requires |d.edges| == |d.hist| + 1 >= 2
    ensures LowerBoundsQuantile(d.min, samples, q, EdgeReaching(d.hist, d.edges, target))
    ensures steady ==> HeldBelow(samples, d.edges, target, EdgeReaching(d.hist, d.edges, target))
    ensures Cumulative(d.hist, |d.hist|) == |samples| as real
  {
    hide Accounts, Tight, EdgeReaching, LowerBoundsQuantile, HeldBelow, Cumulative;
    var place :| Accounts(d, bins, samples, place) && (steady ==> Tight(d, samples, place));
    AccountsShape(d, bins, samples, place);
    MassIsCount(d, bins, samples, place);
    QuantileIsLowerBound(d, bins, samples, place, q);
    if steady {
      QuantileWithinOneBin(d, bins, samples, place, q);
    }
  }

  lemma NextDim(d: Dim, bins: nat, before: Rows, x: Rows, width: nat, i: nat, regrow: bool, first: nat)
    requires Rectangular(before, width) && Rectangular(x, width) && i < width && x != [] && 0 < first <= |before|
    requires Rectangular(before + x, width)
    requires bins > 0 && |d.hist| == bins && |d.edges| == bins + 1
    requires Ranged(d.min, d.max, Column(before, i)) && (Grows(d, Column(x, i)) ==> regrow)
    requires bins % 2 == 0 ==> Summarizes(d, bins, Column(before, i), Steady(before, first, i))
    ensures var after := Absorb(d, Column(x, i), regrow, bins); Ranged(after.min, after.max, Column(before + x, i))
    ensures Total(Column(before + x, i)) == Total(Column(before, i)) + Total(Column(x, i))
    ensures SquareTotal(Column(before + x, i)) == SquareTotal(Column(before, i)) + SquareTotal(Column(x, i))
    ensures bins % 2 == 0 ==>
      Summarizes(Absorb(d, Column(x, i), regrow, bins), bins, Column(before + x, i), Steady(before + x, first, i))
  {
    hide Absorb, Summarizes, Ranged, Total, SquareTotal, Steady, Grows;
    ColumnAppend(before, x, i);
    AbsorbKeepsRange(d, bins, Column(before, i), Column(x, i), regrow);
    TotalsAppend(Column(before, i), Column(x, i));
    if bins % 2 == 0 {
      var after := Steady(before + x, first, i);
      if after {
        SteadyBefore(before, x, width, first, i, d);
      }
      AbsorbSummarizes(d, bins, Column(before, i), Column(x, i), regrow, Steady(before, first, i), after);
    }
  }

  lemma RebinIs(d: Dim, min: real, max: real, bins: nat, edges: seq<real>)
    requires bins > 0 && |d.hist| == bins && |d.edges| == bins + 1
    requires edges == if max <= min then Linspace(min - WIDENING, max + WIDENING, bins) else Linspace(min, max, bins)
    ensures Rebin(d, min, max, bins) == Dim(min, max, Histogram(d.edges[..bins], d.hist, edges), edges)
  {
    hide Histogram, Linspace;
  }

  lemma AddSamplesIs(d: Dim, xs: seq<real>, added: seq<real>)
    requires |d.edges| == |d.hist| + 1 >= 2 && |added| == |d.hist|
    requires forall k :: 0 <= k < |added| ==> added[k] == d.hist[k] + Histogram(xs, Ones(|xs|), d.edges)[k]
    ensures AddSamples(d, xs) == d.(hist := added)
  {
  }

  class RunningStats {
    const numBins: nat
    var initialized: bool
    var sums: seq<real>
    var sqSums: seq<real>
    var mins: seq<real>
    var maxs: seq<real>
    var histograms: seq<seq<real>>
    var binEdges: seq<seq<real>>
    var count: nat
    ghost var rows: Rows
    ghost var firstRows: nat

    ghost predicate Shape()
      reads this
    {
      && numBins > 0
      && |sqSums| == |mins| == |maxs| == |histograms| == |binEdges| == |sums|
      && (forall i :: 0 <= i < |sums| ==> |histograms[i]| == numBins && |binEdges[i]| == numBins + 1)
    }

    ghost function DimAt(i: nat): Dim
      requires Shape() && i < |sums|
      reads this
    {
      Dim(mins[i], maxs[i], histograms[i], binEdges[i])
    }

    /** The object summarizes exactly `rows`, every row it was ever given. */
    ghost predicate Valid()
      reads this
    {
      && Shape()
      && count == |rows|
      && (initialized <==> rows != []) && (initialized ==> 0 < firstRows <= |rows|)
      && Rectangular(rows, |sums|)
      && forall i :: 0 <= i < |sums| ==>
           && sums[i] == Total(Column(rows, i))
           && sqSums[i] == SquareTotal(Column(rows, i))
           && (initialized ==> Ranged(mins[i], maxs[i], Column(rows, i)))
           && (initialized && numBins % 2 == 0 ==> Summarizes(DimAt(i), numBins, Column(rows, i), Steady(rows, firstRows, i)))
    }

    constructor (numBins: nat)
      requires numBins > 0
      ensures Valid() && rows == [] && this.numBins == numBins
    {
      this.numBins := numBins;
      initialized, count, rows := false, 0, [];
      sums, sqSums, mins, maxs, histograms, binEdges := [], [], [], [], [], [];
    }

    method InitHistograms(x: Rows, width: nat)
      requires x != [] && Rectangular(x, width) && numBins > 0
      modifies this`mins, this`maxs, this`histograms, this`binEdges
      ensures |mins| == |maxs| == |histograms| == |binEdges| == width
      ensures forall i :: 0 <= i < width ==> Dim(mins[i], maxs[i], histograms[i], binEdges[i]) == Empty(Column(x, i), numBins)
    {
      hide MinOf, MaxOf, Linspace, Column;
      mins, maxs, histograms, binEdges := [], [], [], [];
      for i := 0 to width
        invariant |mins| == |maxs| == |histograms| == |binEdges| == i
        invariant forall j :: 0 <= j < i ==> Dim(mins[j], maxs[j], histograms[j], binEdges[j]) == Empty(Column(x, j), numBins)
      {
        var lo, hi := MinOf(Column(x, i)), MaxOf(Column(x, i));
        mins, maxs := mins + [lo], maxs + [hi];
        histograms := histograms + [seq(numBins, _ => 0.0)];
        if hi <= lo {
          lo, hi := lo - WIDENING, hi + WIDENING;
        }
        binEdges := binEdges + [Linspace(lo, hi, numBins)];
      }
    }

    method AdjustHistograms()
      requires Shape()
      modifies this`histograms, this`binEdges
      ensures Shape()
      ensures forall i :: 0 <= i < |sums| ==> DimAt(i) == Rebin(old(DimAt(i)), mins[i], maxs[i], numBins)
    {
      hide Rebin, Histogram, Linspace;
      for i := 0 to |histograms|
        invariant Shape()
        invariant forall j :: 0 <= j < i ==> DimAt(j) == Rebin(old(DimAt(j)), mins[j], maxs[j], numBins)
        invariant forall j :: i <= j < |sums| ==> DimAt(j) == old(DimAt(j))
      {
        var lo, hi := mins[i], maxs[i];
        if hi <= lo {
          lo, hi := lo - WIDENING, hi + WIDENING;
        }
        var newEdges := Linspace(lo, hi, numBins);
        var moved := Histogram(binEdges[i][..numBins], histograms[i], newEdges);
        RebinIs(DimAt(i), mins[i], maxs[i], numBins, newEdges);
        histograms := histograms[i := moved];
        binEdges := binEdges[i := newEdges];
      }
    }

    method UpdateHistograms(x: Rows)
      requires Shape() && Rectangular(x, |sums|)
      modifies this`histograms
      ensures Shape()
      ensures forall i :: 0 <= i < |sums| ==> DimAt(i) == AddSamples(old(DimAt(i)), Column(x, i))
    {
      hide AddSamples, Histogram, Column;
      for i := 0 to |histograms|
        invariant Shape()
        invariant forall j :: 0 <= j < i ==> DimAt(j) == AddSamples(old(DimAt(j)), Column(x, j))
        invariant forall j :: i <= j < |sums| ==> DimAt(j) == old(DimAt(j))
      {
        var values, hist := Column(x, i), histograms[i];
        var more := Histogram(values, Ones(|values|), binEdges[i]);
        var added := seq(|hist|, k requires 0 <= k < |hist| => hist[k] + more[k]);
        AddSamplesIs(DimAt(i), values, added);
        histograms := histograms[i := added];
      }
    }

    /** All ranges grow by the batch, and all counts are re-binned over them. */
    method Widen(x: Rows)
      requires Shape() && x != [] && Rectangular(x, |sums|)
      modifies this`mins, this`maxs, this`histograms, this`binEdges
      ensures Shape()
      ensures forall i :: 0 <= i < |sums| ==> DimAt(i) == Widened(old(DimAt(i)), Column(x, i), numBins)
    {
      hide MinOf, MaxOf, Histogram, EdgesFor, Column;
      var lows, highs := mins, maxs;
      mins := seq(|lows|, i requires 0 <= i < |lows| => MinReal(lows[i], MinOf(Column(x, i))));
      maxs := seq(|highs|, i requires 0 <= i < |highs| => MaxReal(highs[i], MaxOf(Column(x, i))));
      AdjustHistograms();
    }

    /** Some dimension's range grows with the batch. */
    ghost predicate AnyGrows(x: Rows)
      requires Shape() && x != [] && Rectangular(x, |sums|)
      reads this
    {
      exists i :: 0 <= i < |sums| && Grows(DimAt(i), Column(x, i))
    }

    /** The whole effect of one update on every dimension. */
    method Fold(x: Rows)
      requires Shape() && x != [] && Rectangular(x, |sums|)
      modifies this`mins, this`maxs, this`histograms, this`binEdges
      ensures Shape()
      ensures forall i :: 0 <= i < |sums| ==> DimAt(i) == Absorb(old(DimAt(i)), Column(x, i), old(AnyGrows(x)), numBins)
    {
      hide AddSamples, Widened, MinOf, MaxOf, Column;
      var changed := false;
      for i := 0 to |sums|
        invariant changed <==> exists j :: 0 <= j < i && Grows(DimAt(j), Column(x, j))
      {
        changed := changed || MinOf(Column(x, i)) < mins[i] || MaxOf(Column(x, i)) > maxs[i];
      }
      assert changed == AnyGrows(x);
      if changed {
        Widen(x);
      }
      UpdateHistograms(x);
    }

    method FirstBatch(x: Rows, width: nat)
      requires Valid() && !initialized && x != [] && Rectangular(x, width)
      modifies this
      ensures Valid() && initialized && rows == x && |sums| == width
    {
      hide Total, SquareTotal, AddSamples, Summarizes, MinOf, MaxOf, Column, EdgesFor;
      sums := seq(width, i requires 0 <= i < width => Total(Column(x, i)));
      sqSums := seq(width, i requires 0 <= i < width => SquareTotal(Column(x, i)));
      InitHistograms(x, width);
      UpdateHistograms(x);
      initialized := true;
      count := |x|;
      rows := x;
      firstRows := |x|;
      forall i | 0 <= i < width && numBins % 2 == 0 ensures Summarizes(DimAt(i), numBins, Column(x, i), Steady(x, |x|, i)) {
        SteadyFirst(x, width, i);
        FirstSummarizes(numBins, Column(x, i));
      }
    }

    method AddTotals(x: Rows)
      requires |sqSums| == |sums| && Rectangular(x, |sums|)
      modifies this`sums, this`sqSums
      ensures |sums| == |sqSums| == old(|sums|)
      ensures forall i :: 0 <= i < |sums| ==> sums[i] == old(sums[i]) + Total(Column(x, i))
      ensures forall i :: 0 <= i < |sums| ==> sqSums[i] == old(sqSums[i]) + SquareTotal(Column(x, i))
    {
      var totals, squares := sums, sqSums;
      sums := seq(|totals|, i requires 0 <= i < |totals| => totals[i] + Total(Column(x, i)));
      sqSums := seq(|squares|, i requires 0 <= i < |squares| => squares[i] + SquareTotal(Column(x, i)));
    }

    method NextBatch(x: Rows)
      requires Valid() && initialized && x != [] && Rectangular(x, |sums|)
      modifies this
      ensures Valid() && initialized && rows == old(rows) + x && |sums| == old(|sums|)
    {
      hide Summarizes, Ranged, Total, SquareTotal, Absorb, Grows, Column;
      ghost var regrow, width := AnyGrows(x), |sums|;
      ghost var before := seq(width, i requires 0 <= i < |sums| && Shape() reads this => DimAt(i));
      BatchGrows(x);
      Fold(x);
      AddTotals(x);
      count := count + |x|;
      rows := rows + x;
      forall i | 0 <= i < width
        ensures sums[i] == Total(Column(rows, i)) && sqSums[i] == SquareTotal(Column(rows, i))
        ensures Ranged(mins[i], maxs[i], Column(rows, i))
        ensures numBins % 2 == 0 ==> Summarizes(DimAt(i), numBins, Column(rows, i), Steady(rows, firstRows, i))
      {
        NextDim(before[i], numBins, old(rows), x, width, i, regrow, firstRows);
      }
    }

    lemma BatchGrows(x: Rows)
      requires Shape() && x != [] && Rectangular(x, |sums|)
      ensures forall i :: 0 <= i < |sums| && Grows(DimAt(i), Column(x, i)) ==> AnyGrows(x)
    {
    }

    method Update(x: Rows) returns (r: Result<(), StatsError>)
      requires Valid() && x != [] && Rectangular(x, |x[0]|)
      modifies this
      ensures Valid()
      ensures r.Err? <==> old(initialized) && |x[0]| != old(|sums|)
      ensures if r.Err? then rows == old(rows) else rows == old(rows) + x
    {
      if !initialized {
        FirstBatch(x, |x[0]|);
      } else if |x[0]| != |sums| {
        return Err(VectorLength);
      } else {
        NextBatch(x);
      }
      return Ok(());
    }

    /**
     What the value `r` of quantile `q` means in dimension `i`: the left edge of the first bin with which the
     running mass reaches `q * count`; with an even bin count that mass is the exact count and no more than the
     order statistic is reported; and at most one bin less, while the range is that of the first batch.
     */
    ghost predicate IsQuantile(i: nat, q: real, r: real)
      requires Valid() && i < |sums|
      reads this
    {
      && ReachesTarget(histograms[i], binEdges[i], Wanted(q, |rows|), r)
      && (initialized && numBins % 2 == 0 ==>
            && Cumulative(histograms[i], numBins) == |rows| as real
            && LowerBoundsQuantile(mins[i], Column(rows, i), q, r)
            && (Steady(rows, firstRows, i) ==> HeldBelow(Column(rows, i), binEdges[i], Wanted(q, |rows|), r)))
    }

    ghost predicate AreQuantiles(q: real, values: seq<real>)
      requires Valid()
      reads this
    {
      |values| == |sums| && forall i :: 0 <= i < |sums| ==> IsQuantile(i, q, values[i])
    }

    /** The reported quantiles of every dimension, against the histograms and the exact rows seen so far. */
    method ComputeQuantiles(q: real) returns (r: Result<seq<real>, StatsError>)
      requires Valid() && 0.0 < q <= 1.0
      ensures r.Err? <==> rows == []
      ensures r.Ok? ==> |r.value| == |sums| && AreQuantiles(q, r.value)
      ensures r.Ok? && numBins % 2 == 0 ==>
        forall i :: 0 <= i < |sums| ==> LowerBoundsQuantile(mins[i], Column(rows, i), q, r.value[i])
    {
      hide LowerBoundsQuantile, EdgeReaching, Summarizes, Total, SquareTotal, Ranged, Steady, HeldBelow, ReachesTarget, Cumulative;
      if !initialized || count == 0 {
        return Err(NoData);
      }
      var values: seq<real> := [];
      var target := q * count as real;
      for i := 0 to |histograms|
        invariant |values| == i
        invariant forall j :: 0 <= j < i ==> values[j] == EdgeReaching(histograms[j], binEdges[j], target)
      {
        values := values + [EdgeReaching(histograms[i], binEdges[i], target)];
      }
      forall i | 0 <= i < |sums| ensures IsQuantile(i, q, values[i]) {
        QuantileMeans(i, q, target);
      }
      return Ok(values);
    }

    lemma QuantileMeans(i: nat, q: real, target: real)
      requires Valid() && initialized && 0.0 < q <= 1.0 && i < |sums| && target == Wanted(q, |rows|)
      ensures IsQuantile(i, q, EdgeReaching(histograms[i], binEdges[i], target))
    {
      hide LowerBoundsQuantile, EdgeReaching, Summarizes, Total, SquareTotal, Ranged, Steady, HeldBelow, ReachesTarget, Cumulative,
        Column, Wanted;
      WantedBounds(q, |rows|);
      EdgeIsReached(histograms[i], binEdges[i], target);
      if numBins % 2 == 0 {
        SummaryQuantile(DimAt(i), numBins, Column(rows, i), Steady(rows, firstRows, i), q, target);
      }
    }

    /**
     get_statistics, with the square of the reported standard deviation in its place: exact mean and range, the
     mean squared deviation floored at 1e-12, and the two quantiles.
     */
    method GetStatistics(includeMinMax: bool) returns (r: Result<Statistics, StatsError>)
      requires Valid()
      ensures r.Err? <==> rows == []
      ensures r.Ok? ==> (r.value.range.Some? <==> includeMinMax)
      ensures r.Ok? ==> |r.value.mean| == |r.value.variance| == |r.value.q01| == |r.value.q99| == |sums|
      ensures r.Ok? ==> forall i :: 0 <= i < |sums| ==>
        && r.value.mean[i] == Mean(Column(rows, i))
        && r.value.variance[i] == (if Variance(Column(rows, i)) >= 0.000000000001 then Variance(Column(rows, i)) else 0.000000000001)
      ensures r.Ok? && includeMinMax ==>
        && |r.value.range.value.0| == |r.value.range.value.1| == |sums|
        && forall i :: 0 <= i < |sums| ==> Ranged(r.value.range.value.0[i], r.value.range.value.1[i], Column(rows, i))
      ensures r.Ok? ==> AreQuantiles(0.01, r.value.q01) && AreQuantiles(0.99, r.value.q99)
      ensures r.Ok? && numBins % 2 == 0 ==> forall i :: 0 <= i < |sums| ==>
        && LowerBoundsQuantile(mins[i], Column(rows, i), 0.01, r.value.q01[i])
        && LowerBoundsQuantile(mins[i], Column(rows, i), 0.99, r.value.q99[i])
    {
      hide LowerBoundsQuantile, Summarizes, Ranged, Total, SquareTotal, Deviation, Variance, OnePass, AreQuantiles;
      if !initialized || count == 0 {
        return Err(NoData);
      }
      var totals, squares, n := sums, sqSums, count;
      var mean := seq(|totals|, i requires 0 <= i < |totals| => totals[i] / n as real);
      var variance := seq(|squares|, i requires 0 <= i < |squares| => MaxReal(OnePass(totals[i], squares[i], n), VARIANCE_FLOOR));
      forall i | 0 <= i < |sums| ensures variance[i] == MaxReal(Variance(Column(rows, i)), VARIANCE_FLOOR) {
        OnePassVariance(Column(rows, i));
      }
      var q01 := ComputeQuantiles(0.01);
      var q99 := ComputeQuantiles(0.99);
      return Ok(Statistics(if includeMinMax then Some((mins, maxs)) else None, mean, variance, q01.value, q99.value));
    }
  }
}
