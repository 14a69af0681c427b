/**
 Time-major action plans of one vector environment and the two transformations the executors apply to
 them: linear upsampling of a chunk and blending of a replaced tail into its successor. One control
 tick of the whole vector is a `Vec`, the row-major flattening of its batch and action dimensions.
 */
module ActionPlans {
  import opened Common
  import Arithmetic

  type Vec = seq<real>

  type Chunk = seq<Vec>

  /** Every tick of the chunk carries `width` numbers. */
  ghost predicate Shaped(chunk: Chunk, width: nat) {
    forall k :: 0 <= k < |chunk| ==> |chunk[k]| == width
  }

  function Lerp(w: real, a: Vec, b: Vec): (r: Vec)
    requires |a| == |b|
    ensures |r| == |a|
  {
    seq(|a|, d requires 0 <= d < |a| => (1.0 - w) * a[d] + w * b[d])
  }

  lemma LerpEnds(a: Vec, b: Vec)
    requires |a| == |b|
    ensures Lerp(0.0, a, b) == a && Lerp(1.0, a, b) == b
  {
  }

  //////////////////////////// Upsampling ////////////////////////////

  /** np.linspace(0, n - 1, steps)[k]. */
  function Position(n: nat, steps: nat, k: nat): real
    requires steps > 1
  {
    Share(k as real, (n - 1) as real, (steps - 1) as real)
  }

  /** `top` divided as `x` is in `last`. */
  function Share(x: real, top: real, last: real): real
    requires last > 0.0
  {
    x * top / last
  }

  function Ceil(x: real): int {
    -((-x).Floor)
  }

  lemma ShareWithin(x: real, top: real, last: real)
    requires 0.0 <= x <= last && 0.0 < last && 0.0 <= top
    ensures 0.0 <= Share(x, top, last) <= top
    ensures x == 0.0 ==> Share(x, top, last) == 0.0
    ensures x == last ==> Share(x, top, last) == top
  {
    Arithmetic.RealProductNonNegative(x, top);
    Arithmetic.RealProductNonNegative(last - x, top);
    assert (last - x) * top == top * last - x * top;
    Arithmetic.QuotientBetween(x * top, last, 0.0, top);
    if x == last {
      Arithmetic.QuotientBetween(x * top, last, top, top);
    } else if x == 0.0 {
      assert x * top == 0.0;
    }
  }

  lemma FloorWithin(p: real, top: int)
    requires 0.0 <= p <= top as real
    ensures 0 <= p.Floor <= top && 0 <= Ceil(p) <= top
  {
  }

  lemma PositionBounds(n: nat, steps: nat, k: nat)
    requires n > 0 && k < steps && steps > 1
    ensures 0.0 <= Position(n, steps, k) <= (n - 1) as real
    ensures 0 <= Position(n, steps, k).Floor < n && 0 <= Ceil(Position(n, steps, k)) < n
  {
    hide Share;
    ShareWithin(k as real, (n - 1) as real, (steps - 1) as real);
    FloorWithin(Position(n, steps, k), n - 1);
  }

  lemma PositionEnds(n: nat, steps: nat)
    requires n > 0 && steps > 1
    ensures Position(n, steps, 0) == 0.0
    ensures Position(n, steps, steps - 1) == (n - 1) as real
  {
    hide Share;
    var top, last := (n - 1) as real, (steps - 1) as real;
    ShareWithin(0.0, top, last);
    ShareWithin(last, top, last);
  }

  function At(chunk: Chunk, steps: nat, ghost width: nat, k: nat): (tick: Vec)
    requires |chunk| > 0 && steps > 1 && Shaped(chunk, width) && k < steps
    ensures |tick| == width
  {
    PositionBounds(|chunk|, steps, k);
    var p := Position(|chunk|, steps, k);
    Lerp(p - p.Floor as real, chunk[p.Floor], chunk[Ceil(p)])
  }

  function Resample(chunk: Chunk, steps: nat, ghost width: nat): (out: Chunk)
    requires |chunk| > 0 && steps > 1 && Shaped(chunk, width)
    ensures |out| == steps && Shaped(out, width)
  {
    seq(steps, k requires 0 <= k < steps => At(chunk, steps, width, k))
  }

  /** interpolate_action_chunk; factor 1 is the identity. */
  function Interpolate(chunk: Chunk, factor: nat, ghost width: nat): (out: Chunk)
    requires |chunk| > 0 && factor >= 1 && Shaped(chunk, width)
    ensures |out| == |chunk| * factor && Shaped(out, width)
  {
    if factor == 1 then chunk
    else
      assert |chunk| * factor >= factor;
      Resample(chunk, |chunk| * factor, width)
  }

  /** Upsampled tick `k` lies on the chunk's own polyline, on whichever segment contains its time. */
  lemma ResampleOnPolyline(chunk: Chunk, steps: nat, width: nat, k: nat, i: nat)
    requires |chunk| > 0 && steps > 1 && Shaped(chunk, width)
    requires k < steps && i + 1 < |chunk|
    requires i as real <= Position(|chunk|, steps, k) <= (i + 1) as real
    ensures Resample(chunk, steps, width)[k] == Lerp(Position(|chunk|, steps, k) - i as real, chunk[i], chunk[i + 1])
  {
    PositionBounds(|chunk|, steps, k);
    var p := Position(|chunk|, steps, k);
    OnSegment(p, chunk, width, i);
  }

  lemma OnSegment(p: real, chunk: Chunk, width: nat, i: nat)
    requires Shaped(chunk, width) && i + 1 < |chunk| && i as real <= p <= (i + 1) as real
    ensures 0 <= p.Floor < |chunk| && 0 <= Ceil(p) < |chunk|
    ensures Lerp(p - p.Floor as real, chunk[p.Floor], chunk[Ceil(p)]) == Lerp(p - i as real, chunk[i], chunk[i + 1])
  {
    hide Lerp;
    if p == i as real {
      assert p.Floor == i && Ceil(p) == i;
      LerpEnds(chunk[i], chunk[i]);
      LerpEnds(chunk[i], chunk[i + 1]);
    } else if p == (i + 1) as real {
      assert p.Floor == i + 1 && Ceil(p) == i + 1;
      LerpEnds(chunk[i + 1], chunk[i + 1]);
      LerpEnds(chunk[i], chunk[i + 1]);
    } else {
      assert p.Floor == i && Ceil(p) == i + 1;
    }
  }

  lemma ResampleKeepsEndpoints(chunk: Chunk, steps: nat, width: nat)
    requires |chunk| > 0 && steps > 1 && Shaped(chunk, width)
    ensures Resample(chunk, steps, width)[0] == chunk[0]
    ensures Resample(chunk, steps, width)[steps - 1] == chunk[|chunk| - 1]
  {
    AtKnot(chunk, steps, width, 0, 0);
    AtKnot(chunk, steps, width, steps - 1, |chunk| - 1);
  }

  lemma AtKnot(chunk: Chunk, steps: nat, width: nat, k: nat, i: nat)
    requires |chunk| > 0 && steps > 1 && Shaped(chunk, width) && k < steps && i < |chunk|
    requires k == i == 0 || (k == steps - 1 && i == |chunk| - 1)
    ensures At(chunk, steps, width, k) == chunk[i]
  {
    PositionEnds(|chunk|, steps);
    var p := Position(|chunk|, steps, k);
    assert p.Floor == i && Ceil(p) == i && p - p.Floor as real == 0.0;
  }

  /** The time of tick `k` when `steps` ticks cover `n` samples evenly. */
  ghost function TimeOf(n: nat, steps: nat, k: nat): real
    requires n > 0
  {
    if steps <= 1 then 0.0 else (k * (n - 1)) as real / (steps - 1) as real
  }

  /** `x` lies on the line from `a` to `b`, `w` of the way. */
  ghost predicate OnLine(x: Vec, a: Vec, b: Vec, w: real) {
    |x| == |a| == |b| && forall d :: 0 <= d < |a| ==> x[d] == a[d] + w * (b[d] - a[d])
  }

  /**
   `out` is the chunk, `factor` times finer: the chunk itself at factor 1, with the same ends at any factor, and
   every tick on the chunk's polyline at its own time.
   */
  ghost predicate Upsampled(chunk: Chunk, factor: nat, out: Chunk) {
    && chunk != [] && |out| == |chunk| * factor > 0
    && (factor == 1 ==> out == chunk)
    && out[0] == chunk[0] && out[|out| - 1] == chunk[|chunk| - 1]
    && forall k, i :: 0 <= k < |out| && 0 <= i < |chunk| - 1 ==> InSegment(chunk, out, k, i)
  }

  ghost predicate InSegment(chunk: Chunk, out: Chunk, k: nat, i: nat)
    requires k < |out| && i + 1 < |chunk|
  {
    var time := TimeOf(|chunk|, |out|, k);
    i as real <= time <= (i + 1) as real ==> OnLine(out[k], chunk[i], chunk[i + 1], time - i as real)
  }

  lemma LerpOnLine(w: real, a: Vec, b: Vec)
    requires |a| == |b|
    ensures OnLine(Lerp(w, a, b), a, b, w)
  {
    forall d | 0 <= d < |a| ensures Lerp(w, a, b)[d] == a[d] + w * (b[d] - a[d]) {
      assert (1.0 - w) * a[d] == a[d] - w * a[d];
      assert w * (b[d] - a[d]) == w * b[d] - w * a[d];
    }
  }

  lemma PositionIsTime(n: nat, steps: nat, k: nat)
    requires n > 0 && steps > 1
    ensures Position(n, steps, k) == TimeOf(n, steps, k)
  {
    assert k as real * (n - 1) as real == (k * (n - 1)) as real;
  }

  /** At factor 1 every tick is a knot of the polyline. */
  lemma UnchangedInSegment(chunk: Chunk, width: nat, k: nat, i: nat)
    requires Shaped(chunk, width) && k < |chunk| && i + 1 < |chunk|
    ensures InSegment(chunk, chunk, k, i)
  {
    var n, w := |chunk|, (k - i) as real;
    assert (k * (n - 1)) as real == k as real * (n - 1) as real;
    assert TimeOf(n, n, k) == k as real by {
      Arithmetic.QuotientBetween((k * (n - 1)) as real, (n - 1) as real, k as real, k as real);
    }
    if k == i || k == i + 1 {
      LerpEnds(chunk[i], chunk[i + 1]);
      LerpOnLine(w, chunk[i], chunk[i + 1]);
    }
  }

  lemma InterpolateUpsamples(chunk: Chunk, factor: nat, width: nat)
    requires |chunk| > 0 && factor >= 1 && Shaped(chunk, width)
    ensures Upsampled(chunk, factor, Interpolate(chunk, factor, width))
  {
    hide InSegment, Resample;
    var out := Interpolate(chunk, factor, width);
    if factor == 1 {
      forall k, i | 0 <= k < |out| && 0 <= i < |chunk| - 1 ensures InSegment(chunk, out, k, i) {
        UnchangedInSegment(chunk, width, k, i);
      }
    } else {
      assert |out| == |chunk| * factor >= factor;
      ResampleKeepsEndpoints(chunk, |out|, width);
      forall k, i | 0 <= k < |out| && 0 <= i < |chunk| - 1 ensures InSegment(chunk, out, k, i) {
        ResampledInSegment(chunk, |out|, width, k, i);
      }
    }
  }

  lemma ResampledInSegment(chunk: Chunk, steps: nat, width: nat, k: nat, i: nat)
    requires steps > 1 && Shaped(chunk, width) && k < steps && i + 1 < |chunk|
    ensures InSegment(chunk, Resample(chunk, steps, width), k, i)
  {
    hide Resample, Position, Lerp, OnLine;
    PositionIsTime(|chunk|, steps, k);
    var time := TimeOf(|chunk|, steps, k);
    if i as real <= time <= (i + 1) as real {
      ResampleOnPolyline(chunk, steps, width, k, i);
      LerpOnLine(time - i as real, chunk[i], chunk[i + 1]);
    }
  }

  //////////////////////////// Overlap blending ////////////////////////////

  /** The cubic ease of step `j` among `m` blended steps; a single step keeps the old action. */
  function Ease(j: nat, m: nat): real
    requires j < m
  {
    var t := if m == 1 then 0.0 else j as real / (m - 1) as real;
    t * t * (3.0 - 2.0 * t)
  }

  lemma CubicBounds(t: real)
    requires 0.0 <= t <= 1.0
    ensures 0.0 <= t * t * (3.0 - 2.0 * t) <= 1.0
  {
    Arithmetic.RealProductNonNegative(t, t);
    Arithmetic.RealProductNonNegative(t * t, 3.0 - 2.0 * t);
    var r := 1.0 - t;
    Arithmetic.RealProductNonNegative(r, r);
    Arithmetic.RealProductNonNegative(r * r, 1.0 + 2.0 * t);
    assert r * r == 1.0 - 2.0 * t + t * t;
    assert r * r * (1.0 + 2.0 * t) == 1.0 - t * t * (3.0 - 2.0 * t);
  }

  lemma EaseBounds(j: nat, m: nat)
    requires j < m
    ensures 0.0 <= Ease(j, m) <= 1.0
    ensures j == 0 ==> Ease(j, m) == 0.0
    ensures m >= 2 && j == m - 1 ==> Ease(j, m) == 1.0
  {
    if m >= 2 {
      Arithmetic.QuotientBetween(j as real, (m - 1) as real, 0.0, 1.0);
      if j == m - 1 {
        Arithmetic.QuotientBetween(j as real, (m - 1) as real, 1.0, 1.0);
      }
      CubicBounds(j as real / (m - 1) as real);
    }
  }

  /** The weight is the cubic that starts and ends flat: with u = j / (m - 1), it is 3 u^2 - 2 u^3. */
  lemma EaseIsCubic(j: nat, m: nat)
    requires j < m && m >= 2
    ensures var u, w := j as real / (m - 1) as real, Ease(j, m);
      u * (m - 1) as real == j as real && w == 3.0 * (u * u) - 2.0 * (u * (u * u))
  {
    var u := j as real / (m - 1) as real;
    assert u * u * (3.0 - 2.0 * u) == 3.0 * (u * u) - 2.0 * (u * (u * u));
  }

  /** smooth_action_chunk_overlap: blend the queued tail into the aligned new plan. */
  function SmoothOverlap(previous: Chunk, next: Chunk, ghost width: nat): (out: Chunk)
    requires Shaped(previous, width) && Shaped(next, width)
    ensures |out| == |next| && Shaped(out, width)
  {
    var overlap := Min(|previous|, |next|);
    seq(|next|, k requires 0 <= k < |next| =>
      if k < overlap then Lerp(Ease(k, overlap), previous[k], next[k]) else next[k])
  }

  ghost predicate Between(x: real, a: real, b: real) {
    a <= x <= b || b <= x <= a
  }

  lemma ConvexBetween(w: real, a: real, b: real)
    requires 0.0 <= w <= 1.0
    ensures Between((1.0 - w) * a + w * b, a, b)
  {
    var x := (1.0 - w) * a + w * b;
    assert x - a == w * (b - a);
    assert b - x == (1.0 - w) * (b - a);
    if a <= b {
      Arithmetic.RealProductNonNegative(w, b - a);
      Arithmetic.RealProductNonNegative(1.0 - w, b - a);
    } else {
      Arithmetic.RealProductNonNegative(w, a - b);
      Arithmetic.RealProductNonNegative(1.0 - w, a - b);
      assert w * (b - a) == -(w * (a - b)) && (1.0 - w) * (b - a) == -((1.0 - w) * (a - b));
    }
  }

  /**
   A smoothed plan leaves from the action the old plan would have executed, reaches the new plan by
   the end of the overlap, stays coordinate-wise between the two while blending, and equals the new
   plan afterwards.
   */
  lemma SmoothOverlapShape(previous: Chunk, next: Chunk, width: nat, k: nat)
    requires Shaped(previous, width) && Shaped(next, width) && k < |next|
    ensures var out := SmoothOverlap(previous, next, width);
      && (previous != [] ==> out[0] == previous[0])
      && (k >= |previous| ==> out[k] == next[k])
      && (k < |previous| ==> forall d :: 0 <= d < width ==> Between(out[k][d], previous[k][d], next[k][d]))
      && (k < |previous| ==> OnLine(out[k], previous[k], next[k], Ease(k, Min(|previous|, |next|))))
      && (2 <= Min(|previous|, |next|) == k + 1 ==> out[k] == next[k])
  {
    var out := SmoothOverlap(previous, next, width);
    var overlap := Min(|previous|, |next|);
    if previous != [] {
      EaseBounds(0, overlap);
      assert out[0] == previous[0];
    }
    if k < overlap {
      EaseBounds(k, overlap);
      LerpOnLine(Ease(k, overlap), previous[k], next[k]);
      forall d | 0 <= d < width ensures Between(out[k][d], previous[k][d], next[k][d]) {
        ConvexBetween(Ease(k, overlap), previous[k][d], next[k][d]);
      }
    }
  }
}
