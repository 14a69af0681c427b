/** Small vocabulary shared by the models: optional values, results and integer helpers. */
module Common {

  datatype Option<+T> = None | Some(value: T)

  datatype Result<+T, +E> = Ok(value: T) | Err(error: E)

  function Min(a: int, b: int): int {
    if a <= b then a else b
  }

  function Max(a: int, b: int): int {
    if a >= b then a else b
  }

  function SumNat(s: seq<nat>): nat {
    if s == [] then 0 else SumNat(s[..|s| - 1]) + s[|s| - 1]
  }

  lemma {:induction false} SumUpdate(s: seq<nat>, i: nat, x: nat)
    requires i < |s|
    ensures SumNat(s[i := x]) == SumNat(s) - s[i] + x
  {
    var t := s[i := x];
    if i == |s| - 1 {
      assert t[..|t| - 1] == s[..|s| - 1];
    } else {
      assert t[..|t| - 1] == s[..|s| - 1][i := x];
      SumUpdate(s[..|s| - 1], i, x);
    }
  }

  lemma {:induction false} SumPointwise(a: seq<nat>, b: seq<nat>)
    requires |a| == |b| && forall i :: 0 <= i < |a| ==> a[i] <= b[i]
    ensures SumNat(a) <= SumNat(b)
    ensures SumNat(a) == SumNat(b) ==> a == b
  {
    if a != [] {
      SumPointwise(a[..|a| - 1], b[..|b| - 1]);
    }
  }

  lemma {:induction false} SumPlus(a: seq<nat>, b: seq<nat>, c: seq<nat>)
    requires |a| == |b| == |c| && forall i :: 0 <= i < |c| ==> c[i] == a[i] + b[i]
    ensures SumNat(c) == SumNat(a) + SumNat(b)
  {
    if c != [] {
      SumPlus(a[..|a| - 1], b[..|b| - 1], c[..|c| - 1]);
    }
  }

  lemma {:induction false} SumZeros(n: nat)
    ensures SumNat(seq(n, _ => 0)) == 0
  {
    if n > 0 {
      var s: seq<nat> := seq(n, _ => 0);
      assert s[..|s| - 1] == seq(n - 1, _ => 0);
      SumZeros(n - 1);
    }
  }

  predicate Distinct<T(==)>(s: seq<T>) {
    forall i, j :: 0 <= i < j < |s| ==> s[i] != s[j]
  }

  function SetOf<T>(s: seq<T>): set<T> {
    set x | x in s
  }

  /** A list has as many elements as its set exactly when nothing repeats. */
  lemma {:induction false} DistinctByCount<T>(s: seq<T>)
    ensures |SetOf(s)| <= |s|
    ensures |SetOf(s)| == |s| <==> Distinct(s)
  {
    if s == [] {
      assert SetOf(s) == {};
    } else {
      var front, last := s[..|s| - 1], s[|s| - 1];
      DistinctByCount(front);
      assert s == front + [last];
      assert SetOf(s) == SetOf(front) + {last};
      assert Distinct(s) <==> Distinct(front) && last !in front;
    }
  }

  function Flatten<T>(parts: seq<seq<T>>): seq<T> {
    if parts == [] then [] else Flatten(parts[..|parts| - 1]) + parts[|parts| - 1]
  }

  lemma FlattenNothing<T>()
    ensures Flatten<T>([]) == []
  {
  }

  lemma FlattenLast<T>(parts: seq<seq<T>>)
    requires parts != []
    ensures Flatten(parts) == Flatten(parts[..|parts| - 1]) + parts[|parts| - 1]
  {
  }

  lemma {:induction false} FlattenAppend<T>(s: seq<seq<T>>, t: seq<seq<T>>)
    ensures Flatten(s + t) == Flatten(s) + Flatten(t)
  {
    if t == [] {
      assert s + t == s;
    } else {
      var front, last := t[..|t| - 1], t[|t| - 1];
      FlattenAppend(s, front);
      assert (s + t)[..|s + t| - 1] == s + front;
      assert Flatten(s + t) == (Flatten(s) + Flatten(front)) + last;
      assert Flatten(s) + (Flatten(front) + last) == (Flatten(s) + Flatten(front)) + last;
    }
  }
}

/** Division facts about variable divisors, proved from the defining equation of the quotient. */
module Arithmetic {

  lemma ProductNonNegative(a: int, b: int)
    requires 0 <= a && 0 <= b
    ensures 0 <= a * b
  {
  }

  lemma RealProductNonNegative(a: real, b: real)
    requires 0.0 <= a && 0.0 <= b
    ensures 0.0 <= a * b
  {
  }

  lemma RealProductPositive(a: real, b: real)
    requires 0.0 < a && 0.0 < b
    ensures 0.0 < a * b
  {
  }

  lemma QuotientBetween(t: real, n: real, lo: real, hi: real)
    requires n > 0.0 && lo * n <= t <= hi * n
    ensures lo <= t / n <= hi
  {
    var q := t / n;
    assert q * n == t;
    assert (lo - q) * n == lo * n - q * n && (q - hi) * n == q * n - hi * n;
    if q < lo {
      RealProductPositive(lo - q, n);
    } else if q > hi {
      RealProductPositive(q - hi, n);
    }
  }

  lemma SmallMultiple(d: int, k: int, e: int)
    requires k > 0 && d * k == e && -k < e < k
    ensures d == 0
  {
    if d > 0 {
      ProductNonNegative(d - 1, k);
    } else if d < 0 {
      ProductNonNegative(-d - 1, k);
    }
  }

  /** A quotient and a small remainder determine each other. */
  lemma DivModUnique(q: int, k: int, r: int)
    requires 0 <= r < k
    ensures (q * k + r) / k == q && (q * k + r) % k == r
  {
    var x := q * k + r;
    var d := x / k - q;
    assert x == (x / k) * k + x % k;
    assert d * k == (x / k) * k - q * k;
    SmallMultiple(d, k, r - x % k);
  }

  lemma ProductMonotone(a: int, b: int, k: int)
    requires a <= b && k >= 0
    ensures a * k <= b * k
  {
    ProductNonNegative(b - a, k);
    assert (b - a) * k == b * k - a * k;
  }
}

/** Cutting a batch into equal parts, and joining parts again. */
module Batches {
  import opened Common
  import Arithmetic

  /** DataProto.chunk into parts of `size` rows. */
  function Chunked<T>(batch: seq<T>, size: nat, count: nat): (parts: seq<seq<T>>)
    requires |batch| == count * size
    ensures |parts| == count
  {
    if count == 0 then []
    else
      LastChunkBounds(size, count);
      Chunked(batch[..(count - 1) * size], size, count - 1) + [batch[(count - 1) * size..]]
  }

  lemma LastChunkBounds(size: nat, count: nat)
    requires count > 0
    ensures 0 <= (count - 1) * size <= count * size
  {
    Arithmetic.ProductNonNegative(count - 1, size);
    Arithmetic.ProductMonotone(count - 1, count, size);
  }

  ghost predicate AllSized<T>(parts: seq<seq<T>>, size: nat) {
    forall i :: 0 <= i < |parts| ==> |parts[i]| == size
  }

  /** Chunking the concatenation of equally sized parts gives the parts back. */
  lemma {:induction false} ChunkedFlatten<T>(parts: seq<seq<T>>, size: nat)
    requires AllSized(parts, size)
    ensures |Flatten(parts)| == |parts| * size
    ensures Chunked(Flatten(parts), size, |parts|) == parts
  {
    hide Flatten;
    FlattenNothing<T>();
    if parts != [] {
      var front, last := parts[..|parts| - 1], parts[|parts| - 1];
      ChunkedFlatten(front, size);
      FlattenLast(parts);
      SplitConcat(Flatten(front), last);
      assert |parts| * size == |front| * size + size;
    }
  }

  lemma SplitConcat<T>(a: seq<T>, b: seq<T>)
    ensures (a + b)[..|a|] == a && (a + b)[|a|..] == b
  {
  }

  /** Part `c` of a chunked batch holds rows c * size onwards. */
  lemma {:induction false} ChunkedAt<T>(batch: seq<T>, size: nat, count: nat, c: nat)
    requires |batch| == count * size && c < count
    ensures 0 <= c * size && c * size + size <= |batch|
    ensures Chunked(batch, size, count)[c] == batch[c * size..c * size + size]
  {
    LastChunkBounds(size, count);
    assert (count - 1) * size + size == count * size;
    if c < count - 1 {
      ChunkedAt(batch[..(count - 1) * size], size, count - 1, c);
    }
  }

  /** Joining the parts of a chunked batch gives the batch back. */
  lemma {:induction false} FlattenChunked<T>(batch: seq<T>, size: nat, count: nat)
    requires |batch| == count * size
    ensures Flatten(Chunked(batch, size, count)) == batch
  {
    if count > 0 {
      LastChunkBounds(size, count);
      var front := batch[..(count - 1) * size];
      FlattenChunked(front, size, count - 1);
      assert Chunked(batch, size, count)[..count - 1] == Chunked(front, size, count - 1);
    }
  }

  /** In a concatenation of equally sized parts, row `j` of part `b` sits at b * size + j. */
  lemma FlattenAt<T>(parts: seq<seq<T>>, size: nat, b: nat, j: nat)
    requires AllSized(parts, size) && b < |parts| && j < size
    ensures |Flatten(parts)| == |parts| * size
    ensures 0 <= b * size + j < |Flatten(parts)| && Flatten(parts)[b * size + j] == parts[b][j]
  {
    ChunkedFlatten(parts, size);
    ChunkedAt(Flatten(parts), size, |parts|, b);
  }
}
