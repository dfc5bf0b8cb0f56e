/** Fixed-size batching: the `for (let i = 0; i < xs.length; i += N) xs.slice(i, i + N)`
    pattern that both the page crawl and the sitemap-index expansion use to bound
    how many requests are in flight at once. */
module Batching {

  function Min(a: int, b: int): int {
    if a <= b then a else b
  }

  /** Consecutive slices of `s` of `size` elements each, the last one possibly shorter. */
  function Batches<T>(s: seq<T>, size: nat): seq<seq<T>>
    requires size > 0
    decreases |s|
  {
    if |s| == 0 then [] else [s[..Min(size, |s|)]] + Batches(s[Min(size, |s|)..], size)
  }

  /** Concatenation of a sequence of sequences (`Array.prototype.flat` one level deep). */
  function Flatten<T>(ss: seq<seq<T>>): seq<T> {
    if |ss| == 0 then [] else ss[0] + Flatten(ss[1..])
  }

  lemma {:induction false} FlattenAppend<T>(a: seq<seq<T>>, b: seq<seq<T>>)
    ensures Flatten(a + b) == Flatten(a) + Flatten(b)
  {
    if |a| == 0 {
      assert a + b == b;
    } else {
      assert (a + b)[1..] == a[1..] + b;
      FlattenAppend(a[1..], b);
    }
  }

  lemma SliceSnoc<T>(s: seq<T>, lo: nat, j: nat)
    requires lo <= j < |s|
    ensures forall next :: next == j + 1 ==> s[lo..next] == s[lo..j] + [s[j]]
  {
    assert s[lo..j + 1] == s[lo..j] + [s[j]];
  }

  lemma SliceSplit<T>(s: seq<T>, mid: nat, hi: nat)
    requires mid <= hi <= |s|
    ensures s[..hi] == s[..mid] + s[mid..hi]
  {
  }

  lemma SliceAll<T>(s: seq<T>)
    ensures s[..|s|] == s
  {
  }

  lemma PrefixSnoc<T>(s: seq<T>, k: nat)
    requires 0 < k <= |s|
    ensures s[..k] == s[..k - 1] + [s[k - 1]]
  {
  }

  lemma Associative<T>(a: seq<T>, b: seq<T>, c: seq<T>)
    ensures a + (b + c) == (a + b) + c
  {
  }

  /** Concatenating the batches gives back the whole sequence, in order. */
  lemma {:induction false} FlattenBatches<T>(s: seq<T>, size: nat)
    requires size > 0
    ensures Flatten(Batches(s, size)) == s
    decreases |s|
  {
    if |s| > 0 {
      var m := Min(size, |s|);
      FlattenBatches(s[m..], size);
      assert s == s[..m] + s[m..];
    }
  }

  /** There are ceil(|s| / size) batches. */
  lemma {:induction false} BatchCount<T>(s: seq<T>, size: nat)
    requires size > 0
    ensures |Batches(s, size)| == (|s| + size - 1) / size
    decreases |s|
  {
    if |s| == 0 {
      DivUnique(size - 1, size, 0, size - 1);
    } else if |s| <= size {
      DivUnique(|s| + size - 1, size, 1, |s| - 1);
    } else {
      assert Min(size, |s|) == size;
      BatchCount(s[size..], size);
      DivShift(|s| + size - 1, size);
    }
  }

  lemma DivShift(x: int, d: int)
    requires 0 < d <= x
    ensures x / d == (x - d) / d + 1
  {
    var q, r := (x - d) / d, (x - d) % d;
    assert x - d == d * q + r && 0 <= r < d;
    assert x == d * (q + 1) + r;
    DivUnique(x, d, q + 1, r);
  }

  lemma DivUnique(x: int, d: int, q: int, r: int)
    requires 0 < d && 0 <= r < d && x == d * q + r
    ensures x / d == q
  {
    var q', r' := x / d, x % d;
    assert d * (q' - q) == r - r';
    if q' - q >= 1 {
      MulAtLeast(d, q' - q);
    } else if q' - q <= -1 {
      MulAtLeast(d, q - q');
    }
  }

  lemma MulAtLeast(d: int, k: int)
    requires d > 0 && k >= 1
    ensures d * k >= d
  {
  }

  /** Batch `j` is the slice starting at `j * size`. */
  lemma BatchAt<T>(s: seq<T>, size: nat, j: nat)
    requires size > 0
    requires j * size < |s|
    ensures j < |Batches(s, size)|
    ensures Batches(s, size)[j] == s[j * size..Min(j * size + size, |s|)]
  {
    OffsetIsProduct(j, size);
    BatchFrom(s, size, j);
  }

  /** `j * size`, counted up one batch at a time. */
  function Offset(j: nat, size: nat): nat {
    if j == 0 then 0 else Offset(j - 1, size) + size
  }

  lemma {:induction false} OffsetIsProduct(j: nat, size: nat)
    ensures Offset(j, size) == j * size
  {
    if j > 0 {
      OffsetIsProduct(j - 1, size);
    }
  }

  lemma {:induction false} BatchFrom<T>(s: seq<T>, size: nat, j: nat)
    requires size > 0 && Offset(j, size) < |s|
    ensures j < |Batches(s, size)|
    ensures Batches(s, size)[j] == s[Offset(j, size)..Min(Offset(j, size) + size, |s|)]
    decreases j
  {
    if j > 0 {
      var start := Offset(j, size);
      var t := s[size..];
      assert Min(size, |s|) == size;
      assert Batches(s, size) == [s[..size]] + Batches(t, size);
      BatchFrom(t, size, j - 1);
      assert Batches(s, size)[j] == Batches(t, size)[j - 1];
      assert t[start - size..Min(start, |t|)] == s[start..Min(start + size, |s|)];
    }
  }
}
