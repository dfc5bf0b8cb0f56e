/** `Array.prototype.sort` with a comparator `(a, b) => key(b) - key(a)`: a
    stable sort into non-increasing key order (stability is required of `sort`
    since ECMAScript 2019), written as an insertion sort. */
module Sorting {

  predicate NonIncreasing<T>(s: seq<T>, key: T -> int) {
    forall i, j :: 0 <= i < j < |s| ==> key(s[i]) >= key(s[j])
  }

  /** Put `x` into the non-increasing `s` after every element whose key is at
      least its own. */
  function Insert<T>(x: T, s: seq<T>, key: T -> int): (r: seq<T>)
    ensures |r| == |s| + 1
    decreases |s|
  {
    if |s| == 0 || key(s[|s| - 1]) >= key(x) then s + [x]
    else Insert(x, s[..|s| - 1], key) + [s[|s| - 1]]
  }

  /** The elements of `s` in non-increasing key order, equal keys in their
      original order. */
  function SortDesc<T>(s: seq<T>, key: T -> int): (r: seq<T>)
    ensures |r| == |s|
    decreases |s|
  {
    if |s| == 0 then [] else Insert(s[|s| - 1], SortDesc(s[..|s| - 1], key), key)
  }

  /** The elements of `s` whose key is `v`, in order. */
  function WithKey<T>(s: seq<T>, key: T -> int, v: int): seq<T>
    decreases |s|
  {
    if |s| == 0 then []
    else WithKey(s[..|s| - 1], key, v) + (if key(s[|s| - 1]) == v then [s[|s| - 1]] else [])
  }

  lemma {:induction false} InsertSorted<T>(x: T, s: seq<T>, key: T -> int)
    requires NonIncreasing(s, key)
    ensures NonIncreasing(Insert(x, s, key), key)
    ensures multiset(Insert(x, s, key)) == multiset(s) + multiset{x}
    decreases |s|
  {
    InsertPermutes(x, s, key);
    var n := |s|;
    if n > 0 && key(s[n - 1]) < key(x) {
      var init := s[..n - 1];
      InsertSorted(x, init, key);
      InsertAbove(x, init, key, key(s[n - 1]));
      SortedSnoc(Insert(x, init, key), s[n - 1], key);
    } else {
      SortedSnoc(s, x, key);
    }
  }

  lemma {:induction false} InsertPermutes<T>(x: T, s: seq<T>, key: T -> int)
    ensures multiset(Insert(x, s, key)) == multiset(s) + multiset{x}
    decreases |s|
  {
    var n := |s|;
    if n > 0 && key(s[n - 1]) < key(x) {
      InsertPermutes(x, s[..n - 1], key);
      assert s == s[..n - 1] + [s[n - 1]];
    }
  }

  /** Inserting an element keyed at least `b` among elements keyed at least
      `b` keeps every key at least `b`. */
  lemma {:induction false} InsertAbove<T>(x: T, s: seq<T>, key: T -> int, b: int)
    requires key(x) >= b && forall i :: 0 <= i < |s| ==> key(s[i]) >= b
    ensures forall i :: 0 <= i < |Insert(x, s, key)| ==> key(Insert(x, s, key)[i]) >= b
    decreases |s|
  {
    var n := |s|;
    if n > 0 && key(s[n - 1]) < key(x) {
      InsertAbove(x, s[..n - 1], key, b);
    }
  }

  lemma SortedSnoc<T>(s: seq<T>, y: T, key: T -> int)
    requires NonIncreasing(s, key) && forall i :: 0 <= i < |s| ==> key(s[i]) >= key(y)
    ensures NonIncreasing(s + [y], key)
  {
  }

  /** The result is in non-increasing key order. */
  lemma {:induction false} SortDescSorted<T>(s: seq<T>, key: T -> int)
    ensures NonIncreasing(SortDesc(s, key), key)
    ensures multiset(SortDesc(s, key)) == multiset(s)
    decreases |s|
  {
    if |s| > 0 {
      var n := |s|;
      SortDescSorted(s[..n - 1], key);
      InsertSorted(s[n - 1], SortDesc(s[..n - 1], key), key);
      assert s == s[..n - 1] + [s[n - 1]];
    }
  }

  lemma {:induction false} WithKeyAppend<T>(a: seq<T>, b: seq<T>, key: T -> int, v: int)
    ensures WithKey(a + b, key, v) == WithKey(a, key, v) + WithKey(b, key, v)
    decreases |b|
  {
    if |b| == 0 {
      assert a + b == a;
    } else {
      var n := |b|;
      assert (a + b)[..|a + b| - 1] == a + b[..n - 1];
      WithKeyAppend(a, b[..n - 1], key, v);
    }
  }

  lemma {:induction false} InsertStable<T>(x: T, s: seq<T>, key: T -> int, v: int)
    ensures WithKey(Insert(x, s, key), key, v) == WithKey(s, key, v) + WithKey([x], key, v)
    decreases |s|
  {
    var n := |s|;
    if n == 0 || key(s[n - 1]) >= key(x) {
      WithKeyAppend(s, [x], key, v);
    } else {
      var init, y := s[..n - 1], s[n - 1];
      InsertStable(x, init, key, v);
      WithKeyAppend(Insert(x, init, key), [y], key, v);
      WithKeyAppend(init, [y], key, v);
      assert s == init + [y];
      WithKeySingle(x, key, v);
      WithKeySingle(y, key, v);
      SwapEmpty(WithKey(init, key, v), WithKey([x], key, v), WithKey([y], key, v));
    }
  }

  lemma WithKeySingle<T>(x: T, key: T -> int, v: int)
    ensures WithKey([x], key, v) == if key(x) == v then [x] else []
  {
    assert [x][..0] == [];
  }

  /** Of two pieces one of which is empty, either order gives the same. */
  lemma SwapEmpty<T>(a: seq<T>, b: seq<T>, c: seq<T>)
    requires b == [] || c == []
    ensures a + b + c == a + c + b
  {
  }

  /** Stability: the elements of any one key keep their relative order. */
  lemma {:induction false} SortDescStable<T>(s: seq<T>, key: T -> int, v: int)
    ensures WithKey(SortDesc(s, key), key, v) == WithKey(s, key, v)
    decreases |s|
  {
    if |s| > 0 {
      var n := |s|;
      SortDescStable(s[..n - 1], key, v);
      InsertStable(s[n - 1], SortDesc(s[..n - 1], key), key, v);
      WithKeyAppend(s[..n - 1], [s[n - 1]], key, v);
      assert s == s[..n - 1] + [s[n - 1]];
    }
  }

  /** Hence elements that all share one key are left as they are. */
  lemma EqualKeysUnmoved<T>(s: seq<T>, key: T -> int, v: int)
    requires forall i :: 0 <= i < |s| ==> key(s[i]) == v
    ensures SortDesc(s, key) == s
  {
    SortDescStable(s, key, v);
    AllWithKey(s, key, v);
    SortDescSorted(s, key);
    AllWithKey(SortDesc(s, key), key, v) by {
      forall i | 0 <= i < |s|
        ensures key(SortDesc(s, key)[i]) == v
      {
        assert SortDesc(s, key)[i] in multiset(s);
      }
    }
  }

  lemma {:induction false} AllWithKey<T>(s: seq<T>, key: T -> int, v: int)
    requires forall i :: 0 <= i < |s| ==> key(s[i]) == v
    ensures WithKey(s, key, v) == s
    decreases |s|
  {
    if |s| > 0 {
      AllWithKey(s[..|s| - 1], key, v);
    }
  }

  /** The first element has the largest key and the last the smallest. */
  lemma SortDescBounds<T>(s: seq<T>, key: T -> int)
    requires |s| > 0
    ensures SortDesc(s, key)[0] in s && SortDesc(s, key)[|s| - 1] in s
    ensures forall i :: 0 <= i < |s| ==> key(SortDesc(s, key)[0]) >= key(s[i]) >= key(SortDesc(s, key)[|s| - 1])
  {
    var r := SortDesc(s, key);
    SortDescSorted(s, key);
    assert r[0] in multiset(s) && r[|s| - 1] in multiset(s);
    forall i | 0 <= i < |s|
      ensures key(r[0]) >= key(s[i]) >= key(r[|s| - 1])
    {
      assert s[i] in multiset(r);
      var j :| 0 <= j < |r| && r[j] == s[i];
    }
  }
}
