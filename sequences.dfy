/**
 * The array built-ins the wrapped views are written with: `Array.prototype.filter`,
 * `Array.prototype.toSorted` (a stable sort) and `Array.prototype.slice`.
 */
module Sequences {

  /** `n` copies of `x`. */
  function Repeat<T>(x: T, n: nat): (r: seq<T>)
    ensures |r| == n && forall i :: 0 <= i < n ==> r[i] == x
  {
    if n == 0 then [] else Repeat(x, n - 1) + [x]
  }

  /** `s.filter(p)`: the elements that satisfy `p`, in their original order. */
  function Filter<T(!new)>(s: seq<T>, p: T -> bool): (r: seq<T>)
    ensures |r| <= |s|
    ensures forall x :: x in r <==> x in s && p(x)
    ensures forall x :: x in s && p(x) ==> multiset(r)[x] == multiset(s)[x]
  {
    if s == [] then []
    else
      var r := Filter(s[..|s| - 1], p);
      var last := s[|s| - 1];
      assert s == s[..|s| - 1] + [last];
      if p(last) then r + [last] else r
  }

  /** `filter` keeps order: filtering a concatenation filters each part and keeps them in turn. */
  lemma {:induction false} FilterAppend<T(!new)>(a: seq<T>, b: seq<T>, p: T -> bool)
    ensures Filter(a + b, p) == Filter(a, p) + Filter(b, p)
  {
    if b == [] {
      assert a + b == a;
    } else {
      var init, last := b[..|b| - 1], b[|b| - 1];
      InitLast(b);
      FilterAppend(a, init, p);
      FilterAppendSnoc(a, init, last, p);
    }
  }

  /** The step of `FilterAppend`: one more element at the end of the second part. */
  lemma FilterAppendSnoc<T(!new)>(a: seq<T>, init: seq<T>, last: T, p: T -> bool)
    requires Filter(a + init, p) == Filter(a, p) + Filter(init, p)
    ensures Filter(a + (init + [last]), p) == Filter(a, p) + Filter(init + [last], p)
  {
    FilterSnoc(a + init, last, p);
    FilterSnoc(init, last, p);
    ConcatAssoc(a, init, [last]);
    ConcatAssoc(Filter(a, p), Filter(init, p), if p(last) then [last] else []);
  }

  /** A nonempty sequence is its front followed by its last element. */
  lemma InitLast<T>(b: seq<T>)
    requires b != []
    ensures b[..|b| - 1] + [b[|b| - 1]] == b
  {
  }

  /** A nonempty sequence is its head followed by its tail, also in front of another sequence. */
  lemma HeadTail<T>(a: seq<T>, b: seq<T>)
    requires a != []
    ensures a == [a[0]] + a[1..] && a + b == [a[0]] + (a[1..] + b)
  {
  }

  /** Concatenation is associative. */
  lemma ConcatAssoc<T>(x: seq<T>, y: seq<T>, z: seq<T>)
    ensures (x + y) + z == x + (y + z)
  {
  }

  /** One more element at the end is kept at the end exactly when it passes. */
  lemma FilterSnoc<T(!new)>(s: seq<T>, x: T, p: T -> bool)
    ensures Filter(s + [x], p) == Filter(s, p) + if p(x) then [x] else []
  {
    assert (s + [x])[..|s + [x]| - 1] == s;
  }

  /** `[x].filter(p)` is `[x]` when `x` passes and `[]` otherwise. */
  lemma FilterOne<T(!new)>(x: T, p: T -> bool)
    ensures Filter([x], p) == if p(x) then [x] else []
  {
    assert [x][..0] == [];
  }

  /** Keeping a sequence in key order. */
  ghost predicate SortedBy<T>(s: seq<T>, key: T -> int)
  {
    forall i, j :: 0 <= i < j < |s| ==> key(s[i]) <= key(s[j])
  }

  /** Filtering keeps the order of what it keeps. */
  lemma {:induction false} FilterSorted<T(!new)>(s: seq<T>, p: T -> bool, key: T -> int)
    requires SortedBy(s, key)
    ensures SortedBy(Filter(s, p), key)
  {
    if s != [] {
      var init := s[..|s| - 1];
      assert SortedBy(init, key);
      FilterSorted(init, p, key);
      var r := Filter(init, p);
      var last := s[|s| - 1];
      forall i | 0 <= i < |r|
        ensures key(r[i]) <= key(last)
      {
        assert r[i] in init;
        var j :| 0 <= j < |init| && init[j] == r[i];
      }
      assert Filter(s, p) == if p(last) then r + [last] else r;
    }
  }

  /** The elements of `s` whose key is `k`, in order. */
  function WithKey<T>(s: seq<T>, key: T -> int, k: int): seq<T>
  {
    if s == [] then []
    else WithKey(s[..|s| - 1], key, k) + (if key(s[|s| - 1]) == k then [s[|s| - 1]] else [])
  }

  /**
   * Insert `x` after the last element whose key is not larger than its own: the
   * step of a stable insertion sort.
   */
  function Insert<T>(s: seq<T>, x: T, key: T -> int): (r: seq<T>)
    ensures multiset(r) == multiset(s) + multiset{x}
  {
    if s == [] || key(s[|s| - 1]) <= key(x) then s + [x]
    else
      assert s == s[..|s| - 1] + [s[|s| - 1]];
      Insert(s[..|s| - 1], x, key) + [s[|s| - 1]]
  }

  /** Every key of `s` is at most `bound`. */
  ghost predicate KeysAtMost<T>(s: seq<T>, key: T -> int, bound: int)
  {
    forall i :: 0 <= i < |s| ==> key(s[i]) <= bound
  }

  /** Inserting into a sorted sequence keeps it sorted, and keeps any upper bound its keys and `x` share. */
  lemma {:induction false} InsertSorted<T>(s: seq<T>, x: T, key: T -> int, bound: int)
    requires SortedBy(s, key)
    ensures SortedBy(Insert(s, x, key), key)
    ensures KeysAtMost(s, key, bound) && key(x) <= bound ==> KeysAtMost(Insert(s, x, key), key, bound)
  {
    if s == [] || key(s[|s| - 1]) <= key(x) {
    } else {
      var init := s[..|s| - 1];
      var last := s[|s| - 1];
      assert SortedBy(init, key);
      assert KeysAtMost(init, key, key(last));
      InsertSorted(init, x, key, key(last));
      if KeysAtMost(s, key, bound) && key(x) <= bound {
        InsertSorted(init, x, key, bound);
      }
    }
  }

  /** Inserting `x` adds it after every element that shares its key. */
  lemma {:induction false} InsertStable<T>(s: seq<T>, x: T, key: T -> int, k: int)
    ensures WithKey(Insert(s, x, key), key, k) == WithKey(s, key, k) + (if key(x) == k then [x] else [])
  {
    if s == [] || key(s[|s| - 1]) <= key(x) {
      WithKeySnoc(s, x, key, k);
    } else {
      var init := s[..|s| - 1];
      var last := s[|s| - 1];
      InsertStable(init, x, key, k);
      InitLast(s);
      WithKeySnoc(init, last, key, k);
      WithKeySnoc(Insert(init, x, key), last, key, k);
      if key(x) == k {
        assert key(last) != k;
      }
    }
  }

  /** Appending `y` extends the elements with key `k` by `y` when `y` has that key. */
  lemma WithKeySnoc<T>(s: seq<T>, y: T, key: T -> int, k: int)
    ensures WithKey(s + [y], key, k) == WithKey(s, key, k) + (if key(y) == k then [y] else [])
  {
    assert (s + [y])[..|s + [y]| - 1] == s;
  }

  /** Stable insertion sort by an integer key. */
  function SortBy<T>(s: seq<T>, key: T -> int): (r: seq<T>)
    ensures SortedBy(r, key)
    ensures multiset(r) == multiset(s)
  {
    if s == [] then []
    else
      assert s == s[..|s| - 1] + [s[|s| - 1]];
      InsertSorted(SortBy(s[..|s| - 1], key), s[|s| - 1], key, 0);
      Insert(SortBy(s[..|s| - 1], key), s[|s| - 1], key)
  }

  /** Sorting keeps the relative order of the elements that share a key. */
  lemma {:induction false} SortByStable<T>(s: seq<T>, key: T -> int, k: int)
    ensures WithKey(SortBy(s, key), key, k) == WithKey(s, key, k)
  {
    if s != [] {
      SortByStable(s[..|s| - 1], key, k);
      InsertStable(SortBy(s[..|s| - 1], key), s[|s| - 1], key, k);
    }
  }

  /**
   * `s.toSorted(cmp)` for a comparator that is the difference of an integer key,
   * `cmp(a, b) == key(a) - key(b)`, as every comparator here is: the result is a
   * permutation of `s` in which no pair is out of the comparator's order, and
   * elements the comparator ties keep their original order.
   */
  function ToSorted<T(!new)>(s: seq<T>, cmp: (T, T) -> int, key: T -> int): (r: seq<T>)
    requires forall a, b :: cmp(a, b) == key(a) - key(b)
    ensures forall i, j :: 0 <= i < j < |r| ==> cmp(r[i], r[j]) <= 0
    ensures multiset(r) == multiset(s)
    ensures forall k :: WithKey(r, key, k) == WithKey(s, key, k)
  {
    assert forall k :: WithKey(SortBy(s, key), key, k) == WithKey(s, key, k) by {
      forall k ensures WithKey(SortBy(s, key), key, k) == WithKey(s, key, k) {
        SortByStable(s, key, k);
      }
    }
    SortBy(s, key)
  }

  /** The end index `s.slice(0, end)` stops at: negative counts from the end, and it is clamped to `[0, len]`. */
  function SliceEnd(len: nat, end: int): (e: nat)
    ensures e <= len
    ensures 0 <= end ==> e == if end < len then end else len
    ensures end < 0 ==> e == if len + end < 0 then 0 else len + end
  {
    if end < 0 then (if len + end < 0 then 0 else len + end)
    else if end < len then end else len
  }

  /** `s.slice(0, end)`. */
  function SliceTo<T>(s: seq<T>, end: int): (r: seq<T>)
    ensures r == s[..SliceEnd(|s|, end)]
    ensures 0 <= end ==> |r| == if end < |s| then end else |s|
  {
    s[..SliceEnd(|s|, end)]
  }

  /** No element occurs twice. */
  ghost predicate Distinct<T>(s: seq<T>)
  {
    forall i, j :: 0 <= i < j < |s| ==> s[i] != s[j]
  }

  /** In a sequence without repeats every element is counted at most once. */
  lemma {:induction false} DistinctCount<T>(s: seq<T>, v: T)
    requires Distinct(s)
    ensures multiset(s)[v] <= 1
  {
    if s != [] {
      var init := s[..|s| - 1];
      assert s == init + [s[|s| - 1]];
      assert Distinct(init);
      DistinctCount(init, v);
      if v == s[|s| - 1] {
        assert v !in init;
      }
    }
  }

  /** A permutation of a sequence without repeats has none either. */
  lemma PermutationDistinct<T>(a: seq<T>, b: seq<T>)
    requires multiset(a) == multiset(b) && Distinct(b)
    ensures Distinct(a)
  {
    forall i, j | 0 <= i < j < |a|
      ensures a[i] != a[j]
    {
      if a[i] == a[j] {
        assert a == a[..j] + a[j..];
        assert a[i] in a[..j] && a[j] in a[j..];
        assert multiset(a)[a[i]] == multiset(a[..j])[a[i]] + multiset(a[j..])[a[i]];
        DistinctCount(b, a[i]);
        assert false;
      }
    }
  }
}
