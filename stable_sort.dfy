/**
 * `Array.prototype.sort` with a comparator of the form
 * `a.k1 - b.k1` (or `a.k1 !== b.k1 ? a.k1 - b.k1 : a.k2 - b.k2`), as the
 * questionnaire service applies it to questions and options. Since ES2019
 * the sort is stable; it is modelled as an insertion sort, whose result is
 * the unique stable ordering by the key.
 */
module StableSort {
  /** A sort key, compared lexicographically. */
  type Rank = (int, int)

  /** The comparator answers a negative number: `x` belongs strictly before `y`. */
  predicate Before(x: Rank, y: Rank)
  {
    x.0 < y.0 || (x.0 == y.0 && x.1 < y.1)
  }

  /** No element is strictly before an earlier one. */
  predicate Sorted<T>(s: seq<T>, key: T -> Rank)
  {
    forall i, j :: 0 <= i < j < |s| ==> !Before(key(s[j]), key(s[i]))
  }

  /** `x` placed after every element of `s` that it is not strictly before. */
  function Insert<T>(s: seq<T>, x: T, key: T -> Rank): (r: seq<T>)
    ensures |r| == |s| + 1
    decreases |s|
  {
    if |s| == 0 || !Before(key(x), key(s[|s| - 1])) then s + [x]
    else Insert(s[..|s| - 1], x, key) + [s[|s| - 1]]
  }

  /** The stable sort of `s` by `key`. */
  function Sort<T>(s: seq<T>, key: T -> Rank): (r: seq<T>)
    ensures |r| == |s|
  {
    if |s| == 0 then [] else Insert(Sort(s[..|s| - 1], key), s[|s| - 1], key)
  }

  /** The elements of `s` whose key is `k`, in order. */
  function WithKey<T>(s: seq<T>, key: T -> Rank, k: Rank): seq<T>
  {
    if |s| == 0 then []
    else WithKey(s[..|s| - 1], key, k) + (if key(s[|s| - 1]) == k then [s[|s| - 1]] else [])
  }

  lemma {:induction false} InsertPermutes<T>(s: seq<T>, x: T, key: T -> Rank)
    ensures multiset(Insert(s, x, key)) == multiset(s) + multiset{x}
    decreases |s|
  {
    if |s| > 0 && Before(key(x), key(s[|s| - 1])) {
      var init := s[..|s| - 1];
      InsertPermutes(init, x, key);
      assert s == init + [s[|s| - 1]];
    }
  }

  lemma {:induction false} InsertKeepsSorted<T>(s: seq<T>, x: T, key: T -> Rank)
    requires Sorted(s, key)
    ensures Sorted(Insert(s, x, key), key)
    decreases |s|
  {
    if |s| > 0 && Before(key(x), key(s[|s| - 1])) {
      var init := s[..|s| - 1];
      var last := s[|s| - 1];
      InsertKeepsSorted(init, x, key);
      InsertPermutes(init, x, key);
      var r := Insert(init, x, key);
      forall i | 0 <= i < |r|
        ensures !Before(key(last), key(r[i]))
      {
        assert r[i] in multiset(r);
        assert r[i] in init || r[i] == x;
      }
    }
  }

  /** Inserting `x` adds it to the elements of its own key, after them, and to no other key. */
  lemma {:induction false} InsertWithKey<T>(s: seq<T>, x: T, key: T -> Rank, k: Rank)
    ensures WithKey(Insert(s, x, key), key, k) == WithKey(s, key, k) + (if key(x) == k then [x] else [])
    decreases |s|
  {
    if |s| == 0 || !Before(key(x), key(s[|s| - 1])) {
      assert (s + [x])[..|s|] == s;
    } else {
      var init := s[..|s| - 1];
      var r := Insert(init, x, key);
      InsertWithKey(init, x, key, k);
      assert (r + [s[|s| - 1]])[..|r|] == r;
    }
  }

  /** The sort is a sorted permutation of its input. */
  lemma {:induction false} SortSortsAndPermutes<T>(s: seq<T>, key: T -> Rank)
    ensures Sorted(Sort(s, key), key)
    ensures multiset(Sort(s, key)) == multiset(s)
  {
    if |s| > 0 {
      var init := s[..|s| - 1];
      SortSortsAndPermutes(init, key);
      InsertKeepsSorted(Sort(init, key), s[|s| - 1], key);
      InsertPermutes(Sort(init, key), s[|s| - 1], key);
      assert s == init + [s[|s| - 1]];
    }
  }

  /** The sort is stable: elements with equal keys keep their relative order. */
  lemma {:induction false} SortIsStable<T>(s: seq<T>, key: T -> Rank, k: Rank)
    ensures WithKey(Sort(s, key), key, k) == WithKey(s, key, k)
  {
    if |s| > 0 {
      var init := s[..|s| - 1];
      SortIsStable(init, key, k);
      InsertWithKey(Sort(init, key), s[|s| - 1], key, k);
    }
  }

  /**
   * One insertion step: the element at `i` moves left past every element of
   * the sorted prefix it is strictly before.
   */
  method InsertAt<T>(a: array<T>, i: int, key: T -> Rank)
    requires 0 <= i < a.Length
    modifies a
    ensures a[..i + 1] == Insert(old(a[..i]), old(a[i]), key)
    ensures a[i + 1..] == old(a[i + 1..])
  {
    ghost var s := a[..i];
    var x := a[i];
    var j := i;
    while j > 0 && Before(key(x), key(a[j - 1]))
      invariant 0 <= j <= i
      invariant a[..j] == s[..j]
      invariant a[j + 1..i + 1] == s[j..]
      invariant a[i + 1..] == old(a[i + 1..])
      invariant Insert(s, x, key) == Insert(s[..j], x, key) + s[j..]
    {
      assert s[..j][..j - 1] == s[..j - 1];
      assert s[j - 1..] == [s[j - 1]] + s[j..];
      a[j] := a[j - 1];
      j := j - 1;
    }
    a[j] := x;
    assert a[..i + 1] == a[..j] + [x] + a[j + 1..i + 1];
  }

  /** `array.sort(comparator)` in place. */
  method SortInPlace<T>(a: array<T>, key: T -> Rank)
    modifies a
    ensures a[..] == Sort(old(a[..]), key)
  {
    var i := 0;
    while i < a.Length
      invariant 0 <= i <= a.Length
      invariant a[..i] == Sort(old(a[..])[..i], key)
      invariant a[i..] == old(a[..])[i..]
    {
      InsertAt(a, i, key);
      assert old(a[..])[..i + 1][..i] == old(a[..])[..i];
      i := i + 1;
    }
    assert a[..] == a[..a.Length];
    assert old(a[..]) == old(a[..])[..a.Length];
  }
}
