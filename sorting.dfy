/**
 * `Array.prototype.sort` with a numeric comparator. The sort is stable (ECMAScript 2019),
 * so for a comparator of the form `(a, b) => key(a) - key(b)` its result is
 * fully determined: the elements ordered by `key`, ties in their original order.
 * The reference definition is insertion sort; `SortInPlace` is the same
 * algorithm on an array.
 */
module Sorting {
  import opened Seqs

  /** `s` ordered by `key`, smallest first. */
  ghost predicate SortedBy<T>(s: seq<T>, key: T -> int) {
    forall i, j :: 0 <= i < j < |s| ==> key(s[i]) <= key(s[j])
  }

  /** Inserts `x` into `t` after every element whose key is not greater than `x`'s. */
  function Insert<T>(t: seq<T>, x: T, key: T -> int): (r: seq<T>)
    ensures |r| == |t| + 1
    ensures multiset(r) == multiset(t) + multiset{x}
  {
    if t == [] then [x]
    else if key(t[|t| - 1]) > key(x) then
      assert t == t[..|t| - 1] + [t[|t| - 1]];
      Insert(t[..|t| - 1], x, key) + [t[|t| - 1]]
    else t + [x]
  }

  /** The stable sort of `s` by `key`. */
  function SortBy<T>(s: seq<T>, key: T -> int): (r: seq<T>)
    ensures multiset(r) == multiset(s)
  {
    if s == [] then []
    else
      assert s == s[..|s| - 1] + [s[|s| - 1]];
      Insert(SortBy(s[..|s| - 1], key), s[|s| - 1], key)
  }

  /** The test "has key `k`", one value per `k` so that filters with it can be compared. */
  function KeyIs<T>(key: T -> int, k: int): T -> bool {
    x => key(x) == k
  }

  /** Inserting an element no greater than `bound` into elements no greater than `bound` keeps them so. */
  lemma {:induction false} InsertBounded<T>(t: seq<T>, x: T, key: T -> int, bound: int)
    requires forall i :: 0 <= i < |t| ==> key(t[i]) <= bound
    requires key(x) <= bound
    ensures forall i :: 0 <= i < |t| + 1 ==> key(Insert(t, x, key)[i]) <= bound
  {
    if t != [] && key(t[|t| - 1]) > key(x) {
      InsertBounded(t[..|t| - 1], x, key, bound);
    }
  }

  lemma {:induction false} InsertSorted<T>(t: seq<T>, x: T, key: T -> int)
    requires SortedBy(t, key)
    ensures SortedBy(Insert(t, x, key), key)
  {
    if t != [] && key(t[|t| - 1]) > key(x) {
      var init, last := t[..|t| - 1], t[|t| - 1];
      InsertSorted(init, x, key);
      InsertBounded(init, x, key, key(last));
    }
  }

  /** Inserting `x` puts it after all elements with its key and keeps their order. */
  lemma {:induction false} InsertStable<T>(t: seq<T>, x: T, key: T -> int, k: int)
    ensures Filter(Insert(t, x, key), KeyIs(key, k)) == Filter(t, KeyIs(key, k)) + (if key(x) == k then [x] else [])
  {
    var p := KeyIs(key, k);
    if t == [] {
      assert Filter([x], p) == (if p(x) then [x] else []) + Filter([x][1..], p);
    } else if key(t[|t| - 1]) > key(x) {
      var init, last := t[..|t| - 1], t[|t| - 1];
      assert t == init + [last];
      InsertStable(init, x, key, k);
      FilterSnoc(Insert(init, x, key), last, p);
      FilterSnoc(init, last, p);
      if key(x) == k {
        assert !p(last);
      }
    } else {
      FilterSnoc(t, x, p);
    }
  }

  /** The result of `SortBy` is ordered by the key. */
  lemma {:induction false} SortBySorted<T>(s: seq<T>, key: T -> int)
    ensures SortedBy(SortBy(s, key), key)
  {
    if s != [] {
      SortBySorted(s[..|s| - 1], key);
      InsertSorted(SortBy(s[..|s| - 1], key), s[|s| - 1], key);
    }
  }

  /** The elements sharing a key keep their original relative order. */
  lemma {:induction false} SortByStable<T>(s: seq<T>, key: T -> int, k: int)
    ensures Filter(SortBy(s, key), KeyIs(key, k)) == Filter(s, KeyIs(key, k))
  {
    if s != [] {
      var init, last := s[..|s| - 1], s[|s| - 1];
      assert s == init + [last];
      SortByStable(init, key, k);
      InsertStable(SortBy(init, key), last, key, k);
      FilterSnoc(init, last, KeyIs(key, k));
    }
  }

  /** Input already ordered by the key is left as it is. */
  lemma {:induction false} SortBySortedInput<T>(s: seq<T>, key: T -> int)
    requires SortedBy(s, key)
    ensures SortBy(s, key) == s
  {
    if s != [] {
      var init, last := s[..|s| - 1], s[|s| - 1];
      assert SortedBy(init, key) by {
        forall i, j | 0 <= i < j < |init| ensures key(init[i]) <= key(init[j]) {
          assert init[i] == s[i] && init[j] == s[j];
        }
      }
      SortBySortedInput(init, key);
      assert Insert(init, last, key) == init + [last] by {
        if init != [] {
          assert init[|init| - 1] == s[|s| - 2];
        }
      }
      assert init + [last] == s;
    }
  }

  /** Sorting one more element is inserting it into the sorted prefix. */
  lemma SortByPrefix<T>(s: seq<T>, i: nat, key: T -> int)
    requires i < |s|
    ensures SortBy(s[..i + 1], key) == Insert(SortBy(s[..i], key), s[i], key)
  {
    assert s[..i + 1][..i] == s[..i];
  }

  /**
   * `Insert` puts `x` right after the last element whose key is not greater than `x`'s:
   * `j` is that position when every later element has a greater key.
   */
  lemma {:induction false} InsertAt<T>(t: seq<T>, x: T, key: T -> int, j: nat)
    requires j <= |t|
    requires j == 0 || key(t[j - 1]) <= key(x)
    requires forall k :: j <= k < |t| ==> key(t[k]) > key(x)
    ensures Insert(t, x, key) == t[..j] + [x] + t[j..]
    decreases |t|
  {
    if j < |t| {
      var init, last := t[..|t| - 1], t[|t| - 1];
      assert Insert(t, x, key) == Insert(init, x, key) + [last] by {
        assert key(last) > key(x);
      }
      assert forall k :: j <= k < |init| ==> key(init[k]) > key(x) by {
        forall k | j <= k < |init| ensures key(init[k]) > key(x) {
          assert init[k] == t[k];
        }
      }
      assert j == 0 || key(init[j - 1]) <= key(x) by {
        if j > 0 {
          assert init[j - 1] == t[j - 1];
        }
      }
      InsertAt(init, x, key, j);
      assert init[..j] == t[..j];
      assert init[j..] + [last] == t[j..] by {
        var u, v := init[j..] + [last], t[j..];
        assert |u| == |v|;
        forall k | 0 <= k < |u| ensures u[k] == v[k] {
          if k < |u| - 1 {
            assert u[k] == init[j + k];
          }
        }
      }
      ConcatAssoc(t[..j] + [x], init[j..], [last]);
    } else if t != [] {
      assert t[..j] == t && t[j..] == [];
    }
  }

  /** One step of insertion sort: moves `a[i]` back into the sorted run `a[..i]`. */
  method InsertInPlace<T>(a: array<T>, i: nat, key: T -> int)
    requires i < a.Length
    modifies a
    ensures a[..i + 1] == Insert(old(a[..i]), old(a[i]), key)
    ensures forall k :: i < k < a.Length ==> a[k] == old(a[k])
  {
    ghost var t := a[..i];
    var x := a[i];
    var j := i;
    while j > 0 && key(a[j - 1]) > key(x)
      invariant 0 <= j <= i
      invariant forall k :: 0 <= k < j ==> a[k] == t[k]
      invariant forall k :: j < k <= i ==> a[k] == t[k - 1]
      invariant forall k :: i < k < a.Length ==> a[k] == old(a[k])
      invariant forall k :: j <= k < i ==> key(t[k]) > key(x)
    {
      a[j] := a[j - 1];
      j := j - 1;
    }
    a[j] := x;
    ghost var r := t[..j] + [x] + t[j..];
    forall k | 0 <= k <= i ensures a[k] == r[k] {
    }
    assert a[..i + 1] == r;
    InsertAt(t, x, key, j);
  }

  /** Sorts the array in place by `key`, as insertion sort does, with the same result as `SortBy`. */
  method SortInPlace<T>(a: array<T>, key: T -> int)
    modifies a
    ensures a[..] == SortBy(old(a[..]), key)
  {
    ghost var input := a[..];
    var i := 0;
    while i < a.Length
      invariant 0 <= i <= a.Length
      invariant a[..i] == SortBy(input[..i], key)
      invariant forall k :: i <= k < a.Length ==> a[k] == input[k]
    {
      InsertInPlace(a, i, key);
      SortByPrefix(input, i, key);
      i := i + 1;
    }
    assert input[..a.Length] == input;
  }
}
