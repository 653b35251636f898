/** `Array.prototype.sort(compare)` on an array the caller owns: the array is
    reordered in place so that the comparator never asks for two neighbours
    to be swapped. JavaScript engines use a stable merge sort; a stable
    insertion sort stands for it here. */
module Sorting {

  /** Every neighbouring pair of `s` is in order under `cmp`. */
  predicate Sorted<T>(s: seq<T>, cmp: (T, T) -> int) {
    forall i :: 0 < i < |s| ==> cmp(s[i - 1], s[i]) <= 0
  }

  /** The sign of a numeric difference: how a comparator that returns
      `a - b` is read by the sort. */
  function Sign(x: int): (s: int)
    ensures s == -1 || s == 0 || s == 1
    ensures s < 0 <==> x < 0
    ensures s > 0 <==> x > 0
  {
    if x < 0 then -1 else if x > 0 then 1 else 0
  }

  /** A comparator that orders `x` after `y` does not also order `y` after `x`. */
  ghost predicate Antisymmetric<T(!new)>(cmp: (T, T) -> int) {
    forall x, y :: cmp(x, y) > 0 ==> cmp(y, x) <= 0
  }

  method Swap<T>(a: array<T>, i: int, j: int)
    requires 0 <= i < a.Length && 0 <= j < a.Length
    modifies a
    ensures a[i] == old(a[j]) && a[j] == old(a[i])
    ensures forall k :: 0 <= k < a.Length && k != i && k != j ==> a[k] == old(a[k])
    ensures multiset(a[..]) == multiset(old(a[..]))
  {
    a[i], a[j] := a[j], a[i];
  }

  /** The insertion invariant on the array's contents `s`: `s[..i + 1]` is
      in order except that `s[j]` may still belong further left. */
  ghost predicate Inserting<T>(s: seq<T>, i: int, j: int, cmp: (T, T) -> int)
    requires 0 <= j <= i < |s|
  {
    && (forall k :: 0 < k < j ==> cmp(s[k - 1], s[k]) <= 0)
    && (forall k :: j < k <= i ==> cmp(s[k - 1], s[k]) <= 0)
    && (0 < j < i ==> cmp(s[j - 1], s[j + 1]) <= 0)
  }

  /** Before any step the whole sorted prefix lies left of `s[i]`. */
  lemma {:induction false} StartInserting<T>(s: seq<T>, i: int, cmp: (T, T) -> int)
    requires 0 <= i < |s| && Sorted(s[..i], cmp)
    ensures Inserting(s, i, i, cmp)
  {
    forall k | 0 < k < i
      ensures cmp(s[k - 1], s[k]) <= 0
    {
      assert s[..i][k - 1] == s[k - 1] && s[..i][k] == s[k];
    }
  }

  /** Swapping an out-of-order `s[j]` with its left neighbour moves the gap
      one place left. */
  lemma {:induction false} SwapStep<T(!new)>(s: seq<T>, i: int, j: int, cmp: (T, T) -> int)
    requires Antisymmetric(cmp)
    requires 0 < j <= i < |s|
    requires Inserting(s, i, j, cmp)
    requires cmp(s[j - 1], s[j]) > 0
    ensures Inserting(s[j - 1 := s[j]][j := s[j - 1]], i, j - 1, cmp)
  {
    var t := s[j - 1 := s[j]][j := s[j - 1]];
    assert t[j - 1] == s[j] && t[j] == s[j - 1];
    forall k | 0 < k < j - 1
      ensures cmp(t[k - 1], t[k]) <= 0
    {
      assert t[k - 1] == s[k - 1] && t[k] == s[k];
    }
    forall k | j - 1 < k <= i
      ensures cmp(t[k - 1], t[k]) <= 0
    {
      if k > j + 1 {
        assert t[k - 1] == s[k - 1] && t[k] == s[k];
      } else if k == j + 1 {
        assert t[k] == s[k];
      }
    }
    if 0 < j - 1 {
      assert t[j - 2] == s[j - 2];
    }
  }

  /** Once `s[j]` has stopped moving, `s[..i + 1]` is in order. */
  lemma {:induction false} DoneInserting<T>(s: seq<T>, i: int, j: int, cmp: (T, T) -> int)
    requires 0 <= j <= i < |s|
    requires Inserting(s, i, j, cmp)
    requires j == 0 || cmp(s[j - 1], s[j]) <= 0
    ensures Sorted(s[..i + 1], cmp)
  {
    var p := s[..i + 1];
    forall k | 0 < k < |p|
      ensures cmp(p[k - 1], p[k]) <= 0
    {
      assert p[k - 1] == s[k - 1] && p[k] == s[k];
    }
  }

  /** One step of insertion: swap `a[j]` with its left neighbour. */
  method SwapLeft<T(!new)>(a: array<T>, i: int, j: int, cmp: (T, T) -> int)
    requires Antisymmetric(cmp)
    requires 0 < j <= i < a.Length
    requires Inserting(a[..], i, j, cmp)
    requires cmp(a[j - 1], a[j]) > 0
    modifies a
    ensures Inserting(a[..], i, j - 1, cmp)
    ensures forall k :: i < k < a.Length ==> a[k] == old(a[k])
    ensures multiset(a[..]) == multiset(old(a[..]))
  {
    ghost var b := a[..];
    SwapStep(b, i, j, cmp);
    Swap(a, j - 1, j);
    assert a[..] == b[j - 1 := b[j]][j := b[j - 1]];
  }

  /** Moves `a[i]` left past every element the comparator orders after it,
      so that the sorted prefix `a[..i]` grows to `a[..i + 1]`. */
  method Insert<T(!new)>(a: array<T>, i: int, cmp: (T, T) -> int)
    requires Antisymmetric(cmp)
    requires 0 <= i < a.Length
    requires Sorted(a[..i], cmp)
    modifies a
    ensures Sorted(a[..i + 1], cmp)
    ensures forall k :: i < k < a.Length ==> a[k] == old(a[k])
    ensures multiset(a[..]) == multiset(old(a[..]))
  {
    var j := i;
    StartInserting(a[..], i, cmp);
    while j > 0 && cmp(a[j - 1], a[j]) > 0
      invariant 0 <= j <= i
      invariant Inserting(a[..], i, j, cmp)
      invariant forall k :: i < k < a.Length ==> a[k] == old(a[k])
      invariant multiset(a[..]) == multiset(old(a[..]))
    {
      SwapLeft(a, i, j, cmp);
      j := j - 1;
    }
    DoneInserting(a[..], i, j, cmp);
    assert a[..][..i + 1] == a[..i + 1];
  }

  method Sort<T(!new)>(a: array<T>, cmp: (T, T) -> int)
    requires Antisymmetric(cmp)
    modifies a
    ensures Sorted(a[..], cmp)
    ensures multiset(a[..]) == multiset(old(a[..]))
  {
    var i := 0;
    while i < a.Length
      invariant 0 <= i <= a.Length
      invariant Sorted(a[..i], cmp)
      invariant multiset(a[..]) == multiset(old(a[..]))
    {
      Insert(a, i, cmp);
      i := i + 1;
    }
    assert a[..a.Length] == a[..];
  }

  /** `[...s].sort(cmp)`: sorts a fresh copy of `s` in place and returns it. */
  method SortedCopy<T(!new)>(s: seq<T>, cmp: (T, T) -> int) returns (r: seq<T>)
    requires Antisymmetric(cmp)
    ensures Sorted(r, cmp)
    ensures multiset(r) == multiset(s)
  {
    var a := new T[|s|](i requires 0 <= i < |s| => s[i]);
    assert a[..] == s;
    Sort(a, cmp);
    r := a[..];
  }
}
