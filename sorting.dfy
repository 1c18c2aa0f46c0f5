/**
 * The newest-first sort used by the log list and the dashboard:
 * `xs.sort((a, b) => key(b) - key(a))`. JavaScript's `Array.prototype.sort`
 * is stable, so the result is fully determined: a stable insertion sort by
 * descending key, run in place on an array.
 */
module Sorting {
  import opened Common

  ghost predicate SortedDesc<T>(s: seq<T>, key: T -> int) {
    forall i, j :: 0 <= i < j < |s| ==> key(s[i]) >= key(s[j])
  }

  /** Inserts `x` into `p` just after the last element whose key is at least `x`'s. */
  function InsertDesc<T>(p: seq<T>, x: T, key: T -> int): (r: seq<T>)
    ensures |r| == |p| + 1
    ensures multiset(r) == multiset(p) + multiset{x}
    decreases |p|
  {
    if p == [] || key(p[|p| - 1]) >= key(x) then p + [x]
    else
      assert p == p[..|p| - 1] + [p[|p| - 1]];
      InsertDesc(p[..|p| - 1], x, key) + [p[|p| - 1]]
  }

  /** The stable descending sort: insertion from left to right. */
  function SortDesc<T>(s: seq<T>, key: T -> int): (r: seq<T>)
    ensures |r| == |s|
    ensures multiset(r) == multiset(s)
    decreases |s|
  {
    if s == [] then []
    else
      assert s == s[..|s| - 1] + [s[|s| - 1]];
      InsertDesc(SortDesc(s[..|s| - 1], key), s[|s| - 1], key)
  }

  lemma InsertDescMember<T>(p: seq<T>, x: T, key: T -> int, e: T)
    requires e in InsertDesc(p, x, key)
    ensures e in p || e == x
  {
    assert e in multiset(InsertDesc(p, x, key));
  }

  lemma {:induction false} InsertDescSorted<T>(p: seq<T>, x: T, key: T -> int)
    requires SortedDesc(p, key)
    ensures SortedDesc(InsertDesc(p, x, key), key)
    decreases |p|
  {
    var r := InsertDesc(p, x, key);
    if p == [] || key(p[|p| - 1]) >= key(x) {
      forall i, j | 0 <= i < j < |r| ensures key(r[i]) >= key(r[j]) {
        if j == |p| {
          assert r[i] == p[i];
        }
      }
    } else {
      var front, last := p[..|p| - 1], p[|p| - 1];
      InsertDescSorted(front, x, key);
      var q := InsertDesc(front, x, key);
      assert r == q + [last];
      forall i, j | 0 <= i < j < |r| ensures key(r[i]) >= key(r[j]) {
        if j == |q| {
          assert r[i] == q[i] && r[j] == last;
          InsertDescMember(front, x, key, q[i]);
          if q[i] != x {
            var m :| 0 <= m < |front| && front[m] == q[i];
            assert p[m] == q[i];
          }
        } else {
          assert r[i] == q[i] && r[j] == q[j];
        }
      }
    }
  }

  /** The result of the sort is ordered newest (largest key) first. */
  lemma {:induction false} SortDescSorted<T>(s: seq<T>, key: T -> int)
    ensures SortedDesc(SortDesc(s, key), key)
    decreases |s|
  {
    if s != [] {
      SortDescSorted(s[..|s| - 1], key);
      InsertDescSorted(SortDesc(s[..|s| - 1], key), s[|s| - 1], key);
    }
  }

  /** Where the shifting loop stops, `InsertDesc` puts `x`. */
  lemma {:induction false} InsertDescAt<T>(p: seq<T>, x: T, key: T -> int, j: nat)
    requires j <= |p|
    requires forall k :: j <= k < |p| ==> key(p[k]) < key(x)
    requires j == 0 || key(p[j - 1]) >= key(x)
    ensures InsertDesc(p, x, key) == p[..j] + [x] + p[j..]
    decreases |p|
  {
    if j < |p| {
      var front, last := p[..|p| - 1], p[|p| - 1];
      assert key(last) < key(x);
      forall k | j <= k < |front| ensures key(front[k]) < key(x) {
        assert front[k] == p[k];
      }
      assert j > 0 ==> front[j - 1] == p[j - 1];
      InsertDescAt(front, x, key, j);
      assert InsertDesc(p, x, key) == InsertDesc(front, x, key) + [last];
      InsertBeforeLast(p, x, j);
    }
  }

  lemma InsertBeforeLast<T>(p: seq<T>, x: T, j: nat)
    requires j < |p|
    ensures var front := p[..|p| - 1];
      (front[..j] + [x] + front[j..]) + [p[|p| - 1]] == p[..j] + [x] + p[j..]
  {
    var front := p[..|p| - 1];
    assert front[..j] == p[..j];
    assert front[j..] + [p[|p| - 1]] == p[j..];
  }

  /**
   * Elements that share a key keep their relative order (stability):
   * `same` selects the elements whose key is `k`.
   */
  lemma {:induction false} InsertDescStable<T(!new)>(p: seq<T>, x: T, key: T -> int, k: int, same: T -> bool)
    requires forall e :: same(e) == (key(e) == k)
    ensures Filter(InsertDesc(p, x, key), same) == Filter(p, same) + (if same(x) then [x] else [])
    decreases |p|
  {
    if p == [] || key(p[|p| - 1]) >= key(x) {
      FilterAppendOne(p, x, same);
    } else {
      InsertDescStable(p[..|p| - 1], x, key, k, same);
      InsertDescStableStep(p, x, key, k, same);
    }
  }

  /** The inductive step of `InsertDescStable`: `x` moves past a last element with a smaller key. */
  lemma InsertDescStableStep<T(!new)>(p: seq<T>, x: T, key: T -> int, k: int, same: T -> bool)
    requires forall e :: same(e) == (key(e) == k)
    requires p != [] && key(p[|p| - 1]) < key(x)
    requires Filter(InsertDesc(p[..|p| - 1], x, key), same)
          == Filter(p[..|p| - 1], same) + (if same(x) then [x] else [])
    ensures Filter(InsertDesc(p, x, key), same) == Filter(p, same) + (if same(x) then [x] else [])
  {
    var front, last := p[..|p| - 1], p[|p| - 1];
    var q := InsertDesc(front, x, key);
    var f := Filter(front, same);
    var xs: seq<T> := if same(x) then [x] else [];
    var ls: seq<T> := if same(last) then [last] else [];
    assert xs == [] || ls == [];
    calc {
      Filter(InsertDesc(p, x, key), same);
      { assert InsertDesc(p, x, key) == q + [last]; }
      Filter(q + [last], same);
      { FilterAppendOne(q, last, same); }
      Filter(q, same) + ls;
      (f + xs) + ls;
      { AppendOneOfTwo(f, xs, ls); }
      (f + ls) + xs;
      { FilterAppendOne(front, last, same); }
      Filter(front + [last], same) + xs;
      { SplitLast(p); }
      Filter(p, same) + xs;
    }
  }

  lemma AppendOneOfTwo<T>(f: seq<T>, xs: seq<T>, ls: seq<T>)
    requires xs == [] || ls == []
    ensures (f + xs) + ls == (f + ls) + xs
  {
  }

  lemma {:induction false} SortDescStable<T(!new)>(s: seq<T>, key: T -> int, k: int, same: T -> bool)
    requires forall e :: same(e) == (key(e) == k)
    ensures Filter(SortDesc(s, key), same) == Filter(s, same)
    decreases |s|
  {
    if s != [] {
      var front, last := s[..|s| - 1], s[|s| - 1];
      SortDescStable(front, key, k, same);
      InsertDescStable(SortDesc(front, key), last, key, k, same);
      SplitLast(s);
      FilterAppendOne(front, last, same);
    }
  }

  lemma {:induction false} InsertDescNoDuplicates<T>(p: seq<T>, x: T, key: T -> int)
    requires NoDuplicates(p) && x !in p
    ensures NoDuplicates(InsertDesc(p, x, key))
    decreases |p|
  {
    if p != [] && key(p[|p| - 1]) >= key(x) {
      var r := p + [x];
      forall i, j | 0 <= i < j < |r| ensures r[i] != r[j] {
        if j == |p| { assert r[i] == p[i]; }
      }
    } else if p != [] {
      var front, last := p[..|p| - 1], p[|p| - 1];
      assert p == front + [last];
      InsertDescNoDuplicates(front, x, key);
      var q := InsertDesc(front, x, key);
      var r := q + [last];
      assert last !in q by {
        if last in q {
          InsertDescMember(front, x, key, last);
        }
      }
      forall i, j | 0 <= i < j < |r| ensures r[i] != r[j] {
        if j == |q| { assert r[i] == q[i]; } else { assert r[i] == q[i] && r[j] == q[j]; }
      }
    }
  }

  /** Sorting a list that has no duplicates yields one without duplicates. */
  lemma {:induction false} SortDescNoDuplicates<T>(s: seq<T>, key: T -> int)
    requires NoDuplicates(s)
    ensures NoDuplicates(SortDesc(s, key))
    decreases |s|
  {
    if s != [] {
      var front, last := s[..|s| - 1], s[|s| - 1];
      assert NoDuplicates(front);
      SortDescNoDuplicates(front, key);
      var sorted := SortDesc(front, key);
      assert last !in sorted by {
        assert last !in front;
        assert last in sorted ==> last in multiset(sorted);
      }
      InsertDescNoDuplicates(sorted, last, key);
    }
  }

  /** One step of the sort: the prefix grows by the element at index `i`. */
  lemma SortDescExtend<T>(s: seq<T>, i: nat, key: T -> int)
    requires i < |s|
    ensures SortDesc(s[..i + 1], key) == InsertDesc(SortDesc(s[..i], key), s[i], key)
  {
    assert s[..i + 1][..i] == s[..i];
  }

  lemma ShiftedIs<T>(r: seq<T>, sorted: seq<T>, x: T, j: nat)
    requires j <= |sorted| && |r| == |sorted| + 1
    requires forall k :: 0 <= k < j ==> r[k] == sorted[k]
    requires r[j] == x
    requires forall k :: j < k < |r| ==> r[k] == sorted[k - 1]
    ensures r == sorted[..j] + [x] + sorted[j..]
  {
  }

  /**
   * Shifts the elements of `a[..i]` whose key is smaller than `key(x)` one
   * place to the right, scanning from index `i - 1` down; `j` is the gap left.
   */
  method ShiftSmallerKeys<T>(a: array<T>, i: nat, x: T, key: T -> int) returns (j: nat)
    requires i < a.Length
    modifies a
    ensures j <= i
    ensures forall k :: 0 <= k < j ==> a[k] == old(a[k])
    ensures forall k :: j < k <= i ==> a[k] == old(a[k - 1])
    ensures forall k :: i < k < a.Length ==> a[k] == old(a[k])
    ensures forall k :: j <= k < i ==> key(old(a[k])) < key(x)
    ensures j == 0 || key(old(a[j - 1])) >= key(x)
  {
    j := i;
    while j > 0 && key(a[j - 1]) < key(x)
      invariant j <= i
      invariant forall k :: 0 <= k < j ==> a[k] == old(a[k])
      invariant forall k :: j < k <= i ==> a[k] == old(a[k - 1])
      invariant forall k :: i < k < a.Length ==> a[k] == old(a[k])
      invariant forall k :: j <= k < i ==> key(old(a[k])) < key(x)
    {
      a[j] := a[j - 1];
      j := j - 1;
    }
  }

  /** Inserts `a[i]` into the sorted prefix `a[..i]`, in place. */
  method InsertLastInPlace<T>(a: array<T>, i: nat, key: T -> int)
    requires i < a.Length
    modifies a
    ensures a[..i + 1] == InsertDesc(old(a[..i]), old(a[i]), key)
    ensures forall k :: i < k < a.Length ==> a[k] == old(a[k])
  {
    ghost var sorted := a[..i];
    var x := a[i];
    var j := ShiftSmallerKeys(a, i, x, key);
    a[j] := x;
    InsertDescAt(sorted, x, key, j);
    ShiftedIs(a[..i + 1], sorted, x, j);
  }

  /** `a.sort((a, b) => key(b) - key(a))`, in place. */
  method SortNewestFirst<T>(a: array<T>, key: T -> int)
    modifies a
    ensures a[..] == SortDesc(old(a[..]), key)
  {
    ghost var input := a[..];
    var i := 0;
    while i < a.Length
      invariant 0 <= i <= a.Length
      invariant a[..i] == SortDesc(input[..i], key)
      invariant forall k :: i <= k < a.Length ==> a[k] == input[k]
    {
      InsertLastInPlace(a, i, key);
      SortDescExtend(input, i, key);
      i := i + 1;
    }
    assert input[..a.Length] == input;
  }
}
