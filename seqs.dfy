/**
 * Python list operations the game relies on: list comprehensions with an `if`,
 * `list.remove`, `range` and the nested-loop lattice comprehension.
 */
module Seqs {

  import opened Geometry

  /** `[x for x in s if keep(x)]`: the elements of s that keep accepts, in order. */
  function Select<T(!new)>(s: seq<T>, keep: T -> bool): (r: seq<T>)
    ensures |r| <= |s|
    ensures forall x :: x in r <==> x in s && keep(x)
    ensures forall i :: 0 <= i < |r| ==> keep(r[i])
  {
    if s == [] then []
    else (if keep(s[0]) then [s[0]] else []) + Select(s[1..], keep)
  }

  /** Filtering a concatenation filters each part. */
  lemma {:induction false} SelectAppend<T(!new)>(a: seq<T>, b: seq<T>, keep: T -> bool)
    ensures Select(a + b, keep) == Select(a, keep) + Select(b, keep)
  {
    if a == [] {
      assert a + b == b;
    } else {
      assert (a + b)[1..] == a[1..] + b;
      SelectAppend(a[1..], b, keep);
    }
  }

  /** Filtering one more element of a prefix adds that element exactly when it is kept. */
  lemma SelectSnoc<T(!new)>(s: seq<T>, i: nat, keep: T -> bool)
    requires i < |s|
    ensures Select(s[..i + 1], keep) == Select(s[..i], keep) + (if keep(s[i]) then [s[i]] else [])
  {
    assert s[..i + 1] == s[..i] + [s[i]];
    SelectAppend(s[..i], [s[i]], keep);
    assert [s[i]][1..] == [];
  }

  /** Filtering twice with the same test is filtering once. */
  lemma {:induction false} SelectIdempotent<T(!new)>(s: seq<T>, keep: T -> bool)
    ensures Select(Select(s, keep), keep) == Select(s, keep)
  {
    if s != [] {
      SelectIdempotent(s[1..], keep);
      var rest := Select(s[1..], keep);
      if keep(s[0]) {
        assert ([s[0]] + rest)[0] == s[0];
        assert ([s[0]] + rest)[1..] == rest;
      } else {
        assert Select(s, keep) == rest;
      }
    }
  }

  /** Index of the first occurrence of x in s. */
  function FirstIndex<T(==)>(s: seq<T>, x: T): (i: nat)
    requires x in s
    ensures i < |s| && s[i] == x && x !in s[..i]
  {
    if s[0] == x then 0
    else
      var j := FirstIndex(s[1..], x);
      assert s[..j + 1] == [s[0]] + s[1..][..j];
      j + 1
  }

  /**
   * `s.remove(x)`: drops the first occurrence of x and keeps everything before
   * and after it in order. Python raises ValueError when x is absent; every
   * caller in the game removes an element it took from s.
   */
  function RemoveFirst<T(==)>(s: seq<T>, x: T): (r: seq<T>)
    requires x in s
    ensures |r| == |s| - 1
  {
    var i := FirstIndex(s, x);
    s[..i] + s[i + 1..]
  }

  /** Exactly one copy of x goes; every other element stays. */
  lemma RemoveFirstMultiset<T>(s: seq<T>, x: T)
    requires x in s
    ensures multiset(RemoveFirst(s, x)) == multiset(s) - multiset{x}
  {
    var i := FirstIndex(s, x);
    assert s == s[..i] + [x] + s[i + 1..];
  }

  /** Nothing new appears, and only the removed value can disappear. */
  lemma RemoveFirstMembers<T>(s: seq<T>, x: T)
    requires x in s
    ensures forall y :: y in RemoveFirst(s, x) ==> y in s
    ensures forall y :: y in s && y != x ==> y in RemoveFirst(s, x)
  {
    RemoveFirstMultiset(s, x);
    forall y | y in RemoveFirst(s, x) ensures y in s {
      assert y in multiset(RemoveFirst(s, x));
    }
    forall y | y in s && y != x ensures y in RemoveFirst(s, x) {
      assert y in multiset(s);
      assert y in multiset(RemoveFirst(s, x));
    }
  }

  /** No element occurs twice. */
  predicate NoDuplicates<T(==)>(s: seq<T>)
  {
    forall i, j :: 0 <= i < j < |s| ==> s[i] != s[j]
  }

  /** From a list without duplicates, removing x removes it altogether. */
  lemma RemoveFirstDistinct<T>(s: seq<T>, x: T)
    requires NoDuplicates(s) && x in s
    ensures x !in RemoveFirst(s, x)
    ensures forall y :: y in RemoveFirst(s, x) <==> y in s && y != x
  {
    RemoveFirstMembers(s, x);
  }

  /** `list(range(start, stop, step))`, for a non-zero step (Python raises ValueError on 0). */
  function Range(start: int, stop: int, step: int): (r: seq<int>)
    requires step != 0
    ensures forall x :: x in r ==> if step > 0 then start <= x < stop else stop < x <= start
    decreases if step > 0 then stop - start else start - stop
  {
    if (step > 0 && start < stop) || (step < 0 && start > stop) then [start] + Range(start + step, stop, step)
    else []
  }

  /** With a positive step, the i-th value of range is start + i * step, and every value lies in [start, stop). */
  lemma {:induction false} RangeElement(start: int, stop: int, step: int, i: nat)
    requires step > 0
    requires i < |Range(start, stop, step)|
    ensures Range(start, stop, step)[i] == start + i * step
    ensures start <= Range(start, stop, step)[i] < stop
    decreases stop - start
  {
    if i > 0 {
      RangeElement(start + step, stop, step, i - 1);
      assert (i - 1) * step + step == i * step;
    }
  }

  /** `[(x, y) for x in xs for y in ys]`: the grid points, x-major. */
  function Lattice(xs: seq<int>, ys: seq<int>): (r: seq<Point>)
    ensures |r| == |xs| * |ys|
    ensures forall p :: p in r <==> p.x in xs && p.y in ys
  {
    if xs == [] then []
    else
      var column := seq(|ys|, j requires 0 <= j < |ys| => Point(xs[0], ys[j]));
      assert forall y :: Point(xs[0], y) in column <==> y in ys by {
        forall y | y in ys ensures Point(xs[0], y) in column {
          var j :| 0 <= j < |ys| && ys[j] == y;
          assert column[j] == Point(xs[0], y);
        }
      }
      column + Lattice(xs[1..], ys)
  }
}
