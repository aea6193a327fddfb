/**
 * Stable sorting by a comparator that is a total preorder (a "may come
 * before" relation that is total and transitive, so that `Equal` is an
 * equivalence): the order Rust's `slice::sort_by` produces. `StableSorted`
 * inserts each element, in input order, after everything it may follow; the
 * lemmas show the result is sorted, a permutation, and stable.
 */
module Sorting {

  ghost predicate TotalPreorder<T(!new)>(le: (T, T) -> bool) {
    (forall a, b :: le(a, b) || le(b, a))
    && (forall a, b, d :: le(a, b) && le(b, d) ==> le(a, d))
  }

  ghost predicate Sorted<T>(le: (T, T) -> bool, s: seq<T>) {
    forall i, j :: 0 <= i < j < |s| ==> le(s[i], s[j])
  }

  /** Neither element must come before the other: the comparator returns `Equal`. */
  predicate Level<T>(le: (T, T) -> bool, a: T, b: T) {
    le(a, b) && le(b, a)
  }

  /** Inserting into a sorted list: before the first element that must come after `x`. */
  function Insert<T>(le: (T, T) -> bool, x: T, s: seq<T>): (r: seq<T>)
    ensures |r| == |s| + 1
  {
    if s == [] then [x]
    else if !le(s[0], x) then [x] + s
    else [s[0]] + Insert(le, x, s[1..])
  }

  /** Each element in turn, in input order, inserted after everything it may follow. */
  function StableSorted<T>(le: (T, T) -> bool, s: seq<T>): (r: seq<T>)
    ensures |r| == |s|
  {
    if s == [] then []
    else
      var init := s[..|s| - 1];
      Insert(le, s[|s| - 1], StableSorted(le, init))
  }

  /** The elements of `s` level with `e`, in order. */
  function LevelWith<T>(le: (T, T) -> bool, s: seq<T>, e: T): seq<T> {
    if s == [] then [] else (if Level(le, s[0], e) then [s[0]] else []) + LevelWith(le, s[1..], e)
  }

  // ---------------------------------------------------------------------------
  // Properties

  /** A lower bound of `x` and of every element of `s` bounds every element of the insertion. */
  lemma {:induction false} InsertBounded<T(!new)>(le: (T, T) -> bool, x: T, s: seq<T>, lo: T)
    requires le(lo, x) && forall i :: 0 <= i < |s| ==> le(lo, s[i])
    ensures forall i :: 0 <= i < |Insert(le, x, s)| ==> le(lo, Insert(le, x, s)[i])
  {
    var r := Insert(le, x, s);
    if s == [] {
    } else if !le(s[0], x) {
      forall i | 0 < i < |r|
        ensures le(lo, r[i])
      {
        assert r[i] == s[i - 1];
      }
    } else {
      InsertBounded(le, x, s[1..], lo);
      forall i | 0 < i < |r|
        ensures le(lo, r[i])
      {
        assert r[i] == Insert(le, x, s[1..])[i - 1];
      }
    }
  }

  lemma {:induction false} InsertSorted<T(!new)>(le: (T, T) -> bool, x: T, s: seq<T>)
    requires TotalPreorder(le) && Sorted(le, s)
    ensures Sorted(le, Insert(le, x, s))
  {
    if s == [] {
    } else if !le(s[0], x) {
      assert le(x, s[0]);
      var r := [x] + s;
      forall i, j | 0 <= i < j < |r|
        ensures le(r[i], r[j])
      {
        assert r[j] == s[j - 1];
        if i == 0 {
          assert j == 1 || le(s[0], s[j - 1]);
        } else {
          assert r[i] == s[i - 1];
        }
      }
    } else {
      var rest := Insert(le, x, s[1..]);
      InsertSorted(le, x, s[1..]);
      InsertBounded(le, x, s[1..], s[0]);
      var r := [s[0]] + rest;
      forall i, j | 0 <= i < j < |r|
        ensures le(r[i], r[j])
      {
        assert r[j] == rest[j - 1];
        if i > 0 {
          assert r[i] == rest[i - 1];
        } else {
          assert le(s[0], rest[j - 1]);
        }
      }
    }
  }

  lemma {:induction false} InsertPermutes<T>(le: (T, T) -> bool, x: T, s: seq<T>)
    ensures multiset(Insert(le, x, s)) == multiset(s) + multiset{x}
  {
    if s != [] {
      assert s == [s[0]] + s[1..];
      if le(s[0], x) {
        InsertPermutes(le, x, s[1..]);
      }
    }
  }

  lemma {:induction false} StableSortedIsSortedPermutation<T(!new)>(le: (T, T) -> bool, s: seq<T>)
    requires TotalPreorder(le)
    ensures Sorted(le, StableSorted(le, s))
    ensures multiset(StableSorted(le, s)) == multiset(s)
    decreases |s|
  {
    if s != [] {
      var init := s[..|s| - 1];
      StableSortedIsSortedPermutation(le, init);
      InsertSorted(le, s[|s| - 1], StableSorted(le, init));
      InsertPermutes(le, s[|s| - 1], StableSorted(le, init));
      assert s == init + [s[|s| - 1]];
    }
  }

  /** Nothing in a list whose elements all must come after `x` is level with something level with `x`. */
  lemma {:induction false} NoneLevelAbove<T(!new)>(le: (T, T) -> bool, x: T, s: seq<T>, e: T)
    requires TotalPreorder(le) && Level(le, x, e)
    requires forall i :: 0 <= i < |s| ==> !le(s[i], x)
    ensures LevelWith(le, s, e) == []
  {
    if s != [] {
      assert !le(s[0], x);
      NoneLevelAbove(le, x, s[1..], e);
    }
  }

  lemma {:induction false} InsertLevel<T(!new)>(le: (T, T) -> bool, x: T, s: seq<T>, e: T)
    requires TotalPreorder(le) && Sorted(le, s)
    ensures LevelWith(le, Insert(le, x, s), e) == LevelWith(le, s, e) + (if Level(le, x, e) then [x] else [])
  {
    if s == [] {
      assert LevelWith(le, [x], e) == (if Level(le, x, e) then [x] else []) + LevelWith(le, [], e);
    } else if !le(s[0], x) {
      InsertLevelFront(le, x, s, e);
    } else {
      var rest := Insert(le, x, s[1..]);
      var r := [s[0]] + rest;
      InsertLevel(le, x, s[1..], e);
      assert r[1..] == rest;
      assert LevelWith(le, r, e) == (if Level(le, s[0], e) then [s[0]] else []) + LevelWith(le, rest, e);
      assert LevelWith(le, s, e) == (if Level(le, s[0], e) then [s[0]] else []) + LevelWith(le, s[1..], e);
    }
  }

  /** The case where `x` goes in front. */
  lemma InsertLevelFront<T(!new)>(le: (T, T) -> bool, x: T, s: seq<T>, e: T)
    requires TotalPreorder(le) && Sorted(le, s) && s != [] && !le(s[0], x)
    ensures LevelWith(le, [x] + s, e) == LevelWith(le, s, e) + (if Level(le, x, e) then [x] else [])
  {
    var r := [x] + s;
    assert r[1..] == s;
    assert LevelWith(le, r, e) == (if Level(le, x, e) then [x] else []) + LevelWith(le, s, e);
    if Level(le, x, e) {
      AllAfter(le, x, s);
      NoneLevelAbove(le, x, s, e);
    }
  }

  /** In a sorted list, everything after an element that must come after `x` must come after `x` too. */
  lemma AllAfter<T(!new)>(le: (T, T) -> bool, x: T, s: seq<T>)
    requires TotalPreorder(le) && Sorted(le, s) && s != [] && !le(s[0], x)
    ensures forall i :: 0 <= i < |s| ==> !le(s[i], x)
  {
    forall i | 0 <= i < |s|
      ensures !le(s[i], x)
    {
      assert i == 0 || le(s[0], s[i]);
    }
  }

  lemma {:induction false} LevelAppend<T>(le: (T, T) -> bool, s: seq<T>, x: T, e: T)
    ensures LevelWith(le, s + [x], e) == LevelWith(le, s, e) + (if Level(le, x, e) then [x] else [])
  {
    if s == [] {
      assert [] + [x] == [x];
    } else {
      LevelAppend(le, s[1..], x, e);
      assert (s + [x])[1..] == s[1..] + [x];
    }
  }

  /** Stability: the elements the comparator cannot tell apart keep their input order. */
  lemma {:induction false} StableSortedKeepsLevelOrder<T(!new)>(le: (T, T) -> bool, s: seq<T>, e: T)
    requires TotalPreorder(le)
    ensures LevelWith(le, StableSorted(le, s), e) == LevelWith(le, s, e)
    decreases |s|
  {
    if s != [] {
      var init, x := s[..|s| - 1], s[|s| - 1];
      assert s == init + [x];
      StableSortedKeepsLevelOrder(le, init, e);
      StableSortedIsSortedPermutation(le, init);
      LevelStep(le, init, StableSorted(le, init), x, e);
    }
  }

  /** Inserting the next input element adds it to its level after the elements already there. */
  lemma LevelStep<T(!new)>(le: (T, T) -> bool, init: seq<T>, sorted: seq<T>, x: T, e: T)
    requires TotalPreorder(le) && Sorted(le, sorted)
    requires LevelWith(le, sorted, e) == LevelWith(le, init, e)
    ensures LevelWith(le, Insert(le, x, sorted), e) == LevelWith(le, init + [x], e)
  {
    InsertLevel(le, x, sorted, e);
    LevelAppend(le, init, x, e);
  }

  /**
   * Where the loop of an insertion sort stops: `x` goes after the prefix of
   * `p` it may follow and before the suffix that must come after it.
   */
  lemma {:induction false} InsertAt<T(!new)>(le: (T, T) -> bool, x: T, p: seq<T>, j: nat)
    requires TotalPreorder(le) && Sorted(le, p) && j <= |p|
    requires forall k :: j <= k < |p| ==> !le(p[k], x)
    requires j == 0 || le(p[j - 1], x)
    ensures Insert(le, x, p) == p[..j] + [x] + p[j..]
  {
    if j == 0 {
      assert p[..0] + [x] + p[0..] == [x] + p;
    } else {
      assert le(p[0], x) by {
        if j > 1 {
          assert le(p[0], p[j - 1]);
        }
      }
      InsertAt(le, x, p[1..], j - 1);
      assert p[..j] == [p[0]] + p[1..][..j - 1];
      assert p[j..] == p[1..][j - 1..];
    }
  }

  /** One step of the insertion sort: `a[i]` moves left past the elements of the sorted `a[..i]` that must come after it. */
  method InsertNext<T(!new)>(le: (T, T) -> bool, a: array<T>, i: nat)
    requires TotalPreorder(le) && i < a.Length && Sorted(le, a[..i])
    modifies a
    ensures a[..i + 1] == Insert(le, old(a[i]), old(a[..i]))
    ensures a[i + 1..] == old(a[i + 1..])
  {
    ghost var p := a[..i];
    ghost var rest := a[i + 1..];
    var x := a[i];
    var j := i;
    while j > 0 && !le(a[j - 1], x)
      invariant 0 <= j <= i
      invariant a[..j] == p[..j]
      invariant a[j + 1..i + 1] == p[j..]
      invariant a[i + 1..] == rest
      invariant forall k :: j <= k < i ==> !le(p[k], x)
    {
      a[j] := a[j - 1];
      j := j - 1;
    }
    a[j] := x;
    assert a[..i + 1] == p[..j] + [x] + p[j..];
    InsertAt(le, x, p, j);
  }

  /** `sort_by` as an insertion sort on the array, in place. */
  method InsertionSort<T(!new)>(le: (T, T) -> bool, a: array<T>)
    requires TotalPreorder(le)
    modifies a
    ensures a[..] == StableSorted(le, old(a[..]))
  {
    ghost var input := a[..];
    var i := 0;
    while i < a.Length
      invariant 0 <= i <= a.Length
      invariant a[..i] == StableSorted(le, input[..i])
      invariant a[i..] == input[i..]
    {
      assert a[i] == a[i..][0] == input[i];
      assert a[i + 1..] == a[i..][1..] == input[i + 1..];
      StableSortedIsSortedPermutation(le, input[..i]);
      InsertNext(le, a, i);
      StableSortedPrefix(le, input, i);
      i := i + 1;
    }
    assert a[..] == a[..a.Length] && input[..a.Length] == input;
  }

  /** Sorting one more element of the input is inserting it into the sorted prefix. */
  lemma StableSortedPrefix<T>(le: (T, T) -> bool, s: seq<T>, i: nat)
    requires i < |s|
    ensures StableSorted(le, s[..i + 1]) == Insert(le, s[i], StableSorted(le, s[..i]))
  {
    assert s[..i + 1][..i] == s[..i];
    assert s[..i + 1][i] == s[i];
  }
}
