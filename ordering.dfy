/**
 * `chunks.sort((a, b) => a - b)`: the numeric sort that orders chunk indices
 * before they are concatenated.  A comparator on numbers yields the unique
 * ascending permutation of its input, so the library sort is modelled by an
 * insertion sort that is proved to produce it.
 */
module Ordering {

  predicate Ascending(s: seq<int>) {
    forall i, j :: 0 <= i < j < |s| ==> s[i] <= s[j]
  }

  ghost predicate Distinct<T>(s: seq<T>) {
    forall i, j :: 0 <= i < j < |s| ==> s[i] != s[j]
  }

  function Insert(x: int, s: seq<int>): (r: seq<int>)
    requires Ascending(s)
    ensures Ascending(r)
    ensures multiset(r) == multiset(s) + multiset{x}
    ensures forall k :: 0 <= k < |r| ==> r[k] == x || r[k] in s
  {
    if s == [] || x <= s[0] then
      [x] + s
    else
      var tail := Insert(x, s[1..]);
      assert s == [s[0]] + s[1..];
      ConsAscending(s, x, tail);
      [s[0]] + tail
  }

  /** The head of an ascending sequence stays in front of an insertion into its tail. */
  lemma ConsAscending(s: seq<int>, x: int, tail: seq<int>)
    requires Ascending(s) && s != [] && s[0] < x && Ascending(tail)
    requires forall k :: 0 <= k < |tail| ==> tail[k] == x || tail[k] in s[1..]
    ensures Ascending([s[0]] + tail)
  {
    forall k | 0 <= k < |tail| ensures s[0] <= tail[k] {
      if tail[k] != x {
        var j :| 0 <= j < |s[1..]| && s[1..][j] == tail[k];
        assert s[j + 1] == tail[k];
      }
    }
  }

  /** The numeric sort: an ascending permutation of its input. */
  function SortAscending(s: seq<int>): (r: seq<int>)
    ensures Ascending(r)
    ensures multiset(r) == multiset(s)
  {
    if s == [] then []
    else
      assert s == [s[0]] + s[1..];
      Insert(s[0], SortAscending(s[1..]))
  }

  /**
   * NonEmptyHasMember for integers.  The generic lemma proves, but at `int`
   * its conclusion does not let `:|` pick a member, so this one is stated
   * directly.
   */
  lemma NonEmptyHasElement(s: set<int>)
    requires |s| > 0
    ensures exists x :: x in s
  {
    if forall x :: x !in s {
      assert false;
    }
  }

  /** A set with a positive cardinality has a member. */
  lemma NonEmptyHasMember<T>(s: set<T>)
    requires |s| > 0
    ensures exists x :: x in s
  {
    assert s != {};
    var x :| x in s;
  }

  /** The least element of a finite non-empty set of integers. */
  ghost function Least(s: set<int>): (m: int)
    requires |s| > 0
    ensures m in s
    ensures forall y :: y in s ==> m <= y
    decreases |s|
  {
    NonEmptyHasElement(s);
    var x :| x in s;
    if s == {x} then x
    else
      assert s - {x} != {};
      var m := Least(s - {x});
      assert forall y :: y in s && y != x ==> y in s - {x};
      if x <= m then x else m
  }

  /** In a sequence without repetitions every element occurs once. */
  lemma {:induction false} DistinctCountsOnce<T>(s: seq<T>, x: T)
    requires Distinct(s)
    ensures multiset(s)[x] == if x in s then 1 else 0
  {
    if s != [] {
      assert s == [s[0]] + s[1..];
      assert Distinct(s[1..]);
      DistinctCountsOnce(s[1..], x);
      assert s[0] !in s[1..];
    }
  }

  /** An element occurring at two positions occurs at least twice. */
  lemma RepeatCountsTwice<T>(s: seq<T>, i: nat, j: nat)
    requires i < j < |s| && s[i] == s[j]
    ensures multiset(s)[s[i]] >= 2
  {
    assert s == s[..j] + [s[j]] + s[j + 1..];
    assert s[i] in s[..j];
  }

  /** Sorting keeps a sequence free of repetitions. */
  lemma SortKeepsDistinct(s: seq<int>)
    requires Distinct(s)
    ensures Distinct(SortAscending(s))
  {
    var r := SortAscending(s);
    forall i, j | 0 <= i < j < |r|
      ensures r[i] != r[j]
    {
      if r[i] == r[j] {
        RepeatCountsTwice(r, i, j);
        DistinctCountsOnce(s, r[i]);
        assert false;
      }
    }
  }
}
