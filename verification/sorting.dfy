/** Ascending sort of die faces, and the facts about sorted sequences that
    the selection stage relies on. */
module Sorting {

  predicate Sorted(xs: seq<int>) {
    forall i, j :: 0 <= i < j < |xs| ==> xs[i] <= xs[j]
  }

  /** Places `x` in front of the first element of `xs` that is not smaller. */
  function Insert(x: int, xs: seq<int>): (r: seq<int>)
    requires Sorted(xs)
    ensures Sorted(r)
    ensures multiset(r) == multiset(xs) + multiset{x}
    ensures |r| == |xs| + 1
    ensures forall k :: 0 <= k < |r| ==> r[k] == x || r[k] in xs
  {
    if |xs| == 0 || x <= xs[0] then [x] + xs
    else
      assert xs == [xs[0]] + xs[1..];
      var rest := Insert(x, xs[1..]);
      ConsSorted(xs[0], rest, x, xs[1..]);
      [xs[0]] + rest
  }

  /** Putting `y` in front of a sorted sequence whose values are `x` or come
      from a sorted tail led by values no smaller than `y` keeps it sorted. */
  lemma ConsSorted(y: int, rest: seq<int>, x: int, tail: seq<int>)
    requires Sorted(rest) && Sorted([y] + tail) && y <= x
    requires forall k :: 0 <= k < |rest| ==> rest[k] == x || rest[k] in tail
    ensures Sorted([y] + rest)
  {
    forall k | 0 <= k < |rest|
      ensures y <= rest[k]
    {
      if rest[k] != x {
        var j :| 0 <= j < |tail| && tail[j] == rest[k];
        assert ([y] + tail)[0] == y && ([y] + tail)[j + 1] == tail[j];
      }
    }
  }

  /** The head of a sorted sequence is at most every value it holds. */
  lemma HeadIsLeast(xs: seq<int>, y: int)
    requires Sorted(xs) && |xs| > 0 && y in multiset(xs)
    ensures xs[0] <= y
  {
    var i :| 0 <= i < |xs| && xs[i] == y;
  }

  /** Ascending sort: the result is sorted and is a permutation of the input. */
  function Sort(xs: seq<int>): (r: seq<int>)
    ensures Sorted(r)
    ensures multiset(r) == multiset(xs)
    ensures |r| == |xs|
  {
    if |xs| == 0 then []
    else
      assert xs == [xs[0]] + xs[1..];
      Insert(xs[0], Sort(xs[1..]))
  }

  /** Two sorted arrangements of one multiset start with the same value. */
  lemma SameHead(a: seq<int>, b: seq<int>)
    requires Sorted(a) && Sorted(b) && |a| > 0 && |b| > 0
    requires multiset(a) == multiset(b)
    ensures a[0] == b[0]
  {
    assert a[0] in multiset(a) && b[0] in multiset(b);
    HeadIsLeast(a, b[0]);
    HeadIsLeast(b, a[0]);
  }

  /** Removing the same head from two arrangements of one multiset leaves
      arrangements of one multiset. */
  lemma SameTail(a: seq<int>, b: seq<int>)
    requires |a| > 0 && |b| > 0 && a[0] == b[0]
    requires multiset(a) == multiset(b)
    ensures multiset(a[1..]) == multiset(b[1..])
  {
    assert a == [a[0]] + a[1..];
    assert b == [b[0]] + b[1..];
    calc {
      multiset(a[1..]);
      multiset(a) - multiset{a[0]};
      multiset(b) - multiset{b[0]};
      multiset(b[1..]);
    }
  }

  /** A sorted arrangement of a multiset is unique, so `Sort` returns the
      same sequence as any other ascending sort of the same values. */
  lemma {:induction false} SortedPermutationUnique(a: seq<int>, b: seq<int>)
    requires Sorted(a) && Sorted(b)
    requires multiset(a) == multiset(b)
    ensures a == b
    decreases |a|
  {
    assert |a| == |b| by {
      assert |multiset(a)| == |a| && |multiset(b)| == |b|;
    }
    if |a| > 0 {
      SameHead(a, b);
      SameTail(a, b);
      SortedPermutationUnique(a[1..], b[1..]);
      assert a == [a[0]] + a[1..];
      assert b == [b[0]] + b[1..];
    }
  }

  /** Sorting an already sorted sequence changes nothing. */
  lemma SortIdempotent(xs: seq<int>)
    ensures Sort(Sort(xs)) == Sort(xs)
  {
    SortedPermutationUnique(Sort(Sort(xs)), Sort(xs));
  }

  /** Sorting returns a sorted input unchanged. */
  lemma SortOfSorted(xs: seq<int>)
    requires Sorted(xs)
    ensures Sort(xs) == xs
  {
    SortedPermutationUnique(Sort(xs), xs);
  }

  /** A contiguous piece of a sorted sequence is sorted. */
  lemma SliceSorted(xs: seq<int>, lo: int, hi: int)
    requires Sorted(xs) && 0 <= lo <= hi <= |xs|
    ensures Sorted(xs[lo..hi])
  {
  }
}
