/** The selection stage: consume the leading run of `<n` / `>n` operators,
    each of which keeps a slice of the sorted faces.

    `<n` keeps the first n faces (the n lowest). `>n` keeps the last n faces
    (the n highest). Both follow the slicing rules of the host language: a
    count beyond the length keeps everything. Because a slice from the end
    with a count of zero starts at index zero, `>0` also keeps everything.
    The program checks neither that the counts decrease along the chain nor
    that selections come before scalar adjustments.
 */
module Selection {
  import opened Text
  import opened Scan
  import opened Sorting

  function Min(a: int, b: int): int {
    if a <= b then a else b
  }

  /** The slice `xs[:n]`. */
  function KeepLowest(xs: seq<int>, n: nat): (r: seq<int>)
    ensures |r| == Min(n, |xs|)
    ensures r == xs[..|r|]
  {
    if n <= |xs| then xs[..n] else xs
  }

  /** The slice `xs[-n:]`; for n = 0 that is `xs[0:]`, the whole sequence. */
  function KeepHighest(xs: seq<int>, n: nat): (r: seq<int>)
    ensures n == 0 ==> r == xs
    ensures n > 0 ==> |r| == Min(n, |xs|)
    ensures r == xs[|xs| - |r|..]
  {
    if n == 0 || n >= |xs| then xs else xs[|xs| - n..]
  }

  /** On sorted faces, `<n` keeps values no larger than any it drops, and the
      kept and dropped faces together are all the faces. */
  lemma KeepLowestKeepsSmallest(xs: seq<int>, n: nat)
    requires Sorted(xs)
    ensures var r := KeepLowest(xs, n);
      && multiset(xs) == multiset(r) + multiset(xs[|r|..])
      && forall a, b :: a in r && b in xs[|r|..] ==> a <= b
  {
    var r := KeepLowest(xs, n);
    assert xs == r + xs[|r|..];
  }

  /** On sorted faces, `>n` keeps values no smaller than any it drops, and the
      kept and dropped faces together are all the faces. */
  lemma KeepHighestKeepsLargest(xs: seq<int>, n: nat)
    requires Sorted(xs)
    ensures var r := KeepHighest(xs, n);
      var dropped := xs[..|xs| - |r|];
      && multiset(xs) == multiset(dropped) + multiset(r)
      && forall a, b :: a in dropped && b in r ==> a <= b
  {
    var r := KeepHighest(xs, n);
    assert xs == xs[..|xs| - |r|] + r;
  }

  /** `ys` sits in `xs` as the contiguous piece starting at `lo`. */
  predicate WindowAt(xs: seq<int>, ys: seq<int>, lo: int) {
    0 <= lo && lo + |ys| <= |xs| && ys == xs[lo..lo + |ys|]
  }

  /** `ys` is a contiguous piece of `xs`. */
  ghost predicate IsWindow(xs: seq<int>, ys: seq<int>) {
    exists lo :: WindowAt(xs, ys, lo)
  }

  lemma WindowTransitive(xs: seq<int>, ys: seq<int>, zs: seq<int>, a: int, b: int)
    requires WindowAt(xs, ys, a) && WindowAt(ys, zs, b)
    ensures WindowAt(xs, zs, a + b)
  {
    forall k | 0 <= k < |zs|
      ensures zs[k] == xs[a + b + k]
    {
      assert zs[k] == ys[b + k];
    }
  }

  /** Both kinds of selection keep a contiguous piece of the faces. */
  lemma KeptIsWindow(xs: seq<int>, n: nat)
    ensures IsWindow(xs, KeepLowest(xs, n)) && IsWindow(xs, KeepHighest(xs, n))
  {
    var lo, hi := KeepLowest(xs, n), KeepHighest(xs, n);
    assert xs[0..0 + |lo|] == lo;
    assert WindowAt(xs, lo, 0);
    assert xs[|xs| - |hi|..|xs| - |hi| + |hi|] == hi;
    assert WindowAt(xs, hi, |xs| - |hi|);
  }

  /** A contiguous piece of a contiguous piece is a contiguous piece. */
  lemma WindowOfWindow(xs: seq<int>, ys: seq<int>, zs: seq<int>)
    requires IsWindow(xs, ys) && IsWindow(ys, zs)
    ensures IsWindow(xs, zs)
  {
    var a :| WindowAt(xs, ys, a);
    var b :| WindowAt(ys, zs, b);
    WindowTransitive(xs, ys, zs, a, b);
  }

  /** A contiguous piece of sorted faces is sorted. */
  lemma WindowSorted(xs: seq<int>, ys: seq<int>)
    requires Sorted(xs) && IsWindow(xs, ys)
    ensures Sorted(ys)
  {
    var lo :| WindowAt(xs, ys, lo);
    SliceSorted(xs, lo, lo + |ys|);
  }

  /** The faces, and the operator index list after the run of selections. */
  datatype Selected = Selected(rolls: seq<int>, rest: seq<int>)

  /** Apply the leading run of selection operators, left to right, each to the
      result of the one before. */
  function SelectionMods(rolls: seq<int>, s: string, pos: seq<int>): (r: Selected)
    requires Ascending(s, pos) && RunArgsDigits(s, pos, SelectionOps)
    ensures r.rest == pos[LeadingRun(s, pos, SelectionOps)..]
    ensures |r.rolls| <= |rolls|
    ensures IsWindow(rolls, r.rolls)
    decreases |pos|
  {
    if |pos| == 0 || s[pos[0]] !in SelectionOps then
      assert WindowAt(rolls, rolls, 0);
      Selected(rolls, pos)
    else
      var n := NumeralValue(Arg(s, pos));
      var kept := if s[pos[0]] == '<' then KeepLowest(rolls, n) else KeepHighest(rolls, n);
      var r := SelectionMods(kept, s, pos[1..]);
      KeptIsWindow(rolls, n);
      WindowOfWindow(rolls, kept, r.rolls);
      r
  }

  /** The selection stage keeps the faces sorted. */
  lemma SelectionModsSorted(rolls: seq<int>, s: string, pos: seq<int>)
    requires Ascending(s, pos) && RunArgsDigits(s, pos, SelectionOps)
    requires Sorted(rolls)
    ensures Sorted(SelectionMods(rolls, s, pos).rolls)
  {
    WindowSorted(rolls, SelectionMods(rolls, s, pos).rolls);
  }

  /** `<n` followed by `>m`: the last m of the first n faces, with the slicing
      rules of both steps (`>0` keeps all). */
  lemma LowestThenHighest(xs: seq<int>, n: nat, m: nat)
    ensures var b := Min(n, |xs|);
      var a := if m == 0 || m >= b then 0 else b - m;
      KeepHighest(KeepLowest(xs, n), m) == xs[a..b]
  {
  }
}
