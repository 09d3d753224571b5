/** The operator index list: the positions of operator characters in a
    formula, and the numeral argument that follows each operator.

    Every later stage reads the formula through this list. It looks at the
    operator at the head of the list and at the text up to the next listed
    operator. It then hands the rest of the list on to the next stage.
 */
module Scan {
  import opened Text

  /** `pos` lists valid indices of `s` in strictly increasing order. */
  predicate Ascending(s: string, pos: seq<int>) {
    && (forall k :: 0 <= k < |pos| ==> 0 <= pos[k] < |s|)
    && (forall k, l :: 0 <= k < l < |pos| ==> pos[k] < pos[l])
  }

  /** `pos` lists ONLY operator positions. */
  predicate OnlyOps(s: string, pos: seq<int>)
    requires Ascending(s, pos)
  {
    forall k :: 0 <= k < |pos| ==> IsOp(s[pos[k]])
  }

  /** `pos` lists EVERY operator position of `s`. */
  predicate AllOps(s: string, pos: seq<int>) {
    forall j :: 0 <= j < |s| && IsOp(s[j]) ==> j in pos
  }

  /** `pos` is the operator index list of `s`: all operator positions, in
      increasing order, and nothing else. */
  predicate IsScan(s: string, pos: seq<int>) {
    Ascending(s, pos) && OnlyOps(s, pos) && AllOps(s, pos)
  }

  /** The operator index list of `s`, built left to right by appending each
      index whose character is an operator. */
  function OpPositions(s: string): (r: seq<int>)
    ensures IsScan(s, r)
    decreases |s|
  {
    if |s| == 0 then []
    else
      var front := OpPositions(s[..|s| - 1]);
      assert forall j :: 0 <= j < |s| - 1 ==> s[..|s| - 1][j] == s[j];
      if IsOp(s[|s| - 1]) then front + [|s| - 1] else front
  }

  /** The loop that builds the operator index list. */
  method ScanOps(s: string) returns (pos: seq<int>)
    ensures Ascending(s, pos)
    ensures forall k :: 0 <= k < |pos| ==> IsOp(s[pos[k]])
    ensures forall j :: 0 <= j < |s| && IsOp(s[j]) ==> j in pos
    ensures pos == OpPositions(s)
  {
    pos := [];
    var i := 0;
    while i < |s|
      invariant 0 <= i <= |s|
      invariant pos == OpPositions(s[..i])
    {
      assert s[..i + 1][..i] == s[..i];
      if IsOp(s[i]) {
        pos := pos + [i];
      }
      i := i + 1;
    }
    assert s[..i] == s;
  }

  /** Two ascending lists with the same members are equal: the operator
      index list is determined by the set of operator positions. */
  lemma {:induction false} AscendingUnique(a: seq<int>, b: seq<int>)
    requires forall k, l :: 0 <= k < l < |a| ==> a[k] < a[l]
    requires forall k, l :: 0 <= k < l < |b| ==> b[k] < b[l]
    requires forall x :: x in a <==> x in b
    ensures a == b
    decreases |a|
  {
    if |a| > 0 {
      assert a[0] in a;
    }
    if |b| > 0 {
      assert b[0] in b;
    }
    if |a| > 0 && |b| > 0 {
      assert a[0] == b[0];
      forall x
        ensures x in a[1..] <==> x in b[1..]
      {
        if x in a[1..] {
          assert x > a[0];
          assert x in b;
        }
        if x in b[1..] {
          assert x > b[0];
          assert x in a;
        }
      }
      AscendingUnique(a[1..], b[1..]);
      assert a == [a[0]] + a[1..];
      assert b == [b[0]] + b[1..];
    }
  }

  /** An ascending list of exactly the operator positions IS the scan. */
  lemma ScanCharacterized(s: string, pos: seq<int>)
    requires IsScan(s, pos)
    ensures pos == OpPositions(s)
  {
    var r := OpPositions(s);
    AscendingUnique(pos, r);
  }

  /** The numeral argument of the operator at the head of `pos`: the text
      after it up to the next listed operator, or to the end of the formula. */
  function Arg(s: string, pos: seq<int>): (a: string)
    requires Ascending(s, pos) && |pos| > 0
    ensures pos[0] + 1 + |a| == if |pos| > 1 then pos[1] else |s|
    ensures forall k :: 0 <= k < |a| ==> a[k] == s[pos[0] + 1 + k]
    ensures (forall j :: pos[0] < j < |s| && IsOp(s[j]) ==> j in pos) ==> NoOps(a)
  {
    if |pos| > 1 then s[pos[0] + 1..pos[1]] else s[pos[0] + 1..]
  }

  lemma SuffixAscending(s: string, pos: seq<int>, i: nat)
    requires Ascending(s, pos) && i <= |pos|
    ensures Ascending(s, pos[i..])
  {
  }

  /** A character strictly between two consecutive entries of a complete
      operator list, or after its last entry, is not an operator. */
  lemma GapHasNoOps(s: string, pos: seq<int>, i: nat, j: int)
    requires Ascending(s, pos) && AllOps(s, pos) && i < |pos|
    requires pos[i] < j < |s|
    requires i + 1 < |pos| ==> j < pos[i + 1]
    ensures !IsOp(s[j])
  {
    forall m | 0 <= m < |pos|
      ensures pos[m] != j
    {
      if i < m {
        assert pos[i + 1] <= pos[m];
      }
    }
  }

  /** Every argument of the scan is operator free. */
  lemma ScanArgNoOps(s: string, pos: seq<int>, i: nat)
    requires IsScan(s, pos) && i < |pos|
    ensures Ascending(s, pos[i..])
    ensures NoOps(Arg(s, pos[i..]))
  {
    var q := pos[i..];
    var a := Arg(s, q);
    forall k | 0 <= k < |a|
      ensures !IsOp(a[k])
    {
      GapHasNoOps(s, pos, i, q[0] + 1 + k);
    }
  }

  /** Every argument in the run of operators drawn from `kinds` at the head
      of `pos` is a numeral: what the stage consuming that run needs in order
      to convert each argument to a number. */
  predicate RunArgsDigits(s: string, pos: seq<int>, kinds: seq<char>)
    requires Ascending(s, pos)
    decreases |pos|
  {
    |pos| == 0 || s[pos[0]] !in kinds ||
      (IsDigits(Arg(s, pos)) && RunArgsDigits(s, pos[1..], kinds))
  }

  /** The number of operators drawn from `kinds` at the head of `pos`. */
  function LeadingRun(s: string, pos: seq<int>, kinds: seq<char>): (n: nat)
    requires Ascending(s, pos)
    ensures n <= |pos|
    ensures forall k :: 0 <= k < n ==> s[pos[k]] in kinds
    ensures n < |pos| ==> s[pos[n]] !in kinds
    decreases |pos|
  {
    if |pos| == 0 || s[pos[0]] !in kinds then 0
    else 1 + LeadingRun(s, pos[1..], kinds)
  }

  /** Every argument of every listed operator is a numeral. */
  predicate AllArgsDigits(s: string, pos: seq<int>)
    requires Ascending(s, pos)
  {
    forall i :: 0 <= i < |pos| ==> IsDigits(Arg(s, pos[i..]))
  }

  lemma {:induction false} AllArgsDigitsRun(s: string, pos: seq<int>, kinds: seq<char>)
    requires Ascending(s, pos) && AllArgsDigits(s, pos)
    ensures RunArgsDigits(s, pos, kinds)
    decreases |pos|
  {
    if |pos| > 0 {
      assert pos[0..] == pos;
      assert IsDigits(Arg(s, pos[0..]));
      forall i | 0 <= i < |pos| - 1
        ensures IsDigits(Arg(s, pos[1..][i..]))
      {
        assert pos[1..][i..] == pos[i + 1..];
        assert IsDigits(Arg(s, pos[i + 1..]));
      }
      AllArgsDigitsRun(s, pos[1..], kinds);
    }
  }

  lemma AllArgsDigitsSuffix(s: string, pos: seq<int>, j: nat)
    requires Ascending(s, pos) && AllArgsDigits(s, pos) && j <= |pos|
    ensures Ascending(s, pos[j..]) && AllArgsDigits(s, pos[j..])
  {
    forall i | 0 <= i < |pos| - j
      ensures IsDigits(Arg(s, pos[j..][i..]))
    {
      assert pos[j..][i..] == pos[j + i..];
    }
  }
}
