/** The scalar stage: add up the kept faces, then consume the leading run of
    `+v` / `-v` operators, adding or subtracting each value.

    The run stops at the first operator that is not `+` or `-`. Anything after
    it, such as a trailing `>6`, is never looked at.
 */
module Scalars {
  import opened Text
  import opened Scan

  /** One scalar adjustment. */
  datatype Adjust = Add(value: nat) | Sub(value: nat)

  function Signed(a: Adjust): int {
    match a
    case Add(v) => v
    case Sub(v) => -(v as int)
  }

  /** The net effect of a list of adjustments. */
  function Net(ops: seq<Adjust>): int {
    if |ops| == 0 then 0 else Signed(ops[0]) + Net(ops[1..])
  }

  function Sum(xs: seq<int>): int {
    if |xs| == 0 then 0 else xs[0] + Sum(xs[1..])
  }

  lemma {:induction false} SumAppend(xs: seq<int>, x: int)
    ensures Sum(xs + [x]) == Sum(xs) + x
    decreases |xs|
  {
    if |xs| > 0 {
      assert (xs + [x])[1..] == xs[1..] + [x];
      SumAppend(xs[1..], x);
    }
  }

  /** The loop that adds up the faces. */
  method Total(rolls: seq<int>) returns (total: int)
    ensures total == Sum(rolls)
  {
    total := 0;
    var i := 0;
    while i < |rolls|
      invariant 0 <= i <= |rolls|
      invariant total == Sum(rolls[..i])
    {
      assert rolls[..i + 1] == rolls[..i] + [rolls[i]];
      SumAppend(rolls[..i], rolls[i]);
      total := total + rolls[i];
      i := i + 1;
    }
    assert rolls[..i] == rolls;
  }

  /** N faces in [1, S] add up to a value between N and N * S. */
  lemma {:induction false} SumBounds(xs: seq<int>, sides: int)
    requires forall k :: 0 <= k < |xs| ==> 1 <= xs[k] <= sides
    ensures |xs| <= Sum(xs) <= |xs| * sides
    decreases |xs|
  {
    if |xs| > 0 {
      SumBounds(xs[1..], sides);
      assert |xs| * sides == sides + (|xs| - 1) * sides;
    }
  }

  /** The adjustment written by the scalar operator at the head of `pos`. */
  function AdjustAt(s: string, pos: seq<int>): Adjust
    requires Ascending(s, pos) && |pos| > 0 && IsDigits(Arg(s, pos))
  {
    var v := NumeralValue(Arg(s, pos));
    if s[pos[0]] == '+' then Add(v) else Sub(v)
  }

  /** The adjustments of the leading run of scalar operators, in order. */
  function ScalarRun(s: string, pos: seq<int>): (ops: seq<Adjust>)
    requires Ascending(s, pos) && RunArgsDigits(s, pos, ScalarOps)
    ensures |ops| == LeadingRun(s, pos, ScalarOps)
    decreases |pos|
  {
    if |pos| == 0 || s[pos[0]] !in ScalarOps then []
    else [AdjustAt(s, pos)] + ScalarRun(s, pos[1..])
  }

  /** The total, and the operator index list after the run of adjustments. */
  datatype Adjusted = Adjusted(total: int, rest: seq<int>)

  /** Walk the run of scalar operators, adding `+v` and subtracting `-v`. */
  function ApplyScalars(acc: int, s: string, pos: seq<int>): (r: Adjusted)
    requires Ascending(s, pos) && RunArgsDigits(s, pos, ScalarOps)
    ensures r.total == acc + Net(ScalarRun(s, pos))
    ensures r.rest == pos[LeadingRun(s, pos, ScalarOps)..]
    decreases |pos|
  {
    if |pos| == 0 || s[pos[0]] !in ScalarOps then Adjusted(acc, pos)
    else
      var v := NumeralValue(Arg(s, pos));
      var acc' := if s[pos[0]] == '+' then acc + v else acc - v;
      ApplyScalars(acc', s, pos[1..])
  }

  /** One step of the walk: a leading `+v` or `-v` moves the running total
      and the walk goes on with the rest of the list. */
  lemma ApplyScalarsStep(acc: int, acc': int, s: string, pos: seq<int>)
    requires Ascending(s, pos) && RunArgsDigits(s, pos, ScalarOps)
    requires |pos| > 0 && s[pos[0]] in ScalarOps
    requires acc' == if s[pos[0]] == '+' then acc + NumeralValue(Arg(s, pos)) else acc - NumeralValue(Arg(s, pos))
    ensures Ascending(s, pos[1..]) && RunArgsDigits(s, pos[1..], ScalarOps)
    ensures ApplyScalars(acc, s, pos).total == ApplyScalars(acc', s, pos[1..]).total
  {
    SuffixAscending(s, pos, 1);
  }

  /** The sum of the faces, adjusted by every value of the run. */
  function ScalarMods(rolls: seq<int>, s: string, pos: seq<int>): (r: Adjusted)
    requires Ascending(s, pos) && RunArgsDigits(s, pos, ScalarOps)
    ensures r.total == Sum(rolls) + Net(ScalarRun(s, pos))
    ensures r.rest == pos[LeadingRun(s, pos, ScalarOps)..]
  {
    ApplyScalars(Sum(rolls), s, pos)
  }

  /** Taking one adjustment out of a list changes its net effect by exactly
      that adjustment. */
  lemma {:induction false} NetRemove(ops: seq<Adjust>, k: nat)
    requires k < |ops|
    ensures Net(ops) == Signed(ops[k]) + Net(ops[..k] + ops[k + 1..])
    decreases k
  {
    if k == 0 {
      assert ops[..k] + ops[k + 1..] == ops[1..];
    } else {
      var tail := ops[1..];
      NetRemove(tail, k - 1);
      var rest := tail[..k - 1] + tail[k..];
      var without := ops[..k] + ops[k + 1..];
      assert without == [ops[0]] + rest;
      assert without[1..] == rest;
    }
  }

  /** The net effect does not depend on the order of the adjustments. */
  lemma {:induction false} NetPermutation(a: seq<Adjust>, b: seq<Adjust>)
    requires multiset(a) == multiset(b)
    ensures Net(a) == Net(b)
    decreases |a|
  {
    if |a| > 0 {
      assert a[0] in multiset(b);
      var k :| 0 <= k < |b| && b[k] == a[0];
      NetRemove(b, k);
      var b' := b[..k] + b[k + 1..];
      assert b == b[..k] + [b[k]] + b[k + 1..];
      assert a == [a[0]] + a[1..];
      calc {
        multiset(a[1..]);
        multiset(a) - multiset{a[0]};
        multiset(b) - multiset{b[k]};
        multiset(b');
      }
      NetPermutation(a[1..], b');
    } else {
      assert |multiset(b)| == 0;
    }
  }

  /** Two formulas whose scalar runs hold the same adjustments, in any order,
      give the same total for the same faces. */
  lemma ScalarOrderIrrelevant(rolls: seq<int>, s: string, pos: seq<int>, s': string, pos': seq<int>)
    requires Ascending(s, pos) && RunArgsDigits(s, pos, ScalarOps)
    requires Ascending(s', pos') && RunArgsDigits(s', pos', ScalarOps)
    requires multiset(ScalarRun(s, pos)) == multiset(ScalarRun(s', pos'))
    ensures ScalarMods(rolls, s, pos).total == ScalarMods(rolls, s', pos').total
  {
    NetPermutation(ScalarRun(s, pos), ScalarRun(s', pos'));
  }
}
