/** The roll stage: read the dice count N before the `d` and the number of
    sides S after it, draw N faces in [1, S], sort them ascending, and drop
    the `d` from the operator index list.

    The random source is an input: `draws` holds the N faces the generator
    produced, in the order it produced them.
 */
module Roller {
  import opened Text
  import opened Scan
  import opened Sorting

  /** The dice count N: the numeral in front of the first operator. */
  function Count(s: string, pos: seq<int>): (n: nat)
    requires Ascending(s, pos) && |pos| > 0 && IsDigits(s[..pos[0]])
    ensures n < Pow10(pos[0])
    ensures s[0] != '0' ==> n >= Pow10(pos[0] - 1)
  {
    NumeralValue(s[..pos[0]])
  }

  /** The number of sides S: the argument of the first operator. */
  function Sides(s: string, pos: seq<int>): (n: nat)
    requires Ascending(s, pos) && |pos| > 0 && IsDigits(Arg(s, pos))
    ensures n < Pow10(|Arg(s, pos)|)
    ensures s[pos[0] + 1] != '0' ==> n >= Pow10(|Arg(s, pos)| - 1)
  {
    NumeralValue(Arg(s, pos))
  }

  /** What the roll stage needs of the formula: both numbers convert, and a
      non-empty roll has at least one side to draw from (a draw from the empty
      range [1, 0] is an error). */
  predicate RollReady(s: string, pos: seq<int>) {
    && Ascending(s, pos)
    && |pos| > 0
    && IsDigits(s[..pos[0]])
    && IsDigits(Arg(s, pos))
    && (Count(s, pos) > 0 ==> Sides(s, pos) >= 1)
  }

  /** The random source supplied exactly N faces, each in [1, S]. */
  predicate DrawsFit(s: string, pos: seq<int>, draws: seq<int>)
    requires RollReady(s, pos)
  {
    && |draws| == Count(s, pos)
    && forall k :: 0 <= k < |draws| ==> 1 <= draws[k] <= Sides(s, pos)
  }

  /** The sorted faces, and the operator index list without the `d`. */
  datatype Rolled = Rolled(rolls: seq<int>, rest: seq<int>)

  function Roll(s: string, pos: seq<int>, draws: seq<int>): (r: Rolled)
    requires RollReady(s, pos) && DrawsFit(s, pos, draws)
    ensures |r.rolls| == Count(s, pos)
    ensures forall k :: 0 <= k < |r.rolls| ==> 1 <= r.rolls[k] <= Sides(s, pos)
    ensures Sorted(r.rolls)
    ensures multiset(r.rolls) == multiset(draws)
    ensures r.rest == pos[1..]
  {
    var rolls := Sort(draws);
    assert forall k :: 0 <= k < |rolls| ==> rolls[k] in multiset(draws);
    Rolled(rolls, pos[1..])
  }

  /** The faces are THE ascending arrangement of the draws: any sorted
      permutation of the draws is exactly what the stage returns. */
  lemma RollIsSortedDraws(s: string, pos: seq<int>, draws: seq<int>, ys: seq<int>)
    requires RollReady(s, pos) && DrawsFit(s, pos, draws)
    requires Sorted(ys) && multiset(ys) == multiset(draws)
    ensures Roll(s, pos, draws).rolls == ys
  {
    SortedPermutationUnique(Roll(s, pos, draws).rolls, ys);
  }

  /** Re-sorting the faces is a no-op. */
  lemma RollAlreadySorted(s: string, pos: seq<int>, draws: seq<int>)
    requires RollReady(s, pos) && DrawsFit(s, pos, draws)
    ensures Sort(Roll(s, pos, draws).rolls) == Roll(s, pos, draws).rolls
  {
    SortOfSorted(Roll(s, pos, draws).rolls);
  }
}
