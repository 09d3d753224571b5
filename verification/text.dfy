/** Characters of a dice formula: the operator alphabet and decimal numerals.

    A formula such as `5d6>4<3+2-1` is a string of decimal numerals separated
    by operator characters. The five operators are, in the order the program
    lists them, `d` (dice marker), `<` and `>` (keep lowest / keep highest),
    `+` and `-` (scalar adjustments).
 */
module Text {

  /** The operator alphabet, in the program's order. */
  const Ops: seq<char> := ['d', '<', '>', '+', '-']

  /** The selection operators: keep lowest, keep highest. */
  const SelectionOps: seq<char> := ['<', '>']

  /** The scalar operators: add, subtract. */
  const ScalarOps: seq<char> := ['+', '-']

  /** The program takes both groups as slices of its operator list: the
      second and third entries, and the fourth and fifth. */
  lemma OperatorGroups()
    ensures SelectionOps == Ops[1..3] && ScalarOps == Ops[3..5]
    ensures forall c :: IsOp(c) <==> c == 'd' || c in SelectionOps || c in ScalarOps
  {
  }

  predicate IsOp(c: char) {
    c in Ops
  }

  /** No operator character occurs in `t`. */
  predicate NoOps(t: string) {
    forall k :: 0 <= k < |t| ==> !IsOp(t[k])
  }

  predicate IsDigit(c: char) {
    '0' <= c <= '9'
  }

  /** A numeral: a NON-EMPTY string of ASCII digits (an empty string is not a numeral). */
  predicate IsDigits(t: string) {
    |t| > 0 && forall k :: 0 <= k < |t| ==> IsDigit(t[k])
  }

  lemma DigitsHaveNoOps(t: string)
    requires IsDigits(t)
    ensures NoOps(t)
  {
  }

  function DigitValue(c: char): (v: nat)
    requires IsDigit(c)
    ensures v < 10
  {
    (c as int) - ('0' as int)
  }

  function DigitChar(v: nat): (c: char)
    requires v < 10
    ensures IsDigit(c) && DigitValue(c) == v
  {
    (('0' as int) + v) as char
  }

  function Pow10(k: nat): (p: nat)
    ensures p >= 1
  {
    if k == 0 then 1 else 10 * Pow10(k - 1)
  }

  /** The value of a decimal numeral, read most significant digit first.
      Leading zeros are allowed and do not change the value. A numeral of k
      digits is below 10^k, and at least 10^(k-1) when it does not start
      with a zero. */
  function NumeralValue(t: string): (v: nat)
    requires IsDigits(t)
    ensures v < Pow10(|t|)
    ensures t[0] != '0' ==> v >= Pow10(|t| - 1)
    decreases |t|
  {
    if |t| == 1 then DigitValue(t[0])
    else NumeralValue(t[..|t| - 1]) * 10 + DigitValue(t[|t| - 1])
  }

  /** The canonical decimal numeral of `n` (no leading zeros). */
  function Numeral(n: nat): (t: string)
    ensures IsDigits(t)
    ensures |t| == 1 || t[0] != '0'
  {
    if n < 10 then [DigitChar(n)] else Numeral(n / 10) + [DigitChar(n % 10)]
  }

  /** Reading back a rendered numeral gives the number. */
  lemma {:induction false} NumeralRoundTrip(n: nat)
    ensures NumeralValue(Numeral(n)) == n
  {
    if n >= 10 {
      NumeralRoundTrip(n / 10);
      var t := Numeral(n);
      assert t[..|t| - 1] == Numeral(n / 10);
    }
  }
}
