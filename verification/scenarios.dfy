/** Worked formulas: what the program does on particular inputs, derived from
    the general results about the pipeline. */
module Scenarios {
  import opened Text
  import opened Scan
  import opened Sorting
  import opened Roller
  import opened Validation
  import opened Selection
  import opened Scalars
  import opened Pipeline

  /** `+2-1` adds 1 to any total, whatever non-scalar modifier follows. */
  lemma PlusTwoMinusOne(rest: seq<Mod>, acc: int)
    requires ArgsNumerals(rest) && (|rest| == 0 || rest[0].op !in ScalarOps)
    ensures ArgsNumerals([Mod('+', "2"), Mod('-', "1")] + rest)
    ensures ScalarPhase([Mod('+', "2"), Mod('-', "1")] + rest, acc) == acc + 1
  {
    var c, d := Mod('+', "2"), Mod('-', "1");
    assert NumeralValue("2") == 2 && NumeralValue("1") == 1;
    ScalarPhaseCons(d, rest, acc + 2);
    ScalarPhaseCons(c, [d] + rest, acc);
    assert [c, d] + rest == [c] + ([d] + rest);
  }

  // ---------------------------------------------------------------------
  // The worked example

  /** `5d6>4<3+2-1` parsed. */
  function HighLow(): Formula {
    Formula("5", "6", [Mod('>', "4"), Mod('<', "3"), Mod('+', "2"), Mod('-', "1")])
  }

  lemma HighLowText()
    ensures WellFormed(HighLow()) && Render(HighLow()) == "5d6>4<3+2-1"
  {
    assert forall k :: 0 <= k < |HighLow().mods| ==> IsOp(HighLow().mods[k].op) && IsDigits(HighLow().mods[k].arg);
    NumeralsWellFormed(HighLow());
  }

  lemma HighLowFits(draws: seq<int>)
    requires |draws| == 5 && forall k :: 0 <= k < 5 ==> 1 <= draws[k] <= 6
    ensures FormulaDrawsFit(HighLow(), draws)
  {
    assert NumeralValue("5") == 5 && NumeralValue("6") == 6;
  }

  /** `>4<3` keeps the lowest three of the highest four faces; the run stops
      at `+`. */
  lemma HighLowSelect(xs: seq<int>)
    ensures ArgsNumerals(HighLow().mods)
    ensures SelectPhase(HighLow().mods, xs) ==
      Kept(KeepLowest(KeepHighest(xs, 4), 3), [Mod('+', "2"), Mod('-', "1")])
  {
    var a, b := Mod('>', "4"), Mod('<', "3");
    var rest := [Mod('+', "2"), Mod('-', "1")];
    assert NumeralValue("4") == 4 && NumeralValue("3") == 3;
    assert HighLow().mods == [a, b] + rest;
    SelectPhaseTwo(a, b, rest, xs);
  }

  /** On five sorted faces, keeping the highest four and then the lowest
      three of those keeps the middle three. */
  lemma HighLowKept(xs: seq<int>)
    requires |xs| == 5
    ensures KeepLowest(KeepHighest(xs, 4), 3) == xs[1..4]
  {
  }

  /** `5d6>4<3+2-1`: five six-sided dice, keep the highest four, of those keep
      the lowest three, add 2, subtract 1. The kept faces are the middle
      three of the sorted faces, and the total is their sum plus 1. */
  lemma KeepHighestThenLowest(s: string, draws: seq<int>)
    requires s == "5d6>4<3+2-1"
    requires |draws| == 5 && forall k :: 0 <= k < 5 ==> 1 <= draws[k] <= 6
    ensures Validate(s, OpPositions(s)) == Pass
    ensures RollReady(s, OpPositions(s)) && DrawsFit(s, OpPositions(s), draws)
    ensures Evaluate(s, draws).rolled == Sort(draws)
    ensures Evaluate(s, draws).selected == Sort(draws)[1..4]
    ensures Evaluate(s, draws).total == Sum(Sort(draws)[1..4]) + 1
  {
    HighLowText();
    HighLowFits(draws);
    EvaluateFormula(HighLow(), draws);
    var xs := Sort(draws);
    HighLowSelect(xs);
    HighLowKept(xs);
    PlusTwoMinusOne([], Sum(xs[1..4]));
    assert [Mod('+', "2"), Mod('-', "1")] + [] == [Mod('+', "2"), Mod('-', "1")];
  }

  // ---------------------------------------------------------------------
  // Keep counts need not decrease

  /** `5d6<2>3` parsed. */
  function LowHigh(): Formula {
    Formula("5", "6", [Mod('<', "2"), Mod('>', "3")])
  }

  lemma LowHighText()
    ensures WellFormed(LowHigh()) && Render(LowHigh()) == "5d6<2>3"
  {
    assert forall k :: 0 <= k < |LowHigh().mods| ==> IsOp(LowHigh().mods[k].op) && IsDigits(LowHigh().mods[k].arg);
    NumeralsWellFormed(LowHigh());
  }

  lemma LowHighFits(draws: seq<int>)
    requires |draws| == 5 && forall k :: 0 <= k < 5 ==> 1 <= draws[k] <= 6
    ensures FormulaDrawsFit(LowHigh(), draws)
  {
    assert NumeralValue("5") == 5 && NumeralValue("6") == 6;
  }

  /** `<2>3` on five faces: the first step keeps two, and `>3` on two faces
      keeps both. */
  lemma LowHighSelect(xs: seq<int>)
    requires |xs| == 5
    ensures ArgsNumerals(LowHigh().mods)
    ensures SelectPhase(LowHigh().mods, xs) == Kept(xs[..2], [])
  {
    var a, b := Mod('<', "2"), Mod('>', "3");
    assert NumeralValue("2") == 2 && NumeralValue("3") == 3;
    assert LowHigh().mods == [a, b] + [];
    SelectPhaseTwo(a, b, [], xs);
  }

  /** `5d6<2>3` is accepted although its second keep count exceeds the first;
      the two lowest faces survive. */
  lemma SelectionCountsNeedNotDecrease(s: string, draws: seq<int>)
    requires s == "5d6<2>3"
    requires |draws| == 5 && forall k :: 0 <= k < 5 ==> 1 <= draws[k] <= 6
    ensures Validate(s, OpPositions(s)) == Pass
    ensures RollReady(s, OpPositions(s)) && DrawsFit(s, OpPositions(s), draws)
    ensures Evaluate(s, draws).selected == Sort(draws)[..2]
  {
    LowHighText();
    LowHighFits(draws);
    EvaluateFormula(LowHigh(), draws);
    LowHighSelect(Sort(draws));
  }

  // ---------------------------------------------------------------------
  // Whatever follows the scalar run is ignored

  /** `5d6<4>3+2-1` parsed. */
  function Chain(): Formula {
    Formula("5", "6", [Mod('<', "4"), Mod('>', "3"), Mod('+', "2"), Mod('-', "1")])
  }

  /** `5d6<4>3+2-1>6` parsed: the same chain with a selection after the
      scalars. */
  function ChainThenSelect(): Formula {
    Chain().(mods := Chain().mods + [Mod('>', "6")])
  }

  lemma ChainText()
    ensures WellFormed(Chain()) && Render(Chain()) == "5d6<4>3+2-1"
  {
    ChainWellFormed();
  }

  lemma ChainWellFormed()
    ensures WellFormed(Chain()) && WellFormed(ChainThenSelect())
  {
    var ms := ChainThenSelect().mods;
    assert forall k :: 0 <= k < |ms| ==> IsOp(ms[k].op) && IsDigits(ms[k].arg);
    NumeralsWellFormed(ChainThenSelect());
    NumeralsWellFormed(Chain());
  }

  lemma ChainThenSelectText()
    ensures WellFormed(ChainThenSelect()) && Render(ChainThenSelect()) == "5d6<4>3+2-1>6"
  {
    ChainWellFormed();
  }

  lemma ChainFits(draws: seq<int>)
    requires |draws| == 5 && forall k :: 0 <= k < 5 ==> 1 <= draws[k] <= 6
    ensures FormulaDrawsFit(Chain(), draws) && FormulaDrawsFit(ChainThenSelect(), draws)
  {
    assert NumeralValue("5") == 5 && NumeralValue("6") == 6;
  }

  /** `5d6<4>3+2-1>6` is accepted and evaluates exactly like `5d6<4>3+2-1`:
      the selection after the scalar run is never applied. */
  lemma TrailingSelectionIgnored(s: string, t: string, draws: seq<int>)
    requires s == "5d6<4>3+2-1>6" && t == "5d6<4>3+2-1"
    requires |draws| == 5 && forall k :: 0 <= k < 5 ==> 1 <= draws[k] <= 6
    ensures Validate(s, OpPositions(s)) == Pass && Validate(t, OpPositions(t)) == Pass
    ensures RollReady(s, OpPositions(s)) && DrawsFit(s, OpPositions(s), draws)
    ensures RollReady(t, OpPositions(t)) && DrawsFit(t, OpPositions(t), draws)
    ensures Evaluate(s, draws) == Evaluate(t, draws)
  {
    ChainText();
    ChainThenSelectText();
    ChainFits(draws);
    EvaluateFormula(Chain(), draws);
    EvaluateFormula(ChainThenSelect(), draws);
    ChainMeaningsAgree(draws);
  }

  /** The two chains mean the same for every draw. */
  lemma ChainMeaningsAgree(draws: seq<int>)
    ensures WellFormed(Chain()) && WellFormed(ChainThenSelect())
    ensures FormulaMeaning(ChainThenSelect(), draws) == FormulaMeaning(Chain(), draws)
  {
    ChainText();
    ChainThenSelectText();
    TrailingModifiersIgnored(Chain(), [Mod('>', "6")], draws);
  }

  // ---------------------------------------------------------------------
  // Single dice, reordered scalars, a second dice marker

  lemma OneDieText()
    ensures WellFormed(Formula("1", "1", [])) && Render(Formula("1", "1", [])) == "1d1"
  {
    NumeralsWellFormed(Formula("1", "1", []));
  }

  /** `1d1`: one one-sided die always shows 1, is kept, and totals 1. */
  lemma OneSidedDie(s: string, draws: seq<int>)
    requires s == "1d1"
    requires |draws| == 1 && 1 <= draws[0] <= 1
    ensures Validate(s, OpPositions(s)) == Pass
    ensures RollReady(s, OpPositions(s)) && DrawsFit(s, OpPositions(s), draws)
    ensures Evaluate(s, draws) == Evaluated([1], [1], 1)
  {
    var f := Formula("1", "1", []);
    OneDieText();
    assert NumeralValue("1") == 1;
    assert draws == [1];
    EvaluateFormula(f, draws);
    SortOfSorted([1]);
  }

  /** `3d6+2-1` parsed. */
  function AddThenSub(): Formula {
    Formula("3", "6", [Mod('+', "2"), Mod('-', "1")])
  }

  /** `3d6-1+2` parsed. */
  function SubThenAdd(): Formula {
    Formula("3", "6", [Mod('-', "1"), Mod('+', "2")])
  }

  lemma ReorderedText()
    ensures WellFormed(AddThenSub()) && Render(AddThenSub()) == "3d6+2-1"
    ensures WellFormed(SubThenAdd()) && Render(SubThenAdd()) == "3d6-1+2"
  {
    assert forall k :: 0 <= k < |AddThenSub().mods| ==> IsOp(AddThenSub().mods[k].op) && IsDigits(AddThenSub().mods[k].arg);
    NumeralsWellFormed(AddThenSub());
    assert forall k :: 0 <= k < |SubThenAdd().mods| ==> IsOp(SubThenAdd().mods[k].op) && IsDigits(SubThenAdd().mods[k].arg);
    NumeralsWellFormed(SubThenAdd());
  }

  lemma ReorderedFits(draws: seq<int>)
    requires |draws| == 3 && forall k :: 0 <= k < 3 ==> 1 <= draws[k] <= 6
    ensures FormulaDrawsFit(AddThenSub(), draws) && FormulaDrawsFit(SubThenAdd(), draws)
  {
    assert NumeralValue("3") == 3 && NumeralValue("6") == 6;
  }

  /** Neither formula selects; both add 1 to any total. */
  lemma ReorderedPhases(xs: seq<int>, acc: int)
    ensures ArgsNumerals(AddThenSub().mods) && ArgsNumerals(SubThenAdd().mods)
    ensures SelectPhase(AddThenSub().mods, xs) == Kept(xs, AddThenSub().mods)
    ensures SelectPhase(SubThenAdd().mods, xs) == Kept(xs, SubThenAdd().mods)
    ensures ScalarPhase(AddThenSub().mods, acc) == acc + 1
    ensures ScalarPhase(SubThenAdd().mods, acc) == acc + 1
  {
    var ms := AddThenSub().mods;
    var ns := SubThenAdd().mods;
    assert NumeralValue("2") == 2 && NumeralValue("1") == 1;
    assert ms[1..] == [Mod('-', "1")] && ms[1..][1..] == [];
    assert ns[1..] == [Mod('+', "2")] && ns[1..][1..] == [];
    assert ScalarPhase(ms[1..], acc + 2) == acc + 1;
    assert ScalarPhase(ns[1..], acc - 1) == acc + 1;
  }

  /** `3d6+2-1` and `3d6-1+2` give the same faces and the same total. */
  lemma ScalarOrderDoesNotMatter(s: string, t: string, draws: seq<int>)
    requires s == "3d6+2-1" && t == "3d6-1+2"
    requires |draws| == 3 && forall k :: 0 <= k < 3 ==> 1 <= draws[k] <= 6
    ensures Validate(s, OpPositions(s)) == Pass && Validate(t, OpPositions(t)) == Pass
    ensures RollReady(s, OpPositions(s)) && DrawsFit(s, OpPositions(s), draws)
    ensures RollReady(t, OpPositions(t)) && DrawsFit(t, OpPositions(t), draws)
    ensures Evaluate(s, draws) == Evaluate(t, draws)
    ensures Evaluate(s, draws).total == Sum(Sort(draws)) + 1
  {
    ReorderedText();
    ReorderedFits(draws);
    EvaluateFormula(AddThenSub(), draws);
    EvaluateFormula(SubThenAdd(), draws);
    ReorderedPhases(Sort(draws), Sum(Sort(draws)));
  }

  /** `2d3d4` parsed, and `2d3` parsed. */
  function TwoMarkers(): Formula {
    Formula("2", "3", [Mod('d', "4")])
  }

  function OneMarker(): Formula {
    Formula("2", "3", [])
  }

  lemma MarkersText()
    ensures WellFormed(TwoMarkers()) && Render(TwoMarkers()) == "2d3d4"
    ensures WellFormed(OneMarker()) && Render(OneMarker()) == "2d3"
  {
    assert forall k :: 0 <= k < |TwoMarkers().mods| ==> IsOp(TwoMarkers().mods[k].op) && IsDigits(TwoMarkers().mods[k].arg);
    NumeralsWellFormed(TwoMarkers());
    NumeralsWellFormed(OneMarker());
  }

  lemma MarkersFit(draws: seq<int>)
    requires |draws| == 2 && forall k :: 0 <= k < 2 ==> 1 <= draws[k] <= 3
    ensures FormulaDrawsFit(TwoMarkers(), draws) && FormulaDrawsFit(OneMarker(), draws)
  {
    assert NumeralValue("2") == 2 && NumeralValue("3") == 3;
  }

  /** A second `d` is neither a selection nor a scalar: both phases stop
      at it. */
  lemma SecondMarkerPhases(xs: seq<int>, acc: int)
    ensures ArgsNumerals(TwoMarkers().mods)
    ensures SelectPhase(TwoMarkers().mods, xs) == Kept(xs, TwoMarkers().mods)
    ensures ScalarPhase(TwoMarkers().mods, acc) == acc
  {
  }

  /** `2d3d4` is accepted and evaluates like `2d3`: the second dice marker
      and its argument are ignored. */
  lemma SecondDiceMarkerIgnored(s: string, t: string, draws: seq<int>)
    requires s == "2d3d4" && t == "2d3"
    requires |draws| == 2 && forall k :: 0 <= k < 2 ==> 1 <= draws[k] <= 3
    ensures Validate(s, OpPositions(s)) == Pass && Validate(t, OpPositions(t)) == Pass
    ensures RollReady(s, OpPositions(s)) && DrawsFit(s, OpPositions(s), draws)
    ensures RollReady(t, OpPositions(t)) && DrawsFit(t, OpPositions(t), draws)
    ensures Evaluate(s, draws) == Evaluate(t, draws)
  {
    MarkersText();
    MarkersFit(draws);
    EvaluateFormula(TwoMarkers(), draws);
    EvaluateFormula(OneMarker(), draws);
    SecondMarkerPhases(Sort(draws), Sum(Sort(draws)));
  }

  // ---------------------------------------------------------------------
  // One rejected formula per check

  lemma RejectTooShort(s: string)
    requires s == "1d"
    ensures Validate(s, OpPositions(s)) == Fail(TooShort)
  {
  }

  lemma RejectNoDiceMarker(s: string)
    requires s == "123"
    ensures Validate(s, OpPositions(s)) == Fail(NoDiceMarker)
  {
    assert forall k :: 0 <= k < |s| ==> s[k] != 'd';
  }

  /** `-1d6`: the first operator is the `-`, not the `d`. */
  lemma RejectNotLeadingDice(s: string)
    requires s == "-1d6"
    ensures Validate(s, OpPositions(s)) == Fail(NotLeadingDice)
  {
    ScanCharacterized(s, [0, 2]);
    NotLeadingDiceAt(s, [0, 2]);
  }

  lemma NotLeadingDiceAt(s: string, pos: seq<int>)
    requires s == "-1d6" && pos == [0, 2] && IsScan(s, pos)
    ensures Validate(s, pos) == Fail(NotLeadingDice)
  {
    assert FirstIndex(s, 'd') == 2 by {
      assert s[0] != 'd' && s[1] != 'd' && s[2] == 'd';
    }
  }

  /** `ad6`: the count is not a numeral. */
  lemma RejectBadCount(s: string)
    requires s == "ad6"
    ensures Validate(s, OpPositions(s)) == Fail(BadCount)
  {
    ScanCharacterized(s, [1]);
    BadCountAt(s, [1]);
  }

  lemma BadCountAt(s: string, pos: seq<int>)
    requires s == "ad6" && pos == [1] && IsScan(s, pos)
    ensures Validate(s, pos) == Fail(BadCount)
  {
    assert FirstIndex(s, 'd') == 1 by {
      assert s[0] != 'd' && s[1] == 'd';
    }
    assert !IsDigits(s[..1]) by {
      assert !IsDigit(s[0]);
    }
  }

  /** `3d6>x+1`: the argument of `>` is not a numeral. */
  lemma RejectBadModifier(s: string)
    requires s == "3d6>x+1"
    ensures Validate(s, OpPositions(s)) == Fail(BadModifier)
  {
    ScanCharacterized(s, [1, 3, 5]);
    BadModifierAt(s, [1, 3, 5]);
  }

  lemma BadModifierAt(s: string, pos: seq<int>)
    requires s == "3d6>x+1" && pos == [1, 3, 5] && IsScan(s, pos)
    ensures Validate(s, pos) == Fail(BadModifier)
  {
    assert FirstIndex(s, 'd') == 1 by {
      assert s[0] != 'd' && s[1] == 'd';
    }
    assert IsDigits(s[..1]);
    assert !IsDigits(Arg(s, pos[1..])) by {
      assert pos[1..] == [3, 5];
      assert Arg(s, pos[1..]) == s[4..5];
      assert !IsDigit(s[4]);
    }
  }

  /** `3d6>`: nothing follows the last operator. */
  lemma RejectBadFinal(s: string)
    requires s == "3d6>"
    ensures Validate(s, OpPositions(s)) == Fail(BadFinal)
  {
    ScanCharacterized(s, [1, 3]);
    BadFinalAt(s, [1, 3]);
  }

  lemma BadFinalAt(s: string, pos: seq<int>)
    requires s == "3d6>" && pos == [1, 3] && IsScan(s, pos)
    ensures Validate(s, pos) == Fail(BadFinal)
  {
    assert FirstIndex(s, 'd') == 1 by {
      assert s[0] != 'd' && s[1] == 'd';
    }
    assert IsDigits(s[..1]);
    assert !IsDigits(Arg(s, pos[1..])) by {
      assert pos[1..] == [3];
      assert Arg(s, pos[1..]) == s[4..];
    }
  }
}
