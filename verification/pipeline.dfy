/** One evaluation of a formula: scan the operators, validate, roll, apply
    the selections, apply the scalar adjustments.

    Each stage hands the rest of the operator index list to the next. Reading
    the formula, printing the three results and looping belong to the
    interactive shell around this and are not modelled.

    `FormulaMeaning` gives the same computation on a parsed `Formula`, with no
    index list. `EvaluateMeansFormula` proves that the index-walking pipeline
    computes exactly that.
 */
module Pipeline {
  import opened Text
  import opened Scan
  import opened Sorting
  import opened Roller
  import opened Validation
  import opened Selection
  import opened Scalars

  /** A rejected formula, or the three observable results: the sorted faces,
      the faces left after the selections, and the final total. */
  datatype Outcome =
    | Rejected(reason: Reason)
    | Evaluated(rolled: seq<int>, selected: seq<int>, total: int)

  /** After a successful check, every modifier argument is a numeral. */
  lemma ModifierArgsAfterDice(s: string, pos: seq<int>)
    requires Ascending(s, pos) && |pos| > 0 && ModifierArgsDigits(s, pos)
    ensures Ascending(s, pos[1..]) && AllArgsDigits(s, pos[1..])
  {
    forall i | 0 <= i < |pos| - 1
      ensures IsDigits(Arg(s, pos[1..][i..]))
    {
      assert pos[1..][i..] == pos[i + 1..];
    }
  }

  /** What the selection and scalar stages need, given numeral arguments
      throughout. */
  lemma StagesReady(s: string, q: seq<int>, rest: seq<int>)
    requires Ascending(s, q) && AllArgsDigits(s, q)
    requires rest == q[LeadingRun(s, q, SelectionOps)..]
    ensures RunArgsDigits(s, q, SelectionOps)
    ensures Ascending(s, rest) && RunArgsDigits(s, rest, ScalarOps)
  {
    AllArgsDigitsRun(s, q, SelectionOps);
    AllArgsDigitsSuffix(s, q, LeadingRun(s, q, SelectionOps));
    AllArgsDigitsRun(s, rest, ScalarOps);
  }

  /** The program's evaluation of one formula. The random source supplies
      `draws`. A formula that passes the check but cannot be rolled is
      excluded by the precondition: the program stops with an error there. */
  function Evaluate(s: string, draws: seq<int>): (o: Outcome)
    requires Validate(s, OpPositions(s)) == Pass ==>
      RollReady(s, OpPositions(s)) && DrawsFit(s, OpPositions(s), draws)
    ensures o.Rejected? <==> Validate(s, OpPositions(s)) != Pass
    ensures o.Rejected? ==> o.reason == Validate(s, OpPositions(s)).reason
    ensures o.Evaluated? ==>
      && Sorted(o.rolled)
      && multiset(o.rolled) == multiset(draws)
      && IsWindow(o.rolled, o.selected)
      && Sorted(o.selected)
  {
    var pos := OpPositions(s);
    match Validate(s, pos)
    case Fail(r) => Rejected(r)
    case Pass =>
      var rolled := Roll(s, pos, draws);
      ModifierArgsAfterDice(s, pos);
      var q := rolled.rest;
      StagesReady(s, q, q[LeadingRun(s, q, SelectionOps)..]);
      var sel := SelectionMods(rolled.rolls, s, q);
      SelectionModsSorted(rolled.rolls, s, q);
      var adj := ScalarMods(sel.rolls, s, sel.rest);
      Evaluated(rolled.rolls, sel.rolls, adj.total)
  }

  /** The corrected evaluation: formulas that cannot be rolled are rejected
      by `ValidateStrict` instead of stopping the program. */
  function EvaluateStrict(s: string, draws: seq<int>): (o: Outcome)
    requires ValidateStrict(s, OpPositions(s)) == Pass ==> DrawsFit(s, OpPositions(s), draws)
    ensures o.Rejected? <==> ValidateStrict(s, OpPositions(s)) != Pass
    ensures o.Rejected? ==> o.reason == ValidateStrict(s, OpPositions(s)).reason
    ensures o.Evaluated? ==> o == Evaluate(s, draws)
  {
    match ValidateStrict(s, OpPositions(s))
    case Fail(r) => Rejected(r)
    case Pass => Evaluate(s, draws)
  }

  // ---------------------------------------------------------------------
  // The meaning of a parsed formula

  predicate ArgsNumerals(ms: seq<Mod>) {
    forall k :: 0 <= k < |ms| ==> IsDigits(ms[k].arg)
  }

  /** What one selection modifier does to the faces. */
  function Keep(m: Mod, xs: seq<int>): seq<int>
    requires IsDigits(m.arg)
  {
    var n := NumeralValue(m.arg);
    if m.op == '<' then KeepLowest(xs, n) else KeepHighest(xs, n)
  }

  /** What one scalar modifier does to the total. */
  function Shift(m: Mod, acc: int): int
    requires IsDigits(m.arg)
  {
    var v := NumeralValue(m.arg);
    if m.op == '+' then acc + v else acc - v
  }

  /** The kept faces, and the modifiers that follow the run of selections. */
  datatype Kept = Kept(rolls: seq<int>, rest: seq<Mod>)

  /** Apply the leading selection modifiers to the faces. */
  function SelectPhase(ms: seq<Mod>, xs: seq<int>): (r: Kept)
    requires ArgsNumerals(ms)
    ensures ArgsNumerals(r.rest)
    decreases |ms|
  {
    if |ms| == 0 || ms[0].op !in SelectionOps then Kept(xs, ms)
    else SelectPhase(ms[1..], Keep(ms[0], xs))
  }

  /** Apply the leading scalar modifiers to a running total. */
  function ScalarPhase(ms: seq<Mod>, acc: int): int
    requires ArgsNumerals(ms)
    decreases |ms|
  {
    if |ms| == 0 || ms[0].op !in ScalarOps then acc
    else ScalarPhase(ms[1..], Shift(ms[0], acc))
  }

  /** The selection phase on a modifier list given head first. */
  lemma SelectPhaseCons(m: Mod, ms: seq<Mod>, xs: seq<int>)
    requires IsDigits(m.arg) && ArgsNumerals(ms)
    ensures ArgsNumerals([m] + ms)
    ensures SelectPhase([m] + ms, xs) ==
      if m.op in SelectionOps then SelectPhase(ms, Keep(m, xs)) else Kept(xs, [m] + ms)
  {
    assert ([m] + ms)[1..] == ms;
  }

  /** Two selections in a row, then a modifier that is not a selection (or
      nothing): both selections apply, in order, and the run stops there. */
  lemma SelectPhaseTwo(a: Mod, b: Mod, rest: seq<Mod>, xs: seq<int>)
    requires IsDigits(a.arg) && IsDigits(b.arg) && ArgsNumerals(rest)
    requires a.op in SelectionOps && b.op in SelectionOps
    requires |rest| == 0 || rest[0].op !in SelectionOps
    ensures ArgsNumerals([a, b] + rest)
    ensures SelectPhase([a, b] + rest, xs) == Kept(Keep(b, Keep(a, xs)), rest)
  {
    var ys := Keep(a, xs);
    var br := [b] + rest;
    assert [a, b] + rest == [a] + br;
    SelectPhaseCons(a, br, xs);
    SelectPhaseCons(b, rest, ys);
    SelectPhaseStop(rest, Keep(b, ys));
  }

  /** A selection run that has nothing to consume leaves faces and
      modifiers as they are. */
  lemma SelectPhaseStop(ms: seq<Mod>, xs: seq<int>)
    requires ArgsNumerals(ms) && (|ms| == 0 || ms[0].op !in SelectionOps)
    ensures SelectPhase(ms, xs) == Kept(xs, ms)
  {
  }

  /** The scalar phase on a modifier list given head first. */
  lemma ScalarPhaseCons(m: Mod, ms: seq<Mod>, acc: int)
    requires IsDigits(m.arg) && ArgsNumerals(ms)
    ensures ArgsNumerals([m] + ms)
    ensures ScalarPhase([m] + ms, acc) ==
      if m.op in ScalarOps then ScalarPhase(ms, Shift(m, acc)) else acc
  {
    assert ([m] + ms)[1..] == ms;
  }

  /** Every modifier of `ms` has an operator from `kinds`. */
  predicate AllOf(ms: seq<Mod>, kinds: seq<char>) {
    forall k :: 0 <= k < |ms| ==> ms[k].op in kinds
  }

  /** Modifiers appended after the point where the selection run stops are
      carried along unread. */
  lemma {:induction false} SelectPhaseAppend(ms: seq<Mod>, tail: seq<Mod>, xs: seq<int>)
    requires ArgsNumerals(ms) && ArgsNumerals(tail) && !AllOf(ms, SelectionOps)
    ensures ArgsNumerals(ms + tail)
    ensures var r := SelectPhase(ms, xs);
      SelectPhase(ms + tail, xs) == Kept(r.rolls, r.rest + tail)
    decreases |ms|
  {
    assert (ms + tail)[0] == ms[0];
    if ms[0].op in SelectionOps {
      assert (ms + tail)[1..] == ms[1..] + tail;
      assert !AllOf(ms[1..], SelectionOps) by {
        var k :| 0 <= k < |ms| && ms[k].op !in SelectionOps;
        assert ms[1..][k - 1] == ms[k];
      }
      SelectPhaseAppend(ms[1..], tail, Keep(ms[0], xs));
    }
  }

  /** Once the scalar run has ended, appended modifiers change nothing; if it
      has not ended, they continue it. */
  lemma {:induction false} ScalarPhaseAppend(ms: seq<Mod>, tail: seq<Mod>, acc: int)
    requires ArgsNumerals(ms) && ArgsNumerals(tail)
    ensures ArgsNumerals(ms + tail)
    ensures ScalarPhase(ms + tail, acc) ==
      if AllOf(ms, ScalarOps) then ScalarPhase(tail, ScalarPhase(ms, acc)) else ScalarPhase(ms, acc)
    decreases |ms|
  {
    if |ms| == 0 {
      assert ms + tail == tail;
    } else {
      assert (ms + tail)[0] == ms[0];
      if ms[0].op in ScalarOps {
        assert (ms + tail)[1..] == ms[1..] + tail;
        assert AllOf(ms, ScalarOps) <==> AllOf(ms[1..], ScalarOps) by {
          if AllOf(ms[1..], ScalarOps) {
            forall k | 0 <= k < |ms|
              ensures ms[k].op in ScalarOps
            {
              if k > 0 {
                assert ms[k] == ms[1..][k - 1];
              }
            }
          }
        }
        ScalarPhaseAppend(ms[1..], tail, Shift(ms[0], acc));
      }
    }
  }

  /** The outcome of a well-formed formula for given draws. */
  function FormulaMeaning(f: Formula, draws: seq<int>): Outcome
    requires WellFormed(f)
  {
    var rolled := Sort(draws);
    var r := SelectPhase(f.mods, rolled);
    Evaluated(rolled, r.rolls, ScalarPhase(r.rest, Sum(r.rolls)))
  }

  /** The selection run cannot reach past a scalar modifier, and the scalar
      run stops at the first modifier that is not scalar: whatever follows a
      formula ending in `+v` or `-v`, from a modifier that is not scalar on,
      is never read. So `5d6<4>3+2-1>6` means the same as `5d6<4>3+2-1`. */
  lemma TrailingModifiersIgnored(f: Formula, tail: seq<Mod>, draws: seq<int>)
    requires WellFormed(f) && WellFormed(f.(mods := f.mods + tail))
    requires |f.mods| > 0 && f.mods[|f.mods| - 1].op in ScalarOps
    requires |tail| > 0 ==> tail[0].op !in ScalarOps
    ensures FormulaMeaning(f.(mods := f.mods + tail), draws) == FormulaMeaning(f, draws)
  {
    var ms := f.mods;
    assert ArgsNumerals(tail) by {
      forall k | 0 <= k < |tail|
        ensures IsDigits(tail[k].arg)
      {
        assert tail[k] == (ms + tail)[|ms| + k];
      }
    }
    var rolled := Sort(draws);
    assert !AllOf(ms, SelectionOps) by {
      assert ms[|ms| - 1].op !in SelectionOps;
    }
    SelectPhaseAppend(ms, tail, rolled);
    var r := SelectPhase(ms, rolled);
    ScalarPhaseAppend(r.rest, tail, Sum(r.rolls));
  }

  lemma ModsOfNumerals(s: string, q: seq<int>)
    requires Ascending(s, q) && AllArgsDigits(s, q)
    ensures ArgsNumerals(ModsOf(s, q))
  {
    forall k | 0 <= k < |q|
      ensures IsDigits(ModsOf(s, q)[k].arg)
    {
      ModsOfAt(s, q, k);
    }
  }

  lemma {:induction false} SelectionAgrees(rolls: seq<int>, s: string, q: seq<int>)
    requires Ascending(s, q) && AllArgsDigits(s, q)
    ensures RunArgsDigits(s, q, SelectionOps) && ArgsNumerals(ModsOf(s, q))
    ensures var r := SelectionMods(rolls, s, q);
      Ascending(s, r.rest) && SelectPhase(ModsOf(s, q), rolls) == Kept(r.rolls, ModsOf(s, r.rest))
    decreases |q|
  {
    AllArgsDigitsRun(s, q, SelectionOps);
    ModsOfNumerals(s, q);
    if |q| > 0 && s[q[0]] in SelectionOps {
      AllArgsDigitsSuffix(s, q, 1);
      var n := NumeralValue(Arg(s, q));
      var kept := if s[q[0]] == '<' then KeepLowest(rolls, n) else KeepHighest(rolls, n);
      SelectionAgrees(kept, s, q[1..]);
    }
  }

  lemma ScalarPhaseStep(ms: seq<Mod>, acc: int)
    requires ArgsNumerals(ms) && |ms| > 0 && ms[0].op in ScalarOps
    ensures ArgsNumerals(ms[1..])
    ensures ScalarPhase(ms, acc) == ScalarPhase(ms[1..], Shift(ms[0], acc))
  {
  }

  /** Where the scalar run stops, both sides leave the total untouched. */
  lemma ScalarsAgreeStop(acc: int, s: string, q: seq<int>)
    requires Ascending(s, q) && RunArgsDigits(s, q, ScalarOps) && ArgsNumerals(ModsOf(s, q))
    requires |q| == 0 || s[q[0]] !in ScalarOps
    ensures ApplyScalars(acc, s, q).total == ScalarPhase(ModsOf(s, q), acc)
  {
    if |q| > 0 {
      assert ModsOf(s, q)[0].op == s[q[0]];
    }
  }

  /** One scalar operator: both sides move the total to `acc'` and go on. */
  lemma ScalarsAgreeStep(acc: int, acc': int, s: string, q: seq<int>)
    requires Ascending(s, q) && RunArgsDigits(s, q, ScalarOps) && ArgsNumerals(ModsOf(s, q))
    requires |q| > 0 && s[q[0]] in ScalarOps
    requires acc' == if s[q[0]] == '+' then acc + NumeralValue(Arg(s, q)) else acc - NumeralValue(Arg(s, q))
    requires Ascending(s, q[1..]) && RunArgsDigits(s, q[1..], ScalarOps) && ArgsNumerals(ModsOf(s, q[1..]))
    requires ApplyScalars(acc', s, q[1..]).total == ScalarPhase(ModsOf(s, q[1..]), acc')
    ensures ApplyScalars(acc, s, q).total == ScalarPhase(ModsOf(s, q), acc)
  {
    ApplyScalarsStep(acc, acc', s, q);
    ScalarPhaseOfMods(acc, acc', s, q);
  }

  lemma ScalarPhaseOfMods(acc: int, acc': int, s: string, q: seq<int>)
    requires Ascending(s, q) && ArgsNumerals(ModsOf(s, q))
    requires |q| > 0 && s[q[0]] in ScalarOps && IsDigits(Arg(s, q))
    requires acc' == if s[q[0]] == '+' then acc + NumeralValue(Arg(s, q)) else acc - NumeralValue(Arg(s, q))
    ensures ArgsNumerals(ModsOf(s, q[1..]))
    ensures ScalarPhase(ModsOf(s, q), acc) == ScalarPhase(ModsOf(s, q[1..]), acc')
  {
    var ms := ModsOf(s, q);
    assert ms[0] == Mod(s[q[0]], Arg(s, q));
    assert ms[1..] == ModsOf(s, q[1..]);
    ScalarPhaseStep(ms, acc);
  }

  /** The index-walking scalar stage agrees with the scalar phase of the
      parsed modifiers. */
  lemma {:induction false} ScalarsAgree(acc: int, s: string, q: seq<int>)
    requires Ascending(s, q) && AllArgsDigits(s, q)
    ensures RunArgsDigits(s, q, ScalarOps) && ArgsNumerals(ModsOf(s, q))
    ensures ApplyScalars(acc, s, q).total == ScalarPhase(ModsOf(s, q), acc)
    decreases |q|
  {
    AllArgsDigitsRun(s, q, ScalarOps);
    ModsOfNumerals(s, q);
    if |q| > 0 && s[q[0]] in ScalarOps {
      AllArgsDigitsSuffix(s, q, 1);
      var v := NumeralValue(Arg(s, q));
      var acc' := if s[q[0]] == '+' then acc + v else acc - v;
      ScalarsAgree(acc', s, q[1..]);
      ScalarsAgreeStep(acc, acc', s, q);
    } else {
      ScalarsAgreeStop(acc, s, q);
    }
  }

  /** The pipeline computes the meaning of the formula obtained by cutting
      the string at its operators. */
  lemma EvaluateMeansFormula(s: string, draws: seq<int>)
    requires Validate(s, OpPositions(s)) == Pass
    requires RollReady(s, OpPositions(s)) && DrawsFit(s, OpPositions(s), draws)
    ensures WellFormed(Decompose(s, OpPositions(s)))
    ensures Evaluate(s, draws) == FormulaMeaning(Decompose(s, OpPositions(s)), draws)
  {
    var pos := OpPositions(s);
    ValidateSound(s, pos);
    ModifierArgsAfterDice(s, pos);
    var q := pos[1..];
    var rolls := Sort(draws);
    SelectionAgrees(rolls, s, q);
    var sel := SelectionMods(rolls, s, q);
    StagesReady(s, q, sel.rest);
    AllArgsDigitsSuffix(s, q, LeadingRun(s, q, SelectionOps));
    ScalarsAgree(Sum(sel.rolls), s, sel.rest);
  }

  /** The roll stage's needs, stated on a parsed formula: numeral sides, at
      least one side when a die is rolled, and one draw in range per die. */
  predicate FormulaDrawsFit(f: Formula, draws: seq<int>) {
    && IsDigits(f.count)
    && IsDigits(f.sides)
    && (NumeralValue(f.count) > 0 ==> NumeralValue(f.sides) >= 1)
    && |draws| == NumeralValue(f.count)
    && forall k :: 0 <= k < |draws| ==> 1 <= draws[k] <= NumeralValue(f.sides)
  }

  /** Evaluating the rendering of a well-formed formula gives its meaning. */
  lemma EvaluateFormula(f: Formula, draws: seq<int>)
    requires WellFormed(f) && FormulaDrawsFit(f, draws)
    ensures var s := Render(f);
      Validate(s, OpPositions(s)) == Pass && RollReady(s, OpPositions(s)) && DrawsFit(s, OpPositions(s), draws)
    ensures Evaluate(Render(f), draws) == FormulaMeaning(f, draws)
  {
    var s := Render(f);
    ValidateComplete(f);
    EvaluateMeansFormula(s, draws);
  }
}
