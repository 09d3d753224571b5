/** The validation stage, and the grammar it accepts.

    `Validate` follows the program's checks in order and reports the first
    one that fails. The grammar half of the module gives an independent
    description of the accepted strings: a `Formula` is rendered as
    count `d` sides followed by operator/argument pairs. `Validate` passes
    exactly on renderings of well-formed formulas.

    The program never looks at the sides argument once a second operator
    follows it. So the accepted language is wider than what the roll stage
    can process. `ValidateStrict` is the check with the missing step added.
 */
module Validation {
  import opened Text
  import opened Scan
  import opened Roller

  /** Why a formula was rejected, one tag per check of the program, plus the
      two checks that only `ValidateStrict` makes. */
  datatype Reason =
    | TooShort        // fewer than three characters
    | NoDiceMarker    // no `d` anywhere
    | NotLeadingDice  // the first operator is not the first `d`
    | BadCount        // the text before the `d` is not a numeral
    | BadModifier     // a modifier argument before the last one is not a numeral
    | BadFinal        // the text after the last operator is not a numeral
    | BadSides        // (strict only) the sides argument is not a numeral
    | NoSides         // (strict only) dice are rolled with zero sides

  datatype Verdict = Pass | Fail(reason: Reason)

  /** The index of the first occurrence of `c` in `s`. */
  function FirstIndex(s: string, c: char): (r: nat)
    requires c in s
    ensures r < |s| && s[r] == c
    ensures forall j :: 0 <= j < r ==> s[j] != c
  {
    if s[0] == c then 0 else 1 + FirstIndex(s[1..], c)
  }

  /** Every modifier argument is a numeral: all arguments of the operators
      after the first. */
  predicate ModifierArgsDigits(s: string, pos: seq<int>)
    requires Ascending(s, pos) && |pos| > 0
  {
    SuffixAscending(s, pos, 1);
    AllArgsDigits(s, pos[1..])
  }

  /** The program's check, in its order: length, presence of `d`, the first
      operator is the first `d`, the count is a numeral, each modifier
      argument except the last is a numeral, and the text after the last
      operator is a numeral. */
  function Validate(s: string, pos: seq<int>): (v: Verdict)
    requires IsScan(s, pos)
    ensures |s| < 3 ==> v == Fail(TooShort)
    ensures |s| >= 3 && 'd' !in s ==> v == Fail(NoDiceMarker)
    ensures v == Pass ==>
      && |pos| > 0
      && s[pos[0]] == 'd'
      && IsDigits(s[..pos[0]])
      && ModifierArgsDigits(s, pos)
      && (|pos| == 1 ==> IsDigits(Arg(s, pos)))
  {
    if |s| < 3 then Fail(TooShort)
    else if 'd' !in s then Fail(NoDiceMarker)
    else
      var d := FirstIndex(s, 'd');
      assert IsOp(s[d]) && d in pos;
      if pos[0] != d then Fail(NotLeadingDice)
      else if !IsDigits(s[..pos[0]]) then Fail(BadCount)
      else if !(forall i :: 1 <= i < |pos| - 1 ==> IsDigits(Arg(s, pos[i..]))) then Fail(BadModifier)
      else if !IsDigits(Arg(s, pos[|pos| - 1..])) then Fail(BadFinal)
      else
        LastArgCompletes(s, pos);
        Pass
  }

  /** The program checks the modifier arguments before the last one in its
      loop and the last one on its own; together they cover all of them. */
  lemma LastArgCompletes(s: string, pos: seq<int>)
    requires Ascending(s, pos) && |pos| > 0
    requires forall i :: 1 <= i < |pos| - 1 ==> IsDigits(Arg(s, pos[i..]))
    requires IsDigits(Arg(s, pos[|pos| - 1..]))
    ensures ModifierArgsDigits(s, pos)
    ensures |pos| == 1 ==> IsDigits(Arg(s, pos))
  {
    assert pos[0..] == pos;
  }

  // ---------------------------------------------------------------------
  // The grammar

  /** An operator followed by its numeral argument. */
  datatype Mod = Mod(op: char, arg: string)

  /** `count` `d` `sides`, then the modifiers in order. */
  datatype Formula = Formula(count: string, sides: string, mods: seq<Mod>)

  function RenderMods(ms: seq<Mod>): string {
    if |ms| == 0 then [] else [ms[0].op] + ms[0].arg + RenderMods(ms[1..])
  }

  function Render(f: Formula): string {
    f.count + ['d'] + f.sides + RenderMods(f.mods)
  }

  /** The pieces of a formula are separated by operators and only by them. */
  predicate Structured(f: Formula) {
    && NoOps(f.count)
    && NoOps(f.sides)
    && forall k :: 0 <= k < |f.mods| ==> IsOp(f.mods[k].op) && NoOps(f.mods[k].arg)
  }

  /** What the program accepts: a numeral count, and a numeral argument for
      every modifier. The sides need only be operator free, unless no modifier
      follows; then they are the final argument and must be a numeral. */
  predicate WellFormed(f: Formula) {
    && Structured(f)
    && IsDigits(f.count)
    && (forall k :: 0 <= k < |f.mods| ==> IsDigits(f.mods[k].arg))
    && (|f.mods| == 0 ==> IsDigits(f.sides))
  }

  /** A formula whose count, sides and modifier arguments are all numerals
      is well formed. */
  lemma NumeralsWellFormed(f: Formula)
    requires IsDigits(f.count) && IsDigits(f.sides)
    requires forall k :: 0 <= k < |f.mods| ==> IsOp(f.mods[k].op) && IsDigits(f.mods[k].arg)
    ensures WellFormed(f)
  {
    DigitsHaveNoOps(f.count);
    DigitsHaveNoOps(f.sides);
    forall k | 0 <= k < |f.mods|
      ensures NoOps(f.mods[k].arg)
    {
      DigitsHaveNoOps(f.mods[k].arg);
    }
  }

  /** The operators of `pos`, each with its argument. */
  function ModsOf(s: string, pos: seq<int>): (ms: seq<Mod>)
    requires Ascending(s, pos)
    ensures |ms| == |pos|
    decreases |pos|
  {
    if |pos| == 0 then [] else [Mod(s[pos[0]], Arg(s, pos))] + ModsOf(s, pos[1..])
  }

  /** The k-th modifier is the k-th listed operator with its argument. */
  lemma {:induction false} ModsOfAt(s: string, pos: seq<int>, k: nat)
    requires Ascending(s, pos) && k < |pos|
    ensures ModsOf(s, pos)[k] == Mod(s[pos[k]], Arg(s, pos[k..]))
    decreases k
  {
    if k > 0 {
      ModsOfAt(s, pos[1..], k - 1);
      assert pos[1..][k - 1..] == pos[k..];
    }
  }

  /** Cuts a formula string at its operators. */
  function Decompose(s: string, pos: seq<int>): Formula
    requires Ascending(s, pos) && |pos| > 0
  {
    Formula(s[..pos[0]], Arg(s, pos), ModsOf(s, pos[1..]))
  }

  /** Rendering the operators of `pos` with their arguments gives back the
      formula from the first listed operator on. */
  lemma {:induction false} RenderModsOf(s: string, pos: seq<int>)
    requires Ascending(s, pos) && |pos| > 0
    ensures RenderMods(ModsOf(s, pos)) == s[pos[0]..]
    decreases |pos|
  {
    var ms := ModsOf(s, pos);
    var head := Mod(s[pos[0]], Arg(s, pos));
    assert ms == [head] + ModsOf(s, pos[1..]);
    assert RenderMods(ms) == [head.op] + head.arg + RenderMods(ModsOf(s, pos[1..]));
    if |pos| == 1 {
      assert head.arg == s[pos[0] + 1..];
      assert s[pos[0]..] == [s[pos[0]]] + s[pos[0] + 1..];
    } else {
      RenderModsOf(s, pos[1..]);
      assert head.arg == s[pos[0] + 1..pos[1]];
      assert s[pos[0]..] == [s[pos[0]]] + s[pos[0] + 1..pos[1]] + s[pos[1]..];
    }
  }

  /** Cutting the string at the scanned operators gives a structured formula. */
  lemma DecomposeStructured(s: string, pos: seq<int>)
    requires IsScan(s, pos) && |pos| > 0
    ensures Structured(Decompose(s, pos))
  {
    var f := Decompose(s, pos);
    assert NoOps(f.count) by {
      forall k | 0 <= k < pos[0]
        ensures !IsOp(s[k])
      {
        assert k !in pos;
      }
    }
    assert pos[0..] == pos;
    ScanArgNoOps(s, pos, 0);
    forall k | 0 <= k < |f.mods|
      ensures IsOp(f.mods[k].op) && NoOps(f.mods[k].arg)
    {
      ModArgNoOps(s, pos, k);
    }
  }

  lemma ModArgNoOps(s: string, pos: seq<int>, k: nat)
    requires IsScan(s, pos) && k + 1 < |pos|
    ensures IsOp(ModsOf(s, pos[1..])[k].op) && NoOps(ModsOf(s, pos[1..])[k].arg)
  {
    ModsOfAt(s, pos[1..], k);
    assert pos[1..][k..] == pos[k + 1..];
    ScanArgNoOps(s, pos, k + 1);
  }

  /** When the first operator is a `d`, rendering the cut string gives it back. */
  lemma DecomposeRenders(s: string, pos: seq<int>)
    requires Ascending(s, pos) && |pos| > 0 && s[pos[0]] == 'd'
    ensures Render(Decompose(s, pos)) == s
  {
    var f := Decompose(s, pos);
    RenderModsOf(s, pos);
    assert ModsOf(s, pos)[1..] == f.mods;
    assert s == s[..pos[0]] + s[pos[0]..];
  }

  lemma ModArgIs(s: string, pos: seq<int>, k: nat)
    requires Ascending(s, pos) && k + 1 < |pos|
    ensures Ascending(s, pos[k + 1..])
    ensures Decompose(s, pos).mods[k].arg == Arg(s, pos[k + 1..])
  {
    ModsOfAt(s, pos[1..], k);
    assert pos[1..][k..] == pos[k + 1..];
  }

  lemma PassGivesWellFormed(s: string, pos: seq<int>)
    requires IsScan(s, pos) && Validate(s, pos) == Pass
    ensures |pos| > 0 && s[pos[0]] == 'd' && WellFormed(Decompose(s, pos))
  {
    var f := Decompose(s, pos);
    DecomposeStructured(s, pos);
    assert IsDigits(f.count);
    assert |f.mods| == 0 ==> IsDigits(f.sides);
    SuffixAscending(s, pos, 1);
    forall k | 0 <= k < |f.mods|
      ensures IsDigits(f.mods[k].arg)
    {
      ModArgIs(s, pos, k);
      assert pos[1..][k..] == pos[k + 1..];
      assert IsDigits(Arg(s, pos[1..][k..]));
    }
  }

  /** The text of a well-formed formula is at least three characters long. */
  lemma WellFormedLength(f: Formula)
    requires WellFormed(f)
    ensures |Render(f)| >= 3
  {
    if |f.mods| > 0 {
      assert |RenderMods(f.mods)| >= 1 + |f.mods[0].arg|;
    }
  }

  /** In a scan whose first operator is a `d`, that `d` is the first one. */
  lemma LeadingDiceIsFirst(s: string, pos: seq<int>)
    requires IsScan(s, pos) && |pos| > 0 && s[pos[0]] == 'd'
    ensures 'd' in s && FirstIndex(s, 'd') == pos[0]
  {
    var d := FirstIndex(s, 'd');
    assert forall j :: 0 <= j < pos[0] ==> !IsOp(s[j]);
    assert IsOp(s[d]);
  }

  /** The checks of `Validate`, each established, make it pass. */
  lemma PassFromChecks(s: string, pos: seq<int>)
    requires IsScan(s, pos) && |pos| > 0 && |s| >= 3
    requires 'd' in s && FirstIndex(s, 'd') == pos[0]
    requires IsDigits(s[..pos[0]]) && ModifierArgsDigits(s, pos)
    requires IsDigits(Arg(s, pos[|pos| - 1..]))
    ensures Validate(s, pos) == Pass
  {
    InnerArgsDigits(s, pos);
  }

  /** The arguments the program's loop examines are among the modifier
      arguments. */
  lemma InnerArgsDigits(s: string, pos: seq<int>)
    requires Ascending(s, pos) && |pos| > 0 && ModifierArgsDigits(s, pos)
    ensures forall i :: 1 <= i < |pos| - 1 ==> IsDigits(Arg(s, pos[i..]))
  {
    forall i | 1 <= i < |pos| - 1
      ensures IsDigits(Arg(s, pos[i..]))
    {
      assert pos[1..][i - 1..] == pos[i..];
    }
  }

  lemma WellFormedArgs(s: string, pos: seq<int>)
    requires Ascending(s, pos) && |pos| > 0
    requires WellFormed(Decompose(s, pos))
    ensures ModifierArgsDigits(s, pos)
    ensures IsDigits(Arg(s, pos[|pos| - 1..]))
  {
    forall i | 1 <= i < |pos|
      ensures IsDigits(Arg(s, pos[i..]))
    {
      ModArgIs(s, pos, i - 1);
    }
    if |pos| == 1 {
      assert pos[0..] == pos;
    }
  }

  lemma WellFormedGivesPass(s: string, pos: seq<int>)
    requires IsScan(s, pos) && |pos| > 0 && s[pos[0]] == 'd'
    requires WellFormed(Decompose(s, pos))
    ensures Validate(s, pos) == Pass
  {
    DecomposeRenders(s, pos);
    WellFormedLength(Decompose(s, pos));
    LeadingDiceIsFirst(s, pos);
    WellFormedArgs(s, pos);
    PassFromChecks(s, pos);
  }

  /** `Validate` passes exactly when the first operator is a `d` and the
      string cut at its operators is a well-formed formula. */
  lemma PassIffWellFormedPieces(s: string, pos: seq<int>)
    requires IsScan(s, pos)
    ensures Validate(s, pos) == Pass <==>
      |pos| > 0 && s[pos[0]] == 'd' && WellFormed(Decompose(s, pos))
  {
    if Validate(s, pos) == Pass {
      PassGivesWellFormed(s, pos);
    }
    if |pos| > 0 && s[pos[0]] == 'd' && WellFormed(Decompose(s, pos)) {
      WellFormedGivesPass(s, pos);
    }
  }

  /** Soundness: every accepted string is the rendering of a well-formed
      formula, namely the one obtained by cutting it at its operators. */
  lemma ValidateSound(s: string, pos: seq<int>)
    requires IsScan(s, pos) && Validate(s, pos) == Pass
    ensures WellFormed(Decompose(s, pos))
    ensures Render(Decompose(s, pos)) == s
  {
    PassGivesWellFormed(s, pos);
    DecomposeRenders(s, pos);
  }

  /** The number of leading characters that are not operators. */
  function LeadingText(t: string): (n: nat)
    ensures n <= |t|
  {
    if |t| == 0 || IsOp(t[0]) then 0 else 1 + LeadingText(t[1..])
  }

  lemma {:induction false} LeadingTextOf(a: string, x: string)
    requires NoOps(a) && (|x| == 0 || IsOp(x[0]))
    ensures LeadingText(a + x) == |a|
    decreases |a|
  {
    if |a| > 0 {
      assert (a + x)[1..] == a[1..] + x;
      LeadingTextOf(a[1..], x);
    }
  }

  /** An operator-free piece followed by text that starts at an operator can
      be cut in one way only. */
  lemma CutAtOperator(a: string, x: string, a': string, x': string)
    requires NoOps(a) && (|x| == 0 || IsOp(x[0]))
    requires NoOps(a') && (|x'| == 0 || IsOp(x'[0]))
    requires a + x == a' + x'
    ensures a == a' && x == x'
  {
    LeadingTextOf(a, x);
    LeadingTextOf(a', x');
    assert a == (a + x)[..|a|];
    assert a' == (a' + x')[..|a'|];
    assert x == (a + x)[|a|..];
    assert x' == (a' + x')[|a'|..];
  }

  lemma {:induction false} RenderModsInjective(ms: seq<Mod>, ns: seq<Mod>)
    requires forall k :: 0 <= k < |ms| ==> IsOp(ms[k].op) && NoOps(ms[k].arg)
    requires forall k :: 0 <= k < |ns| ==> IsOp(ns[k].op) && NoOps(ns[k].arg)
    requires RenderMods(ms) == RenderMods(ns)
    ensures ms == ns
    decreases |ms|
  {
    if |ms| > 0 && |ns| > 0 {
      var rm, rn := RenderMods(ms), RenderMods(ns);
      assert ms[0].op == rm[0] == rn[0] == ns[0].op;
      assert rm[1..] == ms[0].arg + RenderMods(ms[1..]);
      assert rn[1..] == ns[0].arg + RenderMods(ns[1..]);
      CutAtOperator(ms[0].arg, RenderMods(ms[1..]), ns[0].arg, RenderMods(ns[1..]));
      RenderModsInjective(ms[1..], ns[1..]);
      assert ms == [ms[0]] + ms[1..];
      assert ns == [ns[0]] + ns[1..];
    }
  }

  /** Distinct structured formulas render to distinct strings. */
  lemma RenderInjective(f: Formula, g: Formula)
    requires Structured(f) && Structured(g)
    requires Render(f) == Render(g)
    ensures f == g
  {
    var tf := ['d'] + f.sides + RenderMods(f.mods);
    var tg := ['d'] + g.sides + RenderMods(g.mods);
    assert Render(f) == f.count + tf;
    assert Render(g) == g.count + tg;
    CutAtOperator(f.count, tf, g.count, tg);
    assert tf[1..] == f.sides + RenderMods(f.mods);
    assert tg[1..] == g.sides + RenderMods(g.mods);
    RenderSidesInjective(f, g);
  }

  /** What follows the dice marker determines the sides and the modifiers. */
  lemma RenderSidesInjective(f: Formula, g: Formula)
    requires Structured(f) && Structured(g)
    requires f.sides + RenderMods(f.mods) == g.sides + RenderMods(g.mods)
    ensures f.sides == g.sides && f.mods == g.mods
  {
    CutAtOperator(f.sides, RenderMods(f.mods), g.sides, RenderMods(g.mods));
    RenderModsInjective(f.mods, g.mods);
  }

  /** Completeness: the rendering of every well-formed formula is accepted,
      and cutting it at its operators gives the formula back. */
  lemma ValidateComplete(f: Formula)
    requires WellFormed(f)
    ensures Validate(Render(f), OpPositions(Render(f))) == Pass
    ensures Decompose(Render(f), OpPositions(Render(f))) == f
  {
    var s := Render(f);
    var pos := OpPositions(s);
    var c := |f.count|;
    assert s[c] == 'd';
    assert c in pos;
    assert pos[0] == c by {
      assert forall j :: 0 <= j < c ==> s[j] == f.count[j];
    }
    DecomposeStructured(s, pos);
    DecomposeRenders(s, pos);
    RenderInjective(Decompose(s, pos), f);
    WellFormedGivesPass(s, pos);
  }

  /** `Validate` accepts exactly the renderings of well-formed formulas. */
  lemma ValidateMeansWellFormed(s: string)
    ensures Validate(s, OpPositions(s)) == Pass <==> exists f :: WellFormed(f) && Render(f) == s
  {
    if Validate(s, OpPositions(s)) == Pass {
      ValidateSound(s, OpPositions(s));
    }
    if exists f :: WellFormed(f) && Render(f) == s {
      var f :| WellFormed(f) && Render(f) == s;
      ValidateComplete(f);
    }
  }

  // ---------------------------------------------------------------------
  // What the check lets through, and the corrected check

  /** The program's check accepts `3dx>2`: the sides argument `x` is never
      examined because another operator follows it. The roll stage cannot
      convert `x` to a number. */
  lemma ValidateAdmitsNonNumericSides()
    ensures Validate("3dx>2", OpPositions("3dx>2")) == Pass
    ensures !RollReady("3dx>2", OpPositions("3dx>2"))
    ensures Arg("3dx>2", OpPositions("3dx>2")) == "x"
  {
    var f := Formula("3", "x", [Mod('>', "2")]);
    NonNumericSidesFormula(f);
    ValidateComplete(f);
    assert Arg("3dx>2", OpPositions("3dx>2")) == "x";
  }

  lemma NonNumericSidesFormula(f: Formula)
    requires f == Formula("3", "x", [Mod('>', "2")])
    ensures WellFormed(f) && Render(f) == "3dx>2"
  {
    assert RenderMods(f.mods) == ">2";
  }

  /** The program's check accepts `1d0`. Rolling one die then draws from the
      empty range [1, 0]. */
  lemma ValidateAdmitsZeroSides()
    ensures Validate("1d0", OpPositions("1d0")) == Pass
    ensures !RollReady("1d0", OpPositions("1d0"))
    ensures IsDigits(Arg("1d0", OpPositions("1d0")))
    ensures Count("1d0", OpPositions("1d0")) == 1 && Sides("1d0", OpPositions("1d0")) == 0
  {
    var f := Formula("1", "0", []);
    assert Render(f) == "1d0";
    assert WellFormed(f);
    ValidateComplete(f);
    var pos := OpPositions("1d0");
    assert "1d0"[..pos[0]] == "1" && Arg("1d0", pos) == "0";
    assert Count("1d0", pos) == 1 && Sides("1d0", pos) == 0;
  }

  /** The check with the missing step: after the program's checks, the sides
      argument must be a numeral, and at least 1 whenever a die is rolled. */
  function ValidateStrict(s: string, pos: seq<int>): (v: Verdict)
    requires IsScan(s, pos)
    ensures v == Pass <==> Validate(s, pos) == Pass && RollReady(s, pos)
    ensures v != Pass && Validate(s, pos) != Pass ==> v == Validate(s, pos)
  {
    match Validate(s, pos)
    case Fail(r) => Fail(r)
    case Pass =>
      if !IsDigits(Arg(s, pos)) then Fail(BadSides)
      else if Count(s, pos) > 0 && Sides(s, pos) == 0 then Fail(NoSides)
      else Pass
  }

  /** The corrected check accepts exactly the renderings of well-formed
      formulas whose sides are a numeral, non-zero when a die is rolled. */
  lemma ValidateStrictMeansRollable(f: Formula)
    requires WellFormed(f)
    ensures ValidateStrict(Render(f), OpPositions(Render(f))) == Pass <==>
      IsDigits(f.sides) && (NumeralValue(f.count) > 0 ==> NumeralValue(f.sides) >= 1)
  {
    ValidateComplete(f);
  }

  /** The corrected check rejects `3dx>2` because of its sides. */
  lemma ValidateStrictRejectsNonNumericSides()
    ensures ValidateStrict("3dx>2", OpPositions("3dx>2")) == Fail(BadSides)
  {
    ValidateAdmitsNonNumericSides();
  }

  /** The corrected check rejects `1d0` because of its sides. */
  lemma ValidateStrictRejectsZeroSides()
    ensures ValidateStrict("1d0", OpPositions("1d0")) == Fail(NoSides)
  {
    ValidateAdmitsZeroSides();
  }
}
