# Dice formula evaluator — a Dafny model

A dice formula such as `5d6>4<3+2-1` has three parts:

- `count` `d` `sides`: roll five six-sided dice.
- Selection modifiers: `>4` keeps the four highest faces, then `<3` keeps the three lowest of those.
- Scalar modifiers: `+2` adds 2 to the sum of the kept faces, then `-1` subtracts 1.

The program runs one formula through these stages:

1. It scans the formula for the positions of the five operator characters `d < > + -`.
2. It validates the formula against that index list.
3. It rolls and sorts the dice, then removes the `d` from the list.
4. It consumes the leading run of selections.
5. It consumes the leading run of scalar adjustments on the sum of the kept faces.

The model follows `dice.py` stage by stage. Each stage returns the rest of the index list where the program deletes from its mutable list. The random generator is an input: `draws` holds the faces it produced.

Modules:

- `Text`: the operator alphabet and decimal numerals (`int()` on a digit string).
- `Scan`: the operator index list, and the argument after an operator.
- `Sorting`: an ascending insertion sort and the uniqueness of sorted permutations.
- `Validation`: the program's check, with one verdict tag per failing check. It also holds an independent grammar (`Formula`, `Render`) and proofs that the check accepts exactly the renderings of well-formed formulas.
- `Roller`: the roll stage.
- `Selection`: the selection stage.
- `Scalars`: the summing loop and the scalar stage.
- `Pipeline`: the whole evaluation, and its meaning on a parsed `Formula`.
- `Scenarios`: particular formulas, accepted and rejected, derived from the general results.

Where the program's behaviour differs from its help text, the model follows the code:

- A chain of keep counts need not decrease: `5d6<2>3` is accepted.
- Selections after scalars are accepted and never applied: `5d6<4>3+2-1>6` evaluates like `5d6<4>3+2-1`, although the help text (dice.py:21-22) calls it invalid.
- The check never looks at the sides once a modifier follows them (see Findings).
- A zero count or zero sides is accepted.

## Model

| member | source | states |
|---|---|---|
| Text.OperatorGroups | dice.py:5 | the selection operators are entries 2-3 of the operator list and the scalar operators are entries 4-5; every operator is `d`, a selection or a scalar |
| Text.NumeralRoundTrip | dice.py:70-75 | reading a number's decimal numeral back as an integer gives the number, so numeral reading loses no value |
| Text.NumeralValue | dice.py:70-75 | `int()` on a numeral of k digits gives a value below 10^k, and at least 10^(k-1) when the numeral has no leading zero |
| Scan.ScanOps | dice.py:162-164 | the scanning loop returns an ascending list of positions, each holding an operator, and lists every operator position of the formula |
| Scan.ScanCharacterized | dice.py:162-164 | any ascending list holding exactly the operator positions is the scan result, so the index list is determined by the formula |
| Scan.OpPositions | dice.py:162-164 | the index list is ascending, every listed position holds an operator, and every operator position of the formula is listed |
| Scan.Arg | dice.py:72-75 | the argument of an operator starts just after it and spans exactly the gap to the next listed operator, or to the end of the formula when it is the last; when every later operator of the formula is listed, the argument contains no operator, so it ends at the next operator of the formula or at its end |
| Scan.LeadingRun | dice.py:97 | the run of operators of the given kinds at the head of the index list: every one of its operators is of those kinds, and the operator right after it, if any, is not |
| Validation.Validate | dice.py:25-59 | a formula shorter than three characters fails as too short; one without `d` fails for the missing marker; an accepted formula starts with a numeral count followed by the `d` as first operator, every modifier argument is a numeral, and so are the sides when no modifier follows |
| Validation.FirstIndex | dice.py:37-42 | for a character that occurs, `find` returns a position holding it with no earlier occurrence |
| Validation.PassIffWellFormedPieces | dice.py:25-59 | the check passes exactly when the first operator is a `d` and cutting the formula at its operators gives a well-formed formula, in both directions |
| Validation.ValidateSound | dice.py:25-59 | every accepted string is the rendering of the well-formed formula obtained by cutting it at its operators |
| Validation.ValidateComplete | dice.py:25-59 | the rendering of every well-formed formula is accepted, and cutting it at its operators gives the same formula back |
| Validation.ValidateMeansWellFormed | dice.py:25-59 | a string is accepted if and only if it is the rendering of some well-formed formula |
| Validation.ValidateAdmitsNonNumericSides | dice.py:50-56 | the check accepts `3dx>2`, whose sides `x` are not a numeral, so the roll stage cannot convert them |
| Validation.ValidateAdmitsZeroSides | dice.py:34-59 | the check accepts `1d0`, where one die must be drawn from the empty range [1, 0] |
| Validation.ValidateStrict | dice.py:25-59 | the corrected check passes exactly when the program's check passes and the roll stage can proceed; it keeps the program's reason for every formula the program rejects |
| Validation.ValidateStrictMeansRollable | dice.py:25-59 | on a well-formed formula, the corrected check passes if and only if the sides are a numeral and are at least 1 whenever a die is rolled |
| Validation.ValidateStrictRejectsNonNumericSides | dice.py:62-75 | the corrected check rejects `3dx>2` for its sides |
| Validation.ValidateStrictRejectsZeroSides | dice.py:76-78 | the corrected check rejects `1d0` for its sides |
| Sorting.Sort | dice.py:83 | the result is sorted ascending and is a permutation of the input |
| Sorting.SortedPermutationUnique | dice.py:83 | two sorted permutations of the same values are equal, so the order of the faces is fixed by their values |
| Sorting.SortIdempotent | dice.py:83 | sorting twice gives the same result as sorting once |
| Roller.Count | dice.py:70 | the dice count read from the digits before the `d` is below 10^k for k digits, and at least 10^(k-1) without a leading zero |
| Roller.Sides | dice.py:72-75 | the sides read from the argument of the `d` obey the same bounds for the argument's length |
| Roller.Roll | dice.py:62-84 | the faces are count many, each between 1 and the sides, ascending, and a permutation of the draws; the `d` is removed from the index list |
| Roller.RollIsSortedDraws | dice.py:83 | the faces equal every ascending arrangement of the draws |
| Roller.RollAlreadySorted | dice.py:83 | the faces are already sorted: re-sorting them changes nothing |
| Selection.KeepLowest | dice.py:106 | `<n` keeps `min(n, length)` faces, and they are a prefix of the faces |
| Selection.KeepHighest | dice.py:108 | `>n` keeps a suffix of `min(n, length)` faces, except that `>0` keeps all of them |
| Selection.KeepLowestKeepsSmallest | dice.py:106 | on sorted faces, `<n` keeps values no larger than any it drops, and kept plus dropped faces are all the faces |
| Selection.KeepHighestKeepsLargest | dice.py:108 | on sorted faces, `>n` keeps values no smaller than any it drops, and dropped plus kept faces are all the faces |
| Selection.SelectionMods | dice.py:87-111 | the selection run keeps a contiguous piece of the faces, never more of them, and stops at the first operator that is not `<` or `>` |
| Selection.SelectionModsSorted | dice.py:87-111 | the faces stay sorted through the selection stage |
| Selection.LowestThenHighest | dice.py:105-108 | `<n` then `>m` keeps exactly the slice of the faces between the computed bounds, including the rule that `>0` keeps all |
| Scalars.Total | dice.py:124-126 | the summing loop computes the sum of the faces |
| Scalars.SumBounds | dice.py:124-126 | N faces in [1, S] sum to a value between N and N·S |
| Scalars.ApplyScalars | dice.py:128-143 | the running total moves by the net effect of the leading run of `+v`/`-v` adjustments, and the index list after the run is returned |
| Scalars.ScalarMods | dice.py:114-143 | the result is the sum of the kept faces plus the net effect of the scalar run |
| Scalars.NetPermutation | dice.py:137-140 | the net effect of adjustments does not depend on their order |
| Scalars.ScalarOrderIrrelevant | dice.py:129-141 | two formulas whose scalar runs hold the same adjustments in any order give the same total for the same faces |
| Pipeline.Evaluate | dice.py:161-174 | a formula is rejected exactly when the check fails, with the check's reason; otherwise the faces are a sorted permutation of the draws, and the kept faces are a sorted contiguous piece of them |
| Pipeline.EvaluateStrict | dice.py:165-169 | with the corrected check, a formula is rejected exactly when that check fails, and is otherwise evaluated as the program does |
| Pipeline.SelectPhaseAppend | dice.py:97 | modifiers appended after the point where the selection run stops are never read by it |
| Pipeline.SelectPhaseTwo | dice.py:97-110 | two selections followed by a non-selection apply the first keep, then the second, and leave the rest of the modifiers untouched |
| Pipeline.ScalarPhaseAppend | dice.py:129 | after a scalar run has stopped, appended modifiers change nothing; if it has not stopped, they continue it |
| Pipeline.TrailingModifiersIgnored | dice.py:97-143 | whatever follows a formula ending in a scalar adjustment, from a modifier that is not scalar on, does not change the outcome |
| Pipeline.SelectionAgrees | dice.py:97-111 | the index-walking selection loop keeps the same faces as applying the parsed selection modifiers in order, and leaves the same modifiers after it |
| Pipeline.ScalarsAgree | dice.py:129-141 | the index-walking scalar loop reaches the same total as applying the parsed scalar modifiers in order |
| Pipeline.EvaluateMeansFormula | dice.py:161-174 | the index-walking pipeline gives exactly the meaning of the formula obtained by cutting the string at its operators |
| Pipeline.EvaluateFormula | dice.py:161-174 | the rendering of every well-formed formula with fitting draws is accepted and evaluates to the formula's meaning |
| Scenarios.KeepHighestThenLowest | dice.py:15-17 | `5d6>4<3+2-1` keeps the middle three of the five sorted faces and totals their sum plus 1 |
| Scenarios.SelectionCountsNeedNotDecrease | dice.py:97-111 | `5d6<2>3` is accepted although its keep counts increase, and keeps the two lowest faces |
| Scenarios.TrailingSelectionIgnored | dice.py:21-22 | `5d6<4>3+2-1>6` is accepted and evaluates exactly like `5d6<4>3+2-1` |
| Scenarios.ScalarOrderDoesNotMatter | dice.py:129-141 | `3d6+2-1` and `3d6-1+2` give the same outcome, the sum of the faces plus 1 |
| Scenarios.SecondDiceMarkerIgnored | dice.py:97-143 | `2d3d4` is accepted and evaluates like `2d3`: a second `d` stops both modifier runs |
| Scenarios.OneSidedDie | dice.py:62-84 | `1d1` always rolls `[1]`, keeps it and totals 1 |
| Scenarios.RejectTooShort | dice.py:34-36 | `1d` is rejected as too short |
| Scenarios.RejectNoDiceMarker | dice.py:37-39 | `123` is rejected for the missing dice marker |
| Scenarios.RejectNotLeadingDice | dice.py:42-44 | `-1d6` is rejected because its first operator is not the `d` |
| Scenarios.RejectBadCount | dice.py:46-48 | `ad6` is rejected for its count |
| Scenarios.RejectBadModifier | dice.py:50-54 | `3d6>x+1` is rejected for the argument of `>` |
| Scenarios.RejectBadFinal | dice.py:56-58 | `3d6>` is rejected because nothing follows the last operator |

## Left out

- The interactive loop (dice.py:146-174) is not modelled: prompting, the `q` and `h` commands, stripping spaces and looping. Only the evaluation of one formula is modelled.
- The loop ends the program at the first rejected formula (dice.py:166-167). The model returns a `Rejected` outcome instead.
- The help text (dice.py:7-22) and every printed message are left out. A rejection carries a `Reason` tag in place of its message.
- Randomness is an input: the `draws` parameter holds the faces `random.randint` produced, so `Evaluate` requires N draws in [1, S].
- `str.isdigit` and `int()` are modelled on ASCII digits only. Non-ASCII digits are left out even though `isdigit` accepts them: `٣` passes the check and `int()` reads it as 3, while `²` passes the check (as in `1d²`) and then makes `int()` raise at dice.py:75.
- The other forms `int()` accepts (a sign, surrounding whitespace, underscores) are rejected by `isdigit` before `int()` sees them, except in the sides argument, which the check skips when a modifier follows it (see Findings). There `int()` also reads text such as `6_0` as 60; the model treats such sides as not a numeral, so the roll stage's precondition excludes them.
- Roller.Roll: a formula the roll stage cannot process, with non-numeric or zero sides, is excluded by its precondition. In the program it raises an exception, and the Findings below cover it.
- Pipeline.Evaluate: requires the roll stage's needs whenever the check passes, for the same reason as `Roller.Roll`.
- The program does not check that chained keep counts decrease. It also does not enforce the help text's rule that selections come before scalars (dice.py:21-22). The model adds neither check; see `Scenarios.SelectionCountsNeedNotDecrease` and `Scenarios.TrailingSelectionIgnored`.

## Findings

| source | as written | input that shows it | evidently intended | confidence | as-written member | corrected member |
|---|---|---|---|---|---|---|
| dice.py:50-56 | the loop checks the arguments of operators 2 to n-1, and the final check the last one; the argument of the `d` is checked only when the `d` is the last operator | `3dx>2` passes the check, then `int("x")` fails in the roll stage (dice.py:73) | the sides must be a numeral | not executed | Validation.ValidateAdmitsNonNumericSides | Validation.ValidateStrict |
| dice.py:34-59 | no check on the value of the sides | `1d0` passes the check, then `random.randint(1, 0)` fails (dice.py:78) | at least one side whenever a die is rolled | not executed | Validation.ValidateAdmitsZeroSides | Validation.ValidateStrict |
