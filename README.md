# Arithmetic worksheet generator, modelled in Dafny

This project models the problem generator of a printable arithmetic-worksheet
application. The caller asks for a number of problems and sets two toggles:
negative answers allowed, and three-operand problems allowed. The generator returns
a list of addition and subtraction problems. The list holds no duplicate
expressions, is sorted by operand count and is numbered `problem-0`,
`problem-1`, ... in its final order.

The generator is built in layers, and each layer is one Dafny module:

- `Types`: the configuration and problem records, and an `Option`.
- `Random`: the injected random source. `Math.random()` becomes a stream of draws
  `nat -> Fraction`, where a fraction is a real in [0, 1). Every method that draws
  takes the stream and a cursor, and returns the advanced cursor. Each contract
  holds for every stream, so it holds whatever the draws turn out to be.
- `Decimal`: integer-to-decimal text, as `toString` and template interpolation
  produce it, and a reader that turns the digits back into a number.
- `Evaluator`: `calculateAnswer` and `formatExpression`. The partner of the
  formatter is `ReadExpression`, an independent reader of conventional
  left-to-right `a + b - c` text. The printed text of every problem reads back as
  its computed answer.
- `Heuristics`: the number-quality, operand-similarity, carry/borrow and
  complexity checks. Lemmas restate them in arithmetic terms, for any number of
  operands: multiples of ten and eleven, column sums, and when a problem counts
  as simple.
- `Sampler`: `generateMixedOperands` and its per-operand do-while loop.
- `Sorting`: the stable sort by operand count, specified as a stable insertion
  sort. It is proved sorted, a permutation and stable, and to keep the set of
  expressions.
- `Generator`: `generateSingleProblem` and `generateProblems`.

The functions in the source whose work is a loop are modelled as methods with
`while`/`for` loops and invariants. Each of those methods is proved against a
specification function or predicate. The pure checks are modelled as functions.

Three behaviours of the source are worth stating outright:

- The builder's fallback problems (`10 + 10 = 20`, `20 - 10 = 10`) need no
  exemption from the answer range: they lie inside every allowed range, so every
  generated answer is in range (`Generator.BuilderFallbackAnswers`).
- A second batch generated with the first batch passed in never repeats one of
  its expressions, even when the attempt budget runs out. Fallback problems are
  deduplicated like any other (`Generator.GenerateProblems`).
- The sampler and builder fallbacks keep their behaviour as written. They may
  return a negative operand when negatives are not allowed, or two operands when
  three were asked for. `Sampler.FallbackQuirks` states this; nothing in the
  model corrects it.

## Model

| member | source | states |
|---|---|---|
| Random.RandomBelow | src/utils/problemGenerator.ts:99-102 | `Math.floor(Math.random() * 91)` lies in [0, 91), so a negative draw is in [-100, -10] and a positive one in [10, 100] |
| Decimal.NatToStringReadsBack | src/utils/problemGenerator.ts:252-266 | the decimal text of a number, read digit by digit, gives the number back |
| Decimal.NatToStringInjective | src/utils/problemGenerator.ts:28-30 | different numbers have different decimal texts |
| Evaluator.FoldLeftIsSum | src/utils/problemGenerator.ts:241-245 | folding with `+` from an accumulator adds the sum of the list; folding with `-` subtracts it |
| Evaluator.CalculateAnswer | src/utils/problemGenerator.ts:239-247 | with `+` the answer is the arithmetic sum of the operands; with `-` it is the first operand minus the sum of the rest, i.e. left-to-right subtraction |
| Evaluator.FormatExpression | src/utils/problemGenerator.ts:249-271 | the text built operand by operand equals the specified rendering: the first operand as printed, then a sign-folded ` + n` or ` - n` per later operand; an empty list gives "" |
| Evaluator.RenderedReadsBack | src/utils/problemGenerator.ts:249-271 | reading the printed text as ordinary left-to-right arithmetic gives exactly `calculateAnswer` of the operands, for every non-empty list and both operators |
| Evaluator.SameTextSameAnswer | src/utils/problemGenerator.ts:16-18 | two problems with the same text have the same answer, so deduplicating by expression never drops a problem whose answer differs |
| Evaluator.FormatExamples | src/utils/problemGenerator.ts:256-266 | `[15, -6]` with `+` prints "15 - 6" and with `-` prints "15 + 6"; `[15, 6]` with `-` prints the same text as `[15, -6]` with `+`, and an empty list prints "" |
| Heuristics.IsQualityNumber | src/utils/problemGenerator.ts:145-163 | computes the single-number test branch by branch; its meaning is stated by `IsQualityNumberCharacterised` |
| Heuristics.RepdigitIsMultipleOfEleven | src/utils/problemGenerator.ts:149-154 | for 11..99, equal tens and ones digits is the same as being a multiple of 11 |
| Heuristics.IsQualityNumberCharacterised | src/utils/problemGenerator.ts:145-163 | a number is rejected exactly when its magnitude is a multiple of 10 (0 and 100 included) or a two-digit multiple of 11 |
| Heuristics.IsQualityNumberExamples | src/utils/problemGenerator.ts:145-163 | 11, 20, 0, 100 and -55 are rejected; 23 is accepted |
| Heuristics.AreOperandsQuality | src/utils/problemGenerator.ts:165-189 | the nested loops answer true exactly when no pair of operands shares a tens digit (both magnitudes at least 10) or lies fewer than 5 apart |
| Heuristics.TooSimilarSymmetric | src/utils/problemGenerator.ts:167-184 | the pair test does not depend on which operand comes first |
| Heuristics.OperandsQualityAllPairs | src/utils/problemGenerator.ts:167-168 | checking only pairs i < j is the same as checking every pair of distinct positions in either order |
| Heuristics.OperandsQualityExamples | src/utils/problemGenerator.ts:165-189 | [23, 27], [23, 68, -71], [-14, 12] and [8, 12] are rejected; [23, 68] passes |
| Heuristics.CheckCarryOrBorrow | src/utils/problemGenerator.ts:223-237 | computes the carry/borrow test from the ones digits; its meaning is stated by `CarryMeansColumnOverflow` and `BorrowMeansColumnShortfall` |
| Heuristics.CheckComplexity | src/utils/problemGenerator.ts:191-221 | computes the two complexity rules; their meaning is stated by `SimpleWithNegativesAllowed`, `SimpleAdditionNeedsNoCarry` and `SimpleSubtractionNeedsNoBorrow` |
| Heuristics.SumBounds | src/utils/problemGenerator.ts:214 | for non-negative operands the sum is non-negative and at least every operand |
| Heuristics.SumSplitsIntoColumns | src/utils/problemGenerator.ts:226 | for non-negative operands the sum is ten times the sum of the tens plus the sum of the ones digits |
| Heuristics.CarryMeansColumnOverflow | src/utils/problemGenerator.ts:224-227 | for non-negative operands, the carry test holds exactly when the tens of the sum exceed the sum of the tens |
| Heuristics.BorrowArithmetic | src/utils/problemGenerator.ts:231-233 | for a, b >= 0, a's ones digit is below b's exactly when the tens of a - b fall below the difference of the tens; otherwise they are equal, and they are never more than one apart |
| Heuristics.OnesSumMatchesSum | src/utils/problemGenerator.ts:232 | for non-negative operands the ones digit of the sum of ones digits is the ones digit of the sum |
| Heuristics.BorrowMeansColumnShortfall | src/utils/problemGenerator.ts:229-236 | for any non-empty list of non-negative operands, the borrow test holds exactly when subtracting the sum b of the later operands from the first operand a needs a borrow, i.e. the tens of a - b fall below a's tens minus b's tens (never for a single operand) |
| Heuristics.SimpleWithNegativesAllowed | src/utils/problemGenerator.ts:192-204 | with negative operands allowed, a problem is simple exactly when no operand is negative and the answer is in [0, 50] |
| Heuristics.SimpleAdditionNeedsNoCarry | src/utils/problemGenerator.ts:205-220 | without negative operands, an addition of any number of operands is simple exactly when the sum is at most 50 and needs no carry into the tens |
| Heuristics.SimpleSubtractionNeedsNoBorrow | src/utils/problemGenerator.ts:205-220 | without negative operands, a subtraction a - ... of any number of operands, with b the sum of the later ones, is simple exactly when b <= a <= 50 and no borrow is needed |
| Sampler.SampleOperand | src/utils/problemGenerator.ts:93-105 | the operand lies in an allowed range; between 1 and 50 tries are made, each using two draws when negatives are allowed and one otherwise; a value that fails the quality test is kept only after exactly 50 tries |
| Sampler.GenerateMixedOperands | src/utils/problemGenerator.ts:84-143 | the result has an answer in [-100, 100], passes the similarity check and has exactly the requested complexity; it is either `count` in-range operands or the fixed fallback pair |
| Sampler.FallbackOperands | src/utils/problemGenerator.ts:137-142 | the fixed pair per operator and complexity; what it passes and fails is stated by `FallbackAcceptable` and `FallbackQuirks` |
| Sampler.FallbackAcceptable | src/utils/problemGenerator.ts:137-142 | every fallback pair passes the range, similarity and complexity checks for its request under either sign rule |
| Sampler.FallbackQuirks | src/utils/problemGenerator.ts:137-142 | for every operator, a complex fallback holds an operand outside the non-negative range and a simple one consists of rejected round numbers; every fallback has two operands |
| Generator.BuilderFallback | src/utils/problemGenerator.ts:69-76 | the builder's fixed operands per operator; their answers are stated by `BuilderFallbackAnswers` |
| Generator.BuilderFallbackAnswers | src/utils/problemGenerator.ts:68-77 | the hard-coded answers 20 and 10 are the evaluations of [10, 10] and [20, 10], and lie in every allowed answer range |
| Generator.GenerateSingleProblem | src/utils/problemGenerator.ts:35-82 | the problem's count, answer and text agree with its operands, and the answer is in the allowed range; its operands are the builder fallback, the sampler fallback, or `operandCount` in-range operands that passed every sampler check |
| Generator.BuiltIsValid | src/utils/problemGenerator.ts:79-81 | a built problem, asked for with two operands (or three when allowed), is valid for the configuration whatever id it receives |
| Generator.ProblemId | src/utils/problemGenerator.ts:29 | the id text `problem-<index>`; that ids never collide is stated by `ProblemIdsDistinct` |
| Generator.ProblemIdsDistinct | src/utils/problemGenerator.ts:27-30 | different positions get different ids |
| Generator.AcceptKeepsBatch | src/utils/problemGenerator.ts:16-19 | appending a valid problem with an unseen expression keeps the batch valid and duplicate-free, and adds exactly its expression to the seen set |
| Generator.SortKeepsBatch | src/utils/problemGenerator.ts:24-25 | the sorted batch is ordered by operand count, and stays valid and duplicate-free, with no expression from the seen set |
| Generator.Renumber | src/utils/problemGenerator.ts:28-30 | the loop gives the problem at each position the id `problem-<position>` and leaves every other field as it was |
| Generator.RenumberKeepsBatch | src/utils/problemGenerator.ts:27-30 | renumbering changes only the ids, so the batch stays valid, duplicate-free and sorted, with the same set of expressions |
| Generator.GenerateProblems | src/utils/problemGenerator.ts:3-33 | returns at most `count` problems, fewer only when all `count * 100` attempts were used; every attempt is either accepted or rejected, and each rejected expression is among the existing problems or the returned ones; with no existing problems and a positive count, at least one problem is returned; every problem is valid; no expression repeats or occurs among the existing problems; the list is sorted by operand count; ids are `problem-<position>`; and the list is the stable sort of the accepted problems, renumbered |
| Sorting.SortByOperandCount | src/utils/problemGenerator.ts:25 | the result of the stable sort; its properties are stated by `SortSorts`, `SortIsStable` and `SortKeepsDistinct` |
| Sorting.SortSorts | src/utils/problemGenerator.ts:25 | the sort's output is ordered by operand count and is a permutation of its input |
| Sorting.SortIsStable | src/utils/problemGenerator.ts:25 | problems with the same operand count keep their relative order |
| Sorting.SortKeepsDistinct | src/utils/problemGenerator.ts:25 | sorting keeps expressions distinct and keeps the set of expressions |

## Left out

- Probabilities: the 20%, 50% and 80% splits and the uniformity of the operand draws are not modelled. Each draw may be any value in [0, 1), so every property above holds for every outcome, but nothing is said about how likely each outcome is.
- `Math.random()` returns a double; the model uses an exact real in [0, 1). The floor of `r * 91` then stays in [0, 90], which is what the operand ranges rely on.
- JavaScript numbers are modelled as unbounded integers. Operands, answers and digit sums stay within [-300, 300]; the attempt counters stay at most 1000 or `count * 100`; every value is an integer far below 2^53, where doubles are exact, and ids are short decimal numerals.
- `count` is a `nat`: a negative, fractional or NaN count is not modelled. The number field parses its text with `parseInt` (`src/components/ConfigForm.tsx:47`), so an emptied field gives NaN; the source then makes no attempt and returns an empty list.
- The default arguments of `generateProblems`, `generateSingleProblem` and `generateMixedOperands` are not modelled. Every caller in the core passes all arguments.
- Evaluator.CalculateAnswer: `reduce` without an initial value throws on an empty list with `-`. The model requires a non-empty list there, as do the sampler and builder that call it with `count` operands. Every caller in the core passes two or three operands.
- Sorting.SortSorts: `Array.prototype.sort` is the engine's algorithm. It is specified here by its result (ordered, a permutation, stable) through an insertion sort, not by the engine's own steps.
- Generator.GenerateProblems: the array, the `Set` of seen expressions and the in-place id update are modelled as sequence and set values that the method reassigns. Aliasing of the pushed problem objects is not modelled.
- Generator.GenerateProblems: the attempts, the accepted problems and the rejected expressions are ghost outputs that the method records itself. The contract ties them to the result, but not to the draws: nothing says which problem the builder produces for a given stream, so the contract does not pin down the batch for given draws.
- Generator.GenerateSingleProblem: the bounds of 1000 and 200 attempts in the builder and the sampler are shown only by their loops' termination measures. The bound of 50 tries per operand is stated by Sampler.SampleOperand.
- Generator.GenerateSingleProblem: the builder's branch for an empty sampler result is kept as written. It is reached only when zero operands are requested, which no caller does.
- The user interface, printing, the language toggle and device detection (`App.tsx`, `components/`, `hooks/usePrintOrSave.ts`, `utils/deviceUtils.ts`, `utils/i18n.ts`) are not part of this model.
