/** The operand sampler (`generateMixedOperands`): a bounded random search for an operand
    list that passes the quality, range and complexity checks, with a fixed fallback pair. */
module Sampler {
  import opened Types
  import opened Random
  import opened Evaluator
  import opened Heuristics

  /** Whole-list attempts before falling back. */
  const MaxAttempts: nat := 200
  /** Draws of one operand before its last value is kept, quality or not. */
  const MaxValueAttempts: nat := 50

  /** The ranges one operand is drawn from: [10, 100], and [-100, -10] when negative operands
      are allowed. */
  predicate OperandInRange(x: int, allowNegativeOperands: bool) {
    10 <= x <= 100 || (allowNegativeOperands && -100 <= x <= -10)
  }

  /** What an operand list must pass: an answer in [-100, 100], no two operands alike, and
      exactly the requested complexity. */
  predicate Acceptable(operands: seq<int>, op: Operator, requiresComplexity: bool, allowNegativeOperands: bool) {
    && (op == Plus || |operands| > 0)
    && var answer := CalculateAnswer(operands, op);
    && -100 <= answer <= 100
    && OperandsQuality(operands)
    && CheckComplexity(operands, op, answer, allowNegativeOperands) == requiresComplexity
  }

  /** The fixed pair returned once every attempt has failed, keyed by operator and complexity. */
  function FallbackOperands(op: Operator, requiresComplexity: bool): seq<int> {
    match op
    case Plus => if requiresComplexity then [-23, 47] else [20, 30]
    case Minus => if requiresComplexity then [-15, -28] else [50, 20]
  }

  /** Each fallback pair still passes every check of the search, whichever sign rule is in
      force: its answer is in range, its operands are unlike, its complexity is as asked. */
  lemma FallbackAcceptable(op: Operator, requiresComplexity: bool, allowNegativeOperands: bool)
    ensures Acceptable(FallbackOperands(op, requiresComplexity), op, requiresComplexity, allowNegativeOperands)
  {
    var f := FallbackOperands(op, requiresComplexity);
    assert f[1..] == [f[1]] && [f[1]][1..] == [];
    assert OnesSum([f[1]]) == Abs(f[1]) % 10;
    assert OnesSum(f) == Abs(f[0]) % 10 + Abs(f[1]) % 10;
    assert Sum([f[1]]) == f[1];
    assert Sum(f) == f[0] + f[1];
    assert HasNegative(f) <==> f[0] < 0 || f[1] < 0;
    assert HasLargeOperand(f) <==> Abs(f[0]) > 50 || Abs(f[1]) > 50;
    assert OperandsQuality(f) <==> !TooSimilar(f[0], f[1]);
  }

  /** What the fallback does not honour: the complex addition pair holds a negative operand
      even when negative operands are not allowed, the simple pairs are made of round tens
      that the single-number filter rejects, and every pair has two operands whatever count
      was asked for. */
  lemma FallbackQuirks(op: Operator, requiresComplexity: bool)
    ensures requiresComplexity ==>
      exists i :: 0 <= i < 2 && !OperandInRange(FallbackOperands(op, requiresComplexity)[i], false)
    ensures !requiresComplexity ==> forall x :: x in FallbackOperands(op, requiresComplexity) ==> !IsQualityNumber(x)
    ensures |FallbackOperands(op, requiresComplexity)| == 2
  {
    if requiresComplexity {
      assert !OperandInRange(FallbackOperands(op, requiresComplexity)[0], false);
    }
  }

  /** Draws one try takes: a sign draw when negatives are allowed, then a magnitude draw. */
  function DrawsPerTry(allowNegativeOperands: bool): nat {
    if allowNegativeOperands then 2 else 1
  }

  /** One operand: draw (first a sign when negatives are allowed, then a magnitude) until the
      value is a quality number or fifty tries have been made. */
  method SampleOperand(allowNegativeOperands: bool, draws: Draws, pos: nat)
    returns (value: int, next: nat, ghost tries: nat)
    ensures OperandInRange(value, allowNegativeOperands)
    ensures 1 <= tries <= MaxValueAttempts
    ensures next - pos == DrawsPerTry(allowNegativeOperands) * tries
    ensures !IsQualityNumber(value) ==> tries == MaxValueAttempts
  {
    var valueAttempts := 0;
    value, next := 0, pos;
    while true
      invariant 0 <= valueAttempts < MaxValueAttempts
      invariant next - pos == DrawsPerTry(allowNegativeOperands) * valueAttempts
      invariant valueAttempts > 0 ==> OperandInRange(value, allowNegativeOperands)
      decreases MaxValueAttempts - valueAttempts
    {
      var negative := false;
      if allowNegativeOperands {
        negative := draws(next) < 0.5;
        next := next + 1;
      }
      if negative {
        value := RandomBelow(draws(next), 91) - 100;
      } else {
        value := RandomBelow(draws(next), 91) + 10;
      }
      next := next + 1;
      valueAttempts := valueAttempts + 1;
      if !(valueAttempts < MaxValueAttempts && !IsQualityNumber(value)) {
        break;
      }
    }
    tries := valueAttempts;
  }

  /** `generateMixedOperands`: the result passes every check; it is either `count` operands
      drawn from the allowed ranges, or the fallback pair. */
  method GenerateMixedOperands(count: nat, op: Operator, requiresComplexity: bool, allowNegativeOperands: bool,
                               draws: Draws, pos: nat)
    returns (operands: seq<int>, next: nat)
    requires op == Plus || count > 0
    ensures Acceptable(operands, op, requiresComplexity, allowNegativeOperands)
    ensures operands == FallbackOperands(op, requiresComplexity)
         || (|operands| == count && forall i :: 0 <= i < |operands| ==> OperandInRange(operands[i], allowNegativeOperands))
    ensures next >= pos
  {
    var attempts := 0;
    next := pos;
    while attempts < MaxAttempts
      invariant next >= pos
      decreases MaxAttempts - attempts
    {
      var candidate: seq<int> := [];
      for i := 0 to count
        invariant |candidate| == i && next >= pos
        invariant forall k :: 0 <= k < i ==> OperandInRange(candidate[k], allowNegativeOperands)
      {
        var value;
        ghost var tries;
        value, next, tries := SampleOperand(allowNegativeOperands, draws, next);
        candidate := candidate + [value];
      }
      var answer := CalculateAnswer(candidate, op);
      if answer < -100 || answer > 100 {
        attempts := attempts + 1;
        continue;
      }
      var quality := AreOperandsQuality(candidate);
      if !quality {
        attempts := attempts + 1;
        continue;
      }
      var isComplex := CheckComplexity(candidate, op, answer, allowNegativeOperands);
      if requiresComplexity && isComplex {
        return candidate, next;
      } else if !requiresComplexity && !isComplex {
        return candidate, next;
      }
      attempts := attempts + 1;
    }
    FallbackAcceptable(op, requiresComplexity, allowNegativeOperands);
    operands := FallbackOperands(op, requiresComplexity);
  }
}
