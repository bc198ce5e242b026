/** The quality and complexity heuristics: which single numbers are interesting, which operand
    lists are dissimilar enough, and which problems count as needing mental arithmetic. */
module Heuristics {
  import opened Types
  import opened Evaluator

  /** `isQualityNumber`: rejects repdigits between 11 and 99 and every multiple of ten. */
  function IsQualityNumber(num: int): bool {
    var absNum := Abs(num);
    if 11 <= absNum <= 99 && absNum / 10 == absNum % 10 then false
    else if absNum % 10 == 0 then false
    else true
  }

  lemma RepdigitIsMultipleOfEleven(a: int)
    requires 11 <= a <= 99
    ensures a / 10 == a % 10 <==> a % 11 == 0
  {
    var tens, ones := a / 10, a % 10;
    assert a == 11 * tens + (ones - tens);
    assert -9 <= ones - tens <= 8;
    if ones == tens {
      assert a == 11 * tens;
    } else if ones > tens {
      assert a % 11 == ones - tens;
    } else {
      assert a == 11 * (tens - 1) + (11 + ones - tens);
      assert a % 11 == 11 + ones - tens;
    }
  }

  /** A number is rejected exactly when its magnitude is a multiple of ten (0 and 100
      included) or a two-digit multiple of eleven. */
  lemma IsQualityNumberCharacterised(num: int)
    ensures !IsQualityNumber(num) <==>
      Abs(num) % 10 == 0 || (11 <= Abs(num) <= 99 && Abs(num) % 11 == 0)
  {
    if 11 <= Abs(num) <= 99 {
      RepdigitIsMultipleOfEleven(Abs(num));
    }
  }

  lemma IsQualityNumberExamples()
    ensures !IsQualityNumber(11) && !IsQualityNumber(20) && IsQualityNumber(23)
    ensures !IsQualityNumber(0) && !IsQualityNumber(100) && !IsQualityNumber(-55)
  {
  }

  /** Two operands are too alike when both magnitudes have two or more digits and share the
      tens digit, or when the magnitudes are fewer than five apart. */
  predicate TooSimilar(x: int, y: int) {
    var n1, n2 := Abs(x), Abs(y);
    (n1 >= 10 && n2 >= 10 && n1 / 10 == n2 / 10) || Abs(n1 - n2) < 5
  }

  predicate OperandsQuality(operands: seq<int>) {
    forall i, j :: 0 <= i < j < |operands| ==> !TooSimilar(operands[i], operands[j])
  }

  /** `areOperandsQuality`: compares every unordered pair with two index loops, stopping at
      the first pair that is too alike. */
  method AreOperandsQuality(operands: seq<int>) returns (ok: bool)
    ensures ok == OperandsQuality(operands)
  {
    for i := 0 to |operands|
      invariant forall i', j :: 0 <= i' < i && i' < j < |operands| ==> !TooSimilar(operands[i'], operands[j])
    {
      for j := i + 1 to |operands|
        invariant forall i', j' :: 0 <= i' < i && i' < j' < |operands| ==> !TooSimilar(operands[i'], operands[j'])
        invariant forall j' :: i < j' < j ==> !TooSimilar(operands[i], operands[j'])
      {
        var num1: int := Abs(operands[i]);
        var num2: int := Abs(operands[j]);
        if num1 >= 10 && num2 >= 10 {
          var tens1 := num1 / 10;
          var tens2 := num2 / 10;
          if tens1 == tens2 {
            return false;
          }
        }
        if Abs(num1 - num2) < 5 {
          return false;
        }
      }
    }
    return true;
  }

  /** Being alike does not depend on which operand comes first. */
  lemma TooSimilarSymmetric(x: int, y: int)
    ensures TooSimilar(x, y) == TooSimilar(y, x)
  {
  }

  /** Checking only pairs i < j is checking every pair of distinct positions, in either
      order. */
  lemma OperandsQualityAllPairs(operands: seq<int>)
    ensures OperandsQuality(operands) <==>
      forall i, j :: 0 <= i < |operands| && 0 <= j < |operands| && i != j ==> !TooSimilar(operands[i], operands[j])
  {
    if OperandsQuality(operands) {
      forall i, j | 0 <= i < |operands| && 0 <= j < |operands| && i != j
        ensures !TooSimilar(operands[i], operands[j])
      {
        if j < i {
          TooSimilarSymmetric(operands[j], operands[i]);
        }
      }
    }
  }

  lemma OperandsQualityExamples()
    ensures !OperandsQuality([23, 27]) && OperandsQuality([23, 68])
    ensures !OperandsQuality([23, 68, -71]) && !OperandsQuality([-14, 12]) && !OperandsQuality([8, 12])
  {
    assert TooSimilar([23, 27][0], [23, 27][1]);
    assert TooSimilar([23, 68, -71][1], [23, 68, -71][2]);
    assert TooSimilar([-14, 12][0], [-14, 12][1]);
    assert TooSimilar([8, 12][0], [8, 12][1]);
  }

  /** The ones digit of each magnitude, summed (`reduce` from 0). */
  function OnesSum(s: seq<int>): nat {
    if s == [] then 0 else Abs(s[0]) % 10 + OnesSum(s[1..])
  }

  /** `checkCarryOrBorrow`: addition carries when the ones digits sum to ten or more;
      subtraction borrows when the first ones digit is below the ones digit of the sum of the
      other ones digits. */
  function CheckCarryOrBorrow(operands: seq<int>, op: Operator): bool {
    if op == Plus then
      OnesSum(operands) >= 10
    else if |operands| >= 2 then
      Abs(operands[0]) % 10 < OnesSum(operands[1..]) % 10
    else
      false
  }

  /** The tens parts of the operands, summed column-wise. */
  function TensSum(s: seq<int>): int {
    if s == [] then 0 else s[0] / 10 + TensSum(s[1..])
  }

  lemma {:induction false} SumSplitsIntoColumns(s: seq<int>)
    requires forall i :: 0 <= i < |s| ==> s[i] >= 0
    ensures Sum(s) == 10 * TensSum(s) + OnesSum(s)
  {
    if s != [] {
      SumSplitsIntoColumns(s[1..]);
    }
  }

  /** For non-negative operands, addition carries exactly when the tens of the sum exceed
      the column sum of the operands' tens. */
  lemma CarryMeansColumnOverflow(operands: seq<int>)
    requires forall i :: 0 <= i < |operands| ==> operands[i] >= 0
    ensures CheckCarryOrBorrow(operands, Plus) <==> Sum(operands) / 10 > TensSum(operands)
  {
    SumSplitsIntoColumns(operands);
  }

  /** Subtracting b from a borrows from the tens column exactly when a's ones digit is below
      b's; without a borrow the tens of the difference are the difference of the tens, with
      one they are one less. */
  lemma BorrowArithmetic(a: int, b: int)
    requires a >= 0 && b >= 0
    ensures a % 10 < b % 10 <==> (a - b) / 10 < a / 10 - b / 10
    ensures (a - b) / 10 == a / 10 - b / 10 || (a - b) / 10 == a / 10 - b / 10 - 1
  {
    var d := a % 10 - b % 10;
    assert a - b == 10 * (a / 10 - b / 10) + d;
    if d >= 0 {
      assert (a - b) / 10 == a / 10 - b / 10;
    } else {
      assert a - b == 10 * (a / 10 - b / 10 - 1) + (d + 10);
      assert (a - b) / 10 == a / 10 - b / 10 - 1;
    }
  }

  /** For non-negative operands the last digit of the sum is the last digit of the sum of
      the ones digits. */
  lemma OnesSumMatchesSum(s: seq<int>)
    requires forall i :: 0 <= i < |s| ==> s[i] >= 0
    ensures Sum(s) % 10 == OnesSum(s) % 10
  {
    SumSplitsIntoColumns(s);
    var t, o := TensSum(s), OnesSum(s);
    assert Sum(s) == 10 * (t + o / 10) + o % 10;
  }

  /** For non-negative operands, subtraction borrows exactly when taking the sum of the later
      operands from the first needs a borrow: the tens of the answer fall below the
      difference of the tens. */
  lemma BorrowMeansColumnShortfall(operands: seq<int>)
    requires |operands| >= 1
    requires forall i :: 0 <= i < |operands| ==> operands[i] >= 0
    ensures var a, b := operands[0], Sum(operands[1..]);
      CheckCarryOrBorrow(operands, Minus) <==> (a - b) / 10 < a / 10 - b / 10
  {
    var a, rest := operands[0], operands[1..];
    SumBounds(rest);
    BorrowArithmetic(a, Sum(rest));
    if |operands| >= 2 {
      OnesSumMatchesSum(rest);
    } else {
      assert rest == [];
    }
  }

  /** For non-negative operands the sum is non-negative and bounds every operand. */
  lemma {:induction false} SumBounds(s: seq<int>)
    requires forall i :: 0 <= i < |s| ==> s[i] >= 0
    ensures Sum(s) >= 0
    ensures forall i :: 0 <= i < |s| ==> s[i] <= Sum(s)
  {
    if s != [] {
      SumBounds(s[1..]);
      assert forall i :: 1 <= i < |s| ==> s[i] == s[1..][i - 1];
    }
  }

  predicate HasNegative(operands: seq<int>) {
    exists i :: 0 <= i < |operands| && operands[i] < 0
  }

  predicate HasPositive(operands: seq<int>) {
    exists i :: 0 <= i < |operands| && operands[i] > 0
  }

  predicate HasLargeOperand(operands: seq<int>) {
    exists i :: 0 <= i < |operands| && Abs(operands[i]) > 50
  }

  /** `checkComplexity`, with its two rules: one when negative operands may be sampled, the
      other when they may not. */
  function CheckComplexity(operands: seq<int>, op: Operator, answer: int, allowNegativeOperands: bool): bool {
    if allowNegativeOperands then
      var hasNegativeOperands := HasNegative(operands);
      var hasSignChanges := HasNegative(operands) && HasPositive(operands);
      var resultIsNegative := answer < 0;
      var requiresMentalMath := Abs(answer) > 50 || hasNegativeOperands;
      hasNegativeOperands || hasSignChanges || resultIsNegative || requiresMentalMath
    else
      var resultIsNegative := answer < 0;
      var largeResult := Abs(answer) > 50;
      var hasLargeOperands := HasLargeOperand(operands);
      var needsCarryOrBorrow := CheckCarryOrBorrow(operands, op);
      needsCarryOrBorrow || largeResult || hasLargeOperands || resultIsNegative
  }

  /** With negative operands allowed, a problem is simple exactly when all operands are
      non-negative and the answer lies in [0, 50]. */
  lemma SimpleWithNegativesAllowed(operands: seq<int>, op: Operator, answer: int)
    ensures !CheckComplexity(operands, op, answer, true) <==>
      (forall i :: 0 <= i < |operands| ==> operands[i] >= 0) && 0 <= answer <= 50
  {
  }

  /** Without negative operands, an addition is simple exactly when its sum is at most 50
      and needs no carry into the tens column. */
  lemma SimpleAdditionNeedsNoCarry(operands: seq<int>)
    requires forall i :: 0 <= i < |operands| ==> operands[i] >= 0
    ensures var total := Sum(operands);
      !CheckComplexity(operands, Plus, CalculateAnswer(operands, Plus), false) <==>
      total <= 50 && total / 10 == TensSum(operands)
  {
    var total := Sum(operands);
    CarryMeansColumnOverflow(operands);
    SumSplitsIntoColumns(operands);
    SumBounds(operands);
    assert total / 10 >= TensSum(operands);
    assert HasLargeOperand(operands) ==> total > 50;
  }

  /** Without negative operands, a subtraction a - b - ... is simple exactly when the
      subtracted total b is at most a, a is at most 50, and no borrow from the tens column
      is needed. */
  lemma SimpleSubtractionNeedsNoBorrow(operands: seq<int>)
    requires |operands| >= 1
    requires forall i :: 0 <= i < |operands| ==> operands[i] >= 0
    ensures var a, b := operands[0], Sum(operands[1..]);
      !CheckComplexity(operands, Minus, CalculateAnswer(operands, Minus), false) <==>
      b <= a <= 50 && (a - b) / 10 == a / 10 - b / 10
  {
    var a, rest := operands[0], operands[1..];
    var b := Sum(rest);
    assert forall i :: 1 <= i < |operands| ==> operands[i] == rest[i - 1];
    SumBounds(rest);
    BorrowMeansColumnShortfall(operands);
    BorrowArithmetic(a, b);
    assert HasLargeOperand(operands) ==> a > 50 || b > 50;
    assert !HasLargeOperand(operands) ==> a <= 50;
  }
}
