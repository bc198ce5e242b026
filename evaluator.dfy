/** The evaluator and the formatter: the answer of an operand list under one operator,
    and the text printed on the worksheet for it. */
module Evaluator {
  import opened Types
  import opened Decimal

  /** The arithmetic sum, the reference the evaluator is measured against. */
  function Sum(s: seq<int>): int {
    if s == [] then 0 else s[0] + Sum(s[1..])
  }

  /** The magnitude of a number, as printed after a sign. */
  function Abs(x: int): nat {
    if x < 0 then -x else x
  }

  function Apply(acc: int, x: int, op: Operator): int {
    match op
    case Plus => acc + x
    case Minus => acc - x
  }

  /** `Array.prototype.reduce` from the left, starting at `acc`. */
  function FoldLeft(acc: int, s: seq<int>, op: Operator): int
    decreases s
  {
    if s == [] then acc else FoldLeft(Apply(acc, s[0], op), s[1..], op)
  }

  lemma {:induction false} FoldLeftIsSum(acc: int, s: seq<int>, op: Operator)
    ensures FoldLeft(acc, s, op) == if op == Plus then acc + Sum(s) else acc - Sum(s)
    decreases s
  {
    if s != [] {
      FoldLeftIsSum(Apply(acc, s[0], op), s[1..], op);
    }
  }

  /** The answer: addition reduces from 0; subtraction reduces without a seed, so it starts
      at the first operand (and JavaScript throws on an empty list, hence the requires). */
  function CalculateAnswer(operands: seq<int>, op: Operator): (r: int)
    requires op == Plus || |operands| > 0
    ensures op == Plus ==> r == Sum(operands)
    ensures op == Minus ==> r == operands[0] - Sum(operands[1..])
  {
    if op == Plus then
      FoldLeftIsSum(0, operands, Plus);
      FoldLeft(0, operands, Plus)
    else
      FoldLeftIsSum(operands[0], operands[1..], Minus);
      FoldLeft(operands[0], operands[1..], Minus)
  }

  function OperatorSymbol(op: Operator): string {
    match op
    case Plus => "+"
    case Minus => "-"
  }

  /** The text of one later operand: a negative operand flips the displayed sign and shows
      its magnitude. */
  function Term(x: int, op: Operator): (r: string)
  {
    if x < 0 then
      (if op == Plus then " - " else " + ") + NatToString(-x)
    else
      " " + OperatorSymbol(op) + " " + NatToString(x)
  }

  function Terms(s: seq<int>, op: Operator): (r: string)
  {
    if s == [] then "" else Term(s[0], op) + Terms(s[1..], op)
  }

  /** The expression text specified: the first operand as printed, then each later one. */
  function Rendered(operands: seq<int>, op: Operator): string {
    if operands == [] then "" else IntToString(operands[0]) + Terms(operands[1..], op)
  }

  lemma {:induction false} TermsAppend(s: seq<int>, x: int, op: Operator)
    ensures Terms(s + [x], op) == Terms(s, op) + Term(x, op)
  {
    if s == [] {
      assert s + [x] == [x];
    } else {
      assert (s + [x])[1..] == s[1..] + [x];
      TermsAppend(s[1..], x, op);
    }
  }

  /** `formatExpression`: builds the text operand by operand. */
  method FormatExpression(operands: seq<int>, op: Operator) returns (expression: string)
    ensures expression == Rendered(operands, op)
  {
    if |operands| == 0 {
      return "";
    }
    expression := IntToString(operands[0]);
    for i := 1 to |operands|
      invariant expression == RenderedPrefix(operands, i, op)
    {
      var operand := operands[i];
      var piece: string;
      if operand < 0 {
        if op == Plus {
          piece := " - " + NatToString(-operand);
        } else {
          piece := " + " + NatToString(-operand);
        }
      } else {
        piece := " " + OperatorSymbol(op) + " " + NatToString(operand);
      }
      assert piece == Term(operand, op);
      RenderedPrefixStep(operands, i, op);
      expression := expression + piece;
    }
    assert operands[1..|operands|] == operands[1..];
  }

  /** The text of the first i operands. */
  ghost function RenderedPrefix(operands: seq<int>, i: nat, op: Operator): string
    requires 1 <= i <= |operands|
  {
    IntToString(operands[0]) + Terms(operands[1..i], op)
  }

  lemma RenderedPrefixStep(operands: seq<int>, i: nat, op: Operator)
    requires 1 <= i < |operands|
    ensures RenderedPrefix(operands, i + 1, op) == RenderedPrefix(operands, i, op) + Term(operands[i], op)
  {
    var first, earlier, x := IntToString(operands[0]), operands[1..i], operands[i];
    assert operands[1..i + 1] == earlier + [x];
    TermsAppend(earlier, x, op);
    ConcatAssociates(first, Terms(earlier, op), Term(x, op));
  }

  lemma ConcatAssociates(a: string, b: string, c: string)
    ensures a + (b + c) == (a + b) + c
  {
  }

  /** How a reader evaluates worksheet text: a number (possibly with a leading '-'), then
      any number of " + n" or " - n", applied from left to right. None if the text is not
      of that shape. */
  function ReadExpression(s: string): Option<int> {
    if |s| > 0 && s[0] == '-' then ReadLeading(true, s[1..]) else ReadLeading(false, s)
  }

  /** The leading numeral, negated when it followed a '-', then the later terms. */
  function ReadLeading(negated: bool, s: string): Option<int> {
    var k := LeadingDigits(s);
    if k == 0 then None
    else ReadTerms(if negated then 0 - DigitsValue(s[..k]) else DigitsValue(s[..k]), s[k..])
  }

  function ReadTerms(acc: int, s: string): Option<int>
    decreases |s|
  {
    if s == [] then Some(acc)
    else if |s| >= 3 && s[0] == ' ' && s[2] == ' ' && (s[1] == '+' || s[1] == '-') then
      var k := LeadingDigits(s[3..]);
      if k == 0 then None
      else
        var n := DigitsValue(s[3..][..k]);
        ReadTerms(if s[1] == '+' then acc + n else acc - n, s[3..][k..])
    else None
  }

  /** The sign a later operand is displayed with. */
  function DisplayedSign(x: int, op: Operator): char {
    if (x < 0) == (op == Plus) then '-' else '+'
  }

  lemma TermShape(x: int, op: Operator)
    ensures Term(x, op) == [' ', DisplayedSign(x, op), ' '] + NatToString(Abs(x))
  {
  }

  /** Printed later operands begin with a space, so they never run into a preceding numeral. */
  lemma TermsStartWithSpace(s: seq<int>, op: Operator)
    ensures Terms(s, op) == [] || Terms(s, op)[0] == ' '
  {
    if s != [] {
      TermShape(s[0], op);
      assert Terms(s, op) == Term(s[0], op) + Terms(s[1..], op);
    }
  }

  lemma ReadOneTerm(acc: int, sign: char, digits: string, rest: string)
    requires sign == '+' || sign == '-'
    requires |digits| >= 1 && AllDigits(digits)
    requires rest == [] || rest[0] == ' '
    ensures ReadTerms(acc, [' ', sign, ' '] + digits + rest)
         == ReadTerms(if sign == '+' then acc + DigitsValue(digits) else acc - DigitsValue(digits), rest)
  {
    var text := [' ', sign, ' '] + digits + rest;
    assert text[3..] == digits + rest;
    LeadingDigitsOfNumeral(digits, rest);
    assert text[3..][..|digits|] == digits;
    assert text[3..][|digits|..] == rest;
  }

  /** A displayed sign and magnitude stand for the operand applied with the operator. */
  lemma DisplayedStep(acc: int, x: int, op: Operator)
    ensures (if DisplayedSign(x, op) == '+' then acc + Abs(x) else acc - Abs(x)) == Apply(acc, x, op)
  {
  }

  /** One " + n" or " - n" with n printed in decimal is read back as n. */
  lemma ReadNumeralTerm(acc: int, sign: char, m: nat, rest: string)
    requires sign == '+' || sign == '-'
    requires rest == [] || rest[0] == ' '
    ensures ReadTerms(acc, [' ', sign, ' '] + NatToString(m) + rest)
         == ReadTerms(if sign == '+' then acc + m else acc - m, rest)
  {
    var digits := NatToString(m);
    NatToStringReadsBack(m);
    ReadOneTerm(acc, sign, digits, rest);
    var value := DigitsValue(digits);
    assert value == m;
    assert ReadTerms(acc, [' ', sign, ' '] + digits + rest)
        == ReadTerms(if sign == '+' then acc + value else acc - value, rest);
  }

  /** Reading one printed later operand applies it to the running value. */
  lemma ReadTermsStep(acc: int, s: seq<int>, op: Operator)
    requires s != []
    ensures ReadTerms(acc, Terms(s, op)) == ReadTerms(Apply(acc, s[0], op), Terms(s[1..], op))
  {
    var x := s[0];
    var sign, rest := DisplayedSign(x, op), Terms(s[1..], op);
    TermShape(x, op);
    TermsStartWithSpace(s[1..], op);
    assert Terms(s, op) == [' ', sign, ' '] + NatToString(Abs(x)) + rest;
    ReadNumeralTerm(acc, sign, Abs(x), rest);
    DisplayedStep(acc, x, op);
  }

  lemma {:induction false} ReadTermsOfTerms(acc: int, s: seq<int>, op: Operator)
    ensures ReadTerms(acc, Terms(s, op)) == Some(Apply(acc, Sum(s), op))
    decreases s
  {
    if s != [] {
      var after := Apply(acc, s[0], op);
      ReadTermsStep(acc, s, op);
      ReadTermsOfTerms(after, s[1..], op);
      assert Sum(s) == s[0] + Sum(s[1..]);
      assert Apply(after, Sum(s[1..]), op) == Apply(acc, Sum(s), op);
    }
  }

  /** A run of digits followed by a space (or nothing) is read as one numeral. */
  lemma ReadDigits(negated: bool, digits: string, rest: string)
    requires |digits| > 0 && AllDigits(digits)
    requires rest == [] || rest[0] == ' '
    ensures ReadLeading(negated, digits + rest)
         == ReadTerms(if negated then 0 - DigitsValue(digits) else DigitsValue(digits), rest)
  {
    var text := digits + rest;
    var k := LeadingDigits(text);
    assert k == |digits| && text[..k] == digits && text[k..] == rest by {
      LeadingDigitsOfNumeral(digits, rest);
      assert text[..|digits|] == digits;
      assert text[|digits|..] == rest;
    }
  }

  /** A printed numeral followed by a space (or nothing) is read back in full. */
  lemma ReadNumeral(negated: bool, m: nat, rest: string)
    requires rest == [] || rest[0] == ' '
    ensures ReadLeading(negated, NatToString(m) + rest) == ReadTerms(if negated then 0 - m else m, rest)
  {
    NatToStringReadsBack(m);
    ReadDigits(negated, NatToString(m), rest);
  }

  /** A leading '-' makes the first numeral negative. */
  lemma ReadAfterMinus(unsigned: string)
    ensures ReadExpression("-" + unsigned) == ReadLeading(true, unsigned)
  {
    assert ("-" + unsigned)[1..] == unsigned;
  }

  /** The first printed operand, sign included, is read back in full. */
  lemma ReadFirstNumber(first: int, rest: string)
    requires rest == [] || rest[0] == ' '
    ensures ReadExpression(IntToString(first) + rest) == ReadTerms(first, rest)
  {
    var digits := NatToString(Abs(first));
    var unsigned := digits + rest;
    ReadNumeral(first < 0, Abs(first), rest);
    if first < 0 {
      assert IntToString(first) + rest == "-" + unsigned by {
        ConcatAssociates("-", digits, rest);
      }
      ReadAfterMinus(unsigned);
    } else {
      assert IntToString(first) + rest == unsigned;
      assert unsigned[0] == digits[0] && IsDigit(digits[0]);
    }
  }

  /** The printed text, read as ordinary arithmetic, evaluates to the computed answer. */
  lemma RenderedReadsBack(operands: seq<int>, op: Operator)
    requires |operands| > 0
    ensures ReadExpression(Rendered(operands, op)) == Some(CalculateAnswer(operands, op))
  {
    var rest := Terms(operands[1..], op);
    assert Rendered(operands, op) == IntToString(operands[0]) + rest;
    TermsStartWithSpace(operands[1..], op);
    ReadFirstNumber(operands[0], rest);
    ReadTermsOfTerms(operands[0], operands[1..], op);
    assert Sum(operands) == operands[0] + Sum(operands[1..]);
    assert Apply(operands[0], Sum(operands[1..]), op) == CalculateAnswer(operands, op);
  }

  /** Two problems printed alike have the same answer, so telling problems apart by their
      text never discards a problem whose answer differs. */
  lemma SameTextSameAnswer(a: seq<int>, opA: Operator, b: seq<int>, opB: Operator)
    requires |a| > 0 && |b| > 0
    requires Rendered(a, opA) == Rendered(b, opB)
    ensures CalculateAnswer(a, opA) == CalculateAnswer(b, opB)
  {
    RenderedReadsBack(a, opA);
    RenderedReadsBack(b, opB);
  }

  /** Sign folding: adding -6 prints as subtraction, subtracting -6 as addition; the two
      different problems share one text. */
  lemma FormatExamples()
    ensures Rendered([15, -6], Plus) == "15 - 6"
    ensures Rendered([15, -6], Minus) == "15 + 6"
    ensures Rendered([15, 6], Minus) == Rendered([15, -6], Plus)
    ensures Rendered([], Plus) == "" && Rendered([], Minus) == ""
  {
    assert NatToString(15) == "15" by {
      assert NatToString(1) == "1";
    }
    assert NatToString(6) == "6";
    assert [15, -6][1..] == [-6];
    assert [15, 6][1..] == [6];
  }
}
