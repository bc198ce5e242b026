/** The single-problem builder (`generateSingleProblem`) and the batch generator
    (`generateProblems`). */
module Generator {
  import opened Types
  import opened Random
  import opened Decimal
  import opened Evaluator
  import opened Sampler
  import opened Sorting

  /** Operand-sampler calls the builder makes before falling back. */
  const MaxSingleAttempts: nat := 1000
  /** Builder calls the batch generator may make per requested problem. */
  const AttemptsPerProblem: nat := 100

  /** The lowest answer allowed: 0, or -100 once negative answers are allowed. */
  function MinAnswer(allowNegative: bool): int {
    if allowNegative then -100 else 0
  }

  /** The builder's own fallback operands: 10 + 10, or 20 - 10. */
  function BuilderFallback(op: Operator): seq<int> {
    if op == Plus then [10, 10] else [20, 10]
  }

  /** How a problem's fields hang together: the count is the length of the operand list, the
      answer is its evaluation, the expression its printed text. */
  predicate Consistent(expression: string, answer: int, operands: seq<int>, op: Operator, operandCount: nat) {
    && operandCount == |operands|
    && |operands| > 0
    && answer == CalculateAnswer(operands, op)
    && expression == Rendered(operands, op)
  }

  /** The builder's fallback answers are the evaluations of its fallback operands, and lie in
      every allowed answer range. */
  lemma BuilderFallbackAnswers(op: Operator, allowNegative: bool)
    ensures CalculateAnswer(BuilderFallback(op), op) == (if op == Plus then 20 else 10)
    ensures MinAnswer(allowNegative) <= CalculateAnswer(BuilderFallback(op), op) <= 100
  {
    var f := BuilderFallback(op);
    assert f[1..] == [10] && [10][1..] == [];
    assert Sum([10]) == 10;
  }

  /** What the builder promises of its result: consistent fields, an answer in the allowed
      range, and operands that are either its own fallback or passed every check of the
      sampler (coming from the allowed ranges unless they are the sampler's fallback pair). */
  predicate Built(problem: Draft, op: Operator, operandCount: nat, config: ProblemConfig, requiresComplexity: bool) {
    && problem.operator == op
    && Consistent(problem.expression, problem.answer, problem.operands, op, problem.operandCount)
    && MinAnswer(config.allowNegative) <= problem.answer <= 100
    && (|| problem.operands == BuilderFallback(op)
        || (&& Acceptable(problem.operands, op, requiresComplexity, config.allowNegative)
            && (|| problem.operands == FallbackOperands(op, requiresComplexity)
                || (&& |problem.operands| == operandCount
                    && forall i :: 0 <= i < |problem.operands| ==> OperandInRange(problem.operands[i], config.allowNegative)))))
  }

  /** A built problem with two or three requested operands is a valid worksheet problem. */
  lemma BuiltIsValid(problem: Draft, op: Operator, operandCount: nat, config: ProblemConfig, requiresComplexity: bool, id: string)
    requires operandCount == 2 || (operandCount == 3 && config.allowThreeOperands)
    requires Built(problem, op, operandCount, config, requiresComplexity)
    ensures ValidProblem(problem.WithId(id), config)
  {
  }

  /** `generateSingleProblem`: draws operand lists until one has an answer in the allowed
      range, at most 1000 times, and falls back to a fixed two-operand problem otherwise. */
  method GenerateSingleProblem(op: Operator, operandCount: nat, config: ProblemConfig, requiresComplexity: bool,
                               draws: Draws, pos: nat)
    returns (problem: Draft, next: nat)
    requires op == Plus || operandCount > 0
    ensures Built(problem, op, operandCount, config, requiresComplexity)
    ensures next >= pos
  {
    var operands: seq<int> := [];
    var answer := 0;
    var attempts := 0;
    next := pos;
    while true
      invariant 0 <= attempts < MaxSingleAttempts
      invariant next >= pos
      decreases MaxSingleAttempts - attempts
    {
      operands, next := GenerateMixedOperands(operandCount, op, requiresComplexity, config.allowNegative, draws, next);
      if |operands| == 0 {
        attempts := attempts + 1;
      } else {
        answer := CalculateAnswer(operands, op);
        if MinAnswer(config.allowNegative) <= answer <= 100 {
          break;
        }
        attempts := attempts + 1;
      }
      if attempts >= MaxSingleAttempts {
        break;
      }
    }
    if |operands| == 0 || attempts >= MaxSingleAttempts {
      BuilderFallbackAnswers(op, config.allowNegative);
      if op == Plus {
        operands := [10, 10];
        answer := 20;
      } else {
        operands := [20, 10];
        answer := 10;
      }
    }
    var expression := FormatExpression(operands, op);
    problem := Draft(expression, answer, operands, op, |operands|);
  }

  /** The final id of the problem at position `index`. */
  function ProblemId(index: nat): string {
    "problem-" + NatToString(index)
  }

  /** No two positions share an id. */
  lemma ProblemIdsDistinct(i: nat, j: nat)
    requires i != j
    ensures ProblemId(i) != ProblemId(j)
  {
    var prefix := "problem-";
    if ProblemId(i) == ProblemId(j) {
      assert NatToString(i) == ProblemId(i)[|prefix|..];
      assert NatToString(j) == ProblemId(j)[|prefix|..];
      NatToStringInjective(i, j);
    }
  }

  /** What every generated problem satisfies. */
  predicate ValidProblem(p: MathProblem, config: ProblemConfig) {
    && Consistent(p.expression, p.answer, p.operands, p.operator, p.operandCount)
    && MinAnswer(config.allowNegative) <= p.answer <= 100
    && (p.operandCount == 2 || (p.operandCount == 3 && config.allowThreeOperands))
  }

  /** A batch so far: every problem valid, no expression twice, none already seen before. */
  predicate GoodBatch(s: seq<MathProblem>, config: ProblemConfig, seen: set<string>) {
    && DistinctExpressions(s)
    && (forall i :: 0 <= i < |s| ==> ValidProblem(s[i], config))
    && (forall i :: 0 <= i < |s| ==> s[i].expression !in seen)
  }

  /** `generateProblems`: up to `count * 100` builder calls, keeping each problem whose
      expression is new; then a stable sort by operand count and fresh ids by position. */
  method GenerateProblems(config: ProblemConfig, existingProblems: seq<MathProblem>, draws: Draws, pos: nat)
    returns (problems: seq<MathProblem>, next: nat,
             ghost accepted: seq<MathProblem>, ghost rejected: seq<string>, ghost rounds: nat)
    ensures |problems| <= config.count
    ensures rounds <= config.count * AttemptsPerProblem
    ensures |problems| == config.count || rounds == config.count * AttemptsPerProblem
    ensures GoodBatch(problems, config, ExpressionsOf(existingProblems))
    ensures SortedByOperandCount(problems)
    ensures forall i :: 0 <= i < |problems| ==> problems[i].id == ProblemId(i)
    ensures |accepted| == |problems|
    ensures |accepted| + |rejected| == rounds
    ensures forall e :: e in rejected ==> e in ExpressionsOf(existingProblems) + ExpressionsOf(problems)
    ensures existingProblems == [] && config.count > 0 ==> |problems| > 0
    ensures forall i :: 0 <= i < |problems| ==> problems[i] == SortByOperandCount(accepted)[i].(id := ProblemId(i))
    ensures next >= pos
  {
    problems := [];
    var existingExpressions := ExpressionsOf(existingProblems);
    ghost var seen := existingExpressions;
    var attempts := 0;
    rejected := [];
    var maxTotalAttempts := config.count * AttemptsPerProblem;
    next := pos;
    while |problems| < config.count && attempts < maxTotalAttempts
      invariant |problems| <= config.count && |problems| <= attempts <= maxTotalAttempts
      invariant existingExpressions == seen + ExpressionsOf(problems)
      invariant |problems| + |rejected| == attempts
      invariant forall e :: e in rejected ==> e in existingExpressions
      invariant seen == {} && attempts > 0 ==> |problems| > 0
      invariant GoodBatch(problems, config, seen)
      invariant next >= pos
      decreases maxTotalAttempts - attempts
    {
      var operandCount := 2;
      if config.allowThreeOperands {
        if draws(next) < 0.2 {
          operandCount := 3;
        }
        next := next + 1;
      }
      var operator := if draws(next) < 0.5 then Plus else Minus;
      var requiresComplexity := draws(next + 1) < 0.8;
      next := next + 2;
      var problem;
      problem, next := GenerateSingleProblem(operator, operandCount, config, requiresComplexity, draws, next);
      if problem.expression !in existingExpressions {
        var numbered := problem.WithId(ProblemId(|problems|));
        BuiltIsValid(problem, operator, operandCount, config, requiresComplexity, numbered.id);
        AcceptKeepsBatch(problems, numbered, config, seen);
        problems := problems + [numbered];
        existingExpressions := existingExpressions + {problem.expression};
      } else {
        rejected := rejected + [problem.expression];
      }
      attempts := attempts + 1;
    }
    rounds := attempts;
    accepted := problems;
    SortKeepsBatch(accepted, config, seen);
    problems := SortByOperandCount(problems);
    ghost var sorted := problems;
    problems := Renumber(problems);
    RenumberKeepsBatch(sorted, problems, config, seen);
    assert existingExpressions == seen + ExpressionsOf(problems);
  }

  /** The `forEach` of `generateProblems`: each problem's id becomes `problem-<position>`. */
  method Renumber(sorted: seq<MathProblem>) returns (problems: seq<MathProblem>)
    ensures |problems| == |sorted|
    ensures forall k :: 0 <= k < |problems| ==> problems[k] == sorted[k].(id := ProblemId(k))
  {
    problems := sorted;
    for index := 0 to |problems|
      invariant |problems| == |sorted|
      invariant forall k :: 0 <= k < index ==> problems[k] == sorted[k].(id := ProblemId(k))
      invariant forall k :: index <= k < |problems| ==> problems[k] == sorted[k]
    {
      problems := problems[index := problems[index].(id := ProblemId(index))];
    }
  }

  lemma AcceptKeepsBatch(problems: seq<MathProblem>, p: MathProblem, config: ProblemConfig, seen: set<string>)
    requires GoodBatch(problems, config, seen)
    requires ValidProblem(p, config)
    requires p.expression !in seen + ExpressionsOf(problems)
    ensures GoodBatch(problems + [p], config, seen)
    ensures seen + ExpressionsOf(problems + [p]) == seen + ExpressionsOf(problems) + {p.expression}
  {
    var grown := problems + [p];
    forall i, j | 0 <= i < j < |grown|
      ensures grown[i].expression != grown[j].expression
    {
      if j == |problems| {
        assert grown[i] in problems;
      }
    }
    assert forall i :: 0 <= i < |problems| ==> grown[i] == problems[i];
    ExpressionsOfAppend(problems, p);
  }

  lemma SortKeepsBatch(accepted: seq<MathProblem>, config: ProblemConfig, seen: set<string>)
    requires GoodBatch(accepted, config, seen)
    ensures GoodBatch(SortByOperandCount(accepted), config, seen)
    ensures SortedByOperandCount(SortByOperandCount(accepted))
    ensures ExpressionsOf(SortByOperandCount(accepted)) == ExpressionsOf(accepted)
  {
    var sorted := SortByOperandCount(accepted);
    SortSorts(accepted);
    SortKeepsDistinct(accepted);
    forall i | 0 <= i < |sorted|
      ensures ValidProblem(sorted[i], config) && sorted[i].expression !in seen
    {
      PermutationMembers(sorted, accepted, sorted[i]);
      var j :| 0 <= j < |accepted| && accepted[j] == sorted[i];
    }
  }

  lemma RenumberKeepsBatch(sorted: seq<MathProblem>, problems: seq<MathProblem>, config: ProblemConfig, seen: set<string>)
    requires GoodBatch(sorted, config, seen) && SortedByOperandCount(sorted)
    requires |problems| == |sorted|
    requires forall k :: 0 <= k < |problems| ==> problems[k] == sorted[k].(id := ProblemId(k))
    ensures GoodBatch(problems, config, seen) && SortedByOperandCount(problems)
    ensures ExpressionsOf(problems) == ExpressionsOf(sorted)
  {
    forall i, j | 0 <= i < j < |problems|
      ensures problems[i].expression != problems[j].expression
      ensures problems[i].operandCount <= problems[j].operandCount
    {
      assert problems[i].expression == sorted[i].expression && problems[j].expression == sorted[j].expression;
    }
    forall i | 0 <= i < |problems|
      ensures ValidProblem(problems[i], config)
    {
      assert problems[i].operands == sorted[i].operands;
    }
    forall e | e in ExpressionsOf(problems)
      ensures e in ExpressionsOf(sorted)
    {
      var i :| 0 <= i < |problems| && problems[i].expression == e;
      assert sorted[i] in sorted;
    }
    forall e | e in ExpressionsOf(sorted)
      ensures e in ExpressionsOf(problems)
    {
      var i :| 0 <= i < |sorted| && sorted[i].expression == e;
      assert problems[i] in problems;
    }
  }
}
