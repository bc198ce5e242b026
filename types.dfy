/** The records the worksheet generator consumes and produces. */
module Types {

  /** The single operator applied uniformly to all operands of one problem. */
  datatype Operator = Plus | Minus

  /** What the caller asks for: how many problems, and two toggles. */
  datatype ProblemConfig = ProblemConfig(count: nat, allowNegative: bool, allowThreeOperands: bool)

  /** One worksheet problem. `operandCount` records the length of the final operand list. */
  datatype MathProblem = MathProblem(
    id: string,
    expression: string,
    answer: int,
    operands: seq<int>,
    operator: Operator,
    operandCount: nat)

  /** A problem before it is given an id (the single-problem builder's result). */
  datatype Draft = Draft(
    expression: string,
    answer: int,
    operands: seq<int>,
    operator: Operator,
    operandCount: nat)
  {
    /** The spread `{ ...problem, id }`: every field kept, the id added. */
    function WithId(id: string): MathProblem
    {
      MathProblem(id, expression, answer, operands, operator, operandCount)
    }
  }

  datatype Option<T> = None | Some(value: T)
}
