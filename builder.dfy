/**
 * buildExpression (data_mapper.ts:158-190): the text one comparison compiles
 * to, given its operator number, its attribute placeholder and its value
 * placeholders.
 */
module Builder {
  import opened Types
  import opened Text

  /** The infix word of every operator that is written between its operands. */
  function Symbol(op: Operator): string
    requires op != Between && op != BeginsWith
  {
    match op
    case Equal => "="
    case GreaterThan => ">"
    case GreaterThanEqual => ">="
    case LessThan => "<"
    case LessThanEqual => "<="
    case Contains => "contains"
  }

  /**
   * A template literal `${value}` of a string array renders the array's
   * elements joined by commas.
   */
  function Interpolate(value: seq<string>): string {
    Join(value, ",")
  }

  function BuildExpression(operator: int, attribute: string, value: seq<string>): (r: Result<string, Error>)
    // Only an unknown operator number and a Between without exactly two values fail, and both raise InvalidExpressionError.
    ensures r.Failure? <==> OperatorOf(operator).None? || (OperatorOf(operator) == Some(Between) && |value| != 2)
    ensures r.Failure? ==> r.error == InvalidExpressionError
    // Between reads its two bounds in order.
    ensures OperatorOf(operator) == Some(Between) && |value| == 2 ==>
      r.value == attribute + " between " + value[0] + " and " + value[1]
    // BeginsWith is a function call.
    ensures OperatorOf(operator) == Some(BeginsWith) ==>
      r.value == "begins_with(" + attribute + ", " + Interpolate(value) + ")"
    // Every other operator, Contains included, is written infix.
    ensures forall op | OperatorOf(operator) == Some(op) && op != Between && op != BeginsWith ::
      r == Success(attribute + " " + Symbol(op) + " " + Interpolate(value))
  {
    match OperatorOf(operator)
    case Some(BeginsWith) => Success("begins_with(" + attribute + ", " + Interpolate(value) + ")")
    case Some(Between) =>
      if |value| != 2 then Failure(InvalidExpressionError)
      else Success(attribute + " between " + value[0] + " and " + value[1])
    case Some(op) => Success(attribute + " " + Symbol(op) + " " + Interpolate(value))
    case None => Failure(InvalidExpressionError)
  }
}
