/**
 * Turning an Expression into query text (data_mapper.ts:352-373): every
 * member of an and/or list is rendered, wrapped in parentheses, and the
 * results are joined with " and " / " or ".
 */
module Rendering {
  import opened Types
  import opened Text

  function Paren(s: string): string {
    "(" + s + ")"
  }

  /** Each string wrapped in parentheses, in order. */
  function Parenthesised(parts: seq<string>): (r: seq<string>)
    ensures |r| == |parts|
    ensures forall i :: 0 <= i < |parts| ==> r[i] == Paren(parts[i])
  {
    seq(|parts|, i requires 0 <= i < |parts| => Paren(parts[i]))
  }

  /** The text an expression stands for. */
  function ToText(e: Expression): string
  {
    match e
    case Text(s) => s
    case AndList(es) => Join(Parenthesised(seq(|es|, i requires 0 <= i < |es| => ToText(es[i]))), " and ")
    case OrList(es) => Join(Parenthesised(seq(|es|, i requires 0 <= i < |es| => ToText(es[i]))), " or ")
  }

  /** The text of each member of an and/or list, in order (the list fromConditionToStringParts builds). */
  method FromConditionToStringParts(conditions: seq<Expression>) returns (result: seq<string>)
    ensures |result| == |conditions|
    ensures forall i :: 0 <= i < |conditions| ==> result[i] == ToText(conditions[i])
  {
    result := [];
    for k := 0 to |conditions|
      invariant |result| == k
      invariant forall i :: 0 <= i < k ==> result[i] == ToText(conditions[i])
    {
      var c := conditions[k];
      if c.Text? {
        result := result + [c.s];
      } else {
        var s := FromExpressionToString(c);
        result := result + [s];
      }
    }
  }

  /**
   * fromExpressionToString. Its input type is an and-list or an or-list, so
   * the InvalidExpressionError it raises for anything else cannot occur here.
   */
  method FromExpressionToString(expression: Expression) returns (s: string)
    requires !expression.Text?
    ensures s == ToText(expression)
  {
    match expression {
      case AndList(es) =>
        var parts := FromConditionToStringParts(es);
        assert parts == seq(|es|, i requires 0 <= i < |es| => ToText(es[i]));
        s := Join(Parenthesised(parts), " and ");
      case OrList(es) =>
        var parts := FromConditionToStringParts(es);
        assert parts == seq(|es|, i requires 0 <= i < |es| => ToText(es[i]));
        s := Join(Parenthesised(parts), " or ");
    }
  }
}
