/**
 * The values the data mapper works on: the operator catalog (enums.ts), the
 * condition trees and compiled expressions (types.ts), the error classes
 * (errors.ts) and the datastore responses the executors read.
 */
module Types {

  datatype Option<+T> = None | Some(value: T) {
    function GetOr(default: T): T {
      match this
      case Some(v) => v
      case None => default
    }
  }

  /** A value or the error a call raises; failure-compatible, so `:-` propagates errors. */
  datatype Result<+T, +E> = Success(value: T) | Failure(error: E) {
    predicate IsFailure() {
      Failure?
    }

    function PropagateFailure<U>(): Result<U, E>
      requires Failure?
    {
      Failure(error)
    }

    function Extract(): T
      requires Success?
    {
      value
    }
  }

  /** ExpressionValue: string | number | boolean. Numbers are integers in this model. */
  datatype Scalar = Str(s: string) | Num(n: int) | Bool(b: bool)

  /** A datastore item: attribute name to value. */
  type Record = map<string, Scalar>

  /** The operator enumeration; at run time each member is its position, 0 to 7. */
  datatype Operator =
    | Equal
    | LessThan
    | LessThanEqual
    | GreaterThan
    | GreaterThanEqual
    | Between
    | BeginsWith
    | Contains

  /** The number the enumeration gives an operator. */
  function Code(op: Operator): (n: int)
    ensures 0 <= n < 8
  {
    match op
    case Equal => 0
    case LessThan => 1
    case LessThanEqual => 2
    case GreaterThan => 3
    case GreaterThanEqual => 4
    case Between => 5
    case BeginsWith => 6
    case Contains => 7
  }

  /** The operator a number stands for, if any. */
  function OperatorOf(n: int): (r: Option<Operator>)
    ensures r.Some? <==> 0 <= n < 8
    ensures r.Some? ==> Code(r.value) == n
    ensures forall op :: r == Some(op) <==> Code(op) == n
  {
    if n == 0 then Some(Equal)
    else if n == 1 then Some(LessThan)
    else if n == 2 then Some(LessThanEqual)
    else if n == 3 then Some(GreaterThan)
    else if n == 4 then Some(GreaterThanEqual)
    else if n == 5 then Some(Between)
    else if n == 6 then Some(BeginsWith)
    else if n == 7 then Some(Contains)
    else None
  }

  /**
   * An attribute name in a condition. An object with an `and` or `or` key is
   * an AND/OR node, never a leaf, so leaf keys exclude those two names.
   */
  type AttrName = s: string | s != "and" && s != "or" witness "id"

  /** The `operator` property of a `{ value, operator }` leaf: absent, or the number given. */
  datatype OperatorArg = Omitted | Given(code: int)

  /** The `value` property of a `{ value, operator }` leaf. */
  datatype SpecValue =
    | Absent                // undefined or null
    | Single(x: Scalar)     // a string, number or boolean
    | Many(xs: seq<Scalar>) // an array, e.g. the pair of a Between

  /** What a leaf maps its attribute name to. */
  datatype LeafValue =
    | Bare(x: Scalar)                                // `{ title: "x" }`, `{ closed: false }`
    | Nullish                                        // `{ title: null }` or an undefined entry
    | Spec(value: SpecValue, operator: OperatorArg)  // `{ size: { value, operator } }`

  /**
   * A condition object. A leaf lists its attribute entries in key order; an
   * object with an `and` key, an `or` key or both is an AND/OR node.
   */
  datatype Cond =
    | Leaf(entries: seq<(AttrName, LeafValue)>)
    | And(and: seq<Child>)
    | Or(or: seq<Child>)
    | AndOr(and: seq<Child>, or: seq<Child>)

  /** One element of an `and`/`or` list: a condition object, or an array of them. */
  datatype Child = Sub(cond: Cond) | List(conds: seq<Cond>)

  /** A compiled (raw) expression: query text plus its two placeholder maps. */
  datatype RawExpression = RawExpression(
    expression: string,
    attributes: map<string, string>,
    values: map<string, Scalar>)

  /** What compileExpression is given, by the key the object carries. */
  datatype Input =
    | Raw(raw: RawExpression)   // has an `expression` key
    | Simple(where: Cond)       // has a `where` key (and no `expression` key)
    | Unrecognized              // has neither

  /** Expression: a text fragment, or an and/or list of expressions. */
  datatype Expression =
    | Text(s: string)
    | AndList(and: seq<Expression>)
    | OrList(or: seq<Expression>)

  /** A datastore reply: a page of a query, or the answer to a count. */
  datatype Response =
    | QueryResponse(error: Option<string>, items: seq<Record>, nextCursor: Option<string>)
    | CountResponse(error: Option<string>, count: int)

  /** A reply to a query call. */
  type Page = r: Response | r.QueryResponse? witness QueryResponse(None, [], None)

  /**
   * The errors the core raises: the three classes of errors.ts, and the
   * TypeError JavaScript raises when a leaf value that is null or undefined
   * is destructured.
   */
  datatype Error =
    | ConfigurationError
    | InvalidExpressionError
    | DatastoreError(response: Response)
    | TypeError
}
