/**
 * The condition-tree walk of data_mapper.ts:136-350 as functions: every
 * function takes the two shared records (and the number of random fragments
 * drawn so far) and returns the text it compiled together with the records
 * afterwards, or the error the walk raises. The imperative methods in
 * data_mapper.dfy are proved to compute exactly these.
 *
 * Math.random is the parameter `random`: `random(k)` is the fragment the
 * k-th draw yields (five base-36 digits of a random number).
 */
module Walk {
  import opened Types
  import opened Text
  import opened Rendering
  import opened Builder

  /** The shared `attributes` and `values` records, and how many fragments have been drawn. */
  datatype State = State(attributes: map<string, string>, values: map<string, Scalar>, drawn: nat)

  /** The records compileExpression starts from. */
  const Start := State(map[], map[], 0)

  /** randomName: a fresh fragment followed by one more than the number of attribute entries. */
  function NameAt(st: State, random: nat -> string): string {
    random(st.drawn) + Dec(|st.attributes| + 1)
  }

  /** The name the k-th visit draws when every earlier visit bound one attribute. */
  function Name(random: nat -> string, k: nat): string {
    random(k) + Dec(k + 1)
  }

  /**
   * The `:name` entries a `{ value, operator }` leaf adds, in order: one for
   * a string or number; none for a boolean (Object.entries of a boolean is
   * empty); for an array, one per element, the element's index followed by
   * the digit 1 (the string index plus 1 concatenates: "01", "11", ...).
   */
  function ValueEntries(name: string, value: SpecValue): seq<(string, Scalar)>
  {
    match value
    case Absent => []
    case Single(x) => if x.Bool? then [] else [(":" + name, x)]
    case Many(xs) => seq(|xs|, i requires 0 <= i < |xs| => (":" + name + Dec(i) + "1", xs[i]))
  }

  /** The placeholder names of a list of entries. */
  function Names(entries: seq<(string, Scalar)>): seq<string> {
    seq(|entries|, i requires 0 <= i < |entries| => entries[i].0)
  }

  /** The values record after storing each entry in turn. */
  function Insert(values: map<string, Scalar>, entries: seq<(string, Scalar)>): map<string, Scalar>
  {
    if entries == [] then values
    else
      var last := entries[|entries| - 1];
      Insert(values, entries[..|entries| - 1])[last.0 := last.1]
  }

  /**
   * An omitted operator is Equal. (Equal is 0, the one falsy operator
   * number, so a given 0 is Equal as well.)
   */
  function OperatorCode(arg: OperatorArg): int {
    match arg
    case Omitted => Code(Equal)
    case Given(n) => n
  }

  /** Expressions that stand for already compiled texts. */
  function Texts(parts: seq<string>): seq<Expression> {
    seq(|parts|, i requires 0 <= i < |parts| => Text(parts[i]))
  }

  /**
   * parseCondition: one leaf. It binds a fresh `#name` to the object's first
   * key and compiles that key's value only.
   */
  function ParseLeaf(condition: Cond, st: State, random: nat -> string): Result<(string, State), Error>
  {
    var name := NameAt(st, random);
    match condition
    case Leaf(entries) =>
      if entries == [] then
        // no first key: the value looked up is undefined and cannot be destructured
        Failure(TypeError)
      else
        var attributes := st.attributes["#" + name := entries[0].0];
        var drawn := st.drawn + 1;
        (match entries[0].1
        case Bare(x) =>
          if x.Str? then
            Success(("#" + name + " = :" + name, State(attributes, st.values[":" + name := x], drawn)))
          else
            // a number or boolean destructures to an undefined `value`
            Failure(ConfigurationError)
        case Nullish => Failure(TypeError)
        case Spec(value, operator) =>
          if value.Absent? then Failure(ConfigurationError)
          else
            var entries := ValueEntries(name, value);
            var text :- BuildExpression(OperatorCode(operator), "#" + name, Names(entries));
            Success((text, State(attributes, Insert(st.values, entries), drawn))))
    case _ =>
      // an and/or object taken as a leaf: its first value is an array, which has no `value`
      Failure(ConfigurationError)
  }

  /**
   * parseConditions: a leaf is compiled by ParseLeaf; an AND/OR node compiles
   * its children in order and joins their texts. A node with both keys
   * compiles its `and` children first, then replaces the and-list by a fresh
   * or-list, so only the `or` children's texts reach the result.
   */
  function ParseConditions(conditions: Cond, st: State, random: nat -> string): Result<(string, State), Error>
  {
    match conditions
    case Leaf(_) => ParseLeaf(conditions, st, random)
    case And(cs) =>
      var done :- ParseChildren(cs, st, random);
      Success((ToText(AndList(Texts(done.0))), done.1))
    case Or(cs) =>
      var done :- ParseChildren(cs, st, random);
      Success((ToText(OrList(Texts(done.0))), done.1))
    case AndOr(ands, ors) =>
      var first :- ParseChildren(ands, st, random);
      var done :- ParseChildren(ors, first.1, random);
      Success((ToText(OrList(Texts(done.0))), done.1))
  }

  /** The body of the loop over an `and`/`or` list: the texts its children push, in order. */
  function ParseChildren(children: seq<Child>, st: State, random: nat -> string): Result<(seq<string>, State), Error>
  {
    if children == [] then Success(([], st))
    else
      var before :- ParseChildren(children[..|children| - 1], st, random);
      var last :- ParseChild(children[|children| - 1], before.1, random);
      Success((before.0 + last.0, last.1))
  }

  /**
   * One child: an AND/OR object recurses, an array pushes one leaf text per
   * element, and any other object is one leaf (parseConditions hands it to
   * parseCondition, so the two branches agree).
   */
  function ParseChild(child: Child, st: State, random: nat -> string): Result<(seq<string>, State), Error>
  {
    match child
    case Sub(c) =>
      var done :- ParseConditions(c, st, random);
      Success(([done.0], done.1))
    case List(cs) => ParseLeaves(cs, st, random)
  }

  /** The elements of an array child, each compiled as a leaf, whatever its shape. */
  function ParseLeaves(conds: seq<Cond>, st: State, random: nat -> string): Result<(seq<string>, State), Error>
  {
    if conds == [] then Success(([], st))
    else
      var before :- ParseLeaves(conds[..|conds| - 1], st, random);
      var last :- ParseLeaf(conds[|conds| - 1], before.1, random);
      Success((before.0 + [last.0], last.1))
  }

  /** What parseCondition does with one object: the errors it raises, the attribute it binds and the draw it makes. */
  lemma LeafOutcome(condition: Cond, st: State, random: nat -> string)
    ensures !condition.Leaf? ==> ParseLeaf(condition, st, random) == Failure(ConfigurationError)
    ensures condition.Leaf? && condition.entries == [] ==> ParseLeaf(condition, st, random) == Failure(TypeError)
    ensures condition.Leaf? && condition.entries != [] && condition.entries[0].1.Nullish? ==>
      ParseLeaf(condition, st, random) == Failure(TypeError)
    ensures ParseLeaf(condition, st, random).Success? ==>
      condition.Leaf? && condition.entries != [] &&
      ParseLeaf(condition, st, random).value.1.drawn == st.drawn + 1 &&
      ParseLeaf(condition, st, random).value.1.attributes == st.attributes["#" + NameAt(st, random) := condition.entries[0].0]
  {
  }

  /** An array child compiles each of its elements as a leaf: one text and one draw per element. */
  lemma {:induction false} LeavesTexts(conds: seq<Cond>, st: State, random: nat -> string)
    requires ParseLeaves(conds, st, random).Success?
    ensures |ParseLeaves(conds, st, random).value.0| == |conds|
    ensures ParseLeaves(conds, st, random).value.1.drawn == st.drawn + |conds|
  {
    if conds != [] {
      LeavesTexts(conds[..|conds| - 1], st, random);
      LeafOutcome(conds[|conds| - 1], ParseLeaves(conds[..|conds| - 1], st, random).value.1, random);
    }
  }

  /** The number of texts a list of children pushes: one per nested object or leaf, one per array element. */
  function Pushed(children: seq<Child>): nat {
    if children == [] then 0
    else Pushed(children[..|children| - 1]) + (match children[|children| - 1] case Sub(_) => 1 case List(cs) => |cs|)
  }

  /** One child pushes one text when it is an object, and one per element when it is an array. */
  lemma ChildTexts(child: Child, st: State, random: nat -> string)
    requires ParseChild(child, st, random).Success?
    ensures |ParseChild(child, st, random).value.0| == Pushed([child])
  {
    assert [child][..0] == [];
    if child.List? {
      LeavesTexts(child.conds, st, random);
    }
  }

  /** The loop over an `and`/`or` list pushes exactly the texts its children push, in order. */
  lemma {:induction false} ChildrenTexts(children: seq<Child>, st: State, random: nat -> string)
    requires ParseChildren(children, st, random).Success?
    ensures |ParseChildren(children, st, random).value.0| == Pushed(children)
  {
    if children != [] {
      var init := children[..|children| - 1];
      ChildrenTexts(init, st, random);
      ChildTexts(children[|children| - 1], ParseChildren(init, st, random).value.1, random);
      assert [children[|children| - 1]][..0] == [];
    }
  }

  /**
   * compileExpression: an input with an `expression` key is returned as it
   * is, one with a `where` key is compiled from empty records, anything else
   * raises InvalidExpressionError. (parseConditions always yields a string,
   * so the source's conversion of a non-string result is never taken.)
   */
  function Compile(given: Input, random: nat -> string): (r: Result<RawExpression, Error>)
    ensures given.Raw? ==> r == Success(given.raw)
    ensures given.Unrecognized? ==> r == Failure(InvalidExpressionError)
    ensures given.Simple? ==> (r.Success? <==> ParseConditions(given.where, Start, random).Success?)
  {
    match given
    case Raw(e) => Success(e)
    case Simple(where) =>
      var done :- ParseConditions(where, Start, random);
      Success(RawExpression(done.0, done.1.attributes, done.1.values))
    case Unrecognized => Failure(InvalidExpressionError)
  }
}
