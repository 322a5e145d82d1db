/**
 * The compiler as the source runs it (data_mapper.ts:94-350): parseCondition
 * and parseConditions write into the two records they share and push the
 * texts they compile onto and/or lists inside loops. Every method here is
 * proved to produce what the functions of module Walk describe.
 */
module DataMapper {
  import opened Types
  import opened Text
  import opened Rendering
  import opened Builder
  import opened Walk
  import Executor

  /**
   * The `attributes` and `values` records one compileExpression call shares
   * across the whole walk, and the number of Math.random fragments drawn.
   */
  class Records {
    var attributes: map<string, string>
    var values: map<string, Scalar>
    var drawn: nat

    constructor ()
      ensures attributes == map[] && values == map[] && drawn == 0
    {
      attributes := map[];
      values := map[];
      drawn := 0;
    }

    function Snapshot(): State
      reads this
    {
      State(attributes, values, drawn)
    }
  }

  /**
   * A call returned `r` and left the records in `now`, as `spec` says: the
   * same text and records on success, the same error on failure. After an
   * error compileExpression drops the records, so their contents are not
   * followed then.
   */
  predicate Agrees<T(==)>(r: Result<T, Error>, spec: Result<(T, State), Error>, now: State)
  {
    match spec
    case Success(v) => r == Success(v.0) && now == v.1
    case Failure(e) => r == Failure(e)
  }

  /** isConditions: the object has an `and` or an `or` key. */
  predicate IsConditions(c: Cond): (b: bool)
    ensures b <==> c.And? || c.Or? || c.AndOr?
  {
    !c.Leaf?
  }

  /** parseCondition: compiles one leaf into the shared records. */
  method ParseCondition(condition: Cond, records: Records, random: nat -> string) returns (r: Result<string, Error>)
    modifies records
    ensures Agrees(r, ParseLeaf(condition, old(records.Snapshot()), random), records.Snapshot())
  {
    var randomName := random(records.drawn) + Dec(|records.attributes| + 1);
    records.drawn := records.drawn + 1;
    if !condition.Leaf? {
      r := Failure(ConfigurationError);
      return;
    }
    if condition.entries == [] {
      r := Failure(TypeError);
      return;
    }
    var attributeName := condition.entries[0].0;
    records.attributes := records.attributes["#" + randomName := attributeName];
    match condition.entries[0].1 {
      case Bare(x) =>
        if x.Str? {
          records.values := records.values[":" + randomName := x];
          r := Success("#" + randomName + " = :" + randomName);
        } else {
          r := Failure(ConfigurationError);
        }
      case Nullish =>
        r := Failure(TypeError);
      case Spec(value, operator) =>
        if value.Absent? {
          r := Failure(ConfigurationError);
          return;
        }
        var valueNames, values := StoreValues(randomName, value, records.values);
        records.values := values;
        r := BuildExpression(OperatorCode(operator), "#" + randomName, valueNames);
    }
  }

  /**
   * The loop of parseCondition over `Object.entries(value)`: stores each
   * element under its `:name` placeholder and collects the placeholders.
   */
  method StoreValues(randomName: string, value: SpecValue, values: map<string, Scalar>)
    returns (valueNames: seq<string>, stored: map<string, Scalar>)
    ensures valueNames == Names(ValueEntries(randomName, value))
    ensures stored == Insert(values, ValueEntries(randomName, value))
  {
    ghost var entries := ValueEntries(randomName, value);
    valueNames := [];
    stored := values;
    match value {
      case Absent =>
      case Single(x) =>
        if !x.Bool? {
          assert entries[..0] == [];
          valueNames := [":" + randomName];
          stored := stored[":" + randomName := x];
        }
      case Many(xs) =>
        for idx := 0 to |xs|
          invariant valueNames == Names(entries[..idx])
          invariant stored == Insert(values, entries[..idx])
        {
          var key := ":" + randomName + Dec(idx) + "1";
          assert entries[idx] == (key, xs[idx]);
          StoreStep(values, entries, idx);
          valueNames := valueNames + [key];
          stored := stored[key := xs[idx]];
        }
        assert entries[..|xs|] == entries;
    }
  }

  /** Storing one more entry: its name is appended and its value written last. */
  lemma StoreStep(values: map<string, Scalar>, entries: seq<(string, Scalar)>, k: nat)
    requires k < |entries|
    ensures Names(entries[..k + 1]) == Names(entries[..k]) + [entries[k].0]
    ensures Insert(values, entries[..k + 1]) == Insert(values, entries[..k])[entries[k].0 := entries[k].1]
  {
    assert entries[..k + 1][..k] == entries[..k];
  }

  /** parseConditions: compiles a leaf or an AND/OR object into the shared records. */
  method ParseConditions(conditions: Cond, records: Records, random: nat -> string) returns (r: Result<string, Error>)
    modifies records
    ensures Agrees(r, Walk.ParseConditions(conditions, old(records.Snapshot()), random), records.Snapshot())
    decreases conditions
  {
    if IsConditions(conditions) {
      var expression: Option<Expression> := None;
      if conditions.And? || conditions.AndOr? {
        var parts :- ParseList(conditions.and, records, random);
        expression := Some(AndList(Texts(parts)));
      }
      if conditions.Or? || conditions.AndOr? {
        // the expression built so far holds no `or` key, so a fresh or-list replaces it
        var parts :- ParseList(conditions.or, records, random);
        expression := Some(OrList(Texts(parts)));
      }
      var text := FromExpressionToString(expression.value);
      r := Success(text);
    } else {
      r := ParseCondition(conditions, records, random);
    }
  }

  /** The loop over one `and` or `or` list: the texts its elements push, in order. */
  method ParseList(children: seq<Child>, records: Records, random: nat -> string) returns (r: Result<seq<string>, Error>)
    modifies records
    ensures Agrees(r, ParseChildren(children, old(records.Snapshot()), random), records.Snapshot())
    decreases children
  {
    ghost var st0 := records.Snapshot();
    var list: seq<string> := [];
    for k := 0 to |children|
      invariant ParseChildren(children[..k], st0, random) == Success((list, records.Snapshot()))
    {
      ChildrenStep(children, k, st0, list, records.Snapshot(), random);
      var res := ParseElement(children[k], records, random);
      if res.Failure? {
        ChildrenPrefixFails(children, k + 1, st0, random);
        r := Failure(res.error);
        return;
      }
      list := list + res.value;
    }
    assert children[..|children|] == children;
    r := Success(list);
  }

  /**
   * One element of an `and` or `or` list: a nested AND/OR object recurses, an
   * array compiles each of its elements as a leaf, and any other object is a
   * leaf.
   */
  method ParseElement(c: Child, records: Records, random: nat -> string) returns (r: Result<seq<string>, Error>)
    modifies records
    ensures Agrees(r, ParseChild(c, old(records.Snapshot()), random), records.Snapshot())
    decreases c
  {
    match c {
      case Sub(cond) =>
        var res;
        if IsConditions(cond) {
          res := ParseConditions(cond, records, random);
        } else {
          res := ParseCondition(cond, records, random);
        }
        if res.Failure? {
          r := Failure(res.error);
        } else {
          r := Success([res.value]);
        }
      case List(cs) =>
        r := ParseArray(cs, records, random);
    }
  }

  /** The loop over an array element of a list: each of its elements is compiled as a leaf. */
  method ParseArray(cs: seq<Cond>, records: Records, random: nat -> string) returns (r: Result<seq<string>, Error>)
    modifies records
    ensures Agrees(r, ParseLeaves(cs, old(records.Snapshot()), random), records.Snapshot())
  {
    ghost var st0 := records.Snapshot();
    var texts: seq<string> := [];
    for j := 0 to |cs|
      invariant ParseLeaves(cs[..j], st0, random) == Success((texts, records.Snapshot()))
    {
      assert cs[..j + 1][..j] == cs[..j];
      var res := ParseCondition(cs[j], records, random);
      if res.Failure? {
        LeavesPrefixFails(cs, j + 1, st0, random);
        r := Failure(res.error);
        return;
      }
      texts := texts + [res.value];
    }
    assert cs[..|cs|] == cs;
    r := Success(texts);
  }

  /** One more element of a list: it compiles from the records the earlier elements left. */
  lemma ChildrenStep(children: seq<Child>, k: nat, st: State, list: seq<string>, mid: State, random: nat -> string)
    requires k < |children|
    requires ParseChildren(children[..k], st, random) == Success((list, mid))
    ensures ParseChildren(children[..k + 1], st, random) ==
      match ParseChild(children[k], mid, random)
      case Failure(e) => Failure(e)
      case Success(last) => Success((list + last.0, last.1))
  {
    assert children[..k + 1][..k] == children[..k];
  }

  /** A failure in a prefix of a list is the failure of the whole list. */
  lemma {:induction false} ChildrenPrefixFails(children: seq<Child>, k: nat, st: State, random: nat -> string)
    requires k <= |children|
    requires ParseChildren(children[..k], st, random).Failure?
    ensures ParseChildren(children, st, random) == ParseChildren(children[..k], st, random)
    decreases |children|
  {
    if k < |children| {
      var front := children[..|children| - 1];
      assert front[..k] == children[..k];
      ChildrenPrefixFails(front, k, st, random);
    } else {
      assert children[..k] == children;
    }
  }

  /** A failure in a prefix of an array child is the failure of the whole array. */
  lemma {:induction false} LeavesPrefixFails(conds: seq<Cond>, k: nat, st: State, random: nat -> string)
    requires k <= |conds|
    requires ParseLeaves(conds[..k], st, random).Failure?
    ensures ParseLeaves(conds, st, random) == ParseLeaves(conds[..k], st, random)
    decreases |conds|
  {
    if k < |conds| {
      var front := conds[..|conds| - 1];
      assert front[..k] == conds[..k];
      LeavesPrefixFails(front, k, st, random);
    } else {
      assert conds[..k] == conds;
    }
  }

  /** compileExpression: fresh records, one walk, and the records returned with the text. */
  method CompileExpression(given: Input, random: nat -> string) returns (r: Result<RawExpression, Error>)
    ensures r == Compile(given, random)
  {
    match given {
      case Raw(e) =>
        r := Success(e);
      case Simple(where) =>
        var records := new Records();
        var parsed := ParseConditions(where, records, random);
        if parsed.Failure? {
          r := Failure(parsed.error);
          return;
        }
        r := Success(RawExpression(parsed.value, records.attributes, records.values));
      case Unrecognized =>
        r := Failure(InvalidExpressionError);
    }
  }

  /** The `expression` property of findAllBy's arguments. */
  datatype ExpressionProperty =
    | TextProperty(text: string)   // a string: the arguments are themselves a raw expression
    | ObjectProperty(given: Input) // an object: the expression to compile

  /** The arguments of DataMapper.findAllBy, by the keys they carry. */
  datatype FindAllByArgs = FindAllByArgs(
    expression: Option<ExpressionProperty>,
    attributes: map<string, string>,
    values: map<string, Scalar>,
    where: Option<Cond>,
    cursor: Option<string>,
    limit: Option<int>)

  /**
   * What findAllBy hands to compileExpression: an `expression` key wins over
   * a `where` key, and arguments with neither are refused.
   */
  function SelectInput(args: FindAllByArgs): (r: Result<Input, Error>)
    ensures r.Failure? <==> args.expression.None? && args.where.None?
    ensures r.Failure? ==> r.error == ConfigurationError
    // with an `expression` key the `where` key is ignored
    ensures forall t | args.expression == Some(TextProperty(t)) ::
      r == Success(Raw(RawExpression(t, args.attributes, args.values)))
    ensures forall g | args.expression == Some(ObjectProperty(g)) :: r == Success(g)
    ensures args.expression.None? && args.where.Some? ==> r == Success(Simple(args.where.value))
  {
    match args.expression
    case Some(TextProperty(t)) => Success(Raw(RawExpression(t, args.attributes, args.values)))
    case Some(ObjectProperty(given)) => Success(given)
    case None =>
      if args.where.Some? then Success(Simple(args.where.value)) else Failure(ConfigurationError)
  }

  /** A datastore name JavaScript treats as given: present and not empty. */
  predicate Named(datastore: Option<string>)
  {
    datastore.Some? && datastore.value != ""
  }

  /**
   * The mapper of one datastore. The client and the logger it also holds are
   * not part of this model; the replies of the datastore are a parameter of
   * each query.
   */
  class DataMapper {
    const defaultDatastore: Option<string>
    const primaryKey: string

    constructor (datastore: Option<string>, primaryKey: string)
      ensures defaultDatastore == datastore && this.primaryKey == primaryKey
    {
      defaultDatastore := datastore;
      this.primaryKey := primaryKey;
    }

    /**
     * findAllBy: refuses a mapper without a datastore and arguments without an
     * expression, compiles the selected expression, and runs the query without
     * auto-pagination. Nothing is sent when any of these steps fails.
     */
    method FindAllBy(args: FindAllByArgs, random: nat -> string, pages: seq<Page>)
      returns (result: Result<Response, Error>, calls: seq<Executor.Request>)
      requires Executor.Exhausts(pages)
      ensures !Named(defaultDatastore) ==> result == Failure(ConfigurationError) && calls == []
      ensures SelectInput(args).Failure? ==> result == Failure(ConfigurationError) && calls == []
      ensures Named(defaultDatastore) && SelectInput(args).Success? ==>
        match Compile(SelectInput(args).value, random)
        case Failure(e) => result == Failure(e) && calls == []
        case Success(compiled) =>
          Executor.QueriedAll(defaultDatastore.value, compiled, args.cursor, args.limit, None, pages, result, calls)
    {
      calls := [];
      if !Named(defaultDatastore) {
        result := Failure(ConfigurationError);
        return;
      }
      var datastore := defaultDatastore.value;
      var input := SelectInput(args);
      if input.Failure? {
        result := Failure(input.error);
        return;
      }
      var compiled := CompileExpression(input.value, random);
      if compiled.Failure? {
        result := Failure(compiled.error);
        return;
      }
      result, calls := Executor.FindAllBy(datastore, compiled.value, args.cursor, args.limit, None, pages);
    }
  }
}
