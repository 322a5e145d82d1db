/**
 * What the compiler promises about single leaves and about AND/OR
 * composition (data_mapper.ts:136-373), stated over the walk of module Walk
 * for every generator `random`.
 */
module Properties {
  import opened Types
  import opened Text
  import opened Rendering
  import opened Builder
  import opened Walk

  /** Only the first key of a leaf is compiled; the others are ignored. */
  lemma FirstKeyOnly(first: (AttrName, LeafValue), rest: seq<(AttrName, LeafValue)>, st: State, random: nat -> string)
    ensures ParseLeaf(Leaf([first] + rest), st, random) == ParseLeaf(Leaf([first]), st, random)
  {
    assert ([first] + rest)[0] == first;
  }

  /** A leaf without `operator` compiles as the same leaf with Equal. */
  lemma OmittedIsEqual(attr: AttrName, value: SpecValue, st: State, random: nat -> string)
    ensures ParseLeaf(Leaf([(attr, Spec(value, Omitted))]), st, random)
         == ParseLeaf(Leaf([(attr, Spec(value, Given(Code(Equal))))]), st, random)
  {
  }

  /** A bare string is shorthand for `{ value: s }`. */
  lemma BareIsShorthand(attr: AttrName, s: string, st: State, random: nat -> string)
    ensures ParseLeaf(Leaf([(attr, Bare(Str(s)))]), st, random)
         == ParseLeaf(Leaf([(attr, Spec(Single(Str(s)), Omitted))]), st, random)
  {
    var name := NameAt(st, random);
    var entries := ValueEntries(name, Single(Str(s)));
    assert entries == [(":" + name, Str(s))];
    assert entries[..0] == [];
    assert Names(entries) == [":" + name];
    assert Insert(st.values, entries) == st.values[":" + name := Str(s)];
    EqualText("#" + name, ":" + name);
    assert ("#" + name) + " = " + (":" + name) == "#" + name + " = :" + name;
  }

  /** Equal over one placeholder reads `#n = :n`. */
  lemma EqualText(attribute: string, value: string)
    ensures BuildExpression(Code(Equal), attribute, [value]) == Success(attribute + " = " + value)
  {
    assert Interpolate([value]) == value;
    assert attribute + " " + Symbol(Equal) + " " + value == attribute + " = " + value;
  }

  /**
   * A bare number or boolean, and a `{ value }` record whose value is null or
   * undefined, raise ConfigurationError whatever the operator, even one that
   * does not exist.
   */
  lemma RejectedBeforeOperator(attr: AttrName, x: Scalar, op: OperatorArg, rest: seq<(AttrName, LeafValue)>, st: State, random: nat -> string)
    ensures !x.Str? ==> ParseLeaf(Leaf([(attr, Bare(x))] + rest), st, random) == Failure(ConfigurationError)
    ensures ParseLeaf(Leaf([(attr, Spec(Absent, op))] + rest), st, random) == Failure(ConfigurationError)
  {
    assert ([(attr, Bare(x))] + rest)[0] == (attr, Bare(x));
    assert ([(attr, Spec(Absent, op))] + rest)[0] == (attr, Spec(Absent, op));
  }

  /** Each part wrapped in parentheses and the results joined: the text of a list of compiled texts. */
  lemma {:induction false} ListText(parts: seq<string>)
    ensures ToText(AndList(Texts(parts))) == Join(Parenthesised(parts), " and ")
    ensures ToText(OrList(Texts(parts))) == Join(Parenthesised(parts), " or ")
  {
    var es := Texts(parts);
    assert seq(|es|, i requires 0 <= i < |es| => ToText(es[i])) == parts;
  }

  /**
   * An AND/OR node yields its children's texts, each parenthesised, joined
   * with " and " / " or "; an empty list yields "".
   */
  lemma NodeText(cs: seq<Child>, st: State, random: nat -> string)
    ensures ParseConditions(And(cs), st, random).Success? <==> ParseChildren(cs, st, random).Success?
    ensures ParseConditions(Or(cs), st, random).Success? <==> ParseChildren(cs, st, random).Success?
    ensures ParseChildren(cs, st, random).Success? ==>
      var done := ParseChildren(cs, st, random).value;
      && ParseConditions(And(cs), st, random).value == (Join(Parenthesised(done.0), " and "), done.1)
      && ParseConditions(Or(cs), st, random).value == (Join(Parenthesised(done.0), " or "), done.1)
    ensures cs == [] ==>
      ParseConditions(And(cs), st, random) == Success(("", st)) &&
      ParseConditions(Or(cs), st, random) == Success(("", st))
  {
    if ParseChildren(cs, st, random).Success? {
      ListText(ParseChildren(cs, st, random).value.0);
    }
  }

  /** A nested node's joined text is parenthesised again by its parent. */
  lemma NestedParenthesised(c: Cond, st: State, random: nat -> string)
    ensures ParseConditions(And([Sub(c)]), st, random).Success? <==> ParseConditions(c, st, random).Success?
    ensures ParseConditions(c, st, random).Success? ==>
      ParseConditions(And([Sub(c)]), st, random).value == (Paren(ParseConditions(c, st, random).value.0), ParseConditions(c, st, random).value.1)
  {
    assert [Sub(c)][..0] == [];
    NodeText([Sub(c)], st, random);
  }

  /** The children `Sub(c)` for each leaf `c`, in order. */
  function Subs(cs: seq<Cond>): (r: seq<Child>)
    ensures |r| == |cs|
    ensures forall i :: 0 <= i < |cs| ==> r[i] == Sub(cs[i])
  {
    seq(|cs|, i requires 0 <= i < |cs| => Sub(cs[i]))
  }

  /** An array child contributes each of its leaves as a sibling. */
  lemma {:induction false} ArrayIsSiblings(cs: seq<Cond>, st: State, random: nat -> string)
    requires forall i :: 0 <= i < |cs| ==> cs[i].Leaf?
    ensures ParseLeaves(cs, st, random) == ParseChildren(Subs(cs), st, random)
  {
    if cs != [] {
      var front := cs[..|cs| - 1];
      var last := cs[|cs| - 1];
      assert Subs(cs)[..|cs| - 1] == Subs(front);
      ArrayIsSiblings(front, st, random);
      match ParseLeaves(front, st, random)
      case Failure(_) =>
      case Success(before) =>
        LeafChild(last, before.1, random);
    }
  }

  /** A leaf as a child pushes the one text it compiles to. */
  lemma LeafChild(c: Cond, st: State, random: nat -> string)
    requires c.Leaf?
    ensures ParseChild(Sub(c), st, random) ==
      match ParseLeaf(c, st, random)
      case Success(done) => Success(([done.0], done.1))
      case Failure(e) => Failure(e)
  {
  }

  /** Appending a child to a list. */
  lemma ChildrenSnoc(cs: seq<Child>, c: Child, st: State, random: nat -> string)
    ensures ParseChildren(cs + [c], st, random) ==
      match ParseChildren(cs, st, random)
      case Failure(e) => Failure(e)
      case Success(before) =>
        (match ParseChild(c, before.1, random)
        case Failure(e) => Failure(e)
        case Success(last) => Success((before.0 + last.0, last.1)))
  {
    assert (cs + [c])[..|cs|] == cs;
  }

  /** An array child as the only child of an AND/OR node. */
  lemma ArrayChild(cs: seq<Cond>, st: State, random: nat -> string)
    requires forall i :: 0 <= i < |cs| ==> cs[i].Leaf?
    ensures ParseChildren([List(cs)], st, random) == ParseChildren(Subs(cs), st, random)
  {
    ChildrenSnoc([], List(cs), st, random);
    assert [] + [List(cs)] == [List(cs)];
    ArrayIsSiblings(cs, st, random);
    if ParseLeaves(cs, st, random).Success? {
      assert [] + ParseLeaves(cs, st, random).value.0 == ParseLeaves(cs, st, random).value.0;
    }
  }

  /**
   * A node with both keys compiles its `and` children (they draw names and
   * fill the records) and then yields what an `or` node compiles from there:
   * the and-texts are lost.
   */
  lemma BothKeysKeepOr(ands: seq<Child>, ors: seq<Child>, st: State, random: nat -> string)
    ensures ParseChildren(ands, st, random).Failure? ==>
      ParseConditions(AndOr(ands, ors), st, random) == Failure(ParseChildren(ands, st, random).error)
    ensures ParseChildren(ands, st, random).Success? ==>
      ParseConditions(AndOr(ands, ors), st, random)
        == ParseConditions(Or(ors), ParseChildren(ands, st, random).value.1, random)
  {
  }

  /** A single leaf with a bare string: no parentheses, one attribute and one value placeholder. */
  lemma SimpleLeaf(attr: AttrName, s: string, random: nat -> string)
    ensures Compile(Simple(Leaf([(attr, Bare(Str(s)))])), random) == Success(RawExpression(
      "#" + Name(random, 0) + " = :" + Name(random, 0),
      map["#" + Name(random, 0) := attr],
      map[":" + Name(random, 0) := Str(s)]))
  {
  }

  /** Between over two values: one attribute and two value placeholders, suffixed "01" and "11". */
  lemma BetweenLeaf(attr: AttrName, low: Scalar, high: Scalar, random: nat -> string)
    ensures Compile(Simple(Leaf([(attr, Spec(Many([low, high]), Given(Code(Between))))])), random) == Success(RawExpression(
      "#" + Name(random, 0) + " between :" + Name(random, 0) + "01 and :" + Name(random, 0) + "11",
      map["#" + Name(random, 0) := attr],
      map[":" + Name(random, 0) + "01" := low, ":" + Name(random, 0) + "11" := high]))
  {
    var n := Name(random, 0);
    assert NameAt(Start, random) == n;
    BetweenEntries(n, low, high, map[]);
    BetweenText(n);
  }

  /** The text of a Between over the placeholders of a pair. */
  lemma BetweenText(n: string)
    ensures BuildExpression(Code(Between), "#" + n, [":" + n + "01", ":" + n + "11"])
         == Success("#" + n + " between :" + n + "01 and :" + n + "11")
  {
    var text := "#" + n + " between :" + n + "01 and :" + n + "11";
    assert ("#" + n) + " between " + (":" + n + "01") + " and " + (":" + n + "11") == text;
  }

  /** The two placeholders of a pair and the records they fill. */
  lemma BetweenEntries(n: string, low: Scalar, high: Scalar, values: map<string, Scalar>)
    ensures ValueEntries(n, Many([low, high])) == [(":" + n + "01", low), (":" + n + "11", high)]
    ensures Names(ValueEntries(n, Many([low, high]))) == [":" + n + "01", ":" + n + "11"]
    ensures Insert(values, ValueEntries(n, Many([low, high]))) == values[":" + n + "01" := low][":" + n + "11" := high]
  {
    var entries := ValueEntries(n, Many([low, high]));
    assert Dec(0) == "0" && Dec(1) == "1";
    assert entries[0].0 == ":" + n + "01";
    assert entries[1].0 == ":" + n + "11";
    assert entries == [(":" + n + "01", low), (":" + n + "11", high)];
    assert entries[..1] == [(":" + n + "01", low)];
    assert entries[..1][..0] == [];
    assert Insert(values, entries[..1]) == values[":" + n + "01" := low];
  }

  /** Between over any number of values other than two is an invalid expression. */
  lemma BetweenArity(attr: AttrName, xs: seq<Scalar>, st: State, random: nat -> string)
    requires |xs| != 2
    ensures ParseLeaf(Leaf([(attr, Spec(Many(xs), Given(Code(Between))))]), st, random) == Failure(InvalidExpressionError)
  {
    assert |Names(ValueEntries(NameAt(st, random), Many(xs)))| == |xs|;
  }

  /** The names drawn at the first nine visits all differ in their last digit. */
  lemma NamesDiffer(random: nat -> string, i: nat, j: nat)
    requires i < 9 && j < 9 && i != j
    ensures Name(random, i) != Name(random, j)
    ensures "#" + Name(random, i) != "#" + Name(random, j)
    ensures ":" + Name(random, i) != ":" + Name(random, j)
  {
    var ni, nj := Name(random, i), Name(random, j);
    assert ni[|ni| - 1] == Digit(i + 1) && nj[|nj| - 1] == Digit(j + 1);
    assert ("#" + ni)[|"#" + ni| - 1] == ni[|ni| - 1];
    assert ("#" + nj)[|"#" + nj| - 1] == nj[|nj| - 1];
    assert (":" + ni)[|":" + ni| - 1] == ni[|ni| - 1];
    assert (":" + nj)[|":" + nj| - 1] == nj[|nj| - 1];
  }

  /** A leaf binding the attribute `p.0` to the string `p.1`. */
  function VLeaf(p: (AttrName, string)): Child {
    Sub(Leaf([(p.0, Bare(Str(p.1)))]))
  }

  /** The text of the leaf compiled at the k-th visit. */
  function LeafText(random: nat -> string, k: nat): string {
    "#" + Name(random, k) + " = :" + Name(random, k)
  }

  /** A bare-string leaf visited as the k-th child, after k visits that each bound one attribute. */
  lemma BareStep(cs: seq<Child>, attr: (AttrName, string), st: State, texts: seq<string>, random: nat -> string, k: nat)
    requires ParseChildren(cs, Start, random) == Success((texts, st))
    requires |st.attributes| == k && st.drawn == k
    ensures ParseChildren(cs + [VLeaf(attr)], Start, random) == Success((
      texts + [LeafText(random, k)],
      State(st.attributes["#" + Name(random, k) := attr.0], st.values[":" + Name(random, k) := Str(attr.1)], k + 1)))
  {
    ChildrenSnoc(cs, VLeaf(attr), Start, random);
    LeafChild(Leaf([(attr.0, Bare(Str(attr.1)))]), st, random);
  }

  /** The records after the leaves binding a and b. */
  function TwoLeaves(a: (AttrName, string), b: (AttrName, string), random: nat -> string): State {
    State(map["#" + Name(random, 0) := a.0, "#" + Name(random, 1) := b.0],
          map[":" + Name(random, 0) := Str(a.1), ":" + Name(random, 1) := Str(b.1)], 2)
  }

  /** The children of an and-pair: the two leaf texts. */
  lemma AndChildren(a: (AttrName, string), b: (AttrName, string), random: nat -> string)
    ensures ParseChildren([VLeaf(a), VLeaf(b)], Start, random) ==
      Success(([LeafText(random, 0), LeafText(random, 1)], TwoLeaves(a, b, random)))
  {
    var t0 := LeafText(random, 0);
    var s1 := State(map["#" + Name(random, 0) := a.0], map[":" + Name(random, 0) := Str(a.1)], 1);
    BareStep([], a, Start, [], random, 0);
    assert [] + [VLeaf(a)] == [VLeaf(a)];
    assert [] + [t0] == [t0];
    BareStep([VLeaf(a)], b, s1, [t0], random, 1);
    assert [VLeaf(a)] + [VLeaf(b)] == [VLeaf(a), VLeaf(b)];
    assert [t0] + [LeafText(random, 1)] == [t0, LeafText(random, 1)];
  }

  /** An and-pair as the first child: its text is the two leaf texts, parenthesised and joined. */
  lemma AndPair(a: (AttrName, string), b: (AttrName, string), random: nat -> string)
    ensures ParseChildren([Sub(And([VLeaf(a), VLeaf(b)]))], Start, random) == Success((
      ["(" + LeafText(random, 0) + ") and (" + LeafText(random, 1) + ")"],
      TwoLeaves(a, b, random)))
  {
    var t0, t1 := LeafText(random, 0), LeafText(random, 1);
    var and := [VLeaf(a), VLeaf(b)];
    AndChildren(a, b, random);
    NodeText(and, Start, random);
    var andText := "(" + t0 + ") and (" + t1 + ")";
    assert Join(Parenthesised([t0, t1]), " and ") == andText by {
      assert Parenthesised([t0, t1])[1..] == [Paren(t1)];
    }
    assert ParseConditions(And(and), Start, random) == Success((andText, TwoLeaves(a, b, random)));
    ChildrenSnoc([], Sub(And(and)), Start, random);
    assert [] + [Sub(And(and))] == [Sub(And(and))];
    assert [] + [andText] == [andText];
  }

  /** Three texts parenthesised and joined with " or ". */
  lemma OrText(x: string, y: string, z: string)
    ensures Join(Parenthesised([x, y, z]), " or ") == "(" + x + ") or (" + y + ") or (" + z + ")"
  {
    var ps := Parenthesised([x, y, z]);
    assert ps == [Paren(x), Paren(y), Paren(z)];
    assert ps[1..] == [Paren(y), Paren(z)];
    assert ps[1..][1..] == [Paren(z)];
    assert Join(ps[1..], " or ") == Paren(y) + " or " + Paren(z);
    assert Join(ps, " or ") == Paren(x) + " or " + (Paren(y) + " or " + Paren(z));
  }

  /** The records after the four leaves binding a, b, c and d. */
  function FourLeaves(a: (AttrName, string), b: (AttrName, string), c: (AttrName, string), d: (AttrName, string), random: nat -> string): State {
    State(
      map["#" + Name(random, 0) := a.0, "#" + Name(random, 1) := b.0, "#" + Name(random, 2) := c.0, "#" + Name(random, 3) := d.0],
      map[":" + Name(random, 0) := Str(a.1), ":" + Name(random, 1) := Str(b.1),
          ":" + Name(random, 2) := Str(c.1), ":" + Name(random, 3) := Str(d.1)],
      4)
  }

  /** Four visits bind four different attribute and four different value placeholders. */
  lemma FourPlaceholders(a: (AttrName, string), b: (AttrName, string), c: (AttrName, string), d: (AttrName, string), random: nat -> string)
    ensures |FourLeaves(a, b, c, d, random).attributes| == 4
    ensures |FourLeaves(a, b, c, d, random).values| == 4
  {
    NamesDiffer(random, 0, 1);
    NamesDiffer(random, 0, 2);
    NamesDiffer(random, 1, 2);
    NamesDiffer(random, 0, 3);
    NamesDiffer(random, 1, 3);
    NamesDiffer(random, 2, 3);
    var n0, n1, n2, n3 := Name(random, 0), Name(random, 1), Name(random, 2), Name(random, 3);
    FourKeys("#" + n0, "#" + n1, "#" + n2, "#" + n3, a.0, b.0, c.0, d.0);
    FourKeys(":" + n0, ":" + n1, ":" + n2, ":" + n3, Str(a.1), Str(b.1), Str(c.1), Str(d.1));
  }

  /** A map built from four different keys has four entries. */
  lemma FourKeys<V>(k0: string, k1: string, k2: string, k3: string, v0: V, v1: V, v2: V, v3: V)
    requires k0 != k1 && k0 != k2 && k0 != k3 && k1 != k2 && k1 != k3 && k2 != k3
    ensures |map[k0 := v0, k1 := v1, k2 := v2, k3 := v3]| == 4
  {
    var m1 := map[k0 := v0];
    var m2 := m1[k1 := v1];
    var m3 := m2[k2 := v2];
    assert |m1| == 1;
    assert k1 !in m1 && |m2| == 2;
    assert k2 !in m2 && |m3| == 3;
    assert k3 !in m3;
    assert map[k0 := v0, k1 := v1, k2 := v2, k3 := v3] == m3[k3 := v3];
  }

  /** The children of the or-node: the and-pair's text, then the two leaf texts. */
  lemma OrChildren(a: (AttrName, string), b: (AttrName, string), c: (AttrName, string), d: (AttrName, string), random: nat -> string)
    ensures ParseChildren([Sub(And([VLeaf(a), VLeaf(b)])), VLeaf(c), VLeaf(d)], Start, random) == Success((
      ["(" + LeafText(random, 0) + ") and (" + LeafText(random, 1) + ")", LeafText(random, 2), LeafText(random, 3)],
      FourLeaves(a, b, c, d, random)))
  {
    var n0, n1, n2, n3 := Name(random, 0), Name(random, 1), Name(random, 2), Name(random, 3);
    var t2, t3 := LeafText(random, 2), LeafText(random, 3);
    NamesDiffer(random, 0, 1);
    NamesDiffer(random, 0, 2);
    NamesDiffer(random, 1, 2);
    var first := Sub(And([VLeaf(a), VLeaf(b)]));
    var andText := "(" + LeafText(random, 0) + ") and (" + LeafText(random, 1) + ")";
    AndPair(a, b, random);
    var s2 := TwoLeaves(a, b, random);
    assert |s2.attributes| == 2;
    BareStep([first], c, s2, [andText], random, 2);
    assert [first] + [VLeaf(c)] == [first, VLeaf(c)];
    assert [andText] + [t2] == [andText, t2];
    var s3 := State(s2.attributes["#" + n2 := c.0], s2.values[":" + n2 := Str(c.1)], 3);
    assert |s3.attributes| == 3;
    BareStep([first, VLeaf(c)], d, s3, [andText, t2], random, 3);
    assert [first, VLeaf(c)] + [VLeaf(d)] == [first, VLeaf(c), VLeaf(d)];
    assert [andText, t2] + [t3] == [andText, t2, t3];
  }

  /**
   * `or` of an `and` pair and two leaves: the and-pair's text is
   * parenthesised again inside the or-list; four attribute and four value
   * placeholders.
   */
  lemma OrOfAnd(a: (AttrName, string), b: (AttrName, string), c: (AttrName, string), d: (AttrName, string), random: nat -> string)
    ensures var r := Compile(Simple(Or([Sub(And([VLeaf(a), VLeaf(b)])), VLeaf(c), VLeaf(d)])), random);
      && r.Success?
      && r.value.expression ==
        "(" + ("(" + LeafText(random, 0) + ") and (" + LeafText(random, 1) + ")") + ")"
        + " or (" + LeafText(random, 2) + ") or (" + LeafText(random, 3) + ")"
      && |r.value.attributes| == 4
      && |r.value.values| == 4
  {
    var or := [Sub(And([VLeaf(a), VLeaf(b)])), VLeaf(c), VLeaf(d)];
    var andText := "(" + LeafText(random, 0) + ") and (" + LeafText(random, 1) + ")";
    OrChildren(a, b, c, d, random);
    FourPlaceholders(a, b, c, d, random);
    NodeText(or, Start, random);
    OrText(andText, LeafText(random, 2), LeafText(random, 3));
  }
}
