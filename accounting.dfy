/**
 * What one compile walk does to the shared `attributes` and `values` records
 * (data_mapper.ts:144, 208-233, 269-274).
 *
 * Every leaf visit draws a fragment and binds `#` + fragment + (attribute
 * count + 1). The counter suffix alone keeps attribute keys apart as long as
 * every fragment has the same length; value keys, which append the element
 * index, can still collide unless the fragments are also pairwise different
 * (see ValueKeysCanCollide). Both records only ever grow.
 */
module Accounting {
  import opened Types
  import opened Text
  import opened Walk

  /** Every fragment has the length of the first one (Math.random yields five base-36 digits almost always). */
  ghost predicate Fixed(random: nat -> string) {
    forall k :: |random(k)| == |random(0)|
  }

  /** The first n draws yield pairwise different fragments. */
  ghost predicate DistinctUpTo(random: nat -> string, n: nat) {
    forall i, j :: 0 <= i < j < n ==> random(i) != random(j)
  }

  /** The attribute key the k-th leaf visit binds when every earlier visit added one. */
  function AttrKey(random: nat -> string, k: nat): string {
    "#" + Name(random, k)
  }

  ghost function AttrKeys(random: nat -> string, n: nat): set<string> {
    set k | 0 <= k < n :: AttrKey(random, k)
  }

  ghost function Fragments(random: nat -> string, n: nat): set<string> {
    set k | 0 <= k < n :: random(k)
  }

  /** The attribute keys are exactly those of the visits so far. */
  ghost predicate AttrSound(st: State, random: nat -> string) {
    st.attributes.Keys == AttrKeys(random, st.drawn)
  }

  /** Every value key is `:` followed by one of the first n fragments. */
  ghost predicate ValuesFrom(values: map<string, Scalar>, random: nat -> string, n: nat) {
    forall key :: key in values ==>
      |key| > |random(0)| && key[1..|random(0)| + 1] in Fragments(random, n)
  }

  /** Every value key is `:` followed by a fragment drawn so far. */
  ghost predicate ValueSound(st: State, random: nat -> string) {
    ValuesFrom(st.values, random, st.drawn)
  }

  /** No entry of `m` is overwritten in `m2`. */
  ghost predicate Keeps<V>(m: map<string, V>, m2: map<string, V>) {
    forall key :: key in m ==> key in m2 && m2[key] == m[key]
  }

  /** Leaf visits of a condition: one per leaf, one per element of an array child. */
  function Visits(c: Cond): nat {
    match c
    case Leaf(_) => 1
    case And(cs) => ChildrenVisits(cs)
    case Or(cs) => ChildrenVisits(cs)
    case AndOr(ands, ors) => ChildrenVisits(ands) + ChildrenVisits(ors)
  }

  function ChildrenVisits(cs: seq<Child>): nat {
    if cs == [] then 0 else ChildrenVisits(cs[..|cs| - 1]) + ChildVisits(cs[|cs| - 1])
  }

  function ChildVisits(ch: Child): nat {
    match ch
    case Sub(c) => Visits(c)
    case List(cs) => |cs|
  }

  /** Value placeholders a `{ value }` record adds: one for a string or number, none for a boolean, one per array element. */
  function ValueCount(value: SpecValue): nat {
    match value
    case Absent => 0
    case Single(x) => if x.Bool? then 0 else 1
    case Many(xs) => |xs|
  }

  /** Value placeholders one leaf adds when it compiles. */
  function LeafSlots(c: Cond): nat {
    match c
    case Leaf(entries) =>
      if entries == [] then 0
      else (match entries[0].1
        case Bare(_) => 1
        case Nullish => 0
        case Spec(value, _) => ValueCount(value))
    case _ => 0
  }

  function Slots(c: Cond): nat {
    match c
    case Leaf(_) => LeafSlots(c)
    case And(cs) => ChildrenSlots(cs)
    case Or(cs) => ChildrenSlots(cs)
    case AndOr(ands, ors) => ChildrenSlots(ands) + ChildrenSlots(ors)
  }

  function ChildrenSlots(cs: seq<Child>): nat {
    if cs == [] then 0 else ChildrenSlots(cs[..|cs| - 1]) + ChildSlots(cs[|cs| - 1])
  }

  function ChildSlots(ch: Child): nat {
    match ch
    case Sub(c) => Slots(c)
    case List(cs) => LeavesSlots(cs)
  }

  function LeavesSlots(cs: seq<Cond>): nat {
    if cs == [] then 0 else LeavesSlots(cs[..|cs| - 1]) + LeafSlots(cs[|cs| - 1])
  }

  /**
   * A successful walk from `st` to `st2` visited `visits` leaves: both records
   * only grew, at most one attribute per visit; with same-length fragments
   * every visit added exactly its own attribute key and overwrote nothing;
   * with distinct same-length fragments every value placeholder is new too.
   */
  ghost predicate Extends(st: State, st2: State, visits: nat, slots: nat, random: nat -> string) {
    && st2.drawn == st.drawn + visits
    && st.attributes.Keys <= st2.attributes.Keys
    && st.values.Keys <= st2.values.Keys
    && |st2.attributes| <= |st.attributes| + visits
    && |st2.values| <= |st.values| + slots
    && AttrsKept(st, st2, random)
    && ValuesKept(st, st2, slots, random)
  }

  /** With same-length fragments, the attribute keys stay those of the visits and none is overwritten. */
  ghost predicate AttrsKept(st: State, st2: State, random: nat -> string) {
    Fixed(random) && AttrSound(st, random) ==>
      AttrSound(st2, random) && Keeps(st.attributes, st2.attributes)
  }

  /** With distinct same-length fragments, `slots` new value keys are added and none is overwritten. */
  ghost predicate ValuesKept(st: State, st2: State, slots: nat, random: nat -> string) {
    Fixed(random) && DistinctUpTo(random, st2.drawn) && ValueSound(st, random) ==>
      ValueSound(st2, random) && Keeps(st.values, st2.values) && |st2.values| == |st.values| + slots
  }

  lemma ExtendsTrans(s1: State, s2: State, s3: State, v1: nat, v2: nat, l1: nat, l2: nat, random: nat -> string)
    requires Extends(s1, s2, v1, l1, random) && Extends(s2, s3, v2, l2, random)
    ensures Extends(s1, s3, v1 + v2, l1 + l2, random)
  {
  }

  lemma ExtendsNothing(st: State, random: nat -> string)
    ensures Extends(st, st, 0, 0, random)
  {
  }

  /** With same-length fragments, the k-th attribute key determines k. */
  lemma AttrKeyInjective(random: nat -> string, i: nat, j: nat)
    requires Fixed(random)
    requires AttrKey(random, i) == AttrKey(random, j)
    ensures i == j
  {
    assert AttrKey(random, i) == ("#" + random(i)) + Dec(i + 1);
    assert AttrKey(random, j) == ("#" + random(j)) + Dec(j + 1);
    SameSuffix("#" + random(i), Dec(i + 1), "#" + random(j), Dec(j + 1));
    DecInjective(i + 1, j + 1);
  }

  /** With same-length fragments, n visits bind n different attribute keys. */
  lemma {:induction false} AttrKeysCount(random: nat -> string, n: nat)
    requires Fixed(random)
    ensures |AttrKeys(random, n)| == n
  {
    if n == 0 {
      assert AttrKeys(random, 0) == {};
    } else {
      AttrKeysCount(random, n - 1);
      AttrKeysStep(random, n - 1);
    }
  }

  /** One more visit adds its own key, which is new when fragments have the same length. */
  lemma AttrKeysStep(random: nat -> string, n: nat)
    ensures AttrKeys(random, n + 1) == AttrKeys(random, n) + {AttrKey(random, n)}
    ensures Fixed(random) ==> AttrKey(random, n) !in AttrKeys(random, n)
  {
    forall x | x in AttrKeys(random, n + 1)
      ensures x in AttrKeys(random, n) + {AttrKey(random, n)}
    {
      var k :| 0 <= k < n + 1 && x == AttrKey(random, k);
      if k < n {
        assert x in AttrKeys(random, n);
      }
    }
    if Fixed(random) && AttrKey(random, n) in AttrKeys(random, n) {
      var k :| 0 <= k < n && AttrKey(random, k) == AttrKey(random, n);
      AttrKeyInjective(random, k, n);
    }
  }

  /** The keys of a list of entries. */
  ghost function EntryKeys(entries: seq<(string, Scalar)>): set<string> {
    set i | 0 <= i < |entries| :: entries[i].0
  }

  /** Storing entries adds exactly their keys, and at most one entry each. */
  lemma {:induction false} InsertKeys(values: map<string, Scalar>, entries: seq<(string, Scalar)>)
    ensures Insert(values, entries).Keys == values.Keys + EntryKeys(entries)
    ensures |Insert(values, entries)| <= |values| + |entries|
  {
    if entries != [] {
      var front := entries[..|entries| - 1];
      var last := entries[|entries| - 1];
      InsertKeys(values, front);
      EntryKeysStep(entries);
      UpdateKeys(Insert(values, front), last.0, last.1);
    }
  }

  lemma UpdateKeys<V>(m: map<string, V>, k: string, v: V)
    ensures m[k := v].Keys == m.Keys + {k}
    ensures |m[k := v]| <= |m| + 1
  {
    if k in m {
      assert m[k := v].Keys == m.Keys;
    } else {
      assert m[k := v].Keys == m.Keys + {k};
    }
  }

  lemma EntryKeysStep(entries: seq<(string, Scalar)>)
    requires entries != []
    ensures EntryKeys(entries) == EntryKeys(entries[..|entries| - 1]) + {entries[|entries| - 1].0}
  {
    var front := entries[..|entries| - 1];
    forall x | x in EntryKeys(entries)
      ensures x in EntryKeys(front) + {entries[|entries| - 1].0}
    {
      var i :| 0 <= i < |entries| && x == entries[i].0;
      if i < |front| {
        assert front[i] == entries[i];
      }
    }
    forall x | x in EntryKeys(front)
      ensures x in EntryKeys(entries)
    {
      var i :| 0 <= i < |front| && x == front[i].0;
      assert entries[i] == front[i];
    }
  }

  /** Storing entries with new, pairwise different keys overwrites nothing and adds one entry each. */
  lemma {:induction false} InsertFresh(values: map<string, Scalar>, entries: seq<(string, Scalar)>)
    requires forall i :: 0 <= i < |entries| ==> entries[i].0 !in values
    requires forall i, j :: 0 <= i < j < |entries| ==> entries[i].0 != entries[j].0
    ensures Keeps(values, Insert(values, entries))
    ensures |Insert(values, entries)| == |values| + |entries|
  {
    if entries != [] {
      var front := entries[..|entries| - 1];
      var last := entries[|entries| - 1];
      InsertFresh(values, front);
      InsertKeys(values, front);
      assert last.0 !in EntryKeys(front);
    }
  }

  /** The value entries of a leaf all start with `:` and the fragment drawn for it, and differ from each other. */
  lemma ValueEntriesShape(name: string, fragment: string, value: SpecValue)
    requires |name| >= |fragment| && name[..|fragment|] == fragment
    ensures |ValueEntries(name, value)| == ValueCount(value)
    ensures forall i :: 0 <= i < |ValueEntries(name, value)| ==>
      |ValueEntries(name, value)[i].0| > |fragment| && ValueEntries(name, value)[i].0[1..|fragment| + 1] == fragment
    ensures forall i, j :: 0 <= i < j < |ValueEntries(name, value)| ==>
      ValueEntries(name, value)[i].0 != ValueEntries(name, value)[j].0
  {
    var entries := ValueEntries(name, value);
    forall i | 0 <= i < |entries|
      ensures |entries[i].0| > |fragment| && entries[i].0[1..|fragment| + 1] == fragment
    {
      assert entries[i].0[..|name| + 1] == ":" + name;
    }
    if value.Many? {
      forall i, j | 0 <= i < j < |entries|
        ensures entries[i].0 != entries[j].0
      {
        if entries[i].0 == entries[j].0 {
          assert (":" + name) + (Dec(i) + "1") == entries[i].0;
          assert (":" + name) + (Dec(j) + "1") == entries[j].0;
          SameSuffix(":" + name, Dec(i) + "1", ":" + name, Dec(j) + "1");
          assert |Dec(i)| == |Dec(j)|;
          SameSuffix(Dec(i), "1", Dec(j), "1");
          DecInjective(i, j);
        }
      }
    }
  }

  /** The value entries a leaf that compiles stores under the name `name`. */
  function LeafEntries(c: Cond, name: string): seq<(string, Scalar)>
    requires c.Leaf? && c.entries != []
  {
    match c.entries[0].1
    case Bare(x) => [(":" + name, x)]
    case Spec(value, _) => ValueEntries(name, value)
    case Nullish => []
  }

  /** A leaf that compiles binds one attribute key and stores its value entries. */
  lemma LeafRecords(c: Cond, st: State, random: nat -> string)
    requires ParseLeaf(c, st, random).Success?
    ensures c.Leaf? && c.entries != []
    ensures ParseLeaf(c, st, random).value.1 == State(
      st.attributes["#" + NameAt(st, random) := c.entries[0].0],
      Insert(st.values, LeafEntries(c, NameAt(st, random))),
      st.drawn + 1)
  {
    var entries := LeafEntries(c, NameAt(st, random));
    assert entries[..0] == [];
  }

  /** The value entries of a leaf are new, pairwise different and all start with its fragment. */
  lemma LeafEntriesShape(c: Cond, st: State, random: nat -> string)
    requires c.Leaf? && c.entries != []
    ensures |LeafEntries(c, NameAt(st, random))| == LeafSlots(c)
    ensures forall i :: 0 <= i < |LeafEntries(c, NameAt(st, random))| ==>
      |LeafEntries(c, NameAt(st, random))[i].0| > |random(st.drawn)| &&
      LeafEntries(c, NameAt(st, random))[i].0[1..|random(st.drawn)| + 1] == random(st.drawn)
    ensures forall i, j :: 0 <= i < j < |LeafEntries(c, NameAt(st, random))| ==>
      LeafEntries(c, NameAt(st, random))[i].0 != LeafEntries(c, NameAt(st, random))[j].0
  {
    var name := NameAt(st, random);
    var fragment := random(st.drawn);
    assert name[..|fragment|] == fragment;
    match c.entries[0].1
    case Bare(x) =>
      assert (":" + name)[..|name| + 1] == ":" + name;
    case Spec(value, _) =>
      ValueEntriesShape(name, fragment, value);
    case Nullish =>
  }

  /** With same-length fragments the next attribute key is new. */
  lemma NextAttribute(attributes: map<string, string>, drawn: nat, attr: string, random: nat -> string)
    requires Fixed(random) && attributes.Keys == AttrKeys(random, drawn)
    ensures attributes[AttrKey(random, drawn) := attr].Keys == AttrKeys(random, drawn + 1)
    ensures Keeps(attributes, attributes[AttrKey(random, drawn) := attr])
  {
    AttrKeysStep(random, drawn);
  }

  /** With distinct same-length fragments, a key that carries the next fragment is new. */
  lemma FreshKey(values: map<string, Scalar>, drawn: nat, key: string, random: nat -> string)
    requires Fixed(random) && DistinctUpTo(random, drawn + 1) && ValuesFrom(values, random, drawn)
    requires |key| > |random(drawn)| && key[1..|random(drawn)| + 1] == random(drawn)
    ensures key !in values
  {
    assert |random(drawn)| == |random(0)|;
  }

  /** With distinct same-length fragments, entries that carry the next fragment are all new. */
  lemma NextValues(values: map<string, Scalar>, drawn: nat, entries: seq<(string, Scalar)>, random: nat -> string)
    requires Fixed(random) && DistinctUpTo(random, drawn + 1) && ValuesFrom(values, random, drawn)
    requires forall i :: 0 <= i < |entries| ==>
      |entries[i].0| > |random(drawn)| && entries[i].0[1..|random(drawn)| + 1] == random(drawn)
    requires forall i, j :: 0 <= i < j < |entries| ==> entries[i].0 != entries[j].0
    ensures ValuesFrom(Insert(values, entries), random, drawn + 1)
    ensures Keeps(values, Insert(values, entries))
    ensures |Insert(values, entries)| == |values| + |entries|
  {
    forall i | 0 <= i < |entries|
      ensures entries[i].0 !in values
    {
      FreshKey(values, drawn, entries[i].0, random);
    }
    InsertFresh(values, entries);
    GrownFrom(values, drawn, entries, random);
  }

  /** Entries that carry the next fragment keep every value key made of a drawn fragment. */
  lemma GrownFrom(values: map<string, Scalar>, drawn: nat, entries: seq<(string, Scalar)>, random: nat -> string)
    requires ValuesFrom(values, random, drawn)
    requires |random(drawn)| == |random(0)|
    requires forall i :: 0 <= i < |entries| ==>
      |entries[i].0| > |random(drawn)| && entries[i].0[1..|random(drawn)| + 1] == random(drawn)
    ensures ValuesFrom(Insert(values, entries), random, drawn + 1)
  {
    InsertKeys(values, entries);
    FragmentsStep(random, drawn);
    forall key | key in Insert(values, entries)
      ensures |key| > |random(0)| && key[1..|random(0)| + 1] in Fragments(random, drawn + 1)
    {
      if key !in values {
        var i :| 0 <= i < |entries| && key == entries[i].0;
      }
    }
  }

  lemma FragmentsStep(random: nat -> string, n: nat)
    ensures Fragments(random, n + 1) == Fragments(random, n) + {random(n)}
  {
    forall x | x in Fragments(random, n + 1)
      ensures x in Fragments(random, n) + {random(n)}
    {
      var k :| 0 <= k < n + 1 && x == random(k);
      if k < n {
        assert x in Fragments(random, n);
      }
    }
  }

  /** One leaf visit that binds `attr` and stores `entries`, all carrying the fragment it drew. */
  lemma StepExtends(st: State, attr: string, entries: seq<(string, Scalar)>, random: nat -> string)
    requires forall i :: 0 <= i < |entries| ==>
      |entries[i].0| > |random(st.drawn)| && entries[i].0[1..|random(st.drawn)| + 1] == random(st.drawn)
    requires forall i, j :: 0 <= i < j < |entries| ==> entries[i].0 != entries[j].0
    ensures Extends(st, State(st.attributes["#" + NameAt(st, random) := attr], Insert(st.values, entries), st.drawn + 1),
      1, |entries|, random)
  {
    InsertKeys(st.values, entries);
    UpdateKeys(st.attributes, "#" + NameAt(st, random), attr);
    AttrStep(st, attr, Insert(st.values, entries), random);
    ValueStep(st, attr, entries, random);
  }

  /** With same-length fragments a visit binds the next attribute key and overwrites nothing. */
  lemma AttrStep(st: State, attr: string, values: map<string, Scalar>, random: nat -> string)
    ensures AttrsKept(st, State(st.attributes["#" + NameAt(st, random) := attr], values, st.drawn + 1), random)
  {
    if Fixed(random) && AttrSound(st, random) {
      NameIsNextKey(st, random);
      NextAttribute(st.attributes, st.drawn, attr, random);
    }
  }

  /** With distinct same-length fragments a visit stores only new value keys. */
  lemma ValueStep(st: State, attr: string, entries: seq<(string, Scalar)>, random: nat -> string)
    requires forall i :: 0 <= i < |entries| ==>
      |entries[i].0| > |random(st.drawn)| && entries[i].0[1..|random(st.drawn)| + 1] == random(st.drawn)
    requires forall i, j :: 0 <= i < j < |entries| ==> entries[i].0 != entries[j].0
    ensures ValuesKept(st, State(st.attributes["#" + NameAt(st, random) := attr], Insert(st.values, entries), st.drawn + 1),
      |entries|, random)
  {
    if Fixed(random) && DistinctUpTo(random, st.drawn + 1) && ValueSound(st, random) {
      NextValues(st.values, st.drawn, entries, random);
    }
  }

  /** While every visit has added its own key, the name a visit draws is the next attribute key. */
  lemma NameIsNextKey(st: State, random: nat -> string)
    requires Fixed(random) && AttrSound(st, random)
    ensures NameAt(st, random) == Name(random, st.drawn)
    ensures "#" + NameAt(st, random) == AttrKey(random, st.drawn)
  {
    AttrKeysCount(random, st.drawn);
    assert |st.attributes| == |st.attributes.Keys|;
  }

  /** One leaf visit, when it compiles. */
  lemma LeafExtends(c: Cond, st: State, random: nat -> string)
    requires ParseLeaf(c, st, random).Success?
    ensures Extends(st, ParseLeaf(c, st, random).value.1, 1, LeafSlots(c), random)
  {
    LeafRecords(c, st, random);
    LeafEntriesShape(c, st, random);
    StepExtends(st, c.entries[0].0, LeafEntries(c, NameAt(st, random)), random);
  }

  lemma {:induction false} ConditionsExtends(c: Cond, st: State, random: nat -> string)
    requires ParseConditions(c, st, random).Success?
    ensures Extends(st, ParseConditions(c, st, random).value.1, Visits(c), Slots(c), random)
    decreases c
  {
    match c
    case Leaf(_) =>
      LeafExtends(c, st, random);
    case And(cs) =>
      ChildrenExtends(cs, st, random);
    case Or(cs) =>
      ChildrenExtends(cs, st, random);
    case AndOr(ands, ors) =>
      var first := ParseChildren(ands, st, random).value.1;
      ChildrenExtends(ands, st, random);
      ChildrenExtends(ors, first, random);
      ExtendsTrans(st, first, ParseChildren(ors, first, random).value.1,
        ChildrenVisits(ands), ChildrenVisits(ors), ChildrenSlots(ands), ChildrenSlots(ors), random);
  }

  lemma {:induction false} ChildrenExtends(cs: seq<Child>, st: State, random: nat -> string)
    requires ParseChildren(cs, st, random).Success?
    ensures Extends(st, ParseChildren(cs, st, random).value.1, ChildrenVisits(cs), ChildrenSlots(cs), random)
    decreases cs
  {
    if cs == [] {
      ExtendsNothing(st, random);
    } else {
      var front := cs[..|cs| - 1];
      var mid := ParseChildren(front, st, random).value.1;
      ChildrenExtends(front, st, random);
      ChildExtends(cs[|cs| - 1], mid, random);
      ExtendsTrans(st, mid, ParseChildren(cs, st, random).value.1,
        ChildrenVisits(front), ChildVisits(cs[|cs| - 1]), ChildrenSlots(front), ChildSlots(cs[|cs| - 1]), random);
    }
  }

  lemma {:induction false} ChildExtends(ch: Child, st: State, random: nat -> string)
    requires ParseChild(ch, st, random).Success?
    ensures Extends(st, ParseChild(ch, st, random).value.1, ChildVisits(ch), ChildSlots(ch), random)
    decreases ch
  {
    match ch
    case Sub(c) =>
      ConditionsExtends(c, st, random);
    case List(cs) =>
      LeavesExtends(cs, st, random);
  }

  lemma {:induction false} LeavesExtends(cs: seq<Cond>, st: State, random: nat -> string)
    requires ParseLeaves(cs, st, random).Success?
    ensures Extends(st, ParseLeaves(cs, st, random).value.1, |cs|, LeavesSlots(cs), random)
    decreases cs
  {
    if cs == [] {
      ExtendsNothing(st, random);
    } else {
      var front := cs[..|cs| - 1];
      var mid := ParseLeaves(front, st, random).value.1;
      LeavesExtends(front, st, random);
      LeafExtends(cs[|cs| - 1], mid, random);
      ExtendsTrans(st, mid, ParseLeaves(cs, st, random).value.1,
        |front|, 1, LeavesSlots(front), LeafSlots(cs[|cs| - 1]), random);
    }
  }

  /** Whatever the fragments, a compiled filter binds at most one attribute per leaf visit. */
  lemma CompileBound(where: Cond, random: nat -> string)
    requires Compile(Simple(where), random).Success?
    ensures |Compile(Simple(where), random).value.attributes| <= Visits(where)
    ensures |Compile(Simple(where), random).value.values| <= Slots(where)
  {
    ConditionsExtends(where, Start, random);
  }

  /**
   * With same-length fragments the attribute keys are exactly the keys of the
   * visits, one per leaf visit: none is overwritten.
   */
  lemma CompileAttributes(where: Cond, random: nat -> string)
    requires Fixed(random)
    requires Compile(Simple(where), random).Success?
    ensures Compile(Simple(where), random).value.attributes.Keys == AttrKeys(random, Visits(where))
    ensures |Compile(Simple(where), random).value.attributes| == Visits(where)
  {
    assert AttrKeys(random, 0) == {};
    ConditionsExtends(where, Start, random);
    AttrKeysCount(random, Visits(where));
  }

  /** With distinct same-length fragments no value placeholder is overwritten either. */
  lemma CompileValues(where: Cond, random: nat -> string)
    requires Fixed(random) && DistinctUpTo(random, Visits(where))
    requires Compile(Simple(where), random).Success?
    ensures |Compile(Simple(where), random).value.values| == Slots(where)
  {
    ConditionsExtends(where, Start, random);
  }

  /**
   * Without distinct fragments value placeholders can clash: when the
   * eleventh visit draws the first visit's fragment again, element 10 of the
   * first leaf's array and element 0 of the eleventh leaf's array are given
   * the same key, so the later one overwrites the earlier.
   */
  lemma ValueKeysCanCollide(st: State, random: nat -> string, xs: seq<Scalar>, ys: seq<Scalar>)
    requires st.drawn == 10 && |st.attributes| == 10 && random(10) == random(0)
    requires |xs| > 10 && |ys| > 0
    ensures ValueEntries(NameAt(Start, random), Many(xs))[10].0 == ValueEntries(NameAt(st, random), Many(ys))[0].0
    ensures !DistinctUpTo(random, st.drawn + 1)
  {
    var f := random(0);
    assert Dec(1) == "1" && Dec(10) == "10" && Dec(11) == "11" && Dec(0) == "0";
    assert NameAt(Start, random) == f + "1";
    assert NameAt(st, random) == f + "11";
    assert ":" + (f + "1") + "10" + "1" == ":" + f + "1101";
    assert ":" + (f + "11") + "0" + "1" == ":" + f + "1101";
  }

  /** A generator that meets both assumptions for n draws: fragment k marks position k. */
  function Spread(n: nat): nat -> string {
    k => seq(n, i requires 0 <= i < n => if i == k then 'x' else 'o')
  }

  /** The assumptions of CompileValues can be met, for any number of visits. */
  lemma DistinctDrawsExist(n: nat)
    ensures Fixed(Spread(n)) && DistinctUpTo(Spread(n), n)
  {
    forall i, j | 0 <= i < j < n
      ensures Spread(n)(i) != Spread(n)(j)
    {
      assert Spread(n)(i)[i] != Spread(n)(j)[i];
    }
  }
}
