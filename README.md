# deno-slack-data-mapper: the expression compiler and the query executors

This project models the core of deno-slack-data-mapper, an object-to-datastore mapper for Slack apps.
It has two parts:

- the compiler that turns a nested `where` condition tree into a raw datastore query expression, together with its `#attribute` and `:value` placeholder records (`compileExpression`, `parseConditions`, `parseCondition`, `buildExpression`, `fromExpressionToString`);
- the executors that send queries and follow pagination cursors (`findAllBy`, `findFirstBy`, `countBy`), and the argument dispatch of `DataMapper.findAllBy`.

Modules:

- `Types`: the values of the system:
  - operators and their enumeration numbers;
  - condition trees;
  - raw expressions;
  - replies;
  - errors.
- `Text`: `Array.prototype.join`, and the decimal rendering of the counter suffix.
- `Rendering`: expression lists rendered to text, by `fromExpressionToString` and `fromConditionToStringParts`.
- `Builder`: `buildExpression`.
- `Walk`: the compile walk as functions. Each function threads the two shared records and the number of random fragments drawn, and returns the compiled text or the error raised.
- `DataMapper`: the walk as the source runs it:
  - the records are a class whose maps are updated in place;
  - `parseCondition`, `parseConditions` and their list loops are methods;
  - each method is proved to compute what `Walk` describes;
  - `compileExpression`;
  - the `DataMapper` class with the `findAllBy` dispatch.
- `Accounting`: what a walk does to the records:
  - they only grow;
  - one attribute per leaf visit;
  - when no placeholder is overwritten.
- `Properties`: leaf shorthands, AND/OR composition, and the worked examples of the test suite.
- `Executor`: the query loops over a datastore given as a sequence of replies.

`Math.random` is the parameter `random: nat -> string`. `random(k)` is the fragment the k-th leaf visit draws.

The datastore is a sequence `pages` of replies: query call k receives `pages[k]`. Each executor returns the list of requests it made, so that cursors, limits and filters can be stated.

## Model

| member | source | states |
|---|---|---|
| Types.Code | enums.ts:1-10 | every operator's enumeration number lies in 0..7 |
| Types.OperatorOf | enums.ts:1-10 | a number names an operator exactly when it is in 0..7, and then it is that operator's number (the inverse of Code) |
| Text.Dec | data_mapper.ts:208-210 | the counter suffix has at least one digit, a single one exactly below 10, and ends in the last decimal digit |
| Text.DecInjective | data_mapper.ts:208-210 | different counters render to different suffixes |
| Rendering.FromConditionToStringParts | data_mapper.ts:352-359 | one text per member of the list, in order; a text member is kept and a nested list is rendered |
| Rendering.FromExpressionToString | data_mapper.ts:361-373 | the result is the text the and/or list stands for |
| Properties.ListText | data_mapper.ts:364-371 | the text of an and/or list is each member's text in parentheses, joined by " and " / " or " |
| Builder.BuildExpression | data_mapper.ts:158-190 | fails with InvalidExpressionError exactly for an unknown operator number or a Between without two values; Between reads `a between v0 and v1`; BeginsWith is the call `begins_with(a, vs)`; the other six operators, Contains included, are infix with their values comma-joined |
| Properties.EqualText | data_mapper.ts:164-165 | Equal over one placeholder reads `a = v` |
| Properties.BetweenArity | data_mapper.ts:178-183 | a Between leaf over any number of values other than two raises InvalidExpressionError |
| Walk.LeafOutcome | data_mapper.ts:203-246 | an AND/OR object or an object without keys is refused (ConfigurationError, TypeError), a null value raises TypeError; a compiled leaf binds `#` + the drawn name to its first key and draws one fragment |
| Walk.LeavesTexts | data_mapper.ts:276-286 | an array child that compiles pushes one text and draws one fragment per element |
| Walk.ChildTexts | data_mapper.ts:268-294 | one child pushes one text when it is an object and one per element when it is an array |
| Walk.ChildrenTexts | data_mapper.ts:267-295 | the loop over an `and`/`or` list pushes exactly the texts its children push, Pushed(children) of them |
| Accounting.NameIsNextKey | data_mapper.ts:208-210 | while every visit has bound its own attribute, randomName is the drawn fragment followed by the visit number plus one, which is the next attribute key |
| Accounting.ValueEntriesShape | data_mapper.ts:226-233 | a `{ value }` record adds one value entry per value slot, each key carries the drawn fragment, and the keys are pairwise different (the index followed by 1 for array elements) |
| DataMapper.IsConditions | data_mapper.ts:196-201 | an object is an AND/OR node exactly when it has an `and` or an `or` key |
| Walk.Compile | data_mapper.ts:136-156 | an input with an `expression` key is returned unchanged; one with neither key raises InvalidExpressionError; a `where` input compiles if and only if its walk from empty records succeeds |
| DataMapper.Records.constructor | data_mapper.ts:144 | the walk starts from empty attribute and value records |
| DataMapper.ParseCondition | data_mapper.ts:203-246 | compiling one leaf in place returns the text and leaves the records exactly as the leaf walk says, or raises the same error |
| DataMapper.StoreValues | data_mapper.ts:226-234 | the value loop stores exactly the leaf's value entries, in order, and returns their placeholder names |
| DataMapper.ParseConditions | data_mapper.ts:248-350 | compiling a leaf or an AND/OR node in place gives the text and final records of the walk, or its error |
| DataMapper.ParseList | data_mapper.ts:267-295 | the loop over one `and`/`or` list pushes the texts the walk yields for its children, in order, and leaves the records as the walk does |
| DataMapper.ParseElement | data_mapper.ts:268-294 | one list element in place: a nested AND/OR object or a leaf pushes its one text, an array pushes one text per element, as the walk says |
| DataMapper.ParseArray | data_mapper.ts:276-286 | the loop over an array element compiles each of its elements as a leaf, in order, as the walk says |
| DataMapper.ChildrenPrefixFails | data_mapper.ts:267-295 | an error raised by a child ends the whole list with that error |
| DataMapper.LeavesPrefixFails | data_mapper.ts:276-286 | an error raised by an element of an array child ends the array with that error |
| DataMapper.CompileExpression | data_mapper.ts:136-156 | compileExpression with fresh records returns exactly what Walk.Compile describes |
| DataMapper.SelectInput | data_mapper.ts:94-109 | arguments are refused with ConfigurationError exactly when they have neither an `expression` nor a `where` key; a string `expression` makes the arguments themselves the raw expression; an object `expression` is compiled as given; `where` is used only without `expression` |
| DataMapper.DataMapper.constructor | data_mapper.ts:39-51 | the mapper keeps the datastore name and primary key it is given |
| DataMapper.DataMapper.FindAllBy | data_mapper.ts:80-118 | nothing is sent when the mapper has no datastore, the arguments have no expression, or compiling fails; otherwise the compiled expression is queried exactly as findAllBy with default auto-pagination queries it |
| Accounting.AttrKeyInjective | data_mapper.ts:208-213 | with fragments of one length, two visits bind the same attribute key only if they are the same visit |
| Accounting.AttrKeysCount | data_mapper.ts:208-213 | with fragments of one length, n visits bind n different attribute keys |
| Accounting.LeafExtends | data_mapper.ts:203-246 | one leaf visit draws one fragment, adds at most one attribute and at most its value count of values; with fragments of one length it binds the next attribute key, and when the fragments drawn up to and including its own are pairwise different it adds exactly its value count of new value keys |
| Accounting.ConditionsExtends | data_mapper.ts:248-350 | a successful walk of a condition draws one fragment per leaf visit; the records only grow, by at most one attribute per visit and one value per value slot; with fragments of one length the attribute keys are exactly the visits' keys; when in addition the fragments drawn during the walk are pairwise different, every value placeholder is new |
| Accounting.CompileBound | data_mapper.ts:136-156 | whatever the fragments, a compiled filter has at most one attribute per leaf visit and one value per value slot |
| Accounting.CompileAttributes | data_mapper.ts:208-213 | with fragments of one length, the attribute keys are exactly those of the leaf visits, one per visit |
| Accounting.CompileValues | data_mapper.ts:226-234 | with fragments of one length, the first Visits(where) of them pairwise different, every value slot gets its own placeholder |
| Accounting.DistinctDrawsExist | data_mapper.ts:208-210 | for any number of visits there is a generator whose fragments have one length and are pairwise different, so the assumptions of CompileValues can be met |
| Accounting.ValueKeysCanCollide | data_mapper.ts:208-233 | when the eleventh visit draws the first visit's fragment again, element 10 of the first leaf's array and element 0 of the eleventh leaf's array get the same value key |
| Properties.FirstKeyOnly | data_mapper.ts:211-216 | only the first key of a leaf object is compiled; the other keys are ignored |
| Properties.OmittedIsEqual | data_mapper.ts:235-239 | a leaf without an operator (OperatorCode of Omitted) compiles as the same leaf with Equal |
| Properties.BareIsShorthand | data_mapper.ts:217-219 | a bare string is shorthand for `{ value: s }` with Equal |
| Properties.RejectedBeforeOperator | data_mapper.ts:220-225 | a bare number or boolean, or a `{ value }` record whose value is null or undefined, raises ConfigurationError whatever the operator |
| Properties.NodeText | data_mapper.ts:254-342 | an AND/OR node succeeds exactly when its children do, and its text is their texts, parenthesised and joined; an empty list yields "" |
| Properties.NestedParenthesised | data_mapper.ts:268-275 | a nested node's text is parenthesised again by its parent |
| Properties.ArrayIsSiblings | data_mapper.ts:276-286 | an array of leaves contributes the same texts and records as the leaves listed one by one |
| Properties.LeafChild | data_mapper.ts:287-294 | a leaf child pushes the one text it compiles to |
| Properties.ChildrenSnoc | data_mapper.ts:267-295 | appending a child to a list appends the texts it compiles, from the records the earlier children left |
| Properties.ArrayChild | data_mapper.ts:276-286 | a node whose only child is an array of leaves compiles like a node listing them |
| Properties.BothKeysKeepOr | data_mapper.ts:261-302 | a node with both keys compiles its `and` children, which fill the records, and then yields the `or` node's result from there; the and-texts are lost |
| Properties.SimpleLeaf | data_mapper_test.ts:189-203 | `{ title: s }` compiles to `#n = :n` with one attribute and one value entry |
| Properties.BetweenLeaf | data_mapper_test.ts:205-221 | a Between over two values compiles to `#n between :n01 and :n11` with one attribute and two value entries |
| Properties.NamesDiffer | data_mapper.ts:208-210 | the names drawn at the first nine visits differ in their last digit |
| Properties.FourPlaceholders | data_mapper_test.ts:235-236 | four leaf visits bind four attribute and four value placeholders |
| Properties.OrOfAnd | data_mapper_test.ts:223-248 | an `or` of an `and` pair and two leaves compiles to `((A = V) and (A = V)) or (A = V) or (A = V)` with four attribute and four value entries |
| Executor.Filter | functions.ts:197-206 | the expression fields are sent exactly when the expression text is not empty |
| Executor.ChainEnd | functions.ts:221-239 | the cursor walk reads up to the first page without a further cursor |
| Executor.Take | functions.ts:218-220 | the first n items, or all of them when there are fewer |
| Executor.SliceToPrefix | functions.ts:219 | the items kept without auto-pagination are a prefix: `limit` of them, or all when there are fewer; a negative limit drops that many from the end, as a JavaScript slice does |
| Executor.FindAllBy | functions.ts:170-242 | first request: expression fields only for a non-empty text, a page size of 1000 when auto-paginating, otherwise the limit. A failed first reply raises DatastoreError. Without auto-pagination the first page is cut to the limit. With it, every cursor is followed to the end of the chain with the expression and a page size of 1000, and the result holds the first `limit` items of all pages in order |
| Executor.Fill | functions.ts:232-237 | the loop over one continuation page appends its items until the result holds `limit` items, so the result stays the first `limit` items of the pages so far; a negative limit appends nothing |
| Executor.AllItemsAppend | functions.ts:232-237 | the items of consecutive page runs are concatenated in order |
| Executor.FindAllWithinLimit | functions.ts:218-240 | with a limit that is not negative, findAllBy returns at most `limit` items; it returns exactly `limit` or every item of the chain; they are a prefix of all items; and every page of the chain is requested |
| Executor.FirstHit | functions.ts:147-166 | the first page of the chain with an item, or the end of the chain, and no earlier page has items |
| Executor.FindFirstBy | functions.ts:116-168 | the first request always carries the expression, without a cursor and with a page size of 1000. A failed first reply raises DatastoreError. Otherwise pages are requested up to and including the first one with an item, and the result is the first reply holding that single item, or holding no item when the chain has none |
| Executor.FirstHitIsFirstItem | functions.ts:147-166 | the item findFirstBy returns is the first item an auto-paginated findAllBy collects |
| Executor.CountBy | functions.ts:244-286 | the count request goes to the given datastore and carries the expression (text, attributes and values) exactly when its text is not empty; a reply with an error raises DatastoreError, and any other reply is returned |

## Left out

- Logging, the Slack API client, async transport and the JSON serialisation of requests are left out. The datastore is a given sequence of replies.
- `Math.random` is a parameter. Its real output usually has five base-36 digits but can be shorter. Placeholder uniqueness (Accounting) is therefore proved under the assumption that every fragment has the same length; value placeholders additionally need the fragments drawn during one walk to be pairwise different (Accounting.DistinctDrawsExist shows both assumptions can be met together).
- Accounting.CompileBound: without that assumption only an upper bound on the number of entries is stated, not their uniqueness.
- `save`, `findById`, `findAllByIds`, `deleteById`, `deleteAllByIds` and the `crypto.randomUUID` identifier are thin wrappers over the client and are not modelled.
- Numbers are integers. Floating-point values and NaN are not modelled.
- Error messages are not modelled; only the error class is.
- The contents of the records after an exception are not followed. compileExpression discards them.
- Leaf keys named `and` or `or` cannot occur: such an object is an AND/OR node.
- An array nested inside an array child, an `expression` key whose value is undefined, and non-array objects given as `value` are not modelled.
- Executor.FindAllBy: an error on a continuation page is not checked, as in the code. Auto-pagination requires the last reply to end the cursor chain.
- Executor.FindFirstBy: it also requires Exhausts(pages), that the last reply ends the cursor chain.
- DataMapper.DataMapper.FindAllBy: it also requires Exhausts(pages), as it queries through Executor.FindAllBy.
- The loops at functions.ts:152-166 and 223-239 never end if the datastore keeps returning a non-empty cursor; the model covers only finite chains. findAllBy keeps requesting pages after `limit` items are collected; the model requests them as well and discards their items.
- Executor.FindFirstBy: an error on a continuation page (functions.ts:153-164) is not checked, as in the code; such a page is read for its items and cursor only.
- DataMapper.ParseConditions: the `currentExpression` parameter of parseConditions is dropped. Every call passes undefined (data_mapper.ts:144, 269-274, 305-310), so the expression always starts empty.
- Executor.QueriedAll: the predicate has no contract of its own; it is the statement of DataMapper.DataMapper.FindAllBy and its meaning is the Executor.FindAllBy row.
- The type-level `Attributes`/`Definition` machinery has no run-time behaviour and is left out.
- Rendering.FromExpressionToString: the error it raises for input that is neither an and-list nor an or-list cannot occur for its declared input type and is excluded by its precondition.
- The tests read `expressionAttributes` and `expressionValues`, but the code returns `attributes` and `values`. The model follows the code.
- The model follows the code, including where it may surprise a reader:
  - Contains is written infix (`a contains v`);
  - only the first key of a leaf is compiled;
  - array value placeholders get the suffix "index followed by 1" (string concatenation);
  - a node with both `and` and `or` keeps only the or-texts.
- Properties.OrOfAnd and the other worked examples abstract the generated names: they state the texts with the drawn names rather than after replacing them by ATTR and VALUE.
