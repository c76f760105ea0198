# Query-plan operators and predicate analyzer of a Cypher query planner

This project models the core of the Cypher query planner's plan operators in
Dafny, and proves properties of that model. The core has three parts:

- **The operand classifier** (`Filter::comparisonOperand`). It turns one
  value-producing AST node into a tagged record. The tags are property lookup,
  properties map, list, function call, and a scalar fallback.
- **The predicate analyzer** (`Filter::analyze`). It descends recursively
  through OR / AND / XOR / NOT / COMPARISON nodes and builds a nested
  predicate record.
- **The plan operators' `execute` methods.** Each one either builds a JSON
  record describing the operator, or executes its input(s), may write to the
  debug log, and returns the empty string.

Modules:

- `Wrappers` (`wrappers.dfy`): `Option`. It stands in for a pointer that may
  be null.
- `Json` (`json.dfy`): the JSON documents as values.
  - Objects are maps, because the JSON library keeps object keys in an
    ordered map.
  - `JDumped(doc)` is a string field whose text is the serialization of
    `doc`. A parent operator stores its child's `execute()` result this way,
    and that result is already serialized text.
- `Syntax` (`syntax.dfy`): the parser's AST `Ast(nodeType, value, elements)`
  and the node-kind tags.
- `Analyzer` (`analyzer.dfy`): `ComparisonOperand`, `Analyze` and
  `AnalyzeEach`, with their lemmas.
- `Operators` (`operators.dfy`): the operators.
  - `Operator` is a datatype, one variant per operator class. A child that
    `execute` dereferences without checking is mandatory. A child it
    null-checks first is an `Option`.
  - `Render` is every `execute` that returns a record.
  - `ExecuteFilter` is the filter's loop over its cases.
  - `Apply` is a class whose right input is attached after construction.
- `Scenarios` (`scenarios.dfy`): small concrete queries worked through the
  model.

Unchecked child indexing in the source (`elements[0]`,
`elements[1]->elements[0]`, `elements[0]->elements[1]`, …) becomes a
precondition: `OperandShaped`, `Analyzable`, `FilterCaseShaped` and
`Renderable`. Each one asks for exactly the children the code reads.

Facts about the code that the model keeps:

- The analyzer returns a null record for an unsupported kind.
- Composite predicates keep their sub-records under `comparisons`, possibly
  none.
- A property lookup is tagged `PROPERTY_LOOKUP` and keeps its names under
  `property`.
- Mandatory operator children are datatype fields.
- `Apply` is built in two phases: the right input is attached after
  construction.

## Model

| member | source | states |
|---|---|---|
| `Analyzer.LookupNames` | src/query/processor/cypher/queryplanner/Operators.cpp:90-95 | a property-lookup chain yields at most one name per child |
| `Analyzer.LookupNamesAppend` | src/query/processor/cypher/queryplanner/Operators.cpp:91-95 | the collected names follow tree order: the names of a concatenation are the concatenation of the names |
| `Analyzer.LookupNamesMember` | src/query/processor/cypher/queryplanner/Operators.cpp:91-95 | a name is collected iff some child is a PROPERTY_LOOKUP whose first child is not a RESERVED_WORD and has that value |
| `Analyzer.PropertyLookupOperand` | src/query/processor/cypher/queryplanner/Operators.cpp:86-96 | a NON_ARITHMETIC_OPERATOR node gives exactly `type` = PROPERTY_LOOKUP, `variable` = first child's value, and `property` = exactly the non-reserved lookup names, never more than there are children |
| `Analyzer.InsertEntries` | src/query/processor/cypher/queryplanner/Operators.cpp:99-104 | inserting map entries never overwrites a key that is already present |
| `Analyzer.InsertEntriesKeys` | src/query/processor/cypher/queryplanner/Operators.cpp:99-104 | a key ends up in the map iff it was there already or some non-reserved child carries it |
| `Analyzer.InsertEntriesFirstWins` | src/query/processor/cypher/queryplanner/Operators.cpp:99-104 | on duplicate keys the first non-reserved child's value is kept |
| `Analyzer.PropertiesMapOperand` | src/query/processor/cypher/queryplanner/Operators.cpp:97-105 | a PROPERTIES_MAP node gives `type` and a `property` object whose keys are exactly the non-reserved keys, each mapped to the value of its first occurrence |
| `Analyzer.ListOperand` | src/query/processor/cypher/queryplanner/Operators.cpp:106-112 | a LIST node gives `element`: one string per child, in order |
| `Analyzer.FunctionOperand` | src/query/processor/cypher/queryplanner/Operators.cpp:113-120 | a FUNCTION_BODY node is tagged FUNCTION, not its own kind; it gives `functionName` = `elements[0].elements[1].value` and `arguments` = the values of `elements[1]`'s children, in order |
| `Analyzer.ScalarOperand` | src/query/processor/cypher/queryplanner/Operators.cpp:121-124 | any other kind gives exactly `{type: kind, value: value}` |
| `Analyzer.ComparisonOperand` | src/query/processor/cypher/queryplanner/Operators.cpp:84-127 | the classifier never fails; every result matches one of the five operand record shapes; a `value` field appears iff the kind is not one of the four structured kinds |
| `Analyzer.Analyze` | src/query/processor/cypher/queryplanner/Operators.cpp:129-169 | the result is null iff the kind is not OR/AND/XOR/NOT/COMPARISON; otherwise it is an object whose `type` is the node's own kind |
| `Analyzer.AnalyzeEach` | src/query/processor/cypher/queryplanner/Operators.cpp:134-136 | a connective collects exactly one sub-record per child, each null or an object |
| `Analyzer.AnalyzeEachAt` | src/query/processor/cypher/queryplanner/Operators.cpp:134-136 | sub-record i is the analysis of child i |
| `Analyzer.AnalyzeConnective` | src/query/processor/cypher/queryplanner/Operators.cpp:131-158 | an OR/AND/XOR/NOT node with N children gives exactly `type` = its tag and `comparisons` = N entries; entry i is the analysis of child i |
| `Analyzer.AnalyzeComparison` | src/query/processor/cypher/queryplanner/Operators.cpp:159-166 | a COMPARISON node gives exactly `type`, `left` = classified first child, `operator` = the second child's kind verbatim, and `right` = the classified first child of the second child |
| `Analyzer.XorTermsAsWritten` | src/query/processor/cypher/queryplanner/Operators.cpp:147-150 | storing the terms into a list of strings succeeds iff every term is a JSON string |
| `Analyzer.AnalyzeXorAsWritten` | src/query/processor/cypher/queryplanner/Operators.cpp:145-151 | the XOR branch as written throws iff the node has a child; with no child it gives the same record as `Analyze` |
| `Analyzer.XorAsWrittenThrows` | src/query/processor/cypher/queryplanner/Operators.cpp:145-151 | the as-written XOR branch agrees with the modelled `Analyze` iff the node has no child; the modelled XOR keeps one entry per child |
| `Operators.Render` | src/query/processor/cypher/queryplanner/Operators.cpp:25-391 | `execute` gives a record iff the operator is one of the nine structured variants, and the record always carries a string `Operator`; Projection, Join, Aggregation, Limit, Sort, GroupBy, Distinct, Union, Intersection, CacheProperty, both directed scans and Apply give the empty string |
| `Operators.RenderTagIdentifiesVariant` | src/query/processor/cypher/queryplanner/Operators.cpp:25-391 | two records with the same `Operator` tag come from the same operator variant |
| `Operators.NextOperatorEmbedsChild` | src/query/processor/cypher/queryplanner/Operators.cpp:68-391 | `NextOperator` is present iff ProduceResults or Filter has a non-null child, or the operator is ExpandAll; its value is the child's serialized output; leaf scans never carry it |
| `Operators.NodeScanRecordFields` | src/query/processor/cypher/queryplanner/Operators.cpp:25-63 | NodeScanByLabel, MultipleNodeScanByLabel, NodeByIdSeek and AllNodeScan each give exactly their tag and their arguments under `variables`/`variable`, `Label` and `id` |
| `Operators.RelationshipScanRecordFields` | src/query/processor/cypher/queryplanner/Operators.cpp:315-336 | the undirected scans give exactly their tag and `sourceVariable`, `destVariable`, `relVariable`, plus `relType` for the typed scan |
| `Operators.ProduceResultsFields` | src/query/processor/cypher/queryplanner/Operators.cpp:68-79 | keys are exactly `Operator` = "ProduceResult", `variable`, and `NextOperator` iff there is a child; `variable` lists the items' values in order |
| `Operators.ExpandAllFields` | src/query/processor/cypher/queryplanner/Operators.cpp:371-392 | always `Operator`, `NextOperator` and the three variables; `direction` iff the direction is "right" or "left"; `relType` iff relType is not "null" and the direction is "", "right" or "left"; nothing else |
| `Operators.LastWhere` | src/query/processor/cypher/queryplanner/Operators.cpp:178-181 | a WHERE case is found iff one exists among the cases, and the one found is a WHERE case from the list |
| `Operators.LastWhereIsLast` | src/query/processor/cypher/queryplanner/Operators.cpp:178-181 | the case found is the last WHERE case: no later case is a WHERE |
| `Operators.FilterFields` | src/query/processor/cypher/queryplanner/Operators.cpp:171-205 | `Operator` = "Filter"; `NextOperator` iff there is a child, holding its output; `condition` iff some case is a WHERE; no other keys |
| `Operators.ExecuteFilter` | src/query/processor/cypher/queryplanner/Operators.cpp:171-205 | the imperative loop over the cases builds exactly the record that `Render` gives for the filter |
| `Operators.FilterRecord` | src/query/processor/cypher/queryplanner/Operators.cpp:171-205 | a filter's `condition` is the analysis of the first child of the last WHERE case, and it is present iff a WHERE case exists |
| `Operators.NonWhereCaseIgnored` | src/query/processor/cypher/queryplanner/Operators.cpp:182-202 | inserting a non-WHERE case anywhere leaves the chosen WHERE case unchanged |
| `Operators.FilterIgnoresNonWhereCase` | src/query/processor/cypher/queryplanner/Operators.cpp:182-202 | PROPERTIES_MAP, NODE_LABELS, NODE_LABEL and other non-WHERE cases never change the filter's record |
| `Operators.Apply.constructor` | src/query/processor/cypher/queryplanner/Operators.cpp:394 | an Apply starts with its left input and no right input |
| `Operators.Apply.AddOperator` | src/query/processor/cypher/queryplanner/Operators.cpp:396-398 | attaching the right input sets exactly that field and keeps the left input |
| `Operators.Apply.Execute` | src/query/processor/cypher/queryplanner/Operators.cpp:402-414 | executing an Apply visits whichever inputs are present and returns the empty string, the same as `Render` on an Apply node |
| `Scenarios.PropertyOfOperand` | src/query/processor/cypher/queryplanner/Operators.cpp:86-96 | `a.name` classifies as variable `a` with the single property `name` |
| `Scenarios.PropertyComparison` | src/query/processor/cypher/queryplanner/Operators.cpp:159-166 | `a.name <op> literal` analyses to the full comparison record |
| `Scenarios.ReservedLookupExcluded` | src/query/processor/cypher/queryplanner/Operators.cpp:91-95 | in `n.id.age`, the reserved accessor `id` is dropped and the property list is `["age"]` |
| `Scenarios.WhereAndCondition` | src/query/processor/cypher/queryplanner/Operators.cpp:178-181 | `WHERE a.age > 30 AND a.name = "Tom"` gives a filter whose only keys are `Operator` and `condition`; the condition is an AND with the two comparisons in order |
| `Scenarios.ProduceResultsWithoutInput` | src/query/processor/cypher/queryplanner/Operators.cpp:68-79 | ProduceResults without an input and with items `a`, `b` renders exactly `{Operator: "ProduceResult", variable: ["a","b"]}` |

## Left out

- Serialization is not modelled. `dump()` and `json::parse` are the JSON
  library's work. Source strings are bytes, here they are Dafny character
  strings, so the model cannot see `dump()` throwing on text that is not
  valid UTF-8 (lines 126 and 168 of Operators.cpp); "the classifier never
  fails" holds of the model only.
  - `analyze` parses what it has just dumped. The model takes that round
    trip to be the identity, so sub-records nest as values.
  - A child's `execute()` string is kept as `JDumped(doc)`. No character
    text is produced.
- The debug logger is left out: it is a side channel and affects no output.
  Projection, Join, Limit, GroupBy, Distinct, Union, Intersection,
  CacheProperty and both directed scans write to it; Aggregation and Sort do
  not.
  - Apply's left-before-right visiting order shows only in the log.
- `Operators.Render`: for Projection, Join, Aggregation, Limit, Sort,
  GroupBy, Distinct, Union, Intersection and CacheProperty, it does not
  execute the input(s) the source executes first, because their results are
  discarded; `Renderable` still requires those inputs to be executable.
- `Filter::execute` builds a local `condition` string for PROPERTIES_MAP,
  NODE_LABELS and NODE_LABEL cases and never stores it. The model keeps only
  what that loop dereferences, as preconditions. `FilterIgnoresNonWhereCase`
  states that these cases do not affect the record.
- `Operators.Render`: an `ApplyNode` nested inside another operator yields ""
  without requiring that the Apply's own inputs be executable. A function
  cannot read the Apply object's fields. `Apply.Execute` does require it.
- `Operators.Apply.constructor`: the class header is not part of this model.
  The right input is assumed to start as null (`None`).
- The node-kind tag strings are chosen as the tags' own names, because the
  constants header is not part of this model. Only their distinctness is
  used.
- A null AST pointer and out-of-range child indexing are not modelled as
  failures. They are preconditions.
- `Analyzer.Analyze` models the XOR branch like the other connectives, not as
  the throwing branch in the source. The source's behaviour is kept in
  `AnalyzeXorAsWritten` (see Findings).

## Findings

| source | as written | input that shows it | evidently intended | confidence | as-written member | corrected member |
|---|---|---|---|---|---|---|
| src/query/processor/cypher/queryplanner/Operators.cpp:145-151 | the XOR branch collects each analysed term into a `vector<string>`; converting a JSON object (or null) to `std::string` throws a type error | any XOR node with at least one child, e.g. `a.x = 1 XOR a.y = 2` | collect the terms into a `vector<json>`, as the OR, AND and NOT branches do | high, not executed | `Analyzer.AnalyzeXorAsWritten`, `Analyzer.XorAsWrittenThrows` | `Analyzer.AnalyzeConnective` |
