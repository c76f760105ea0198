/**
 * The logical plan operators and their rendering. Each operator's
 * `execute` either builds a JSON record describing itself (with a child's
 * serialized output nested under `NextOperator`) or executes its inputs,
 * may write to the debug log, and returns the empty string.
 */
module Operators {
  import opened Wrappers
  import opened Json
  import opened Syntax
  import opened Analyzer

  /** One clause a filter checks: the pattern variable it belongs to and its AST. */
  datatype FilterCase = FilterCase(name: string, clause: Ast)

  /** The plan operators. A child a variant dereferences unconditionally is
      an `Operator`; one it checks for null first is an `Option<Operator>`. */
  datatype Operator =
    | NodeScanByLabel(nodeLabel: string, variable: string)
    | MultipleNodeScanByLabel(labels: seq<string>, variable: string)
    | NodeByIdSeek(id: string, variable: string)
    | AllNodeScan(variable: string)
    | ProduceResults(op: Option<Operator>, items: seq<Ast>)
    | Filter(filterInput: Option<Operator>, filterCases: seq<FilterCase>)
    | Projection(input: Operator, columns: seq<Ast>)
    | Join(left: Operator, right: Operator, joinCondition: string)
    | Aggregation(input: Operator, aggFunction: string, column: string)
    | Limit(input: Operator, limit: int)
    | Sort(input: Operator, sortByColumn: string, ascending: bool)
    | GroupBy(input: Operator, groupByColumns: seq<string>)
    | Distinct(input: Operator)
    | Union(left: Operator, right: Operator)
    | Intersection(left: Operator, right: Operator)
    | CacheProperty(input: Operator, property: seq<Ast>)
    | UndirectedRelationshipTypeScan(relType: string, relVar: string, startVar: string, endVar: string)
    | UndirectedAllRelationshipScan(startVar: string, endVar: string, relVar: string)
    | DirectedRelationshipTypeScan(direction: string, relType: string, relVar: string, startVar: string, endVar: string)
    | DirectedAllRelationshipScan(direction: string, startVar: string, endVar: string, relVar: string)
    | ExpandAll(input: Operator, startVar: string, destVar: string, relVar: string, relType: string, direction: string)
    | ApplyNode(node: Apply)

  /** What `execute` returns: a serialized record, or the empty string. */
  datatype Rendered = Doc(doc: J) | Blank

  /** A child's `execute` result as it is stored in its parent's record: a string field. */
  function Embed(out: Rendered): (j: J)
    ensures j.JDumped? || j == JStr("")
  {
    match out
    case Doc(d) => JDumped(d)
    case Blank => JStr("")
  }

  // ---------------------------------------------------------------------
  // What rendering dereferences without checking
  // ---------------------------------------------------------------------

  /** The AST children the filter's loop dereferences for each kind of case. */
  predicate FilterCaseShaped(c: FilterCase) {
    var n := c.clause;
    if n.nodeType == WHERE then |n.elements| >= 1 && Analyzable(n.elements[0])
    else if n.nodeType == PROPERTIES_MAP then forall p <- n.elements :: |p.elements| >= 2
    else if n.nodeType == NODE_LABELS then forall p <- n.elements :: |p.elements| >= 1
    else if n.nodeType == NODE_LABEL then |n.elements| >= 1
    else true
  }

  predicate CasesShaped(cases: seq<FilterCase>) {
    forall i :: 0 <= i < |cases| ==> FilterCaseShaped(cases[i])
  }

  /** Every operator in the tree can be executed: mandatory children exist
      by construction, and the ASTs the operators dereference have the
      children they read. An Apply node's children are not inspected. */
  predicate Renderable(op: Operator)
    decreases op
  {
    match op
    case ProduceResults(o, _) => o.Some? ==> Renderable(o.value)
    case Filter(o, cases) => (o.Some? ==> Renderable(o.value)) && CasesShaped(cases)
    case Projection(i, _) => Renderable(i)
    case Join(l, r, _) => Renderable(l) && Renderable(r)
    case Aggregation(i, _, _) => Renderable(i)
    case Limit(i, _) => Renderable(i)
    case Sort(i, _, _) => Renderable(i)
    case GroupBy(i, _) => Renderable(i)
    case Distinct(i) => Renderable(i)
    case Union(l, r) => Renderable(l) && Renderable(r)
    case Intersection(l, r) => Renderable(l) && Renderable(r)
    case CacheProperty(i, props) =>
      Renderable(i) && forall p <- props :: |p.elements| >= 2 && |p.elements[1].elements| >= 1
    case ExpandAll(i, _, _, _, _, _) => Renderable(i)
    case _ => true
  }

  /** The variants whose `execute` builds a structured record. */
  predicate IsStructured(op: Operator) {
    || op.NodeScanByLabel? || op.MultipleNodeScanByLabel? || op.NodeByIdSeek? || op.AllNodeScan?
    || op.ProduceResults? || op.Filter? || op.UndirectedRelationshipTypeScan?
    || op.UndirectedAllRelationshipScan? || op.ExpandAll?
  }

  // ---------------------------------------------------------------------
  // Records of the operators with a child
  // ---------------------------------------------------------------------

  /** The last WHERE case, if any: each one overwrites the condition. */
  function LastWhere(cases: seq<FilterCase>): (w: Option<FilterCase>)
    ensures w.Some? <==> exists c <- cases :: c.clause.nodeType == WHERE
    ensures w.Some? ==> w.value in cases && w.value.clause.nodeType == WHERE
  {
    if cases == [] then None
    else if cases[|cases| - 1].clause.nodeType == WHERE then Some(cases[|cases| - 1])
    else LastWhere(cases[..|cases| - 1])
  }

  /** The fields a filter adds to `base` once it has seen `cases`. */
  function WithCondition(base: map<string, J>, cases: seq<FilterCase>): map<string, J>
    requires CasesShaped(cases)
  {
    match LastWhere(cases)
    case None => base
    case Some(w) =>
      assert FilterCaseShaped(w);
      base["condition" := Analyze(w.clause.elements[0])]
  }

  /** The fields of a filter's record, given its child's output if it has one. */
  function FilterFields(next: Option<Rendered>, cases: seq<FilterCase>): (r: map<string, J>)
    requires CasesShaped(cases)
    ensures "Operator" in r && r["Operator"] == JStr("Filter")
    ensures "NextOperator" in r <==> next.Some?
    ensures next.Some? ==> r["NextOperator"] == Embed(next.value)
    ensures "condition" in r <==> exists c <- cases :: c.clause.nodeType == WHERE
    ensures r.Keys <= {"Operator", "NextOperator", "condition"}
  {
    var base := if next.Some? then map["NextOperator" := Embed(next.value)] else map[];
    WithCondition(base["Operator" := JStr("Filter")], cases)
  }

  /** The fields of a produce-results record: the projected item values in order. */
  function ProduceResultsFields(next: Option<Rendered>, items: seq<Ast>): (r: map<string, J>)
    ensures r.Keys == {"Operator", "variable"} + (if next.Some? then {"NextOperator"} else {})
    ensures r["Operator"] == JStr("ProduceResult")
    ensures next.Some? ==> r["NextOperator"] == Embed(next.value)
    ensures r["variable"].JArr? && |r["variable"].items| == |items|
    ensures forall i :: 0 <= i < |items| ==> r["variable"].items[i] == JStr(items[i].value)
  {
    var base := if next.Some? then map["NextOperator" := Embed(next.value)] else map[];
    base["Operator" := JStr("ProduceResult")]["variable" := Strings(ChildValues(items))]
  }

  /** The fields of an expand record. `relType` and `direction` follow a
      truth table over the sentinel "null" and the directions "", "right"
      and "left"; any other direction adds neither. */
  function ExpandAllFields(next: Rendered, startVar: string, destVar: string, relVar: string,
                           relType: string, direction: string): (r: map<string, J>)
    ensures r.Keys >= {"Operator", "NextOperator", "sourceVariable", "destVariable", "relVariable"}
    ensures r["Operator"] == JStr("ExpandAll") && r["NextOperator"] == Embed(next)
    ensures r["sourceVariable"] == JStr(startVar) && r["destVariable"] == JStr(destVar)
    ensures r["relVariable"] == JStr(relVar)
    ensures "direction" in r <==> direction == "right" || direction == "left"
    ensures "relType" in r <==> relType != "null" && (direction == "" || direction == "right" || direction == "left")
    ensures "direction" in r ==> r["direction"] == JStr(direction)
    ensures "relType" in r ==> r["relType"] == JStr(relType)
    ensures r.Keys <= {"Operator", "NextOperator", "sourceVariable", "destVariable", "relVariable", "relType", "direction"}
  {
    var base := map["Operator" := JStr("ExpandAll"),
                    "NextOperator" := Embed(next),
                    "sourceVariable" := JStr(startVar),
                    "destVariable" := JStr(destVar),
                    "relVariable" := JStr(relVar)];
    if relType != "null" && direction == "" then
      base["relType" := JStr(relType)]
    else if relType == "null" && direction == "right" then
      base["direction" := JStr(direction)]
    else if relType != "null" && direction == "right" then
      base["relType" := JStr(relType)]["direction" := JStr(direction)]
    else if relType == "null" && direction == "left" then
      base["direction" := JStr(direction)]
    else if relType != "null" && direction == "left" then
      base["relType" := JStr(relType)]["direction" := JStr(direction)]
    else
      base
  }

  // ---------------------------------------------------------------------
  // Rendering
  // ---------------------------------------------------------------------

  /** The `execute` of every operator. A structured variant yields an object
      tagged with a string `Operator`; the others execute their inputs
      (results discarded), may write to the debug log (left out), and yield
      the empty string. */
  function Render(op: Operator): (out: Rendered)
    requires Renderable(op)
    decreases op
    ensures out.Doc? <==> IsStructured(op)
    ensures out.Doc? ==> out.doc.JObj? && "Operator" in out.doc.fields && out.doc.fields["Operator"].JStr?
  {
    match op
    case NodeScanByLabel(l, v) =>
      Doc(JObj(map["Operator" := JStr("NodeByLabel"), "variables" := JStr(v), "Label" := JStr(l)]))
    case MultipleNodeScanByLabel(labels, v) =>
      Doc(JObj(map["Operator" := JStr("MultipleNodeScanByLabel"), "variables" := JStr(v), "Label" := Strings(labels)]))
    case NodeByIdSeek(id, v) =>
      Doc(JObj(map["Operator" := JStr("NodeByIdSeek"), "variable" := JStr(v), "id" := JStr(id)]))
    case AllNodeScan(v) =>
      Doc(JObj(map["Operator" := JStr("AllNodeScan"), "variables" := JStr(v)]))
    case ProduceResults(o, items) =>
      var next := if o.Some? then Some(Render(o.value)) else None;
      Doc(JObj(ProduceResultsFields(next, items)))
    case Filter(o, cases) =>
      var next := if o.Some? then Some(Render(o.value)) else None;
      Doc(JObj(FilterFields(next, cases)))
    case UndirectedRelationshipTypeScan(relType, relVar, startVar, endVar) =>
      Doc(JObj(map["Operator" := JStr("UndirectedRelationshipTypeScan"),
                   "sourceVariable" := JStr(startVar),
                   "destVariable" := JStr(endVar),
                   "relVariable" := JStr(relVar),
                   "relType" := JStr(relType)]))
    case UndirectedAllRelationshipScan(startVar, endVar, relVar) =>
      Doc(JObj(map["Operator" := JStr("UndirectedAllRelationshipScan"),
                   "sourceVariable" := JStr(startVar),
                   "destVariable" := JStr(endVar),
                   "relVariable" := JStr(relVar)]))
    case ExpandAll(i, startVar, destVar, relVar, relType, direction) =>
      Doc(JObj(ExpandAllFields(Render(i), startVar, destVar, relVar, relType, direction)))
    case _ =>
      Blank
  }

  /** The `Operator` tag identifies the variant: two structured operators
      whose records carry the same tag are the same kind of operator. */
  lemma RenderTagIdentifiesVariant(a: Operator, b: Operator)
    requires Renderable(a) && Renderable(b) && IsStructured(a) && IsStructured(b)
    requires Render(a).doc.fields["Operator"] == Render(b).doc.fields["Operator"]
    ensures a.NodeScanByLabel? == b.NodeScanByLabel?
    ensures a.MultipleNodeScanByLabel? == b.MultipleNodeScanByLabel?
    ensures a.NodeByIdSeek? == b.NodeByIdSeek?
    ensures a.AllNodeScan? == b.AllNodeScan?
    ensures a.ProduceResults? == b.ProduceResults?
    ensures a.Filter? == b.Filter?
    ensures a.UndirectedRelationshipTypeScan? == b.UndirectedRelationshipTypeScan?
    ensures a.UndirectedAllRelationshipScan? == b.UndirectedAllRelationshipScan?
    ensures a.ExpandAll? == b.ExpandAll?
  {
  }

  /** A record nests a child's output under `NextOperator` exactly when the
      operator has a child it renders, and the leaf scans never do. */
  lemma NextOperatorEmbedsChild(op: Operator)
    requires Renderable(op) && IsStructured(op)
    ensures "NextOperator" in Render(op).doc.fields <==>
            (op.ProduceResults? && op.op.Some?) || (op.Filter? && op.filterInput.Some?) || op.ExpandAll?
    ensures op.ProduceResults? && op.op.Some? ==> Render(op).doc.fields["NextOperator"] == Embed(Render(op.op.value))
    ensures op.Filter? && op.filterInput.Some? ==> Render(op).doc.fields["NextOperator"] == Embed(Render(op.filterInput.value))
    ensures op.ExpandAll? ==> Render(op).doc.fields["NextOperator"] == Embed(Render(op.input))
  {
  }

  /** The node scans record exactly their own arguments under fixed field names. */
  lemma NodeScanRecordFields(op: Operator)
    requires op.NodeScanByLabel? || op.MultipleNodeScanByLabel? || op.NodeByIdSeek? || op.AllNodeScan?
    ensures var f := Render(op).doc.fields;
            && (op.NodeScanByLabel? ==>
                  f.Keys == {"Operator", "variables", "Label"} && f["Operator"] == JStr("NodeByLabel")
                  && f["variables"] == JStr(op.variable) && f["Label"] == JStr(op.nodeLabel))
            && (op.MultipleNodeScanByLabel? ==>
                  f.Keys == {"Operator", "variables", "Label"} && f["Operator"] == JStr("MultipleNodeScanByLabel")
                  && f["variables"] == JStr(op.variable) && f["Label"] == Strings(op.labels))
            && (op.NodeByIdSeek? ==>
                  f.Keys == {"Operator", "variable", "id"} && f["Operator"] == JStr("NodeByIdSeek")
                  && f["variable"] == JStr(op.variable) && f["id"] == JStr(op.id))
            && (op.AllNodeScan? ==> f == map["Operator" := JStr("AllNodeScan"), "variables" := JStr(op.variable)])
  {
  }

  /** The undirected relationship scans record their three variables, and
      the typed one its relationship type, under fixed field names. */
  lemma RelationshipScanRecordFields(op: Operator)
    requires op.UndirectedRelationshipTypeScan? || op.UndirectedAllRelationshipScan?
    ensures var f := Render(op).doc.fields;
            && f["sourceVariable"] == JStr(op.startVar) && f["destVariable"] == JStr(op.endVar)
            && f["relVariable"] == JStr(op.relVar)
            && (op.UndirectedRelationshipTypeScan? ==>
                  f.Keys == {"Operator", "sourceVariable", "destVariable", "relVariable", "relType"}
                  && f["Operator"] == JStr("UndirectedRelationshipTypeScan") && f["relType"] == JStr(op.relType))
            && (op.UndirectedAllRelationshipScan? ==>
                  f.Keys == {"Operator", "sourceVariable", "destVariable", "relVariable"}
                  && f["Operator"] == JStr("UndirectedAllRelationshipScan"))
  {
  }

  // ---------------------------------------------------------------------
  // The filter's loop
  // ---------------------------------------------------------------------

  /** Filter's `execute`: renders the child if there is one, tags the
      record, then walks the cases in order. A WHERE case overwrites the
      condition with the analysis of its first child; the other kinds only
      build a local description that never reaches the record. */
  method ExecuteFilter(input: Option<Operator>, cases: seq<FilterCase>) returns (doc: J)
    requires input.Some? ==> Renderable(input.value)
    requires CasesShaped(cases)
    ensures Render(Filter(input, cases)) == Doc(doc)
  {
    var filter: map<string, J> := map[];
    if input.Some? {
      filter := filter["NextOperator" := Embed(Render(input.value))];
    }
    filter := filter["Operator" := JStr("Filter")];
    ghost var base := filter;
    for i := 0 to |cases|
      invariant filter == WithCondition(base, cases[..i])
    {
      var item := cases[i];
      assert FilterCaseShaped(item);
      WithConditionStep(base, cases, i);
      if item.clause.nodeType == WHERE {
        filter := filter["condition" := Analyze(item.clause.elements[0])];
      }
    }
    assert cases[..|cases|] == cases;
    RenderFilter(input, cases);
    doc := JObj(filter);
  }

  /** One more case either overwrites the condition (a WHERE) or changes nothing. */
  lemma WithConditionStep(base: map<string, J>, cases: seq<FilterCase>, i: int)
    requires CasesShaped(cases) && 0 <= i < |cases|
    ensures CasesShaped(cases[..i]) && CasesShaped(cases[..i + 1]) && FilterCaseShaped(cases[i])
    ensures WithCondition(base, cases[..i + 1]) ==
            if cases[i].clause.nodeType == WHERE
            then WithCondition(base, cases[..i])["condition" := Analyze(cases[i].clause.elements[0])]
            else WithCondition(base, cases[..i])
  {
    assert cases[..i + 1][..i] == cases[..i];
  }

  /** Proof step for ExecuteFilter: a filter renders as the record its
      fields describe, unfolding Render's Filter arm once. */
  lemma RenderFilter(input: Option<Operator>, cases: seq<FilterCase>)
    requires Renderable(Filter(input, cases))
    ensures Render(Filter(input, cases))
            == Doc(JObj(WithCondition((if input.Some? then map["NextOperator" := Embed(Render(input.value))] else map[])
                                        ["Operator" := JStr("Filter")], cases)))
  {
  }

  /** The condition comes from the last WHERE case alone. */
  lemma {:induction false} LastWhereIsLast(cases: seq<FilterCase>)
    ensures LastWhere(cases).Some? <==> exists c <- cases :: c.clause.nodeType == WHERE
    ensures LastWhere(cases).Some? ==>
            exists i :: 0 <= i < |cases| && cases[i] == LastWhere(cases).value
                        && forall j :: i < j < |cases| ==> cases[j].clause.nodeType != WHERE
  {
    if cases != [] {
      var n := |cases| - 1;
      var init := cases[..n];
      assert cases == init + [cases[n]];
      LastWhereIsLast(init);
      if cases[n].clause.nodeType != WHERE && LastWhere(cases).Some? {
        var i :| 0 <= i < |init| && init[i] == LastWhere(init).value
                 && forall j :: i < j < |init| ==> init[j].clause.nodeType != WHERE;
        assert cases[i] == init[i];
      }
    }
  }

  /** A case that is not a WHERE never changes the filter's condition,
      wherever it stands among the cases. */
  lemma {:induction false} NonWhereCaseIgnored(s: seq<FilterCase>, c: FilterCase, t: seq<FilterCase>)
    requires c.clause.nodeType != WHERE
    ensures LastWhere(s + [c] + t) == LastWhere(s + t)
    decreases |t|
  {
    if t == [] {
      assert (s + [c] + t)[..|s + [c] + t| - 1] == s;
      assert s + t == s;
    } else {
      var n := |t| - 1;
      assert (s + [c] + t)[..|s + [c] + t| - 1] == s + [c] + t[..n];
      assert (s + t)[..|s + t| - 1] == s + t[..n];
      NonWhereCaseIgnored(s, c, t[..n]);
    }
  }

  /** Adding a PROPERTIES_MAP, NODE_LABELS, NODE_LABEL or any other
      non-WHERE case anywhere among a filter's cases leaves its record as it was. */
  lemma FilterIgnoresNonWhereCase(input: Option<Operator>, s: seq<FilterCase>, c: FilterCase, t: seq<FilterCase>)
    requires c.clause.nodeType != WHERE
    requires Renderable(Filter(input, s + [c] + t))
    ensures Renderable(Filter(input, s + t))
    ensures Render(Filter(input, s + [c] + t)) == Render(Filter(input, s + t))
  {
    var all := s + [c] + t;
    forall i | 0 <= i < |s + t| ensures FilterCaseShaped((s + t)[i]) {
      if i < |s| {
        assert (s + t)[i] == all[i];
      } else {
        assert (s + t)[i] == all[i + 1];
      }
    }
    NonWhereCaseIgnored(s, c, t);
  }

  /** The record of a filter: `NextOperator` iff it has a child, and
      `condition` iff some case is a WHERE, analysed from the last one. */
  lemma FilterRecord(input: Option<Operator>, cases: seq<FilterCase>)
    requires Renderable(Filter(input, cases))
    ensures var f := Render(Filter(input, cases)).doc.fields;
            && f["Operator"] == JStr("Filter")
            && ("NextOperator" in f <==> input.Some?)
            && ("condition" in f <==> exists c <- cases :: c.clause.nodeType == WHERE)
            && ("condition" in f ==>
                  exists i :: 0 <= i < |cases| && cases[i].clause.nodeType == WHERE
                              && f["condition"] == Analyze(cases[i].clause.elements[0])
                              && forall j :: i < j < |cases| ==> cases[j].clause.nodeType != WHERE)
  {
    LastWhereIsLast(cases);
  }

  // ---------------------------------------------------------------------
  // Apply: two-phase construction
  // ---------------------------------------------------------------------

  /** An operator built with its left input and given its right input later. */
  class Apply {
    var operator1: Option<Operator>
    var operator2: Option<Operator>

    constructor (operator1: Option<Operator>)
      ensures this.operator1 == operator1 && operator2 == None
    {
      this.operator1 := operator1;
      operator2 := None;
    }

    /** Attaches the right input, replacing any earlier one. */
    method AddOperator(operator2: Option<Operator>)
      modifies this
      ensures this.operator2 == operator2 && operator1 == old(operator1)
    {
      this.operator2 := operator2;
    }

    /** Executes the left input, then the right one, each only if present,
      and discards what they return. */
    method Execute() returns (out: Rendered)
      requires operator1.Some? ==> Renderable(operator1.value)
      requires operator2.Some? ==> Renderable(operator2.value)
      ensures out == Blank && out == Render(ApplyNode(this))
    {
      if operator1.Some? {
        var _ := Render(operator1.value);
      }
      if operator2.Some? {
        var _ := Render(operator2.value);
      }
      out := Blank;
    }
  }
}
