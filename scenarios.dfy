/**
 * Concrete plans and predicates worked through the model: what a consumer
 * of the rendered records receives for a few small queries.
 */
module Scenarios {
  import opened Wrappers
  import opened Json
  import opened Syntax
  import opened Analyzer
  import opened Operators

  // Stand-in tags for name and literal leaves. Any tag outside the
  // structured operand kinds behaves the same, since the classifier treats
  // it as a scalar.
  const VARIABLE: string := "VARIABLE"
  const SYMBOLIC_WORD: string := "SYMBOLIC_WORD"
  const DECIMAL: string := "DECIMAL"
  const STRING: string := "STRING"

  function Leaf(kind: string, value: string): Ast {
    Ast(kind, value, [])
  }

  /** `a.<name>`: a variable followed by one property lookup. */
  function PropertyOf(variable: string, name: string): Ast {
    Ast(NON_ARITHMETIC_OPERATOR, "", [Leaf(VARIABLE, variable), Ast(PROPERTY_LOOKUP, "", [Leaf(SYMBOLIC_WORD, name)])])
  }

  /** `<left> <operator> <right>`: the operator node holds the right operand. */
  function Compare(left: Ast, operator: string, right: Ast): Ast {
    Ast(COMPARISON, "", [left, Ast(operator, "", [right])])
  }

  /** `<variable>.<name>` keeps the variable and the one property name. */
  lemma PropertyOfOperand(variable: string, name: string)
    ensures OperandShaped(PropertyOf(variable, name))
    ensures ComparisonOperand(PropertyOf(variable, name))
            == JObj(map["type" := JStr(PROPERTY_LOOKUP), "variable" := JStr(variable), "property" := JArr([JStr(name)])])
  {
    var ch := PropertyOf(variable, name).elements;
    assert !NamesProperty(ch[0]) && NamesProperty(ch[1]);
    assert ch[1..][1..] == [];
    assert LookupNames(ch) == [name];
    assert Strings([name]).items == [JStr(name)];
  }

  /** `<variable>.<name> <operator> <literal>` analyses to one comparison record. */
  lemma PropertyComparison(variable: string, name: string, operator: string, kind: string, literal: string)
    requires !IsStructuredOperandKind(kind)
    ensures Analyzable(Compare(PropertyOf(variable, name), operator, Leaf(kind, literal)))
    ensures Analyze(Compare(PropertyOf(variable, name), operator, Leaf(kind, literal)))
            == JObj(map["type" := JStr(COMPARISON),
                        "left" := JObj(map["type" := JStr(PROPERTY_LOOKUP), "variable" := JStr(variable),
                                           "property" := JArr([JStr(name)])]),
                        "operator" := JStr(operator),
                        "right" := JObj(map["type" := JStr(kind), "value" := JStr(literal)])])
  {
    PropertyOfOperand(variable, name);
  }

  /** In `n.id.age` the reserved accessor `id` is dropped and only `age` is kept. */
  lemma ReservedLookupExcluded()
    ensures var a := Ast(NON_ARITHMETIC_OPERATOR, "",
                         [Leaf(VARIABLE, "n"),
                          Ast(PROPERTY_LOOKUP, "", [Leaf(RESERVED_WORD, "id")]),
                          Ast(PROPERTY_LOOKUP, "", [Leaf(SYMBOLIC_WORD, "age")])]);
            ComparisonOperand(a).fields["property"] == JArr([JStr("age")])
            && ComparisonOperand(a).fields["variable"] == JStr("n")
  {
    var ch := [Leaf(VARIABLE, "n"),
               Ast(PROPERTY_LOOKUP, "", [Leaf(RESERVED_WORD, "id")]),
               Ast(PROPERTY_LOOKUP, "", [Leaf(SYMBOLIC_WORD, "age")])];
    assert !NamesProperty(ch[0]) && !NamesProperty(ch[1]) && NamesProperty(ch[2]);
    assert ch[1..][1..] == ch[2..] && ch[2..][1..] == [];
    assert LookupNames(ch[2..]) == ["age"];
    assert LookupNames(ch[1..]) == ["age"];
    assert LookupNames(ch) == ["age"];
    assert Strings(["age"]).items == [JStr("age")];
  }

  /** A connective over two analysable subtrees gives their two records in order. */
  lemma ConnectiveOfTwo(kind: string, x: Ast, y: Ast)
    requires IsConnective(kind) && Analyzable(x) && Analyzable(y)
    ensures Analyzable(Ast(kind, "", [x, y]))
    ensures Analyze(Ast(kind, "", [x, y])) == JObj(map["type" := JStr(kind), "comparisons" := JArr([Analyze(x), Analyze(y)])])
  {
    var a := Ast(kind, "", [x, y]);
    assert a.elements[1..] == [y];
    assert AnalyzeEach(a.elements) == [Analyze(x), Analyze(y)];
  }

  /** A filter without input and with one WHERE case records its tag and
      the analysis of the WHERE's expression, nothing else. */
  lemma SingleWhereFilter(name: string, w: Ast)
    requires Analyzable(w)
    ensures Renderable(Filter(None, [FilterCase(name, Ast(WHERE, "", [w]))]))
    ensures Render(Filter(None, [FilterCase(name, Ast(WHERE, "", [w]))])).doc.fields
            == map["Operator" := JStr("Filter"), "condition" := Analyze(w)]
  {
    var cases := [FilterCase(name, Ast(WHERE, "", [w]))];
    assert FilterCaseShaped(cases[0]);
    assert LastWhere(cases) == Some(cases[0]);
    RenderFilter(None, cases);
  }

  /** `WHERE a.age > 30 AND a.name = "Tom"` gives the filter an AND condition
      whose two comparisons are in source order; PropertyComparison gives
      each comparison's record. */
  lemma WhereAndCondition()
    ensures var age := Compare(PropertyOf("a", "age"), ">", Leaf(DECIMAL, "30"));
            var name := Compare(PropertyOf("a", "name"), "=", Leaf(STRING, "Tom"));
            var where := Ast(WHERE, "", [Ast(AND, "", [age, name])]);
            && Renderable(Filter(None, [FilterCase("a", where)]))
            && Render(Filter(None, [FilterCase("a", where)])).doc.fields
               == map["Operator" := JStr("Filter"),
                      "condition" := JObj(map["type" := JStr(AND), "comparisons" := JArr([Analyze(age), Analyze(name)])])]
  {
    var age := Compare(PropertyOf("a", "age"), ">", Leaf(DECIMAL, "30"));
    var name := Compare(PropertyOf("a", "name"), "=", Leaf(STRING, "Tom"));
    PropertyComparison("a", "age", ">", DECIMAL, "30");
    PropertyComparison("a", "name", "=", STRING, "Tom");
    ConnectiveOfTwo(AND, age, name);
    SingleWhereFilter("a", Ast(AND, "", [age, name]));
  }

  /** Results projected from no input carry the item names and no child. */
  lemma ProduceResultsWithoutInput()
    ensures Render(ProduceResults(None, [Leaf(VARIABLE, "a"), Leaf(VARIABLE, "b")])).doc
            == JObj(map["Operator" := JStr("ProduceResult"), "variable" := JArr([JStr("a"), JStr("b")])])
  {
    var items := [Leaf(VARIABLE, "a"), Leaf(VARIABLE, "b")];
    assert ChildValues(items) == ["a", "b"];
    assert Strings(["a", "b"]).items == [JStr("a"), JStr("b")];
  }
}
