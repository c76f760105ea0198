/**
 * The filter's predicate analyzer: the operand classifier that turns one
 * value-producing subtree into a tagged record, and the recursive descent
 * that turns a boolean-expression subtree into a nested predicate record.
 */
module Analyzer {
  import opened Wrappers
  import opened Json
  import opened Syntax

  // ---------------------------------------------------------------------
  // Operand classifier
  // ---------------------------------------------------------------------

  /** A property-lookup child that names a user property rather than a reserved accessor. */
  predicate NamesProperty(p: Ast) {
    p.nodeType == PROPERTY_LOOKUP && |p.elements| >= 1 && p.elements[0].nodeType != RESERVED_WORD
  }

  /** The name one child contributes: its first child's value, if it names a property. */
  function NameOf(p: Ast): seq<string> {
    if NamesProperty(p) then [p.elements[0].value] else []
  }

  /** The property names of a lookup chain: the first-child values of the
      children that name a user property, in tree order. */
  function LookupNames(props: seq<Ast>): (names: seq<string>)
    ensures |names| <= |props|
  {
    if props == [] then [] else NameOf(props[0]) + LookupNames(props[1..])
  }

  /** A map child that contributes a key/value pair: its key child is not a reserved word. */
  predicate IsEntry(p: Ast) {
    |p.elements| >= 2 && p.elements[0].nodeType != RESERVED_WORD
  }

  function KeyOf(p: Ast): string
    requires |p.elements| >= 1
  {
    p.elements[0].value
  }

  function ValueOf(p: Ast): string
    requires |p.elements| >= 2
  {
    p.elements[1].value
  }

  /** Inserts the pairs of `props` into `acc` in order. Like an ordered-map
      insert, a key already present keeps its value. */
  function InsertEntries(acc: map<string, string>, props: seq<Ast>): (m: map<string, string>)
    decreases props
    ensures acc.Keys <= m.Keys
    ensures forall k :: k in acc ==> m[k] == acc[k]
  {
    if props == [] then acc
    else
      var p := props[0];
      var acc' := if IsEntry(p) && KeyOf(p) !in acc then acc[KeyOf(p) := ValueOf(p)] else acc;
      InsertEntries(acc', props[1..])
  }

  /** The values of the children, in order. */
  function ChildValues(props: seq<Ast>): (vs: seq<string>)
    ensures |vs| == |props|
    ensures forall i :: 0 <= i < |props| ==> vs[i] == props[i].value
  {
    seq(|props|, i requires 0 <= i < |props| => props[i].value)
  }

  /** The kinds the classifier gives a structured record; every other kind is a scalar. */
  predicate IsStructuredOperandKind(kind: string) {
    kind == NON_ARITHMETIC_OPERATOR || kind == PROPERTIES_MAP || kind == LIST || kind == FUNCTION_BODY
  }

  /** The children the classifier dereferences without checking. */
  predicate OperandShaped(a: Ast) {
    if a.nodeType == NON_ARITHMETIC_OPERATOR then
      |a.elements| >= 1 && forall p <- a.elements :: p.nodeType == PROPERTY_LOOKUP ==> |p.elements| >= 1
    else if a.nodeType == PROPERTIES_MAP then
      forall p <- a.elements :: |p.elements| >= 1 && (p.elements[0].nodeType != RESERVED_WORD ==> |p.elements| >= 2)
    else if a.nodeType == FUNCTION_BODY then
      |a.elements| >= 2 && |a.elements[0].elements| >= 2
    else true
  }

  /** The record shapes a consumer of comparison operands has to accept:
      a string `type` tag and one of five field sets. */
  predicate IsOperandRecord(r: J) {
    && r.JObj?
    && "type" in r.fields && r.fields["type"].JStr?
    && var f := r.fields;
       || (f.Keys == {"type", "variable", "property"} && f["variable"].JStr? && IsStringArray(f["property"]))
       || (f.Keys == {"type", "property"} && IsStringObject(f["property"]))
       || (f.Keys == {"type", "element"} && IsStringArray(f["element"]))
       || (f.Keys == {"type", "functionName", "arguments"} && f["functionName"].JStr? && IsStringArray(f["arguments"]))
       || (f.Keys == {"type", "value"} && f["value"].JStr?)
  }

  /** Classifies one operand of a comparison. Never fails on an unknown
      kind: that becomes a scalar record carrying the kind and value. */
  function ComparisonOperand(a: Ast): (r: J)
    requires OperandShaped(a)
    ensures IsOperandRecord(r)
    ensures "value" in r.fields <==> !IsStructuredOperandKind(a.nodeType)
  {
    if a.nodeType == NON_ARITHMETIC_OPERATOR then
      JObj(map["variable" := JStr(a.elements[0].value),
               "type" := JStr(PROPERTY_LOOKUP),
               "property" := Strings(LookupNames(a.elements))])
    else if a.nodeType == PROPERTIES_MAP then
      JObj(map["type" := JStr(PROPERTIES_MAP),
               "property" := StringObject(InsertEntries(map[], a.elements))])
    else if a.nodeType == LIST then
      JObj(map["type" := JStr(LIST),
               "element" := Strings(ChildValues(a.elements))])
    else if a.nodeType == FUNCTION_BODY then
      JObj(map["type" := JStr(FUNCTION),
               "functionName" := JStr(a.elements[0].elements[1].value),
               "arguments" := Strings(ChildValues(a.elements[1].elements))])
    else
      JObj(map["type" := JStr(a.nodeType), "value" := JStr(a.value)])
  }

  // Properties of the property-name collection

  lemma {:induction false} LookupNamesAppend(s: seq<Ast>, t: seq<Ast>)
    ensures LookupNames(s + t) == LookupNames(s) + LookupNames(t)
  {
    if s == [] {
      assert s + t == t;
    } else {
      var st := s + t;
      assert st[0] == s[0] && st[1..] == s[1..] + t;
      LookupNamesAppend(s[1..], t);
      assert LookupNames(st) == NameOf(s[0]) + (LookupNames(s[1..]) + LookupNames(t));
    }
  }

  lemma {:induction false} LookupNamesMember(props: seq<Ast>, x: string)
    ensures x in LookupNames(props) <==>
            exists i :: 0 <= i < |props| && NamesProperty(props[i]) && props[i].elements[0].value == x
  {
    if props != [] {
      LookupNamesMember(props[1..], x);
      if x in LookupNames(props[1..]) {
        var i :| 0 <= i < |props[1..]| && NamesProperty(props[1..][i]) && props[1..][i].elements[0].value == x;
        assert NamesProperty(props[i + 1]) && props[i + 1].elements[0].value == x;
      }
      if exists i :: 0 <= i < |props| && NamesProperty(props[i]) && props[i].elements[0].value == x {
        var i :| 0 <= i < |props| && NamesProperty(props[i]) && props[i].elements[0].value == x;
        if i > 0 {
          assert props[1..][i - 1] == props[i];
        }
      }
    }
  }

  /** A non-arithmetic-operator node classifies as a property lookup: its
      first child is the variable and the property list holds exactly the
      non-reserved lookups, never more than there are children. */
  lemma PropertyLookupOperand(a: Ast)
    requires OperandShaped(a) && a.nodeType == NON_ARITHMETIC_OPERATOR
    ensures var r := ComparisonOperand(a);
            && r.fields.Keys == {"type", "variable", "property"}
            && r.fields["type"] == JStr(PROPERTY_LOOKUP)
            && r.fields["variable"] == JStr(a.elements[0].value)
            && r.fields["property"].JArr?
            && |r.fields["property"].items| <= |a.elements|
            && forall x :: JStr(x) in r.fields["property"].items <==>
                 exists i :: 0 <= i < |a.elements| && NamesProperty(a.elements[i]) && a.elements[i].elements[0].value == x
  {
    var names := LookupNames(a.elements);
    var items := ComparisonOperand(a).fields["property"].items;
    forall x ensures JStr(x) in items <==> x in names {
      if JStr(x) in items {
        var k :| 0 <= k < |items| && items[k] == JStr(x);
        assert names[k] == x;
      }
      if x in names {
        var k :| 0 <= k < |names| && names[k] == x;
        assert items[k] == JStr(x);
      }
    }
    forall x ensures x in names <==>
        exists i :: 0 <= i < |a.elements| && NamesProperty(a.elements[i]) && a.elements[i].elements[0].value == x {
      LookupNamesMember(a.elements, x);
    }
  }

  // Properties of the map-entry collection

  /** Child `i` is the first entry of `props` that carries its key. */
  predicate FirstWithKey(props: seq<Ast>, i: int)
    requires 0 <= i < |props|
  {
    IsEntry(props[i]) && forall j :: 0 <= j < i && IsEntry(props[j]) ==> KeyOf(props[j]) != KeyOf(props[i])
  }

  lemma {:induction false} InsertEntriesKeys(acc: map<string, string>, props: seq<Ast>, k: string)
    decreases props
    ensures k in InsertEntries(acc, props) <==>
            k in acc || exists i :: 0 <= i < |props| && IsEntry(props[i]) && KeyOf(props[i]) == k
  {
    if props != [] {
      var p := props[0];
      var acc' := if IsEntry(p) && KeyOf(p) !in acc then acc[KeyOf(p) := ValueOf(p)] else acc;
      InsertEntriesKeys(acc', props[1..], k);
      if exists i :: 0 <= i < |props[1..]| && IsEntry(props[1..][i]) && KeyOf(props[1..][i]) == k {
        var i :| 0 <= i < |props[1..]| && IsEntry(props[1..][i]) && KeyOf(props[1..][i]) == k;
        assert props[i + 1] == props[1..][i];
      }
      if exists i :: 0 <= i < |props| && IsEntry(props[i]) && KeyOf(props[i]) == k {
        var i :| 0 <= i < |props| && IsEntry(props[i]) && KeyOf(props[i]) == k;
        if i > 0 {
          assert props[1..][i - 1] == props[i];
        }
      }
    }
  }

  lemma {:induction false} InsertEntriesFirstWins(acc: map<string, string>, props: seq<Ast>, i: int)
    requires 0 <= i < |props| && FirstWithKey(props, i) && KeyOf(props[i]) !in acc
    decreases props
    ensures KeyOf(props[i]) in InsertEntries(acc, props)
    ensures InsertEntries(acc, props)[KeyOf(props[i])] == ValueOf(props[i])
  {
    var p := props[0];
    var acc' := if IsEntry(p) && KeyOf(p) !in acc then acc[KeyOf(p) := ValueOf(p)] else acc;
    if i == 0 {
      assert acc'[KeyOf(p)] == ValueOf(p);
    } else {
      assert IsEntry(p) ==> KeyOf(p) != KeyOf(props[i]);
      assert props[1..][i - 1] == props[i];
      assert FirstWithKey(props[1..], i - 1) by {
        forall j | 0 <= j < i - 1 && IsEntry(props[1..][j])
          ensures KeyOf(props[1..][j]) != KeyOf(props[1..][i - 1])
        {
          assert props[1..][j] == props[j + 1];
        }
      }
      InsertEntriesFirstWins(acc', props[1..], i - 1);
    }
  }

  /** A properties-map node classifies as a map from each non-reserved key
      to the value of the first child that carries that key. */
  lemma PropertiesMapOperand(a: Ast)
    requires OperandShaped(a) && a.nodeType == PROPERTIES_MAP
    ensures var r := ComparisonOperand(a);
            && r.fields.Keys == {"type", "property"}
            && r.fields["type"] == JStr(PROPERTIES_MAP)
            && r.fields["property"].JObj?
            && (forall k :: k in r.fields["property"].fields <==>
                  exists i :: 0 <= i < |a.elements| && IsEntry(a.elements[i]) && KeyOf(a.elements[i]) == k)
            && (forall i :: 0 <= i < |a.elements| && FirstWithKey(a.elements, i) ==>
                  r.fields["property"].fields[KeyOf(a.elements[i])] == JStr(ValueOf(a.elements[i])))
  {
    var m := InsertEntries(map[], a.elements);
    forall k ensures k in m <==> exists i :: 0 <= i < |a.elements| && IsEntry(a.elements[i]) && KeyOf(a.elements[i]) == k {
      InsertEntriesKeys(map[], a.elements, k);
    }
    forall i | 0 <= i < |a.elements| && FirstWithKey(a.elements, i)
      ensures KeyOf(a.elements[i]) in m && m[KeyOf(a.elements[i])] == ValueOf(a.elements[i])
    {
      InsertEntriesFirstWins(map[], a.elements, i);
    }
  }

  /** A list node classifies as the values of its children, in order. */
  lemma ListOperand(a: Ast)
    requires a.nodeType == LIST
    ensures var r := ComparisonOperand(a);
            && r.fields.Keys == {"type", "element"}
            && r.fields["type"] == JStr(LIST)
            && r.fields["element"].JArr?
            && |r.fields["element"].items| == |a.elements|
            && forall i :: 0 <= i < |a.elements| ==> r.fields["element"].items[i] == JStr(a.elements[i].value)
  {
  }

  /** A function-body node classifies as a call: the name is the second
      child of the first child, the arguments the values of the second
      child's children, in order. The tag is FUNCTION, not the node's kind. */
  lemma FunctionOperand(a: Ast)
    requires OperandShaped(a) && a.nodeType == FUNCTION_BODY
    ensures var r := ComparisonOperand(a);
            && r.fields.Keys == {"type", "functionName", "arguments"}
            && r.fields["type"] == JStr(FUNCTION) && r.fields["type"] != JStr(a.nodeType)
            && r.fields["functionName"] == JStr(a.elements[0].elements[1].value)
            && r.fields["arguments"].JArr?
            && |r.fields["arguments"].items| == |a.elements[1].elements|
            && forall i :: 0 <= i < |a.elements[1].elements| ==>
                 r.fields["arguments"].items[i] == JStr(a.elements[1].elements[i].value)
  {
  }

  /** Every other kind classifies as exactly its own kind and value. */
  lemma ScalarOperand(a: Ast)
    requires !IsStructuredOperandKind(a.nodeType)
    ensures ComparisonOperand(a) == JObj(map["type" := JStr(a.nodeType), "value" := JStr(a.value)])
  {
  }

  // ---------------------------------------------------------------------
  // Predicate analyzer
  // ---------------------------------------------------------------------

  /** The children the analyzer dereferences without checking, at every
      level of the connective tree. Other kinds need nothing. */
  predicate Analyzable(a: Ast)
    decreases a
  {
    if IsConnective(a.nodeType) then
      forall p <- a.elements :: Analyzable(p)
    else if a.nodeType == COMPARISON then
      && |a.elements| >= 2 && |a.elements[1].elements| >= 1
      && OperandShaped(a.elements[0]) && OperandShaped(a.elements[1].elements[0])
    else true
  }

  /** Translates a boolean-expression subtree into a predicate record. A
      kind outside the connectives and COMPARISON yields null, and the
      type tag of every record is the node's own kind. */
  function Analyze(a: Ast): (r: J)
    requires Analyzable(a)
    decreases a, 1
    ensures r.JNull? <==> !(IsConnective(a.nodeType) || a.nodeType == COMPARISON)
    ensures r.JNull? || r.JObj?
    ensures r.JObj? ==> "type" in r.fields && r.fields["type"] == JStr(a.nodeType)
  {
    if IsConnective(a.nodeType) then
      JObj(map["type" := JStr(a.nodeType), "comparisons" := JArr(AnalyzeEach(a.elements))])
    else if a.nodeType == COMPARISON then
      var left := a.elements[0];
      var operator := a.elements[1];
      var right := operator.elements[0];
      JObj(map["type" := JStr(COMPARISON),
               "left" := ComparisonOperand(left),
               "operator" := JStr(operator.nodeType),
               "right" := ComparisonOperand(right)])
    else
      JNull
  }

  /** Analyzes each child in order, one record per child. */
  function AnalyzeEach(s: seq<Ast>): (rs: seq<J>)
    requires forall p <- s :: Analyzable(p)
    decreases s, 0
    ensures |rs| == |s|
    ensures forall r <- rs :: r.JNull? || r.JObj?
  {
    if s == [] then [] else [Analyze(s[0])] + AnalyzeEach(s[1..])
  }

  lemma {:induction false} AnalyzeEachAt(s: seq<Ast>, i: int)
    requires forall p <- s :: Analyzable(p)
    requires 0 <= i < |s|
    ensures AnalyzeEach(s)[i] == Analyze(s[i])
  {
    if i > 0 {
      AnalyzeEachAt(s[1..], i - 1);
    }
  }

  /** An OR, AND, XOR or NOT node with N children yields its tag and
      exactly N sub-records, entry i being the analysis of child i. */
  lemma AnalyzeConnective(a: Ast)
    requires Analyzable(a) && IsConnective(a.nodeType)
    ensures var r := Analyze(a);
            && r.JObj? && r.fields.Keys == {"type", "comparisons"}
            && r.fields["type"] == JStr(a.nodeType)
            && r.fields["comparisons"].JArr?
            && |r.fields["comparisons"].items| == |a.elements|
            && forall i :: 0 <= i < |a.elements| ==> r.fields["comparisons"].items[i] == Analyze(a.elements[i])
  {
    forall i | 0 <= i < |a.elements| ensures AnalyzeEach(a.elements)[i] == Analyze(a.elements[i]) {
      AnalyzeEachAt(a.elements, i);
    }
  }

  /** A COMPARISON node yields its left operand, the operator node's kind
      verbatim, and the operator node's first child as right operand. */
  lemma AnalyzeComparison(a: Ast)
    requires Analyzable(a) && a.nodeType == COMPARISON
    ensures var r := Analyze(a);
            && r.JObj? && r.fields.Keys == {"type", "left", "operator", "right"}
            && r.fields["operator"] == JStr(a.elements[1].nodeType)
            && r.fields["left"] == ComparisonOperand(a.elements[0])
            && r.fields["right"] == ComparisonOperand(a.elements[1].elements[0])
            && IsOperandRecord(r.fields["left"]) && IsOperandRecord(r.fields["right"])
  {
  }

  // ---------------------------------------------------------------------
  // The XOR branch as written
  // ---------------------------------------------------------------------

  /** Stores each analysed term of an XOR node into a list of strings, as
      the XOR branch does. The library's conversion from a JSON value to a
      string throws unless the value is a string; None stands for that throw. */
  function XorTermsAsWritten(terms: seq<J>): (r: Option<seq<string>>)
    ensures r.Some? <==> forall t <- terms :: t.JStr?
    ensures r.Some? ==> |r.value| == |terms|
  {
    if terms == [] then Some([])
    else if !terms[0].JStr? then None
    else match XorTermsAsWritten(terms[1..])
      case None => None
      case Some(rest) => Some([terms[0].s] + rest)
  }

  /** The XOR branch as written: None when the conversion throws. It throws
      exactly when the node has a child; with no child it agrees with Analyze. */
  function AnalyzeXorAsWritten(a: Ast): (r: Option<J>)
    requires Analyzable(a) && a.nodeType == XOR
    ensures r.None? <==> |a.elements| > 0
    ensures |a.elements| == 0 ==> r == Some(Analyze(a))
  {
    var terms := AnalyzeEach(a.elements);
    assert |a.elements| > 0 ==> terms[0] in terms && !terms[0].JStr?;
    match XorTermsAsWritten(AnalyzeEach(a.elements))
    case None => None
    case Some(ss) => Some(JObj(map["type" := JStr(XOR), "comparisons" := Strings(ss)]))
  }

  /** The XOR branch as written agrees with the model's Analyze only on an
      XOR node without children; for every other XOR node it throws, because
      no analysed term is a string, while Analyze keeps one entry per child. */
  lemma XorAsWrittenThrows(a: Ast)
    requires Analyzable(a) && a.nodeType == XOR
    ensures AnalyzeXorAsWritten(a) == Some(Analyze(a)) <==> |a.elements| == 0
    ensures |a.elements| > 0 ==> |Analyze(a).fields["comparisons"].items| == |a.elements|
  {
  }
}
