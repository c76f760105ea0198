/**
 * The parser's abstract syntax tree as the query planner reads it: a node
 * kind, a scalar value and an ordered list of children. The planner never
 * changes a tree, so it is a value here.
 */
module Syntax {

  datatype Ast = Ast(nodeType: string, value: string, elements: seq<Ast>)

  // Node-kind tags. Only their distinctness matters to the planner.
  const OR: string := "OR"
  const AND: string := "AND"
  const XOR: string := "XOR"
  const NOT: string := "NOT"
  const COMPARISON: string := "COMPARISON"
  const NON_ARITHMETIC_OPERATOR: string := "NON_ARITHMETIC_OPERATOR"
  const PROPERTY_LOOKUP: string := "PROPERTY_LOOKUP"
  const PROPERTIES_MAP: string := "PROPERTIES_MAP"
  const LIST: string := "LIST"
  const FUNCTION_BODY: string := "FUNCTION_BODY"
  const FUNCTION: string := "FUNCTION"
  const RESERVED_WORD: string := "RESERVED_WORD"
  const WHERE: string := "WHERE"
  const NODE_LABELS: string := "NODE_LABELS"
  const NODE_LABEL: string := "NODE_LABEL"

  /** The boolean connectives the predicate analyzer descends through. */
  predicate IsConnective(kind: string) {
    kind == OR || kind == AND || kind == XOR || kind == NOT
  }
}
