/**
 * The JSON documents the plan operators build, as values rather than text.
 * Objects are backed by an ordered map keyed by field name, so the order in
 * which fields are assigned does not matter and assigning a key twice keeps
 * the last value.
 */
module Json {

  datatype J =
    | JNull
    | JStr(s: string)
    | JArr(items: seq<J>)
    | JObj(fields: map<string, J>)
      /** A string field whose characters are the serialization of `doc`.
          This is what a plan operator stores when it keeps a child's
          `execute()` result, which is already serialized text. */
    | JDumped(doc: J)

  /** A JSON array of strings, in the given order. */
  function Strings(xs: seq<string>): (r: J)
    ensures r.JArr? && |r.items| == |xs|
    ensures forall i :: 0 <= i < |xs| ==> r.items[i] == JStr(xs[i])
  {
    JArr(seq(|xs|, i requires 0 <= i < |xs| => JStr(xs[i])))
  }

  /** A JSON object whose values are the strings of `m`. */
  function StringObject(m: map<string, string>): (r: J)
    ensures r.JObj? && r.fields.Keys == m.Keys
    ensures forall k :: k in m ==> r.fields[k] == JStr(m[k])
  {
    JObj(map k | k in m :: JStr(m[k]))
  }

  predicate IsStringArray(j: J) {
    j.JArr? && forall x <- j.items :: x.JStr?
  }

  predicate IsStringObject(j: J) {
    j.JObj? && forall k <- j.fields :: j.fields[k].JStr?
  }
}
