/** JavaScript values as the proxy uses them: optional request fields,
    truthiness of strings, and the `a || b` default operator on strings. */
module JsValues {

  /** A field of a parsed JSON body that may be absent (`undefined`). */
  datatype Option<+T> = None | Some(value: T)

  /** Truthiness of an optional string field: it is present and not "". */
  predicate Truthy(v: Option<string>)
  {
    v.Some? && v.value != ""
  }

  /** `a || b` on two strings: the first one unless it is the empty (falsy) string. */
  function Or(a: string, b: string): (r: string)
    ensures r == a || r == b
    ensures r != "" <==> a != "" || b != ""
    ensures a != "" ==> r == a
  {
    if a != "" then a else b
  }

  /** `v || d` on an optional string: the field when it is truthy, otherwise `d`. */
  function OrElse(v: Option<string>, d: string): (r: string)
    ensures Truthy(v) ==> r == v.value
    ensures !Truthy(v) ==> r == d
  {
    if Truthy(v) then v.value else d
  }
}
