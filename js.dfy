/** The JavaScript values the client reads frames into: what `JSON.parse`
    yields, property lookup on it, and JavaScript truthiness. Numbers are
    modelled as integers. */
module Js {
  import opened Wrappers

  /** A value produced by `JSON.parse`. An object keeps its fields in text order. */
  datatype Json =
    | JNull
    | JBool(b: bool)
    | JNumber(n: int)
    | JString(s: string)
    | JArray(items: seq<Json>)
    | JObject(fields: seq<(string, Json)>)

  /** The result of reading a property: `undefined`, or a JSON value. */
  datatype JsValue = Undefined | Defined(json: Json)

  /** The value of the field named `key`; when the text repeats a key, the last
      occurrence wins, as it does in `JSON.parse`. */
  function Lookup(fields: seq<(string, Json)>, key: string): (r: Option<Json>)
    ensures r.None? <==> forall i :: 0 <= i < |fields| ==> fields[i].0 != key
    ensures r.Some? ==>
      exists i :: 0 <= i < |fields| && fields[i] == (key, r.value) &&
        forall j :: i < j < |fields| ==> fields[j].0 != key
    decreases |fields|
  {
    if fields == [] then None
    else if fields[|fields| - 1].0 == key then Some(fields[|fields| - 1].1)
    else Lookup(fields[..|fields| - 1], key)
  }

  /** `j[key]` for a value that is neither `null` nor `undefined` (reading a
      property of those throws, which callers model themselves). Only objects
      have the string-named properties the client reads. */
  function Property(j: Json, key: string): (r: JsValue)
    requires !j.JNull?
    ensures !j.JObject? ==> r == Undefined
    ensures j.JObject? ==> (r.Defined? <==> exists i :: 0 <= i < |j.fields| && j.fields[i].0 == key)
    ensures r.Defined? ==>
      exists i :: 0 <= i < |j.fields| && j.fields[i] == (key, r.json) &&
        forall k :: i < k < |j.fields| ==> j.fields[k].0 != key
  {
    match j
    case JObject(fields) =>
      (match Lookup(fields, key)
       case Some(v) => Defined(v)
       case None => Undefined)
    case _ => Undefined
  }

  /** A field appended at the end overrides every earlier field of the same
      name, and leaves the other names as they read before. */
  lemma PropertyLastWins(fields: seq<(string, Json)>, key: string, v: Json, other: string)
    requires other != key
    ensures Property(JObject(fields + [(key, v)]), key) == Defined(v)
    ensures Property(JObject(fields + [(key, v)]), other) == Property(JObject(fields), other)
  {
    assert (fields + [(key, v)])[..|fields|] == fields;
  }

  /** JavaScript's `if (v)` test on a parsed value. */
  predicate Truthy(j: Json) {
    match j
    case JNull => false
    case JBool(b) => b
    case JNumber(n) => n != 0
    case JString(s) => s != ""
    case JArray(_) => true
    case JObject(_) => true
  }
}
