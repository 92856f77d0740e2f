/**
 * JSON values as `JSON.parse` produces them, and the field access the
 * server code performs on them.
 */
module Json {
  import opened Wrappers

  datatype Json =
    | JNull
    | JBool(b: bool)
    | JNumber(n: real)
    | JString(s: string)
    | JArray(items: seq<Json>)
    | JObject(fields: seq<Field>)

  datatype Field = Field(key: string, value: Json)

  /** A member's value; when a key is repeated the last occurrence wins, as with `JSON.parse`. */
  function Get(fields: seq<Field>, key: string): (r: Option<Json>)
    ensures r.None? <==> forall i :: 0 <= i < |fields| ==> fields[i].key != key
  {
    if fields == [] then None
    else if fields[|fields| - 1].key == key then Some(fields[|fields| - 1].value)
    else Get(fields[..|fields| - 1], key)
  }

  /** `j?.key`: absent when `j` is not an object or lacks the key. */
  function Member(j: Json, key: string): Option<Json>
  {
    if j.JObject? then Get(j.fields, key) else None
  }

  /** A repeated key yields the value of its last occurrence. */
  lemma {:induction false} GetLastWins(fields: seq<Field>, i: nat)
    requires i < |fields|
    requires forall j :: i < j < |fields| ==> fields[j].key != fields[i].key
    ensures Get(fields, fields[i].key) == Some(fields[i].value)
  {
    var n := |fields| - 1;
    if i < n {
      var init := fields[..n];
      assert init[i] == fields[i];
      GetLastWins(init, i);
    }
  }

  /** JavaScript truthiness of a possibly-absent value (absent is `undefined`). */
  predicate Truthy(v: Option<Json>)
  {
    match v
    case None => false
    case Some(JNull) => false
    case Some(JBool(b)) => b
    case Some(JNumber(n)) => n != 0.0
    case Some(JString(s)) => s != ""
    case Some(_) => true
  }

  /** A field list with pairwise different keys, as an encoder writes it. */
  ghost predicate KeysDistinct(fields: seq<Field>)
  {
    forall i, j :: 0 <= i < j < |fields| ==> fields[i].key != fields[j].key
  }

  /** With distinct keys, every listed member is found with its own value. */
  lemma GetListed(fields: seq<Field>, i: nat)
    requires KeysDistinct(fields)
    requires i < |fields|
    ensures Get(fields, fields[i].key) == Some(fields[i].value)
  {
    GetLastWins(fields, i);
  }
}
