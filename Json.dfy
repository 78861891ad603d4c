/**
 * JSON values as the service sees them after `json.loads` / `response.json()`,
 * with the few Python operations the service applies to them: `dict.get`,
 * truthiness (`if x`, `not x`) and the name of the Python type.
 */
module Json {
  import opened Wrappers

  /** JSON numbers are kept integral; the service never computes on them. */
  datatype Json =
    | JNull
    | JBool(b: bool)
    | JNum(n: int)
    | JStr(s: string)
    | JArr(items: seq<Json>)
    | JObj(fields: seq<(string, Json)>)

  type Fields = seq<(string, Json)>

  /** `dict.get(key)`: when a key is bound twice the later binding wins, as with `json.loads`. */
  function Get(fields: Fields, key: string): Option<Json> {
    if fields == [] then None
    else if fields[|fields| - 1].0 == key then Some(fields[|fields| - 1].1)
    else Get(fields[..|fields| - 1], key)
  }

  /** `Get` finds nothing exactly when the key is unbound, and otherwise the value of its last binding. */
  lemma {:induction false} GetLastBinding(fields: Fields, key: string)
    ensures Get(fields, key).None? <==> forall i :: 0 <= i < |fields| ==> fields[i].0 != key
    ensures Get(fields, key).Some? ==>
      exists i :: 0 <= i < |fields| && fields[i] == (key, Get(fields, key).value) &&
        forall j :: i < j < |fields| ==> fields[j].0 != key
  {
    if fields != [] && fields[|fields| - 1].0 != key {
      var init := fields[..|fields| - 1];
      GetLastBinding(init, key);
      assert forall i :: 0 <= i < |init| ==> init[i] == fields[i];
    }
  }

  /** A key bound exactly once is found at that binding. */
  lemma GetUnique(fields: Fields, i: nat, key: string)
    requires i < |fields| && fields[i].0 == key
    requires forall j :: 0 <= j < |fields| && j != i ==> fields[j].0 != key
    ensures Get(fields, key) == Some(fields[i].1)
  {
    GetLastBinding(fields, key);
  }

  /** `dict.get(key, default)`. */
  function GetOr(fields: Fields, key: string, default: Json): Json {
    Get(fields, key).GetOr(default)
  }

  /** Python truthiness of a decoded JSON value. */
  predicate Truthy(j: Json) {
    match j
    case JNull => false
    case JBool(b) => b
    case JNum(n) => n != 0
    case JStr(s) => s != ""
    case JArr(items) => items != []
    case JObj(fields) => fields != []
  }

  /** The name Python gives to the type of a decoded JSON value. */
  function TypeName(j: Json): string {
    match j
    case JNull => "NoneType"
    case JBool(_) => "bool"
    case JNum(_) => "int"
    case JStr(_) => "str"
    case JArr(_) => "list"
    case JObj(_) => "dict"
  }

  /** An optional string field serialised by pydantic/httpx: `None` becomes `null`. */
  function OptStr(o: Option<string>): Json {
    match o
    case Some(s) => JStr(s)
    case None => JNull
  }
}
