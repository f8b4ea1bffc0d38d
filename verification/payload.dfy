/**
 * JSON values as the token-usage service sees them. Numbers are integers
 * (token counts); an object keeps its keys in insertion order, which is the
 * order `Object.entries` enumerates them in. Keys of an object are taken to be
 * distinct, as they are in a JavaScript object; a lookup returns the first.
 */
module Payload {
  import opened Wrappers

  datatype Json =
    | Null
    | Bool(b: bool)
    | Num(n: int)
    | Str(s: string)
    | Arr(items: seq<Json>)
    | Obj(fields: seq<(string, Json)>)

  /** JavaScript truthiness (`!value` is false). */
  predicate Truthy(v: Json) {
    match v
    case Null => false
    case Bool(b) => b
    case Num(n) => n != 0
    case Str(s) => s != ""
    case _ => true
  }

  /** `typeof value === 'object'` for a non-null value: arrays and objects. */
  predicate IsContainer(v: Json) {
    v.Arr? || v.Obj?
  }

  /** The value stored under `key` in an ordered list of fields. */
  function Find(fields: seq<(string, Json)>, key: string): (r: Option<Json>)
    ensures r.Some? <==> exists i :: 0 <= i < |fields| && fields[i].0 == key
    ensures r.Some? ==> exists i :: 0 <= i < |fields| && fields[i] == (key, r.value)
    decreases |fields|
  {
    if |fields| == 0 then None
    else if fields[0].0 == key then Some(fields[0].1)
    else
      var r := Find(fields[1..], key);
      assert forall i :: 0 <= i < |fields[1..]| ==> fields[1..][i] == fields[i + 1];
      r
  }

  /** The property read `value[key]`: only objects have named properties. */
  function Property(v: Json, key: string): Option<Json> {
    if v.Obj? then Find(v.fields, key) else None
  }

  /** `key in obj` / `Object.hasOwnProperty.call(obj, key)` on an object's fields. */
  predicate HasKey(fields: seq<(string, Json)>, key: string) {
    Find(fields, key).Some?
  }
}
