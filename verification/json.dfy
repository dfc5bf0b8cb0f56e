/** JSON values as `JSON.parse` produces them and `JSON.stringify` consumes
    them (RFC 8259), with the two JavaScript conversions the model needs:
    property access and truthiness. Numbers are integers here. */
module JsonValues {
  import opened Wrappers

  datatype Json =
    | JNull
    | JBool(b: bool)
    | JNum(n: int)
    | JStr(s: string)
    | JArr(items: seq<Json>)
    | JObj(members: seq<Member>)

  /** One `"key": value` pair of an object, in source order. */
  datatype Member = Member(key: string, value: Json)

  /** The value stored under `key`; an object literal with a repeated key keeps
      the last one, as `JSON.parse` does. */
  function Lookup(members: seq<Member>, key: string): (r: Option<Json>)
    ensures r.None? <==> forall k :: 0 <= k < |members| ==> members[k].key != key
    ensures r.Some? ==> exists k :: 0 <= k < |members| && members[k] == Member(key, r.value)
                                 && forall j :: k < j < |members| ==> members[j].key != key
    decreases |members|
  {
    if |members| == 0 then None
    else
      var last := members[|members| - 1];
      if last.key == key then Some(last.value)
      else Lookup(members[..|members| - 1], key)
  }

  /** Property access `value[key]` on a non-null value: `undefined` (None) for
      a missing key and for every value that is not an object. */
  function Get(value: Json, key: string): (r: Option<Json>)
    ensures r.Some? ==> value.JObj?
  {
    if value.JObj? then Lookup(value.members, key) else None
  }

  /** JavaScript truthiness: `null`, `false`, `0` and `""` are falsy. */
  predicate Truthy(value: Json) {
    match value
    case JNull => false
    case JBool(b) => b
    case JNum(n) => n != 0
    case JStr(s) => s != ""
    case _ => true
  }
}
