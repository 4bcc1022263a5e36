/** Parsed JSON values: request bodies, Kafka event payloads and event `data` records.
    There is no `undefined`: a property whose value is undefined is an absent key,
    which is also what `JSON.stringify` makes of it. */
module JsonValues {
  import opened Wrappers

  datatype Json =
    | JNull
    | JBool(b: bool)
    | JNumber(n: real)
    | JString(s: string)
    | JArray(elems: seq<Json>)
    | JObject(fields: map<string, Json>)

  /** The property `key` of a value, as JavaScript reads `v[key]` (absent for non-objects). */
  function Property(v: Json, key: string): (r: Option<Json>)
    ensures r.Some? <==> v.JObject? && key in v.fields
    ensures r.Some? ==> r.value == v.fields[key]
  {
    if v.JObject? && key in v.fields then Some(v.fields[key]) else None
  }

  /** The object zod outputs: the input with every key outside the schema stripped. */
  function Stripped(j: Json, keys: set<string>): (r: Json)
    ensures j.JObject? ==> r.JObject? && r.fields.Keys == j.fields.Keys * keys
    ensures j.JObject? ==> forall k :: k in r.fields ==> r.fields[k] == j.fields[k]
  {
    if j.JObject? then JObject(map k | k in j.fields && k in keys :: j.fields[k]) else j
  }

  /** A map that holds exactly the schema's keys of `j`, with `j`'s values, is what zod outputs. */
  lemma StrippedBy(j: Json, keys: set<string>, d: map<string, Json>)
    requires j.JObject?
    requires forall k :: k in d <==> k in j.fields && k in keys
    requires forall k :: k in d ==> d[k] == j.fields[k]
    ensures d == Stripped(j, keys).fields
  {
    assert d.Keys == Stripped(j, keys).fields.Keys;
  }

  /** The type name zod reports as "received" in an invalid-type issue. */
  function TypeName(v: Option<Json>): string {
    match v
    case None => "undefined"
    case Some(JNull) => "null"
    case Some(JBool(_)) => "boolean"
    case Some(JNumber(_)) => "number"
    case Some(JString(_)) => "string"
    case Some(JArray(_)) => "array"
    case Some(JObject(_)) => "object"
  }
}
