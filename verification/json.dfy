/** The untyped dictionaries (`[AnyHashable: Any]`) that the setup decoders
    read, as a JSON-like value. An object is a list of fields; a lookup takes
    the first field with the key, matching a dictionary's single entry. */
module Json {
  import opened Wrappers

  datatype Json =
    | JNull
    | JBool(b: bool)
    | JInt(i: int)
    | JString(s: string)
    | JArray(items: seq<Json>)
    | JObject(fields: seq<Field>)

  datatype Field = Field(key: string, value: Json)

  /** `dict[key]` on an object; nothing for a missing key or a non-object. */
  function Get(j: Json, key: string): (r: Option<Json>)
    ensures r.Some? ==> j.JObject? && r.value < j
    ensures r.Some? <==> j.JObject? && exists i :: 0 <= i < |j.fields| && j.fields[i].key == key
    ensures r.Some? ==> exists i :: 0 <= i < |j.fields| && j.fields[i] == Field(key, r.value)
  {
    match j
    case JObject(fields) =>
      (match FirstIndex(fields, (f: Field) => f.key == key)
       case Some(i) => Some(fields[i].value)
       case None => None)
    case _ => None
  }

  /** The field at `i` is found when no earlier field has its key. */
  lemma GetField(fields: seq<Field>, i: nat)
    requires i < |fields|
    requires forall k :: 0 <= k < i ==> fields[k].key != fields[i].key
    ensures Get(JObject(fields), fields[i].key) == Some(fields[i].value)
  {
    var key := fields[i].key;
    var found := FirstIndex(fields, (f: Field) => f.key == key);
    assert found == Some(i);
  }

  /** `as? String`. */
  function AsString(j: Option<Json>): (r: Option<string>)
    ensures r.Some? <==> j.Some? && j.value.JString?
    ensures r.Some? ==> j.value == JString(r.value)
  {
    if j.Some? && j.value.JString? then Some(j.value.s) else None
  }

  /** `as? Int`. */
  function AsInt(j: Option<Json>): (r: Option<int>)
    ensures r.Some? <==> j.Some? && j.value.JInt?
    ensures r.Some? ==> j.value == JInt(r.value)
  {
    if j.Some? && j.value.JInt? then Some(j.value.i) else None
  }

  /** `as? Bool`. */
  function AsBool(j: Option<Json>): (r: Option<bool>)
    ensures r.Some? <==> j.Some? && j.value.JBool?
    ensures r.Some? ==> j.value == JBool(r.value)
  {
    if j.Some? && j.value.JBool? then Some(j.value.b) else None
  }

  /** `as? [String]`: an array all of whose elements are strings. */
  function AsStrings(j: Option<Json>): (r: Option<seq<string>>)
    ensures r.Some? <==> j.Some? && j.value.JArray? && forall i :: 0 <= i < |j.value.items| ==> j.value.items[i].JString?
    ensures r.Some? ==> |r.value| == |j.value.items| && forall i :: 0 <= i < |r.value| ==> j.value.items[i] == JString(r.value[i])
  {
    if j.Some? && j.value.JArray? && forall i :: 0 <= i < |j.value.items| ==> j.value.items[i].JString? then
      Some(seq(|j.value.items|, i requires 0 <= i < |j.value.items| && j.value.items[i].JString? => j.value.items[i].s))
    else None
  }

  /** `as? [[AnyHashable: Any]]`: an array all of whose elements are objects. */
  function AsObjects(j: Option<Json>): (r: Option<seq<Json>>)
    ensures r.Some? <==> j.Some? && j.value.JArray? && forall i :: 0 <= i < |j.value.items| ==> j.value.items[i].JObject?
    ensures r.Some? ==> r.value == j.value.items
  {
    if j.Some? && j.value.JArray? && forall i :: 0 <= i < |j.value.items| ==> j.value.items[i].JObject? then
      Some(j.value.items)
    else None
  }

  /** `as? [AnyHashable: Any]`. */
  function AsObject(j: Option<Json>): (r: Option<Json>)
    ensures r.Some? <==> j.Some? && j.value.JObject?
    ensures r.Some? ==> r == j
  {
    if j.Some? && j.value.JObject? then j else None
  }
}
