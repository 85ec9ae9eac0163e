/** A decoded JSON document, as `json.loads` returns it (objects keep the last value of a repeated key). */
module JsonValue {

  import opened Common

  datatype Json =
    | JNull
    | JBool(b: bool)
    | JInt(i: int)
    | JFloat(f: real)
    | JStr(s: string)
    | JArr(items: seq<Json>)
    | JObj(fields: map<string, Json>)

  /** `d.get(key, default)` on a JSON object. */
  function Get(fields: map<string, Json>, key: string, default: Json): (r: Json)
    ensures key in fields ==> r == fields[key]
    ensures key !in fields ==> r == default
  {
    if key in fields then fields[key] else default
  }

  /** A list of strings as JSON. */
  function StrArray(names: seq<string>): (r: Json)
    ensures r.JArr? && |r.items| == |names|
    ensures forall i :: 0 <= i < |names| ==> r.items[i] == JStr(names[i])
  {
    JArr(seq(|names|, i requires 0 <= i < |names| => JStr(names[i])))
  }

  /** The list of strings held by a JSON array of strings, if it is one. */
  function AsStrings(j: Json): (r: Option<seq<string>>)
    ensures r.Some? <==> j.JArr? && forall i :: 0 <= i < |j.items| ==> j.items[i].JStr?
    ensures r.Some? ==> |r.value| == |j.items| && forall i :: 0 <= i < |j.items| ==> j.items[i] == JStr(r.value[i])
  {
    if j.JArr? && forall i :: 0 <= i < |j.items| ==> j.items[i].JStr? then
      Some(seq(|j.items|, i requires 0 <= i < |j.items| => j.items[i].s))
    else None
  }

  /** Decoding a list of strings written by `StrArray` gives the list back. */
  lemma StrArrayRoundTrip(names: seq<string>)
    ensures AsStrings(StrArray(names)) == Some(names)
  {
    var r := AsStrings(StrArray(names));
    assert r.Some?;
    assert r.value == names;
  }
}
