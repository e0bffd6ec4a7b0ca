/**
 * The JSON values the core carries around (serde_json's `Value`): node and edge payloads
 * and canvas snapshots. Numbers are kept as integers; the core never reads them.
 */
module JsonValue {
  import opened Wrappers

  datatype Value =
    | Null
    | Bool(b: bool)
    | Number(n: int)
    | String(s: string)
    | Array(elements: seq<Value>)
    | Object(fields: map<string, Value>)

  /** `value.and_then(|v| v.get(key)).and_then(|v| v.as_str())`: the string stored under `key`
      when `value` is an object holding a string there, and nothing otherwise. */
  function StringField(value: Option<Value>, key: string): (r: Option<string>)
    ensures r.Some? <==> value.Some? && value.value.Object? && key in value.value.fields
                         && value.value.fields[key].String?
    ensures r.Some? ==> r.value == value.value.fields[key].s
  {
    match value
    case Some(Object(fields)) =>
      if key in fields && fields[key].String? then Some(fields[key].s) else None
    case _ => None
  }
}
