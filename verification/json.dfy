/** JSON documents as values. The byte-level parser and printer of `encoding/json` are not
    modelled: a body either parsed to a value or it did not. */
module Json {

  /** A JSON value. Numbers keep the distinction `encoding/json` cares about when it fills
      an integer field: a literal without fraction or exponent (`JInt`) and any other number
      literal (`JDecimal`, kept as written). Objects are maps from member name to value. */
  datatype Json =
    | JNull
    | JBool(b: bool)
    | JInt(i: int)
    | JDecimal(literal: string)
    | JString(s: string)
    | JArray(items: seq<Json>)
    | JObject(fields: map<string, Json>)

  /** Raw bytes as `json.Unmarshal` sees them: a well-formed document, or a syntax error
      with the error's text. */
  datatype Body = Parsed(value: Json) | Malformed(reason: string)

  /** The string member `key` of an object, or "" when there is none. */
  function StringMember(v: Json, key: string): (r: string)
    ensures r != "" ==> v.JObject? && key in v.fields && v.fields[key] == JString(r)
    ensures v.JObject? && key in v.fields && v.fields[key].JString? ==> r == v.fields[key].s
  {
    if v.JObject? && key in v.fields && v.fields[key].JString? then v.fields[key].s else ""
  }
}
