/** The values that `json.loads` produces, as far as the extractor looks at them. */
module Json {

  datatype Option<+T> = None | Some(value: T)

  /** A JSON value after decoding. Numbers are kept exactly, as reals: the
      extractor only compares them with the threshold. */
  datatype JsonValue =
    | JNull
    | JBool(b: bool)
    | JNum(n: real)
    | JStr(s: string)
    | JArr(items: seq<JsonValue>)
    | JObj(fields: map<string, JsonValue>)

  /** A decoded JSON object; a Python dict with string keys. */
  type JsonObject = map<string, JsonValue>

  /** `json.loads` applied to a candidate substring. A candidate always starts
      with '{', so a successful decode is always an object; `None` stands for
      the `json.JSONDecodeError` the extractor catches. */
  type Parser = string -> Option<JsonObject>
}
