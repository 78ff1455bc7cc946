/** The JSON values a request body can carry once Express has parsed it. */
module Json {

  /** A JSON value. Numbers are kept exact; a body has no `undefined` and no `NaN`. */
  datatype Json =
    | JNull
    | JBool(b: bool)
    | JNum(n: real)
    | JStr(s: string)
    | JArr(items: seq<Json>)
    | JObj(fields: map<string, Json>)
}
