/** Values as `JSON.parse` produces them, and the Option type used throughout. */
module Json {

  datatype Option<+T> = None | Some(value: T)

  /**
   * A JSON value. Numbers are integers in this model.
   */
  datatype Json =
    | JNull
    | JBool(b: bool)
    | JNum(n: int)
    | JStr(s: string)
    | JArr(items: seq<Json>)
    | JObj(fields: map<string, Json>)
}
