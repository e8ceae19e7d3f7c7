/** The JSON documents the threshold file holds, as `json.load` returns them. */
module Json {
  datatype JsonValue =
    | Null
    | Bool(b: bool)
    | Num(x: real)
    | Text(s: string)
    | Array(items: seq<JsonValue>)
    | Object(fields: map<string, JsonValue>)
}
