/** Decoded JSON values, as encoding/json leaves them in an `any`. */
module Json {
  datatype Json =
    | Null
    | Bool(b: bool)
    | Number(n: real)
    | Text(s: string)
    | Array(items: seq<Json>)
    | Object(fields: map<string, Json>)
}
