/** JSON-like values: what a zod schema receives, what a message catalog holds. */
module Json {
  datatype Value =
    | Str(s: string)
    | Num(n: real)
    | Bool(b: bool)
    | Null
    | Arr(items: seq<Value>)
    | Obj(fields: map<string, Value>)
}
