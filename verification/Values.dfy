/** Decoded JSON and the documents made of it: Go's interface{} holding maps, slices and scalars. */
module Values {

  datatype Value =
    | Null
    | Bool(b: bool)
    | Num(x: real)
    | Str(s: string)
    | Arr(items: seq<Value>)
    | Obj(fields: map<string, Value>)

}
