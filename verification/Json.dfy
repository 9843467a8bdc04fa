/** JSON values. Objects are maps: no operation modelled here depends on key order. */
module Json {
  datatype Number = Int(i: int) | Float(r: real)

  datatype Value =
    | Null
    | Bool(b: bool)
    | Num(n: Number)
    | Str(s: string)
    | Arr(items: seq<Value>)
    | Obj(fields: map<string, Value>)
}
