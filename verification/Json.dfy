/** JSON values. Objects are maps: two objects with the same members are equal. */
module Json {
  /** A float is its mantissa times a power of two, in lowest terms. */
  datatype Value =
    | Null
    | Bool(b: bool)
    | Int(n: int)
    | Float(mantissa: int, exponent: int)
    | Str(s: string)
    | Arr(items: seq<Value>)
    | Obj(fields: map<string, Value>)
}
