/** JSON values, and the library calls that read them, left abstract. */
module Json {
  import opened Wrappers

  datatype Json =
    | Null
    | Bool(b: bool)
    | Num(n: real)
    | Str(s: string)
    | Arr(items: seq<Json>)
    | Obj(fields: map<string, Json>)

  /** The standard library: `JSON.parse` (absent where it throws), and what `String` and `Number` make of values that
      are not already a string or a number (`Number` is absent for NaN). */
  datatype Library = Library(
    parse: string -> Option<Json>, stringOf: Json -> string, numberOf: Json -> Option<real>)
}
