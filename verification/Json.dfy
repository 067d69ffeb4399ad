/** The JSON-like values that template bodies and payloads are made of. */
module Json {
  /** A dictionary binds `keys[i]` to `values[i]`, in insertion order. */
  datatype Json =
    | Null
    | Bool(b: bool)
    | Number(n: real)
    | Str(s: string)
    | List(items: seq<Json>)
    | Dict(keys: seq<string>, values: seq<Json>)

  datatype Option<+T> = None | Some(value: T)
}
