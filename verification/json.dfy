/** A decoded JSON document (or the decoded `vars` section of the configuration),
    as the tagged union `encoding/json` produces when decoding into `interface{}`. */
module JsonValue {

  datatype Json =
    | Null
    | Bool(b: bool)
    | Num(n: real)
    | Str(s: string)
    | Arr(items: seq<Json>)
    | Obj(fields: map<string, Json>)

  /** The `reflect.Kind` name Go prints for a decoded value: `nil` has the invalid
      kind, numbers decode as `float64`, arrays as slices and objects as maps. */
  function KindName(v: Json): string
  {
    match v
    case Null => "invalid"
    case Bool(_) => "bool"
    case Num(_) => "float64"
    case Str(_) => "string"
    case Arr(_) => "slice"
    case Obj(_) => "map"
  }
}
