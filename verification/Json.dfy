/** Decoded JSON values, as `any` holds them after normalizeJSON (cmd/cordumctl/pack.go). */
module JsonValue {
  import opened Wrappers

  /** A number is kept as its literal; which literals occur is the decoder's business. */
  datatype Json =
    | Null
    | Bool(b: bool)
    | Num(lit: string)
    | Str(s: string)
    | Arr(items: seq<Json>)
    | Obj(fields: map<string, Json>)

  type Path = seq<string>

  /** The value at a path of object keys. */
  function At(j: Json, path: Path): Option<Json> {
    if path == [] then Some(j)
    else if j.Obj? && path[0] in j.fields then At(j.fields[path[0]], path[1..])
    else None
  }

  /** The non-object value at a path, if there is one. */
  function LeafAt(j: Json, path: Path): Option<Json> {
    match At(j, path)
    case None => None
    case Some(v) => if v.Obj? then None else Some(v)
  }

  function Field(j: Json, k: string): Json {
    if j.Obj? && k in j.fields then j.fields[k] else Null
  }

  function Fields(j: Json): map<string, Json> {
    if j.Obj? then j.fields else map[]
  }
}
