/** JSON values as `json.loads` returns them, and the optional-value wrapper. */
module JsonValues {

  datatype Option<+T> = None | Some(value: T)

  /** A decoded JSON value: what `json.loads` builds (dict, list, str, number, bool, None). */
  datatype Json =
    | Null
    | Bool(b: bool)
    | Num(n: real)
    | Str(s: string)
    | Arr(items: seq<Json>)
    | Obj(fields: map<string, Json>)
}
