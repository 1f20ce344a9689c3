/** Decoded JSON values. */
module JsonValues {
  import opened Wrappers
  import opened OrderedDicts

  /** An object keeps the order of its fields. */
  datatype Json =
    | Null | Bool(b: bool) | Num(n: int) | Str(s: string)
    | Arr(items: seq<Json>) | Obj(fields: OrderedDict<Json>)

  /** `j.get(name)`. */
  function Field(j: Json, name: string): Option<Json> {
    if j.Obj? && name in j.fields.at then Some(j.fields.at[name]) else None
  }
}
