// JSON values, as far as dashboards and target files need them.
module JsonTree {
  datatype Json =
    | Str(s: string)
    | Int(n: int)
    | Bool(b: bool)
    | Arr(items: seq<Json>)
    | Obj(fields: seq<Entry>)

  datatype Entry = Entry(key: string, value: Json)
}
