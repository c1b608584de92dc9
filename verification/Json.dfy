/** JSON documents as values. Encoding and decoding are not modelled: a column
    or a file that stores a document is modelled as the document. */
module Json {

  datatype Json =
    | Null
    | Bool(b: bool)
    | Num(n: int)
    | Str(s: string)
    | Arr(items: seq<Json>)
    | Obj(fields: map<string, Json>)

  /** `document.get(key)`: Null when the key is absent. */
  function Get(j: Json, key: string): Json {
    if j.Obj? && key in j.fields then j.fields[key] else Null
  }

  /** The truth value a conditional gives a decoded document. */
  predicate Truthy(j: Json) {
    match j
    case Null => false
    case Bool(b) => b
    case Num(n) => n != 0
    case Str(s) => s != ""
    case Arr(items) => items != []
    case Obj(fields) => fields != map[]
  }

  /** `settings.pop("settings", None)` on the nested object stored under `key`. */
  function DropNestedSettings(j: Json, key: string): Json {
    if j.Obj? && key in j.fields && j.fields[key].Obj? then
      Obj(j.fields[key := Obj(j.fields[key].fields - {"settings"})])
    else
      j
  }
}
