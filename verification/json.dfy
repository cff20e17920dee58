/** JSON documents as the archive stores them (field maps rather than text). */
module Json {

  /** A decoded JSON value. `JDoc(doc)` is a JSON string whose text is the
      sorted-keys encoding of `doc`; the encoding itself is kept symbolic. */
  datatype Json =
    | JNull
    | JBool(b: bool)
    | JInt(i: int)
    | JFloat(f: real)
    | JStr(s: string)
    | JDoc(doc: Json)
    | JList(items: seq<Json>)
    | JObj(fields: map<string, Json>)

  /** Python can put the value in a `set`: lists and dicts are unhashable. */
  predicate Hashable(j: Json) {
    !j.JList? && !j.JObj?
  }

  /** `isinstance(j, str)`: a plain string, or the text of an encoded
      document. */
  predicate IsStr(j: Json) {
    j.JStr? || j.JDoc?
  }

  /** `x if isinstance(x, list) else [x]` */
  function AsList(j: Json): (r: seq<Json>)
    ensures j.JList? ==> r == j.items
    ensures !j.JList? ==> r == [j]
  {
    if j.JList? then j.items else [j]
  }

  /** `d.get(key, default)` on a decoded JSON object. */
  function Get(fields: map<string, Json>, key: string, default: Json): Json {
    if key in fields then fields[key] else default
  }
}
