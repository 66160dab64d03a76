/** The JSON values the loaders and the request handler look into. */
module Json {

  /** A JSON value, as far as anything here distinguishes it: a string, an object, or anything else. */
  datatype Value = Str(s: string) | Obj(fields: map<string, Value>) | Other

  /** A leaf read as text: a string is itself; any other value reads as `""`. */
  function Text(v: Value): string
  {
    if v.Str? then v.s else ""
  }

  /** `obj.get(key, '')` on an object whose leaves are text. */
  function Get(fields: map<string, Value>, key: string): string
  {
    if key in fields then Text(fields[key]) else ""
  }

  /** Python's `a or b` on two strings. */
  function Or(a: string, b: string): string
  {
    if a != "" then a else b
  }
}
