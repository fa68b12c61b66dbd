/** Values shared by every component: optional and fallible results, the JSON-like
    documents that travel over the pipes and come out of the configuration parsers,
    and the few Python conventions (truthiness, `dict.get`, `in`) the core relies on. */
module Values {

  datatype Option<+T> = None | Some(value: T)

  datatype Result<+T, +E> = Ok(value: T) | Err(error: E)

  /** A document as `json.loads` or a YAML/TOML parser returns it. Objects are keyed
      maps: the order of their keys is not part of this model. Floats are left out. */
  datatype Value =
    | Null
    | Bool(b: bool)
    | Int(i: int)
    | Str(s: string)
    | List(items: seq<Value>)
    | Object(fields: map<string, Value>)

  const EmptyObject: Value := Object(map[])

  /** Python truthiness of a document, as `x or default` uses it. */
  predicate Truthy(v: Value) {
    match v
    case Null => false
    case Bool(b) => b
    case Int(i) => i != 0
    case Str(s) => s != ""
    case List(items) => items != []
    case Object(fields) => fields != map[]
  }

  /** `x or default`: the value itself when truthy, the default otherwise. */
  function OrElse(v: Value, default: Value): Value {
    if Truthy(v) then v else default
  }

  /** `d.get(key, default)` on a document that is an object. */
  function Get(fields: map<string, Value>, key: string, default: Value): Value {
    if key in fields then fields[key] else default
  }

  predicate OccursAt(needle: string, hay: string, i: int) {
    0 <= i <= |hay| - |needle| && hay[i..i + |needle|] == needle
  }

  predicate IsSubstring(needle: string, hay: string) {
    exists i :: 0 <= i <= |hay| && OccursAt(needle, hay, i)
  }

  /** Python's `key in v` for a decoded document: key membership for an object, element
      membership for a list, substring for a string; `None` stands for the TypeError
      Python raises for a number, a boolean or null. */
  function PyContains(v: Value, key: string): Option<bool> {
    match v
    case Object(fields) => Some(key in fields)
    case List(items) => Some(Str(key) in items)
    case Str(s) => Some(IsSubstring(key, s))
    case _ => None
  }
}
