/** Option and Result, the failure-carrying datatypes used by the other modules. */
module Wrappers {

  datatype Option<+T> = None | Some(value: T)

  datatype Result<+T, +E> = Ok(value: T) | Err(error: E)
}

/**
 The dynamically typed values that a YAML document (loaded with the safe loader)
 or a decoded JSON argument can hold, and Python's rules for them: truthiness,
 `x or y`, and `dict.get`.
 */
module Values {

  /** A byte of a Python `bytes` value. */
  newtype Byte = b: int | 0 <= b < 256

  /** A Python value as produced by the YAML safe loader; `Null` is Python's `None`. */
  datatype Value =
    | Null
    | Bool(b: bool)
    | Int(i: int)
    | Float(r: real)
    | Str(s: string)
    | Bytes(bytes: seq<Byte>)
    | List(items: seq<Value>)
    | Dict(entries: map<string, Value>)

  /** Python's truth value: `None`, `False`, zero and empty containers are false. */
  predicate Truthy(v: Value) {
    match v
    case Null => false
    case Bool(b) => b
    case Int(i) => i != 0
    case Float(r) => r != 0.0
    case Str(s) => |s| > 0
    case Bytes(bs) => |bs| > 0
    case List(items) => |items| > 0
    case Dict(entries) => |entries| > 0
  }

  /** Python's `a or b`: the first operand when it is truthy, otherwise the second. */
  function Or(a: Value, b: Value): Value {
    if Truthy(a) then a else b
  }

  /** Python's `d.get(key)`: the stored value, or `None` when the key is absent. */
  function Get(d: map<string, Value>, key: string): Value {
    if key in d then d[key] else Null
  }

  /** Python's `s.endswith("/")`. */
  predicate EndsWithSlash(s: string) {
    |s| > 0 && s[|s| - 1] == '/'
  }
}
