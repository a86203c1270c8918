/** The part of Python's data model the rule agent touches: the scalar values
    a decoded payload can carry, `str()` of them, truthiness, dictionary
    lookup with `.get`, and the exceptions the core can raise. */
module Py {
  import opened Text

  /** A Python scalar: None, a bool, an int or a str. */
  datatype Value = Null | Bool(b: bool) | Int(i: int) | Str(s: string)

  /** The exceptions raised along the paths of the core. */
  datatype Error =
    | TypeError          // an operand of the wrong type (iterating None, joining an int, `bool in str`)
    | KeyError(key: string)
    | ValueError(message: string)
    | JsonDecodeError    // `json.loads` of malformed text
    | AttributeError     // `.get` on decoded JSON that is not an object
    | UnboundLocalError  // `return rule` when no branch assigned `rule`
    | FileNotFoundError  // opening a path that is not there
    | IsADirectoryError  // opening a directory as a file
    | NotADirectoryError // a file where a directory of the path should be
    | FileExistsError    // `mkdir` where a file already is

  datatype Option<T> = None | Some(value: T)

  datatype Result<T> = Ok(value: T) | Err(error: Error)

  /** `str(v)`, which is also what an f-string inserts for `{v}`. */
  function ToStr(v: Value): string
  {
    match v
    case Null => "None"
    case Bool(b) => if b then "True" else "False"
    case Int(i) => IntToString(i)
    case Str(s) => s
  }

  /** `bool(v)`. */
  predicate Truthy(v: Value)
  {
    match v
    case Null => false
    case Bool(b) => b
    case Int(i) => i != 0
    case Str(s) => s != ""
  }

  /** `d.get(k)`: None when the key is absent. */
  function Get(d: map<string, Value>, k: string): Value
  {
    if k in d then d[k] else Null
  }

  /** The outcome of `json.loads(text)` as far as the core looks at it. */
  datatype Decoded = Malformed | NotObject | Object(fields: map<string, Value>)

  /** `data = json.loads(content)` followed by `data.get(key)`. */
  function LoadsGet(decoded: Decoded, key: string): Result<Value>
  {
    match decoded
    case Malformed => Err(JsonDecodeError)
    case NotObject => Err(AttributeError)
    case Object(fields) => Ok(Get(fields, key))
  }
}
