/** Values every compiler stage exchanges: bound parameters, the compiled
    `(sql, params)` pair, and Python's exceptions as an error value. */
module SqlTypes {

  /** A bound query parameter. Only the distinctions the backend looks at are
      kept: the exact type `str`, integers, booleans, None, and anything else. */
  datatype Param = PStr(s: string) | PInt(i: int) | PBool(b: bool) | PNone | PObject(id: nat)

  /** Python truthiness of a parameter value. */
  predicate Truthy(p: Param) {
    match p
    case PStr(s) => s != []
    case PInt(i) => i != 0
    case PBool(b) => b
    case PNone => false
    case PObject(_) => true
  }

  /** The `(sql, params)` pair a compiler returns. */
  datatype Compiled = Compiled(sql: string, params: seq<Param>)

  /** The Python exception a call raises. */
  datatype Error =
    | ValueError(message: string)
    | AttributeError(message: string)
    | TypeError(message: string)
    | UnboundLocalError(message: string)
    | UpstreamError(message: string)

  datatype Result<+T> = Ok(value: T) | Err(error: Error) {
    predicate IsFailure() {
      Err?
    }

    function PropagateFailure<U>(): Result<U>
      requires Err?
    {
      Err(error)
    }

    function Extract(): T
      requires Ok?
    {
      value
    }
  }

  datatype Option<+T> = None | Some(value: T)
}
