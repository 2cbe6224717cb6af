/** Values shared by every part of the canvas model: optional values, the
    outcome of a request handler, and JSON values as they arrive in request
    bodies (backend) or sit in plain JavaScript objects (frontend). */
module Common {

  datatype Option<+T> = None | Some(value: T)

  /** The ways a request can fail. NotFound and BadRequest are the
      HTTPExceptions the handlers raise (status 404 and 400); ServerError is
      an exception nobody catches (a KeyError, a NameError, a value the
      database refuses), which the framework turns into status 500. */
  datatype Error =
    | NotFound(detail: string)
    | BadRequest(detail: string)
    | ServerError(cause: string)

  datatype Result<+T> = Ok(value: T) | Err(error: Error)

  /** A JSON value. Numbers are integers here: every numeric column of the
      canvas is an integer column. */
  datatype Json =
    | JNull
    | JBool(b: bool)
    | JNum(n: int)
    | JStr(s: string)
    | JArr(items: seq<Json>)

  /** Python's dict.get(key, default). */
  function Lookup(data: map<string, Json>, key: string, default: Json): Json
  {
    if key in data then data[key] else default
  }

  function Max(a: int, b: int): int
  {
    if a < b then b else a
  }

  function Min(a: int, b: int): int
  {
    if a < b then a else b
  }
}
