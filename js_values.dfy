/**
 * Values as they arrive in a parsed request (JSON bodies, path and query
 * parameters) and as the validators read them; `undefined` is the absence of
 * a value, `Option.None`.
 */
module JsValues {
  import opened Wrappers

  datatype Value =
    | Null
    | Bool(b: bool)
    | Num(x: real)          // a finite number
    | NaN
    | Str(s: string)
    | List(items: seq<Value>)
    | Obj(fields: map<string, Value>)

  /** JavaScript truthiness; `undefined` is falsy. */
  predicate Truthy(v: Option<Value>) {
    match v
    case None => false
    case Some(Null) => false
    case Some(Bool(b)) => b
    case Some(Num(x)) => x != 0.0
    case Some(NaN) => false
    case Some(Str(s)) => s != ""
    case Some(List(_)) => true
    case Some(Obj(_)) => true
  }
}

/** The error value handlers pass to `next(...)`; `utils/ApiError.js` itself is not part of this model. */
module ApiErrors {

  datatype ApiError = ApiError(message: string, statusCode: int)
}
