/**
 * `middleware/errorMiddleware.js`: the last middleware of the application.
 * It gives an error without a usable `statusCode` the code 500, in place,
 * and answers with a JSON envelope that carries the error itself and its
 * stack only when `NODE_ENV` is `development`. The environment variable is
 * a parameter; writing the response is the value returned.
 */
module ErrorMiddleware {
  import opened Wrappers
  import opened JsValues
  import opened ApiErrors

  /**
   * The error handed to `next(err)`: an `ApiError` or any other thrown
   * object. Only `statusCode` is assigned by the handler; the properties it
   * reads are `undefined` (`None`) when the object does not have them.
   */
  class ErrorObject {
    var statusCode: Option<Value>
    const status: Option<Value>
    const message: Option<Value>
    const stack: Option<Value>

    constructor (statusCode: Option<Value>, status: Option<Value>, message: Option<Value>, stack: Option<Value>)
      ensures this.statusCode == statusCode && this.status == status
      ensures this.message == message && this.stack == stack
    {
      this.statusCode := statusCode;
      this.status := status;
      this.message := message;
      this.stack := stack;
    }

    /** The object an `ApiError(message, statusCode)` is, with its `status` and `stack` as given. */
    constructor FromApiError(e: ApiError, status: Option<Value>, stack: Option<Value>)
      ensures statusCode == Some(Num(e.statusCode as real)) && this.status == status
      ensures message == Some(Str(e.message)) && this.stack == stack
    {
      statusCode := Some(Num(e.statusCode as real));
      this.status := status;
      message := Some(Str(e.message));
      this.stack := stack;
    }
  }

  /** `err.statusCode || 500`. */
  function StatusCodeOrDefault(statusCode: Option<Value>): (r: Value)
    ensures Truthy(Some(r))
    ensures Truthy(statusCode) ==> statusCode == Some(r)
    ensures !Truthy(statusCode) ==> r == Num(500.0)
  {
    if Truthy(statusCode) then statusCode.value else Num(500.0)
  }

  /** Handling an error a second time leaves its status code as the first time made it. */
  lemma StatusCodeDefaultIdempotent(statusCode: Option<Value>)
    ensures StatusCodeOrDefault(Some(StatusCodeOrDefault(statusCode))) == StatusCodeOrDefault(statusCode)
  {
  }

  /** An `ApiError` with a non-zero code keeps it; one with code 0 is answered with 500. */
  lemma ApiErrorStatusKept(e: ApiError)
    ensures StatusCodeOrDefault(Some(Num(e.statusCode as real))) ==
            if e.statusCode != 0 then Num(e.statusCode as real) else Num(500.0)
  {
  }

  /** `err.status || 'error'`. */
  function StatusText(status: Option<Value>): (r: Value)
    ensures Truthy(Some(r))
    ensures Truthy(status) ==> status == Some(r)
    ensures !Truthy(status) ==> r == Str("error")
  {
    if Truthy(status) then status.value else Str("error")
  }

  /** The two fields only the development envelope has. */
  datatype Debug = Debug(error: ErrorObject, stack: Option<Value>)

  /**
   * The JSON body: `status`, `'status code'` and `message`, then, in
   * development, `error` and `stack`. A `None` entry is `undefined`, which
   * `JSON.stringify` leaves out.
   */
  datatype Envelope = Envelope(status: Value, statusCode: Option<Value>, message: Option<Value>, debug: Option<Debug>)

  /** `res.status(code).json(body)`. */
  datatype Response = Response(httpStatus: Option<Value>, body: Envelope)

  /** `sendErrDev`: the full envelope, the error object and its stack included. */
  function SendErrDev(err: ErrorObject): (r: Response)
    reads err
    ensures r.httpStatus == r.body.statusCode == err.statusCode
    ensures r.body.message == err.message
    ensures r.body.debug == Some(Debug(err, err.stack))
  {
    Response(err.statusCode, Envelope(StatusText(err.status), err.statusCode, err.message, Some(Debug(err, err.stack))))
  }

  /** `sendErrProd`: status, status code and message, nothing more. */
  function SendErrProd(err: ErrorObject): (r: Response)
    reads err
    ensures r.httpStatus == r.body.statusCode == err.statusCode
    ensures r.body.message == err.message
    ensures r.body.debug.None?
  {
    Response(err.statusCode, Envelope(StatusText(err.status), err.statusCode, err.message, None))
  }

  /** The production answer is the development answer without the error object and the stack. */
  lemma ProdIsDevWithoutDebug(err: ErrorObject)
    ensures SendErrProd(err) == SendErrDev(err).(body := SendErrDev(err).body.(debug := None))
  {
  }

  /** Only `NODE_ENV === 'development'` selects the development envelope. */
  predicate Development(nodeEnv: Option<string>) {
    nodeEnv == Some("development")
  }

  /**
   * `globalError(err, req, res, next)`: the status code is defaulted in
   * place, then the envelope for the environment is sent. The status sent
   * and the `'status code'` field are the same, and never falsy.
   */
  method GlobalError(err: ErrorObject, nodeEnv: Option<string>) returns (r: Response)
    modifies err
    ensures err.statusCode == Some(StatusCodeOrDefault(old(err.statusCode)))
    ensures r == if Development(nodeEnv) then SendErrDev(err) else SendErrProd(err)
    ensures r.httpStatus == r.body.statusCode && Truthy(r.httpStatus)
    ensures r.body.status == StatusText(err.status) && r.body.message == err.message
    ensures r.body.debug.Some? <==> Development(nodeEnv)
  {
    err.statusCode := Some(StatusCodeOrDefault(err.statusCode));
    if Development(nodeEnv) {
      r := SendErrDev(err);
    } else {
      r := SendErrProd(err);
    }
  }
}
