/** Request, response and error records of the JSON-RPC 2.0 layer, with request validation
    and the response constructors. */
module JsonRpcTypes {
  import opened Wrappers
  import opened Json
  import opened JsonRpcErrors

  /** The only protocol version the server accepts and the one it writes. */
  const Version: string := "2.0"

  /** A decoded request. `P` stands for the raw `params` bytes, which this layer never looks
      into; `id == None` is Go's nil identifier. */
  datatype Request<P> = Request(jsonrpc: string, methodName: string, params: P, id: Option<Id>)

  /** A request is a notification exactly when its identifier is nil: absent, or a JSON
      `null`, which decodes to nil. Any other identifier, `0` and `""` included, makes it a
      call that expects an answer. */
  predicate IsNotification<P>(req: Request<P>) {
    req.id.None?
  }

  /** A protocol error; `data` is diagnostic context only. */
  datatype Error = Error(code: int, message: string, data: Option<Value>)

  /** A response. `result == None` is a nil result, `error == None` a nil error. */
  datatype Response<R> = Response(jsonrpc: string, result: Option<R>, error: Option<Error>, id: Option<Id>)

  const VersionMessage: string := "Invalid JSON RPC version, must be 2.0"
  const MethodMessage: string := "Method is required"

  /** `None` when the request is well formed, otherwise the InvalidRequest error. The version
      is checked before the method, so a request wrong in both reports the version. */
  function Validate<P>(req: Request<P>): (err: Option<Error>)
    ensures err.None? <==> req.jsonrpc == Version && req.methodName != ""
    ensures err.Some? ==> err.value.code == ErrorInvalidRequest && err.value.data.None?
    ensures req.jsonrpc != Version ==> err.Some? && err.value.message == VersionMessage
    ensures req.jsonrpc == Version && req.methodName == "" ==> err.Some? && err.value.message == MethodMessage
  {
    if req.jsonrpc != Version then
      Some(Error(ErrorInvalidRequest, VersionMessage, None))
    else if req.methodName == "" then
      Some(Error(ErrorInvalidRequest, MethodMessage, None))
    else
      None
  }

  /** Every response speaks version 2.0 and echoes the identifier it is given. */
  function NewResponse<R>(result: Option<R>, id: Option<Id>, err: Option<Error>): (r: Response<R>)
    ensures r.jsonrpc == Version
    ensures r.id == id && r.result == result && r.error == err
  {
    Response(Version, result, err, id)
  }

  function NewErrorResponse<R>(id: Option<Id>, err: Error): (r: Response<R>)
    ensures r.jsonrpc == Version && r.id == id
    ensures r.result.None? && r.error == Some(err)
  {
    NewResponse(None, id, Some(err))
  }

  function NewSuccessResponse<R>(result: Option<R>, id: Option<Id>): (r: Response<R>)
    ensures r.jsonrpc == Version && r.id == id
    ensures r.error.None? && r.result == result
  {
    NewResponse(result, id, None)
  }

  // The four constructors below are defined elsewhere in the jsonrpc package and are not
  // modelled beyond their codes. The argument is kept as `data` and the
  // message is a neutral placeholder, and no contract of the model depends on either.

  function NewParseError(cause: string): (e: Error)
    ensures e.code == ErrorParseError
  {
    Error(ErrorParseError, "Parse error", Some(JString(cause)))
  }

  function NewInternalError(cause: string): (e: Error)
    ensures e.code == ErrorInternal
  {
    Error(ErrorInternal, "Internal error", Some(JString(cause)))
  }

  function NewMethodNotFoundError(methodName: string): (e: Error)
    ensures e.code == ErrorMethodNotFound
  {
    Error(ErrorMethodNotFound, "Method not found", Some(JString(methodName)))
  }

  function NewInvalidParamsError(detail: string): (e: Error)
    ensures e.code == ErrorInvalidParams
  {
    Error(ErrorInvalidParams, "Invalid params", Some(JString(detail)))
  }

  /** The version is checked first: a request with a wrong version and no method reports
      the version error, not the missing method. */
  lemma VersionCheckedFirst<P>(req: Request<P>)
    requires req.jsonrpc != Version && req.methodName == ""
    ensures Validate(req) == Some(Error(ErrorInvalidRequest, VersionMessage, None))
  {
  }
}
