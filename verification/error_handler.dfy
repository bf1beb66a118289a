/** The application's last error handler, which turns any forwarded error into a response. */
module ErrorHandler {
  import opened Wrappers
  import opened Constants
  import opened Errors

  /**
   * Anything that reaches the handler: an error forwarded by a validator, or
   * an untyped exception (from the database driver, say) whose `status`
   * property may be missing.
   */
  datatype Raised = Forwarded(error: NextError) | Untyped(status: Option<int>, message: string)

  /** The response: its HTTP status and the JSON body, which is the error object. */
  datatype Response = Response(status: int, body: Raised)

  /** The value of `err.status`, or `None` when the property is undefined. */
  function StatusProperty(err: Raised): Option<int>
  {
    match err
    case Forwarded(e) => Some(e.Status())
    case Untyped(s, _) => s
  }

  /**
   * `res.status(err.status || 500).json(err)`: a truthy status is used as is;
   * an undefined status, and also a status of 0, fall back to 500; the body is
   * the error unchanged.
   */
  function DefaultErrorHandler(err: Raised): (r: Response)
    ensures r.body == err
    ensures StatusProperty(err).Some? && StatusProperty(err).value != 0 ==> r.status == StatusProperty(err).value
    ensures StatusProperty(err).None? ==> r.status == InternalServerError
    ensures StatusProperty(err) == Some(0) ==> r.status == InternalServerError
  {
    var s := StatusProperty(err);
    Response(if s.Some? && s.value != 0 then s.value else InternalServerError, err)
  }

  /** The handler never answers with status 0. */
  lemma HandlerStatusNeverZero(err: Raised)
    ensures DefaultErrorHandler(err).status != 0
  {
  }

  /**
   * A constructed `ErrorWithStatus` keeps the message and the status it was
   * given, and the handler answers with exactly that status when it is not 0.
   */
  lemma HandlerUsesConstructedStatus(message: Message, status: int)
    requires status != 0
    ensures NewErrorWithStatus(message, status).message == message
    ensures DefaultErrorHandler(Forwarded(StatusError(NewErrorWithStatus(message, status)))).status == status
  {
  }

  /** Every entity error is answered with 422. */
  lemma EntityErrorAnsweredWith422(message: Option<Message>, status: Option<int>, errors: map<string, FieldError>)
    ensures DefaultErrorHandler(Forwarded(Invalid(NewEntityError(message, status, errors)))).status == UnprocessableEntity
  {
  }
}
