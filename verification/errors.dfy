/** The two error classes the validators and services raise. */
module Errors {
  import opened Wrappers
  import opened Constants

  /** `ErrorWithStatus`: a message and the HTTP status to answer with. */
  datatype ErrorWithStatus = ErrorWithStatus(message: Message, status: int)

  /**
   * What a failing rule leaves in a field's validation error: a plain message
   * (an `errorMessage`, or the message of a thrown `Error`), or the thrown
   * `ErrorWithStatus` object itself.
   */
  datatype FieldMsg = Plain(text: Message) | Thrown(error: ErrorWithStatus)

  /** One validation error: the field it is about and its message. */
  datatype FieldError = FieldError(path: string, msg: FieldMsg)

  /** `EntityError`, the subclass of `ErrorWithStatus` that carries per-field errors. */
  datatype EntityError = EntityError(message: Message, status: int, errors: map<string, FieldError>)

  /** What a validator passes to `next(err)`: either class of error. */
  datatype NextError = StatusError(error: ErrorWithStatus) | Invalid(entity: EntityError)
  {
    /** The `status` field, which both classes have. */
    function Status(): int
    {
      match this
      case StatusError(e) => e.status
      case Invalid(e) => e.status
    }
  }

  /** `new ErrorWithStatus({ message, status })`. */
  function NewErrorWithStatus(message: Message, status: int): (e: ErrorWithStatus)
    ensures e.message == message && e.status == status
  {
    ErrorWithStatus(message, status)
  }

  /**
   * `new EntityError({ message?, status?, errors })`: the status argument is
   * accepted but ignored, so the status is always 422; the message defaults to
   * VALIDATION_ERROR; the errors are kept as given.
   */
  function NewEntityError(message: Option<Message>, status: Option<int>, errors: map<string, FieldError>): (e: EntityError)
    ensures e.status == UnprocessableEntity
    ensures e.message == (if message.Some? then message.value else ValidationError)
    ensures e.errors == errors
  {
    EntityError(message.GetOr(ValidationError), UnprocessableEntity, errors)
  }

  /** Whatever status is passed, the entity error is the same. */
  lemma EntityStatusArgumentIgnored(message: Option<Message>, s1: Option<int>, s2: Option<int>,
                                    errors: map<string, FieldError>)
    ensures NewEntityError(message, s1, errors) == NewEntityError(message, s2, errors)
  {
  }
}
