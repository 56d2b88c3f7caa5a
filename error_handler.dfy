/** The application's last-resort error middleware: an ordered
    classification of the error by its `name`, each class answered with a
    fixed status and body, and a default that takes status and message
    from the error itself. */
module ErrorHandler {
  import opened Common
  import opened Database

  /** One entry of an error's `errors` list; only its `path` (the offending
      field) is read. */
  datatype ErrorItem = ErrorItem(path: Option<string>)

  /** The fields of a thrown error the handler looks at; `errors` is absent
      for errors that carry no list. */
  datatype AppError = AppError(
    name: string,
    message: Option<string>,
    status: Option<int>,
    errors: Option<seq<ErrorItem>>)

  datatype ErrorBody =
    | ValidationBody(errors: Option<seq<ErrorItem>>)  // { message: 'Validation Error', errors }
    | DuplicateBody(field: Option<string>)            // { message: 'Duplicate entry', field }
    | MessageBody(text: string)                       // { message }
  {
    function Message(): string {
      match this
      case ValidationBody(_) => "Validation Error"
      case DuplicateBody(_) => "Duplicate entry"
      case MessageBody(t) => t
    }
  }

  /** A response, or the handler itself throwing: reading `errors[0].path`
      of a unique-constraint error whose list is absent or empty. */
  datatype Handled = Respond(status: int, body: ErrorBody) | HandlerThrew

  /** `err.status || 500`: an absent or zero status falls back to 500. */
  function StatusOr500(status: Option<int>): (s: int)
    ensures status.Some? && status.value != 0 ==> s == status.value
    ensures status.None? || status.value == 0 ==> s == 500
  {
    if status.Some? && status.value != 0 then status.value else 500
  }

  /** `errorHandler(err, req, res, next)`. */
  function Handle(err: AppError): (h: Handled)
    ensures err.name == "ValidationError" ==> h == Respond(400, ValidationBody(err.errors))
    ensures err.name == "SequelizeUniqueConstraintError" ==>
      if err.errors.Some? && |err.errors.value| > 0
      then h == Respond(409, DuplicateBody(err.errors.value[0].path))
      else h == HandlerThrew
    ensures err.name == "JsonWebTokenError" ==> h == Respond(401, MessageBody("Invalid token"))
    ensures err.name !in {"ValidationError", "SequelizeUniqueConstraintError", "JsonWebTokenError"} ==>
      && h.Respond?
      && h.status == StatusOr500(err.status)
      && h.body == MessageBody(OrElse(err.message, "Internal Server Error"))
  {
    if err.name == "ValidationError" then
      Respond(400, ValidationBody(err.errors))
    else if err.name == "SequelizeUniqueConstraintError" then
      match err.errors
      case Some(items) => if |items| > 0 then Respond(409, DuplicateBody(items[0].path)) else HandlerThrew
      case None => HandlerThrew
    else if err.name == "JsonWebTokenError" then
      Respond(401, MessageBody("Invalid token"))
    else
      Respond(StatusOr500(err.status), MessageBody(OrElse(err.message, "Internal Server Error")))
  }

  /** The three named classes are matched on the name alone: whatever status
      and message the error carries, the answer is the class's own. */
  lemma NamedClassesIgnoreStatusAndMessage(err: AppError, status: Option<int>, message: Option<string>)
    requires err.name in {"ValidationError", "SequelizeUniqueConstraintError", "JsonWebTokenError"}
    ensures Handle(err.(status := status, message := message)) == Handle(err)
  {
  }

  /** The default branch never answers with an empty message. */
  lemma DefaultMessageNeverEmpty(err: AppError)
    requires err.name !in {"ValidationError", "SequelizeUniqueConstraintError", "JsonWebTokenError"}
    ensures Handle(err).Respond? && Handle(err).body.Message() != ""
  {
  }

  // -------------------------------------------------------------------
  // The store's exceptions, as the handler would see them

  function ViolationPath(v: UserModel.Violation): string {
    match v
    case NullColumn(c) => c
    case NotAnEmail => "email"
  }

  /** A store error with the `name` and `errors` list of the Sequelize
      error class that reports it; the message text is a parameter. */
  function FromStore(e: StoreError, message: string): (err: AppError)
    ensures err.message == Some(message) && err.status == None
    ensures e.UniqueViolation? ==>
      err.name == "SequelizeUniqueConstraintError" && err.errors == Some([ErrorItem(Some(e.column))])
    ensures e.NotNullViolation? || e.UserValidation? ==> err.name == "SequelizeValidationError"
  {
    match e
    case NotNullViolation(columns) =>
      AppError("SequelizeValidationError", Some(message), None,
               Some(seq(|columns|, i requires 0 <= i < |columns| => ErrorItem(Some(columns[i])))))
    case UserValidation(vs) =>
      AppError("SequelizeValidationError", Some(message), None,
               Some(seq(|vs|, i requires 0 <= i < |vs| => ErrorItem(Some(ViolationPath(vs[i]))))))
    case UniqueViolation(column) =>
      AppError("SequelizeUniqueConstraintError", Some(message), None, Some([ErrorItem(Some(column))]))
    case ForeignKeyViolation =>
      AppError("SequelizeForeignKeyConstraintError", Some(message), None, None)
    case UndefinedWhere(_) =>
      AppError("Error", Some(message), None, None)
    case Fault(_) =>
      AppError("Error", Some(message), None, None)
  }

  /** A duplicate e-mail would be answered 409 naming the `email` field. */
  lemma DuplicateEmailIs409(message: string)
    ensures Handle(FromStore(UniqueViolation("email"), message)) == Respond(409, DuplicateBody(Some("email")))
  {
  }

  /** The handler's first class is `ValidationError`, while the store's
      validation failures are named `SequelizeValidationError`: such an
      error would miss the 400 branch and be answered 500 with its own
      message. */
  lemma StoreValidationFallsToDefault(e: StoreError, message: string)
    requires e.NotNullViolation? || e.UserValidation?
    ensures Handle(FromStore(e, message)) == Respond(500, MessageBody(OrElse(Some(message), "Internal Server Error")))
  {
  }
}
