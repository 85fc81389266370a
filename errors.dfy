/** The global error middleware and the handler for unmatched routes:
    pure functions from what was thrown (or requested) and the `NODE_ENV`
    setting to the status and JSON envelope that are sent. */
module ErrorHandling {
  import opened Records

  const INTERNAL_MESSAGE := "Internal server error"
  const INTERNAL_CODE := "INTERNAL_ERROR"
  const NOT_FOUND_CODE := "NOT_FOUND"

  /** `{message, code}`; a `code` of `None` is left out of the JSON. */
  datatype ErrorBody = ErrorBody(message: string, code: Option<string>)

  /** The `{success, error}` envelope of a failed request. */
  datatype Envelope = Envelope(success: bool, error: ErrorBody)

  /** What `res.status(status).json(body)` sends. */
  datatype Reply = Reply(status: int, body: Envelope)

  /** `NODE_ENV === 'development'`; `None` is an unset variable. */
  predicate IsDevelopment(nodeEnv: Option<string>)
  {
    nodeEnv == Some("development")
  }

  /** `errorHandler`: an `AppError` chooses its own status, message and
      code; anything else is a 500 whose message is masked unless the
      process runs in development mode. */
  function HandleError(err: Failure, nodeEnv: Option<string>): (r: Reply)
    ensures !r.body.success
    ensures err.AppError? ==> r.status == err.statusCode && r.body.error == ErrorBody(err.message, err.code)
    ensures !err.AppError? ==> r.status == 500 && r.body.error.code == Some(INTERNAL_CODE)
    ensures !err.AppError? && IsDevelopment(nodeEnv) ==> r.body.error.message == Message(err)
    ensures !err.AppError? && !IsDevelopment(nodeEnv) ==> r.body.error.message == INTERNAL_MESSAGE
  {
    if err.AppError? then
      Reply(err.statusCode, Envelope(false, ErrorBody(err.message, err.code)))
    else
      var message := if IsDevelopment(nodeEnv) then Message(err) else INTERNAL_MESSAGE;
      Reply(500, Envelope(false, ErrorBody(message, Some(INTERNAL_CODE))))
  }

  function RouteMessage(verb: string, path: string): string
  {
    "Route " + verb + " " + path + " not found"
  }

  /** `notFoundHandler`: every unmatched request gets a 404 naming it. */
  function HandleNotFound(verb: string, path: string): (r: Reply)
    ensures r.status == 404 && !r.body.success
    ensures r.body.error == ErrorBody(RouteMessage(verb, path), Some(NOT_FOUND_CODE))
  {
    Reply(404, Envelope(false, ErrorBody(RouteMessage(verb, path), Some(NOT_FOUND_CODE))))
  }

  /** Outside development mode the reply to an unexpected error does not
      depend on the error at all: nothing of it leaks to the client. */
  lemma NothingLeaksOutsideDevelopment(e1: Failure, e2: Failure, nodeEnv: Option<string>)
    requires !e1.AppError? && !e2.AppError? && !IsDevelopment(nodeEnv)
    ensures HandleError(e1, nodeEnv) == HandleError(e2, nodeEnv)
  {
  }

  /** Only the exact string "development" unmasks messages; any other
      setting, unset included, answers alike. */
  lemma OtherSettingsMask(err: Failure, nodeEnv: Option<string>)
    requires !err.AppError? && !IsDevelopment(nodeEnv)
    ensures HandleError(err, nodeEnv) == HandleError(err, None)
    ensures HandleError(err, nodeEnv) == HandleError(err, Some("production"))
  {
  }

  /** A status other than 500 can only come from an `AppError`. */
  lemma OnlyAppErrorsChooseTheirStatus(err: Failure, nodeEnv: Option<string>)
    requires HandleError(err, nodeEnv).status != 500
    ensures err.AppError? && err.statusCode == HandleError(err, nodeEnv).status
  {
  }

  /** The unmatched-route reply is exactly what the error middleware sends
      for an `AppError(404, ..., "NOT_FOUND")`, in every mode. */
  lemma NotFoundIsAnAppErrorReply(verb: string, path: string, nodeEnv: Option<string>)
    ensures HandleNotFound(verb, path)
         == HandleError(AppError(404, RouteMessage(verb, path), Some(NOT_FOUND_CODE)), nodeEnv)
  {
  }

  /** The service signals a missing record and a malformed id with plain
      errors, so both reach the client as 500 INTERNAL_ERROR, never 404 or
      400. */
  lemma ServiceErrorsAreInternal(nodeEnv: Option<string>)
    ensures HandleError(PlainError("Record not found"), nodeEnv).status == 500
    ensures HandleError(PlainError("Invalid ID format"), nodeEnv).status == 500
    ensures HandleError(PlainError("Record not found"), nodeEnv).body.error.code == Some(INTERNAL_CODE)
    ensures HandleError(PlainError("Invalid ID format"), nodeEnv).body.error.code == Some(INTERNAL_CODE)
  {
  }
}
