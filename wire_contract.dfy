/** The contract between the authentication service's error bodies and the
    browser client that reads them: a handler's response, parsed by the
    client's pipeline, becomes the `Error` (message, `status`, `payload`) that
    the phone-change form inspects. */
module WireContract {
  import opened Wrappers
  import opened Json
  import opened ErrorHandler
  import opened HttpPipeline
  import opened ChangePhone

  /** The reply the client receives for a handler's response. */
  function Delivered(r: ErrorResponse): (reply: Reply)
    ensures reply.Response? && reply.status == r.status
  {
    Response(r.status, Parsed(JObj(r.body)))
  }

  /** The error object a caught pipeline failure is to the form: the
      `payload` property exists only on HTTP errors. */
  function AsApiError(f: HttpPipeline.Failure): (e: ApiError)
    ensures f.HttpError? ==> e == ApiError(f.message, Some(f.payload))
    ensures !f.HttpError? ==> e.payload.None?
  {
    if f.HttpError? then ApiError(f.message, Some(f.payload)) else ApiError("", None)
  }

  /** What the form sees for an exception thrown on the server. */
  function Seen(ex: AppException): ApiError {
    var settled := Settle(Delivered(Handle(ex).response));
    if settled.Failure? then AsApiError(settled.error) else ApiError("", None)
  }

  /** Every handled exception reaches the client as an HTTP error with the
      handler's status and body. */
  lemma HandledIsHttpError(ex: AppException)
    ensures var r := Handle(ex).response;
            var s := Settle(Delivered(r));
            s.Failure? && s.error.HttpError? && s.error.status == r.status && s.error.payload == JObj(r.body)
  {
    CodeDeterminesStatus(ex);
  }

  /** Finding: the server's rate-limit body is not recognised by the form's
      test as written, and is by the corrected test. */
  lemma RateLimitBodyMissedByForm(message: Option<string>)
    ensures !RateLimitAsWritten(Seen(RateLimitExceeded(message)))
    ensures IsRateLimited(Seen(RateLimitExceeded(message)))
  {
    HandledIsHttpError(RateLimitExceeded(message));
  }

  /** The server's validation body is recognised by the form, whatever the
      list of field errors (an object is truthy even when empty). */
  lemma ValidationBodyRecognised(errors: seq<FieldError>)
    ensures IsValidationError(Seen(MethodArgumentNotValid(errors)))
  {
    HandledIsHttpError(MethodArgumentNotValid(errors));
  }

  /** Every 401 the server sends, a rejected refresh token included, is the
      failure on which the pipeline refreshes and retries. */
  lemma UnauthorizedTriggersRefresh(ex: AppException)
    requires Handle(ex).response.status == 401
    ensures var s := Settle(Delivered(Handle(ex).response));
            s.Failure? && IsUnauthorized(s.error)
  {
    HandledIsHttpError(ex);
  }

  /** The form shows the server's message when it is a non-empty text. */
  lemma ServerMessageIsShown(ex: AppException, message: string)
    requires ex == RateLimitExceeded(Some(message)) || ex == PhoneNotVerified(Some(message))
             || ex == InvalidVerificationCode(Some(message))
    requires message != ""
    ensures ShownMessage(Seen(ex)) == message
  {
    HandledIsHttpError(ex);
  }
}
