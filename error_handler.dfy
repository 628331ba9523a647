/** The authentication service's error mapping (user-auth common/web/GlobalExceptionHandler.java):
    each exception becomes a status and a JSON object with an `error` code and
    a `message`, or, for bean-validation failures, the map of field errors.
    A `null` message is serialized as JSON null. */
module ErrorHandler {
  import opened Wrappers
  import opened Text
  import opened Json

  const GenericConflictMessage: string := "\U{041D}\U{0430}\U{0440}\U{0443}\U{0448}\U{0435}\U{043D}\U{0438}\U{0435} \U{0443}\U{043D}\U{0438}\U{043A}\U{0430}\U{043B}\U{044C}\U{043D}\U{043E}\U{0441}\U{0442}\U{0438} \U{0434}\U{0430}\U{043D}\U{043D}\U{044B}\U{0445}"
  const EmailConflictMessage: string := "\U{041F}\U{043E}\U{043B}\U{044C}\U{0437}\U{043E}\U{0432}\U{0430}\U{0442}\U{0435}\U{043B}\U{044C} \U{0441} \U{0442}\U{0430}\U{043A}\U{0438}\U{043C} email \U{0443}\U{0436}\U{0435} \U{0441}\U{0443}\U{0449}\U{0435}\U{0441}\U{0442}\U{0432}\U{0443}\U{0435}\U{0442}"
  const PhoneConflictMessage: string := "\U{041F}\U{043E}\U{043B}\U{044C}\U{0437}\U{043E}\U{0432}\U{0430}\U{0442}\U{0435}\U{043B}\U{044C} \U{0441} \U{0442}\U{0430}\U{043A}\U{0438}\U{043C} \U{0442}\U{0435}\U{043B}\U{0435}\U{0444}\U{043E}\U{043D}\U{043E}\U{043C} \U{0443}\U{0436}\U{0435} \U{0441}\U{0443}\U{0449}\U{0435}\U{0441}\U{0442}\U{0432}\U{0443}\U{0435}\U{0442}"

  /** Spring's `FieldError`: the field and its default message. */
  datatype FieldError = FieldError(field: string, defaultMessage: Option<string>)

  /** The exceptions the handler maps; messages may be null. */
  datatype AppException =
    | AuthenticationFailed(message: Option<string>, attemptedPhone: string, ipAddress: Option<string>, userAgent: Option<string>)
    | BadCredentials(message: Option<string>)
    | DataIntegrityViolation(message: Option<string>)
    | MethodArgumentNotValid(fieldErrors: seq<FieldError>)
    | InvalidRefreshToken(message: Option<string>)
    | RateLimitExceeded(message: Option<string>)
    | SmsDelivery(message: Option<string>)
    | EmailDelivery(message: Option<string>)
    | InvalidVerificationCode(message: Option<string>)
    | PhoneNotVerified(message: Option<string>)

  /** The audit command a failed login records (USER_LOGIN_FAILURE, with
      reason INVALID_CREDENTIALS). */
  datatype LoginFailureAudit = LoginFailureAudit(attemptedPhone: string, ipAddress: Option<string>, userAgent: Option<string>)

  datatype ErrorResponse = ErrorResponse(status: nat, body: map<string, Json>)

  /** A response and the audit record written on the way, if any. */
  datatype Handled = Handled(response: ErrorResponse, audit: Option<LoginFailureAudit>)

  function JsonText(s: Option<string>): (j: Json)
    ensures s.None? <==> j == JNull
  {
    if s.Some? then JStr(s.value) else JNull
  }

  /** The message `handleDataIntegrity` chooses from the driver's message. */
  function ConflictMessage(message: Option<string>): (m: string)
    ensures m in {GenericConflictMessage, EmailConflictMessage, PhoneConflictMessage}
  {
    if message.Some? && Contains(message.value, "email") then EmailConflictMessage
    else if message.Some? && Contains(message.value, "phone") then PhoneConflictMessage
    else GenericConflictMessage
  }

  /** The three texts are distinct, so each can be told from the others. */
  lemma ConflictMessagesDistinct()
    ensures GenericConflictMessage != EmailConflictMessage
    ensures GenericConflictMessage != PhoneConflictMessage
    ensures EmailConflictMessage != PhoneConflictMessage
  {
    assert GenericConflictMessage[0] != EmailConflictMessage[0];
    assert GenericConflictMessage[0] != PhoneConflictMessage[0];
    assert EmailConflictMessage[21] != PhoneConflictMessage[21];
  }

  /** "email" wins over "phone"; a message naming neither, and a null
      message, give the generic text. */
  lemma ConflictMessageCases(message: Option<string>)
    ensures ConflictMessage(message) == EmailConflictMessage
        <==> message.Some? && Contains(message.value, "email")
    ensures ConflictMessage(message) == PhoneConflictMessage
        <==> message.Some? && !Contains(message.value, "email") && Contains(message.value, "phone")
    ensures ConflictMessage(message) == GenericConflictMessage
        <==> message.None? || (!Contains(message.value, "email") && !Contains(message.value, "phone"))
  {
    ConflictMessagesDistinct();
  }

  /** The field map `handleValidation` builds: errors are put in order, so a
      later error for a field replaces an earlier one. */
  function FieldErrorMap(errors: seq<FieldError>): (m: map<string, Option<string>>)
    ensures forall f :: f in m <==> exists i :: 0 <= i < |errors| && errors[i].field == f
  {
    if errors == [] then map[]
    else
      var init := FieldErrorMap(errors[..|errors| - 1]);
      var last := errors[|errors| - 1];
      assert forall i :: 0 <= i < |errors| - 1 ==> errors[..|errors| - 1][i] == errors[i];
      init[last.field := last.defaultMessage]
  }

  /** Each field maps to the message of its last error. */
  lemma {:induction false} LastErrorWins(errors: seq<FieldError>, i: nat)
    requires i < |errors|
    requires forall j :: i < j < |errors| ==> errors[j].field != errors[i].field
    ensures FieldErrorMap(errors)[errors[i].field] == errors[i].defaultMessage
  {
    if i < |errors| - 1 {
      var init := errors[..|errors| - 1];
      assert init[i] == errors[i];
      LastErrorWins(init, i);
    }
  }

  /** `handleValidation`'s loop. */
  method BuildFieldErrors(errors: seq<FieldError>) returns (fieldErrors: map<string, Option<string>>)
    ensures fieldErrors == FieldErrorMap(errors)
  {
    fieldErrors := map[];
    var k := 0;
    while k < |errors|
      invariant 0 <= k <= |errors|
      invariant fieldErrors == FieldErrorMap(errors[..k])
    {
      var fieldError := errors[k];
      assert errors[..k + 1][..k] == errors[..k];
      fieldErrors := fieldErrors[fieldError.field := fieldError.defaultMessage];
      k := k + 1;
    }
    assert errors[..k] == errors;
  }

  function FieldsJson(m: map<string, Option<string>>): (j: Json)
    ensures j.JObj? && j.members.Keys == m.Keys
  {
    JObj(map f | f in m :: JsonText(m[f]))
  }

  function CodeAndMessage(code: string, message: Option<string>): map<string, Json> {
    map["error" := JStr(code), "message" := JsonText(message)]
  }

  /** The handler chosen for each exception. */
  function Handle(ex: AppException): (h: Handled)
    ensures h.audit.Some? <==> ex.AuthenticationFailed?
  {
    match ex
    case AuthenticationFailed(message, phone, ip, ua) =>
      Handled(ErrorResponse(401, CodeAndMessage("INVALID_CREDENTIALS", message)), Some(LoginFailureAudit(phone, ip, ua)))
    case BadCredentials(message) =>
      Handled(ErrorResponse(401, CodeAndMessage("INVALID_CREDENTIALS", message)), None)
    case DataIntegrityViolation(message) =>
      Handled(ErrorResponse(409, CodeAndMessage("CONFLICT", Some(ConflictMessage(message)))), None)
    case MethodArgumentNotValid(errors) =>
      Handled(ErrorResponse(400, map["error" := JStr("VALIDATION_FAILED"), "fields" := FieldsJson(FieldErrorMap(errors))]), None)
    case InvalidRefreshToken(message) =>
      Handled(ErrorResponse(401, CodeAndMessage("INVALID_REFRESH_TOKEN", message)), None)
    case RateLimitExceeded(message) =>
      Handled(ErrorResponse(429, CodeAndMessage("RATE_LIMIT_EXCEEDED", message)), None)
    case SmsDelivery(message) =>
      Handled(ErrorResponse(503, CodeAndMessage("SMS_DELIVERY_FAILED", message)), None)
    case EmailDelivery(message) =>
      Handled(ErrorResponse(503, CodeAndMessage("EMAIL_DELIVERY_FAILED", message)), None)
    case InvalidVerificationCode(message) =>
      Handled(ErrorResponse(400, CodeAndMessage("INVALID_VERIFICATION_CODE", message)), None)
    case PhoneNotVerified(message) =>
      Handled(ErrorResponse(400, CodeAndMessage("PHONE_NOT_VERIFIED", message)), None)
  }

  /** The status of an error code, as the handlers pair them. */
  function StatusOfCode(code: string): Option<nat> {
    if code == "INVALID_CREDENTIALS" || code == "INVALID_REFRESH_TOKEN" then Some(401)
    else if code == "CONFLICT" then Some(409)
    else if code == "VALIDATION_FAILED" || code == "INVALID_VERIFICATION_CODE" || code == "PHONE_NOT_VERIFIED" then Some(400)
    else if code == "RATE_LIMIT_EXCEEDED" then Some(429)
    else if code == "SMS_DELIVERY_FAILED" || code == "EMAIL_DELIVERY_FAILED" then Some(503)
    else None
  }

  /** Every body carries a string `error` code, the status is the one that
      code stands for, and the body has a `message` except for validation
      failures, which carry `fields` instead. */
  lemma CodeDeterminesStatus(ex: AppException)
    ensures var r := Handle(ex).response;
            "error" in r.body && r.body["error"].JStr?
            && StatusOfCode(r.body["error"].s) == Some(r.status)
            && ("message" in r.body <==> !ex.MethodArgumentNotValid?)
            && ("fields" in r.body <==> ex.MethodArgumentNotValid?)
  {
  }

  /** The server's side of the client contract: a rate limit is 429 with
      RATE_LIMIT_EXCEEDED, a bad refresh token 401 with INVALID_REFRESH_TOKEN,
      an unverified phone 400 with PHONE_NOT_VERIFIED, and the message is
      passed through. */
  lemma ClientFacingCodes(message: Option<string>)
    ensures Handle(RateLimitExceeded(message)).response == ErrorResponse(429, CodeAndMessage("RATE_LIMIT_EXCEEDED", message))
    ensures Handle(InvalidRefreshToken(message)).response == ErrorResponse(401, CodeAndMessage("INVALID_REFRESH_TOKEN", message))
    ensures Handle(PhoneNotVerified(message)).response == ErrorResponse(400, CodeAndMessage("PHONE_NOT_VERIFIED", message))
  {
  }

  /** The validation body lists every field that failed, with its last
      message. */
  lemma {:induction false} ValidationBodyFields(errors: seq<FieldError>, i: nat)
    requires i < |errors|
    requires forall j :: i < j < |errors| ==> errors[j].field != errors[i].field
    ensures var body := Handle(MethodArgumentNotValid(errors)).response.body;
            body["error"] == JStr("VALIDATION_FAILED")
            && body["fields"].JObj?
            && body["fields"].members[errors[i].field] == JsonText(errors[i].defaultMessage)
  {
    LastErrorWins(errors, i);
  }
}
