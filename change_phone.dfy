/** The phone-change form (frontend/src/features/user/components/ChangePhoneSection.jsx):
    a two-step flow (enter the phone, then the one-time code) with a resend
    cooldown kept as the instant `resendUntil` at which resending is allowed.

    Each asynchronous handler is split at its `await`: `Begin...` runs the
    synchronous part and returns what the handler's closure captured, and
    `Finish...` runs the rest with the outcome of the awaited call (the
    `smsApi` and `userApi` calls are not part of this model; their outcome is
    a parameter).  Clock readings (`Date.now()`) are parameters in
    milliseconds. */
module ChangePhone {
  import opened Wrappers
  import opened Text
  import opened Json

  // ---------------------------------------------------------------------
  // Pure parts

  /** `Math.ceil` on reals. */
  function Ceil(x: real): (c: int)
    ensures c as real - 1.0 < x <= c as real
  {
    -((-x).Floor)
  }

  /** `Math.max(0, Math.ceil((resendUntil - now) / 1000))`: whole seconds left,
      rounded up. */
  function ResendLeft(resendUntil: real, now: real): (n: nat)
    ensures n == 0 <==> resendUntil <= now
    ensures n > 0 ==> (n as real - 1.0) * 1000.0 < resendUntil - now <= n as real * 1000.0
  {
    var c := Ceil((resendUntil - now) / 1000.0);
    if c > 0 then c else 0
  }

  /** As time passes with `resendUntil` fixed, the seconds left never grow. */
  lemma ResendLeftNonIncreasing(resendUntil: real, now1: real, now2: real)
    requires now1 <= now2
    ensures ResendLeft(resendUntil, now2) <= ResendLeft(resendUntil, now1)
  {
    var a, b := ResendLeft(resendUntil, now1), ResendLeft(resendUntil, now2);
    if b > 0 {
      assert (b as real - 1.0) * 1000.0 < resendUntil - now1;
      assert a > 0;
      assert resendUntil - now1 <= a as real * 1000.0;
      assert b as real - 1.0 < a as real;
    }
  }

  /** The error a handler catches, as far as the handlers look at it:
      `err.message` and `err.payload` (None when the error has none). */
  datatype ApiError = ApiError(message: string, payload: Option<Json>)

  /** `err?.payload?.error`. */
  function PayloadCode(err: ApiError): Option<Json> {
    Member(err.payload, "error")
  }

  /** `isValidationError`: the code is VALIDATIONFAILED or VALIDATION_FAILED
      and the payload carries a truthy `fields`. */
  predicate IsValidationError(err: ApiError) {
    var code := PayloadCode(err);
    var fields := Member(err.payload, "fields");
    code.Some? && (code.value == JStr("VALIDATIONFAILED") || code.value == JStr("VALIDATION_FAILED"))
    && fields.Some? && Truthy(fields.value)
  }

  /** A validation error always has an object payload with a `fields`
      member (what `setFieldErrors(err.payload.fields)` reads), and is never
      a rate-limit error under either test; an error without a payload, as
      a network failure throws, is never one. */
  lemma ValidationErrorRecognised(err: ApiError)
    ensures IsValidationError(err) ==>
              err.payload.Some? && err.payload.value.JObj? && "fields" in err.payload.value.members
              && Truthy(err.payload.value.members["fields"])
    ensures IsValidationError(err) ==> !RateLimitAsWritten(err) && !IsRateLimited(err)
    ensures err.payload.None? ==> !IsValidationError(err)
  {
  }

  /** `err?.payload?.message || err?.payload?.error || err.message`. */
  function ShownMessage(err: ApiError): (m: string)
    ensures TruthyText(Member(err.payload, "message")).Some? ==> m == TruthyText(Member(err.payload, "message")).value
    ensures TruthyText(Member(err.payload, "message")).None? && TruthyText(PayloadCode(err)).Some? ==>
              m == TruthyText(PayloadCode(err)).value
    ensures TruthyText(Member(err.payload, "message")).None? && TruthyText(PayloadCode(err)).None? ==> m == err.message
  {
    OrText(TruthyText(Member(err.payload, "message")), OrText(TruthyText(PayloadCode(err)), err.message))
  }

  /** The rate-limit test as the component writes it. */
  predicate RateLimitAsWritten(err: ApiError) {
    PayloadCode(err) == Some(JStr("RATELIMITEXCEEDED"))
  }

  /** The rate-limit test as intended: the server's code RATE_LIMIT_EXCEEDED,
      with the underscore-free spelling kept, as `isValidationError` does. */
  predicate IsRateLimited(err: ApiError) {
    PayloadCode(err) == Some(JStr("RATELIMITEXCEEDED")) || PayloadCode(err) == Some(JStr("RATE_LIMIT_EXCEEDED"))
  }

  /** The as-written test misses the code the server sends. */
  lemma RateLimitCodeMissed(message: string)
    ensures var err := ApiError("Too many requests",
                                Some(JObj(map["error" := JStr("RATE_LIMIT_EXCEEDED"), "message" := JStr(message)])));
            !RateLimitAsWritten(err) && IsRateLimited(err)
  {
  }

  lemma RateLimitCorrectionKeepsOldSpelling(err: ApiError)
    ensures RateLimitAsWritten(err) ==> IsRateLimited(err)
  {
  }

  // Matching `/(\d+)\s*сек/i` and `/(\d+)/`.

  /** The end of the run of digits starting at `i`. */
  function RunEnd(s: string, i: nat): (j: nat)
    requires i <= |s|
    ensures i <= j <= |s|
    ensures forall k :: i <= k < j ==> IsAsciiDigit(s[k])
    ensures j == |s| || !IsAsciiDigit(s[j])
    decreases |s| - i
  {
    if i < |s| && IsAsciiDigit(s[i]) then RunEnd(s, i + 1) else i
  }

  /** The end of the run of JavaScript white space starting at `j`. */
  function SpacesEnd(s: string, j: nat): (k: nat)
    requires j <= |s|
    ensures j <= k <= |s|
    ensures forall m :: j <= m < k ==> IsJsSpace(s[m])
    ensures k == |s| || !IsJsSpace(s[k])
    decreases |s| - j
  {
    if j < |s| && IsJsSpace(s[j]) then SpacesEnd(s, j + 1) else j
  }

  /** "сек" at `k`, in either case (the `i` flag folds Cyrillic letters too). */
  predicate SecAt(s: string, k: nat) {
    k + 3 <= |s|
    && (s[k] == '\U{0441}' || s[k] == '\U{0421}')
    && (s[k + 1] == '\U{0435}' || s[k + 1] == '\U{0415}')
    && (s[k + 2] == '\U{043A}' || s[k + 2] == '\U{041A}')
  }

  /** The first pattern matches at `i`. Backtracking never helps: a shorter
      digit run is followed by a digit, fewer spaces by a space. */
  predicate HintAt(s: string, i: nat) {
    i < |s| && IsAsciiDigit(s[i]) && SecAt(s, SpacesEnd(s, RunEnd(s, i)))
  }

  /** The leftmost match of the first pattern at or after `i`. */
  function FindHint(s: string, i: nat): (r: Option<nat>)
    requires i <= |s|
    ensures r.Some? ==> i <= r.value < |s| && HintAt(s, r.value)
    ensures forall k :: i <= k < |s| && (r.None? || k < r.value) ==> !HintAt(s, k)
    decreases |s| - i
  {
    if i == |s| then None
    else if HintAt(s, i) then Some(i)
    else FindHint(s, i + 1)
  }

  /** The leftmost digit at or after `i`. */
  function FindDigit(s: string, i: nat): (r: Option<nat>)
    requires i <= |s|
    ensures r.Some? ==> i <= r.value < |s| && IsAsciiDigit(s[r.value])
    ensures forall k :: i <= k < |s| && (r.None? || k < r.value) ==> !IsAsciiDigit(s[k])
    decreases |s| - i
  {
    if i == |s| then None
    else if IsAsciiDigit(s[i]) then Some(i)
    else FindDigit(s, i + 1)
  }

  /** `Number` of the digit run starting at `i`. */
  function RunValue(s: string, i: nat): nat
    requires i <= |s|
  {
    DecimalValue(s[i..RunEnd(s, i)])
  }

  /** `parseSecondsFromMessage` on `String(msg || "")`; None is `null`. */
  function ParseSecondsFromMessage(msg: string): (r: Option<nat>)
    ensures r.None? <==> forall k :: 0 <= k < |msg| ==> !IsAsciiDigit(msg[k])
  {
    match FindHint(msg, 0)
    case Some(i) => Some(RunValue(msg, i))
    case None =>
      match FindDigit(msg, 0)
      case Some(i) => Some(RunValue(msg, i))
      case None => None
  }

  lemma RunEndFromPreviousDigit(s: string, i: nat)
    requires 0 < i <= |s|
    ensures IsAsciiDigit(s[i - 1]) ==> RunEnd(s, i - 1) == RunEnd(s, i)
  {
  }

  /** When a number precedes "сек", the leftmost such number is the answer,
      read as the whole run of digits. */
  lemma {:induction false} ParsePrefersSeconds(msg: string, i: nat)
    requires HintAt(msg, i)
    requires forall k :: 0 <= k < i ==> !HintAt(msg, k)
    ensures ParseSecondsFromMessage(msg) == Some(RunValue(msg, i))
    ensures i == 0 || !IsAsciiDigit(msg[i - 1])
  {
    var r := FindHint(msg, 0);
    assert r.Some?;
    assert r.value == i;
    if i > 0 {
      // a digit just before `i` would have matched already
      RunEndFromPreviousDigit(msg, i);
      assert !HintAt(msg, i - 1);
    }
  }

  /** Without "сек" anywhere after a number, the first number is the answer. */
  lemma {:induction false} ParseFallsBackToFirstNumber(msg: string, i: nat)
    requires forall k :: 0 <= k < |msg| ==> !HintAt(msg, k)
    requires i < |msg| && IsAsciiDigit(msg[i])
    requires forall k :: 0 <= k < i ==> !IsAsciiDigit(msg[k])
    ensures ParseSecondsFromMessage(msg) == Some(RunValue(msg, i))
  {
    var h := FindHint(msg, 0);
    assert h.None?;
    var d := FindDigit(msg, 0);
    assert d.Some?;
    assert d.value == i;
  }

  lemma ParseSecondsExample()
    ensures ParseSecondsFromMessage("wait 37 \U{0441}\U{0435}\U{043A}.") == Some(37)
  {
    var a := "wait 37 \U{0441}\U{0435}\U{043A}.";
    assert RunEnd(a, 7) == 7;
    assert RunEnd(a, 6) == 7;
    assert RunEnd(a, 5) == 7;
    assert SpacesEnd(a, 8) == 8;
    assert SpacesEnd(a, 7) == 8;
    assert SecAt(a, 8);
    assert a[5..7] == "37" && "37"[..1] == "3" && "3"[..0] == "";
    assert RunValue(a, 5) == 37;
    ParsePrefersSeconds(a, 5);
  }

  lemma ParseFallbackExample()
    ensures ParseSecondsFromMessage("wait 12 s") == Some(12)
  {
    var c := "wait 12 s";
    assert RunEnd(c, 7) == 7;
    assert RunEnd(c, 6) == 7;
    assert RunEnd(c, 5) == 7;
    assert SpacesEnd(c, 8) == 8;
    assert SpacesEnd(c, 7) == 8;
    assert !SecAt(c, 8);
    assert !HintAt(c, 5) && !HintAt(c, 6);
    assert c[5..7] == "12" && "12"[..1] == "1" && "1"[..0] == "";
    assert RunValue(c, 5) == 12;
    ParseFallsBackToFirstNumber(c, 5);
  }

  lemma ParseNoNumberExample()
    ensures ParseSecondsFromMessage("") == None
    ensures ParseSecondsFromMessage("wait") == None
  {
  }

  // ---------------------------------------------------------------------
  // The component's state

  datatype Step = Input | Verify

  /** What a handler's closure captured when it started: the phone, the code
      and the cooldown of that render. */
  datatype Pending = Pending(phone: string, code: string, cooldown: real)

  function EmptyFields(): Json {
    JObj(map[])
  }

  const DefaultCooldownSeconds: real := 60.0
  const FixErrorsMessage: string := "\U{0418}\U{0441}\U{043F}\U{0440}\U{0430}\U{0432}\U{044C}\U{0442}\U{0435} \U{043E}\U{0448}\U{0438}\U{0431}\U{043A}\U{0438}"

  /** The seconds the server asked for, else the configured cooldown. */
  function RateLimitSeconds(err: ApiError, cooldown: real): real {
    match ParseSecondsFromMessage(OrText(TruthyText(Member(err.payload, "message")), ""))
    case Some(n) => n as real
    case None => cooldown
  }

  /** `resendUntil` after `startCooldown(seconds)` at `clock`. */
  function CooldownUntil(resendUntil: real, seconds: real, clock: real): real {
    if seconds <= 0.0 then resendUntil else clock + seconds * 1000.0
  }

  /** Right after a cooldown of `seconds` starts, the form shows `seconds`
      rounded up; a non-positive request leaves the old deadline. */
  lemma CooldownShowsItsSeconds(resendUntil: real, seconds: real, clock: real)
    ensures seconds > 0.0 ==> ResendLeft(CooldownUntil(resendUntil, seconds, clock), clock) == Ceil(seconds)
    ensures seconds <= 0.0 ==> CooldownUntil(resendUntil, seconds, clock) == resendUntil
  {
    if seconds > 0.0 {
      assert (clock + seconds * 1000.0 - clock) / 1000.0 == seconds;
    }
  }

  /** The form reads the deadline against its last `now`, which the interval
      refreshes only every 250 ms: read at an earlier instant than the one the
      cooldown started at, it shows at least the requested seconds. */
  lemma {:induction false} CooldownShownFromStaleClock(resendUntil: real, seconds: real, clock: real, shown: real)
    requires seconds > 0.0 && shown <= clock
    ensures ResendLeft(CooldownUntil(resendUntil, seconds, clock), shown) >= Ceil(seconds)
  {
    CooldownShowsItsSeconds(resendUntil, seconds, clock);
    ResendLeftNonIncreasing(CooldownUntil(resendUntil, seconds, clock), shown, clock);
  }

  /** `resendUntil` after the rate-limit branch of a failed send, as the
      handlers write it: only the code RATELIMITEXCEEDED restarts the cooldown. */
  function ResyncedUntil(resendUntil: real, err: ApiError, cooldown: real, clock: real): (u: real)
    ensures !RateLimitAsWritten(err) ==> u == resendUntil
    ensures RateLimitAsWritten(err) && RateLimitSeconds(err, cooldown) > 0.0 ==>
              u == clock + RateLimitSeconds(err, cooldown) * 1000.0
  {
    if RateLimitAsWritten(err) then CooldownUntil(resendUntil, RateLimitSeconds(err, cooldown), clock) else resendUntil
  }

  /** The same branch with the intended test, which also knows the server's
      code RATE_LIMIT_EXCEEDED. */
  function ResyncedUntilIntended(resendUntil: real, err: ApiError, cooldown: real, clock: real): (u: real)
    ensures !IsRateLimited(err) ==> u == resendUntil
    ensures IsRateLimited(err) && RateLimitSeconds(err, cooldown) > 0.0 ==>
              u == clock + RateLimitSeconds(err, cooldown) * 1000.0
  {
    if IsRateLimited(err) then CooldownUntil(resendUntil, RateLimitSeconds(err, cooldown), clock) else resendUntil
  }

  /** The two agree on every error the as-written test recognises, and on
      every error that is no rate limit at all. */
  lemma ResyncIntendedExtendsAsWritten(resendUntil: real, err: ApiError, cooldown: real, clock: real)
    ensures RateLimitAsWritten(err) || !IsRateLimited(err) ==>
              ResyncedUntilIntended(resendUntil, err, cooldown, clock) == ResyncedUntil(resendUntil, err, cooldown, clock)
  {
  }

  /** The server's 429 body: code RATE_LIMIT_EXCEEDED and a message. */
  function ServerRateLimit(message: string): (err: ApiError)
    ensures Member(err.payload, "message") == Some(JStr(message))
  {
    ApiError("Too many requests", Some(JObj(map["error" := JStr("RATE_LIMIT_EXCEEDED"), "message" := JStr(message)])))
  }

  /** On the server's 429 body asking for `n` seconds, the handlers as written
      keep the old deadline; the intended test starts an `n`-second cooldown. */
  lemma ServerRateLimitIgnored(resendUntil: real, message: string, n: nat, cooldown: real, clock: real)
    requires ParseSecondsFromMessage(message) == Some(n) && n > 0
    ensures ResyncedUntil(resendUntil, ServerRateLimit(message), cooldown, clock) == resendUntil
    ensures ResyncedUntilIntended(resendUntil, ServerRateLimit(message), cooldown, clock) == clock + n as real * 1000.0
  {
    var err := ServerRateLimit(message);
    assert TruthyText(Member(err.payload, "message")) == Some(message);
    assert RateLimitSeconds(err, cooldown) == n as real;
    RateLimitCodeMissed(message);
  }

  lemma ServerRateLimitExample(resendUntil: real, cooldown: real, clock: real)
    ensures var err := ServerRateLimit("wait 37 \U{0441}\U{0435}\U{043A}.");
            ResyncedUntil(resendUntil, err, cooldown, clock) == resendUntil
            && ResyncedUntilIntended(resendUntil, err, cooldown, clock) == clock + 37000.0
  {
    ParseSecondsExample();
    ServerRateLimitIgnored(resendUntil, "wait 37 \U{0441}\U{0435}\U{043A}.", 37, cooldown, clock);
  }

  /** The error `handleVerifyAndSave` catches, if any: the one from
      `verifyCode`, else the one from `updatePhone`, else, when the parent
      passed `onPhoneUpdated`, what that callback threw. */
  function VerifyFailure(verified: Option<ApiError>, updated: Result<Json, ApiError>,
                         hasCallback: bool, callbackError: Option<ApiError>): (failure: Option<ApiError>)
    ensures failure.None? <==> verified.None? && updated.Success? && (hasCallback ==> callbackError.None?)
    ensures verified.Some? ==> failure == verified
    ensures verified.None? && updated.Failure? ==> failure == Some(updated.error)
  {
    if verified.Some? then verified
    else if updated.Failure? then Some(updated.error)
    else if hasCallback then callbackError
    else None
  }

  class ChangePhoneSection {
    var isEditing: bool
    var newPhone: string
    var code: string
    var step: Step
    var error: Option<string>
    var fieldErrors: Json
    var loading: bool
    var cooldownSeconds: real
    var resendUntil: real
    var now: real

    /** The initial state at mount time `clock`. */
    constructor (clock: real)
      ensures !isEditing && newPhone == "" && code == "" && step == Input
      ensures error == None && fieldErrors == EmptyFields() && !loading
      ensures cooldownSeconds == DefaultCooldownSeconds && resendUntil == 0.0 && now == clock
    {
      isEditing := false;
      newPhone := "";
      code := "";
      step := Input;
      error := None;
      fieldErrors := EmptyFields();
      loading := false;
      cooldownSeconds := DefaultCooldownSeconds;
      resendUntil := 0.0;
      now := clock;
    }

    function Left(): (n: nat)
      reads this
      ensures n == 0 <==> resendUntil <= now
    {
      ResendLeft(resendUntil, now)
    }

    /** The config effect: `cfg` is None when `getSmsConfig` rejected. Only a
        positive number, received while still mounted, replaces the 60 s default. */
    method LoadConfig(cfg: Option<Json>, mounted: bool)
      modifies this
      ensures var s := Member(cfg, "resendCooldownSeconds");
              cooldownSeconds == if mounted && s.Some? && s.value.JNum? && s.value.n > 0.0
                                 then s.value.n else old(cooldownSeconds)
      ensures cooldownSeconds > 0.0 || cooldownSeconds == old(cooldownSeconds)
      ensures isEditing == old(isEditing) && newPhone == old(newPhone) && code == old(code) && step == old(step)
      ensures error == old(error) && fieldErrors == old(fieldErrors) && loading == old(loading)
      ensures resendUntil == old(resendUntil) && now == old(now)
    {
      var seconds := Member(cfg, "resendCooldownSeconds");
      if mounted && seconds.Some? && seconds.value.JNum? && seconds.value.n > 0.0 {
        cooldownSeconds := seconds.value.n;
      }
    }

    /** One firing of the 250 ms interval. */
    method Tick(clock: real)
      modifies this`now
      ensures now == clock
    {
      now := clock;
    }

    /** `startCooldown`: ignores a non-positive number of seconds. */
    method StartCooldown(seconds: real, clock: real)
      modifies this`resendUntil
      ensures resendUntil == CooldownUntil(old(resendUntil), seconds, clock)
      ensures seconds > 0.0 ==> resendUntil > clock
    {
      if seconds <= 0.0 {
        return;
      }
      resendUntil := clock + seconds * 1000.0;
    }

    method StartEditing()
      modifies this`isEditing
      ensures isEditing
    {
      isEditing := true;
    }

    method TypePhone(value: string)
      modifies this`newPhone
      ensures newPhone == value
    {
      newPhone := value;
    }

    method TypeCode(value: string)
      modifies this`code
      ensures code == value
    {
      code := value;
    }

    /** `clearFlow`: back to the closed form with every input and the cooldown reset. */
    method ClearFlow()
      modifies this
      ensures !isEditing && newPhone == "" && code == "" && step == Input
      ensures error == None && fieldErrors == EmptyFields() && resendUntil == 0.0
      ensures loading == old(loading) && cooldownSeconds == old(cooldownSeconds) && now == old(now)
    {
      isEditing := false;
      newPhone := "";
      code := "";
      step := Input;
      error := None;
      fieldErrors := EmptyFields();
      resendUntil := 0.0;
    }

    method Cancel()
      modifies this
      ensures !isEditing && newPhone == "" && code == "" && step == Input
      ensures error == None && fieldErrors == EmptyFields() && resendUntil == 0.0
      ensures loading == old(loading) && cooldownSeconds == old(cooldownSeconds) && now == old(now)
    {
      ClearFlow();
    }

    /** `backToInput`: keeps the form open and the typed phone; the cooldown
        is dropped, so a new code can be requested at once. */
    method BackToInput()
      modifies this
      ensures step == Input && code == "" && error == None && fieldErrors == EmptyFields() && resendUntil == 0.0
      ensures now >= 0.0 ==> Left() == 0
      ensures isEditing == old(isEditing) && newPhone == old(newPhone) && loading == old(loading)
      ensures cooldownSeconds == old(cooldownSeconds) && now == old(now)
    {
      step := Input;
      code := "";
      error := None;
      fieldErrors := EmptyFields();
      resendUntil := 0.0;
    }

    /** The rate-limit branch of a failed send: resynchronise the cooldown
        with the server's hint, under the test as written. */
    method RateLimitResync(err: ApiError, cooldown: real, clock: real)
      modifies this`resendUntil
      ensures resendUntil == ResyncedUntil(old(resendUntil), err, cooldown, clock)
    {
      if RateLimitAsWritten(err) {
        StartCooldown(RateLimitSeconds(err, cooldown), clock);
      }
    }

    /** The shared prologue of the three handlers. */
    method Begin() returns (p: Pending)
      modifies this`error, this`fieldErrors, this`loading
      ensures p == Pending(newPhone, code, cooldownSeconds)
      ensures error == None && fieldErrors == EmptyFields() && loading
    {
      error := None;
      fieldErrors := EmptyFields();
      loading := true;
      p := Pending(newPhone, code, cooldownSeconds);
    }

    /** The error branch shared by send and verify. */
    method ShowError(err: ApiError)
      modifies this`error, this`fieldErrors
      ensures IsValidationError(err) ==>
                fieldErrors == err.payload.value.members["fields"] && error == Some(FixErrorsMessage)
      ensures !IsValidationError(err) ==> fieldErrors == old(fieldErrors) && error == Some(ShownMessage(err))
    {
      if IsValidationError(err) {
        fieldErrors := err.payload.value.members["fields"];
        error := Some(FixErrorsMessage);
      } else {
        error := Some(ShownMessage(err));
      }
    }

    /** `handleSendCode` up to its `await`. */
    method BeginSend() returns (p: Pending)
      modifies this`error, this`fieldErrors, this`loading
      ensures p == Pending(newPhone, code, cooldownSeconds)
      ensures error == None && fieldErrors == EmptyFields() && loading
    {
      p := Begin();
    }

    /** `handleSendCode` after `smsApi.sendCode(newPhone)` settled with
        `outcome` (None: it resolved) at `clock`. */
    method FinishSend(p: Pending, outcome: Option<ApiError>, clock: real)
      modifies this
      ensures !loading
      ensures outcome.None? ==>
                step == Verify && resendUntil == CooldownUntil(old(resendUntil), p.cooldown, clock)
                && error == old(error) && fieldErrors == old(fieldErrors)
      ensures outcome.Some? ==>
                step == old(step)
                && resendUntil == ResyncedUntil(old(resendUntil), outcome.value, p.cooldown, clock)
                && (IsValidationError(outcome.value) ==>
                      fieldErrors == outcome.value.payload.value.members["fields"] && error == Some(FixErrorsMessage))
                && (!IsValidationError(outcome.value) ==>
                      fieldErrors == old(fieldErrors) && error == Some(ShownMessage(outcome.value)))
      ensures isEditing == old(isEditing) && newPhone == old(newPhone) && code == old(code)
      ensures cooldownSeconds == old(cooldownSeconds) && now == old(now)
    {
      if outcome.None? {
        step := Verify;
        StartCooldown(p.cooldown, clock);
      } else {
        var err := outcome.value;
        RateLimitResync(err, p.cooldown, clock);
        ShowError(err);
      }
      loading := false;
    }

    /** `handleResendCode` up to its `await`: None when it returned at once
        because a request is in flight or the cooldown is running; then
        nothing changed. */
    method BeginResend() returns (p: Option<Pending>)
      modifies this`error, this`fieldErrors, this`loading
      ensures p.None? <==> old(loading) || old(Left()) > 0
      ensures p.None? ==> error == old(error) && fieldErrors == old(fieldErrors) && loading == old(loading)
      ensures p.Some? ==> p.value == Pending(newPhone, code, cooldownSeconds)
                          && error == None && fieldErrors == EmptyFields() && loading
    {
      if loading || Left() > 0 {
        return None;
      }
      var q := Begin();
      p := Some(q);
    }

    /** `handleResendCode` after the send settled. Unlike the first send,
        a validation error is shown as a plain message. */
    method FinishResend(p: Pending, outcome: Option<ApiError>, clock: real)
      modifies this
      ensures !loading
      ensures outcome.None? ==>
                resendUntil == CooldownUntil(old(resendUntil), p.cooldown, clock) && error == old(error)
      ensures outcome.Some? ==>
                resendUntil == ResyncedUntil(old(resendUntil), outcome.value, p.cooldown, clock)
                && error == Some(ShownMessage(outcome.value))
      ensures fieldErrors == old(fieldErrors) && step == old(step)
      ensures isEditing == old(isEditing) && newPhone == old(newPhone) && code == old(code)
      ensures cooldownSeconds == old(cooldownSeconds) && now == old(now)
    {
      if outcome.None? {
        StartCooldown(p.cooldown, clock);
      } else {
        var err := outcome.value;
        RateLimitResync(err, p.cooldown, clock);
        error := Some(ShownMessage(err));
      }
      loading := false;
    }

    /** `handleVerifyAndSave` up to its first `await`. */
    method BeginVerify() returns (p: Pending)
      modifies this`error, this`fieldErrors, this`loading
      ensures p == Pending(newPhone, code, cooldownSeconds)
      ensures error == None && fieldErrors == EmptyFields() && loading
    {
      p := Begin();
    }

    /** `handleVerifyAndSave` after `smsApi.verifyCode` settled with
        `verified` and, only when that resolved, `userApi.updatePhone` with
        `updated`. `updateCalled` says whether the second call was made.
        When the update resolved, the parent's `onPhoneUpdated` is called
        with the updated profile if the parent passed one (`hasCallback`);
        `notified` is that argument, and `callbackError` is what the callback
        threw, which lands in the same `catch` and skips `clearFlow`. */
    method FinishVerify(p: Pending, verified: Option<ApiError>, updated: Result<Json, ApiError>,
                        hasCallback: bool, callbackError: Option<ApiError>)
      returns (updateCalled: bool, notified: Option<Json>)
      modifies this
      ensures updateCalled <==> verified.None?
      ensures notified.Some? <==> verified.None? && updated.Success? && hasCallback
      ensures notified.Some? ==> notified.value == updated.value
      ensures !loading
      ensures var failure := VerifyFailure(verified, updated, hasCallback, callbackError);
              failure.None? ==>
                !isEditing && newPhone == "" && code == "" && step == Input
                && error == None && fieldErrors == EmptyFields() && resendUntil == 0.0
      ensures var failure := VerifyFailure(verified, updated, hasCallback, callbackError);
              failure.Some? ==>
                step == old(step) && resendUntil == old(resendUntil)
                && isEditing == old(isEditing) && newPhone == old(newPhone) && code == old(code)
                && (IsValidationError(failure.value) ==>
                      fieldErrors == failure.value.payload.value.members["fields"] && error == Some(FixErrorsMessage))
                && (!IsValidationError(failure.value) ==>
                      fieldErrors == old(fieldErrors) && error == Some(ShownMessage(failure.value)))
      ensures cooldownSeconds == old(cooldownSeconds) && now == old(now)
    {
      var failure := verified;
      updateCalled := false;
      notified := None;
      if verified.None? {
        updateCalled := true;
        if updated.Failure? {
          failure := Some(updated.error);
        } else if hasCallback {
          notified := Some(updated.value);
          failure := callbackError;
        }
      }
      if failure.None? {
        ClearFlow();
      } else {
        ShowError(failure.value);
      }
      loading := false;
    }
  }
}
