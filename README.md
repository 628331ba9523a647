# Logistics system: sessions, one-time codes, profile updates, pricing and drafts

A Dafny model of the sequential core of the Logistics System repository. It covers
both sides of the wire.

The browser client:
- **request pipeline** (`http.js`): adds the bearer access token (section 2.1 of
  RFC 6750) and retries once after a 401, using a refreshed token pair;
- **authentication context** (`AuthContext.jsx`): derives `isAuthenticated`,
  sets tokens, and always clears them on logout;
- **phone-change form** (`ChangePhoneSection.jsx`): the input/verify steps, the
  resend cooldown, and the parser for the server's "N сек" hint.

The authentication service:
- the Redis store of one-time codes and "verified" flags, issuing a code, and
  checking a code against its expiry and attempt counter;
- refresh-token rotation and revocation;
- the phone, password and find-or-create profile operations;
- the user-type check with its identifier mask;
- the two bean validators and the exception-to-response mapping.

The shared and business services:
- the pricing rule predicates, the price calculation (HALF_UP to cents) and the
  rule lookups;
- the `Dimensions` value with its construction invariant;
- partial draft update with price recalculation, the newest-first draft list,
  lookup by id or barcode, and the web mapping of drafts;
- the facility activity filter.

Modelling conventions:
- **Verbatim state.** Imperative source code is modelled imperatively. The
  token store, the network, the form, the repositories and the Redis store are
  classes whose methods change fields. Each method is tied by its `ensures` to a
  specification function of the old state, and the properties are lemmas about
  those functions.
- **Time.** The clock (`Date.now()`, `LocalDateTime.now()`, `LocalDate.now()`)
  is a parameter: milliseconds as `real` on the client, seconds (dates: days) as
  `int` on the server.
- **Number types.** `BigDecimal` values are exact rationals (`real`), and the
  scale-2 HALF_UP rounding is written out (`Decimal.Cents`). `null` is `None`.
- **External services** are function parameters:
  - `SecureRandom` (a sequence of digit draws);
  - the SMS port and the UUID of a new refresh token;
  - the JWT generator and the password encoder;
  - `PhoneUtils.normalize`.
- **Network replies** are a script given to the `Network` object.

Where the code and its own documentation disagree, the model follows the code:
- `CheckUserTypeService.check` answers `isClient = false` for an unknown
  identifier, although its log line says the user "will be registered as CLIENT".
  See `CheckUserType.UnknownIdentifier`.
- The draft update and draft lookup take a `userId`, but neither checks that the
  caller created the draft, and the update does not check the draft status.
  See `UpdateDraft.CallerAndStatusAreNotChecked` and
  `GetDraft.CreatorIsNotChecked`.
- **`GlobalExceptionHandler`** (authentication service):
  - Its class comment lists a catch-all `Exception → 500` handler. The class has
    none, so the model maps only the ten handled exceptions.
  - `SMS_DELIVERY_FAILED` and `EMAIL_DELIVERY_FAILED` answer 503.
- `isAuthenticated` is `Boolean(accessToken)`, so an empty token string is not
  a session.

## Model

Members without a row are helpers of the rows that use them: the generic
list operations of `Seqs` (`Filter`, `FirstIndex`, `FindFirst`,
`Subsequence`), the two halves of `Text.Trim`, `Text.ToLowerAscii` (its
one use is `CheckUserType.EmailLookupIgnoresCaseAndBlanks`), `Text.IndexOf`
and the digit conversions.

| member | source | states |
|---|---|---|
| HttpPipeline.Headers | frontend/src/shared/http/http.js:7-14 | Content-Type is always JSON; an Authorization header is present iff `withAuth` and the access token is truthy, and then it is `Bearer <token>`; no other header |
| HttpPipeline.SentBody | frontend/src/shared/http/http.js:19 | the body is sent iff it is truthy, and then unchanged |
| HttpPipeline.RequestFor | frontend/src/shared/http/http.js:16-20 | the request goes to base + path with the given method, the headers above and the sent body |
| HttpPipeline.ErrorMessage | frontend/src/shared/http/http.js:26 | never empty; a non-empty payload `message` wins |
| Text.NatToString | frontend/src/shared/http/http.js:26 | the decimal text of the status in `"HTTP " + status`: at least one character, all ASCII digits |
| Text.NatToStringRoundTrip | frontend/src/shared/http/http.js:26 | the printed text reads back as the same number and has no leading zero |
| HttpPipeline.Settle | frontend/src/shared/http/http.js:22-32 | a dead network and unparsable text are errors; an empty ok body is null; a non-ok status gives an HttpError carrying that status and the payload (null when empty); otherwise success iff the status is 2xx |
| HttpPipeline.RefreshSpec | frontend/src/shared/http/http.js:35-48 | no refresh token: NoRefreshToken, nothing sent, store unchanged; otherwise exactly one POST to /auth/refresh without Authorization, and the result is the settled reply: it succeeds iff the reply is a 2xx with a non-null body, a failed reply's error propagates unchanged, and a null body fails with NullTokens; on success both tokens come from the reply, on failure the store is unchanged |
| HttpPipeline.HttpSpec | frontend/src/shared/http/http.js:50-61 | one to three requests, the first being the request itself; anything but a 401 on a `withAuth` call is final with the tokens untouched; after such a 401 fewer than three requests go out iff the refresh fails, and then its error is the result and the tokens are unchanged; with three, the refresh went to /auth/refresh without a bearer, the tokens are the refreshed pair, the retry carries the new access token and its outcome is the result |
| HttpPipeline.TokenStorage.constructor | frontend/src/shared/http/http.js:2 | the store starts with the given pair of tokens |
| HttpPipeline.Network.constructor | frontend/src/shared/http/http.js:16 | the network starts with the given reply script and no request sent |
| HttpPipeline.TokenStorage.Current | frontend/src/shared/http/http.js:12 | the pair of tokens currently stored |
| HttpPipeline.TokenStorage.SetTokens | frontend/src/shared/http/http.js:46 | both tokens are replaced |
| HttpPipeline.TokenStorage.Clear | frontend/src/shared/auth/AuthContext.jsx:23 | both tokens are removed |
| HttpPipeline.Network.Fetch | frontend/src/shared/http/http.js:16-20 | answers the next scripted reply, consumes it and logs the request |
| HttpPipeline.Skip | frontend/src/shared/http/http.js:50-61 | never lengthens the reply script |
| HttpPipeline.SkipOneMore | frontend/src/shared/http/http.js:50-61 | one more request consumes exactly one more reply |
| HttpPipeline.RawFetch | frontend/src/shared/http/http.js:4-33 | sends exactly `RequestFor(...)` with the stored access token, consumes one reply, returns `Settle` of it |
| HttpPipeline.RefreshTokens | frontend/src/shared/http/http.js:35-48 | result, requests sent, replies consumed and stored tokens are those of `RefreshSpec` |
| HttpPipeline.Http | frontend/src/shared/http/http.js:50-61 | result, requests sent, replies consumed and stored tokens are those of `HttpSpec` |
| HttpPipeline.NoAuthNoBearer | frontend/src/shared/http/http.js:11-14 | without `withAuth`: one request, no Authorization header, tokens untouched |
| HttpPipeline.MissingAccessTokenStillSends | frontend/src/shared/http/http.js:12-13 | with no access token the request still goes out, with no Authorization header |
| HttpPipeline.EmptyBodyIsNull | frontend/src/shared/http/http.js:22-23 | an empty 2xx body is null, never a parse error |
| HttpPipeline.UnauthorizedRefreshesOnceRetriesOnce | frontend/src/shared/http/http.js:55-58 | a 401 with `withAuth` and a refresh token, followed by a successful refresh, gives exactly three requests: original, bearer-free refresh, and a retry whose token is the refresh reply's `accessToken`; the stored tokens are the refresh reply's pair and the result is the retry's outcome |
| HttpPipeline.FailedRefreshPropagates | frontend/src/shared/http/http.js:55-58 | after a 401 with `withAuth` and a refresh token, a refresh answered with an error or a null body ends the call: two requests (original and refresh), the stored tokens kept, and the refresh reply's error (or NullTokens) is what the caller gets |
| HttpPipeline.SecondUnauthorizedPropagates | frontend/src/shared/http/http.js:55-58 | a 401 on the retry, whatever its JSON body, is the result: an HttpError with status 401, that body as payload and its message, with nothing more sent |
| HttpPipeline.SecondUnauthorizedEmptyBody | frontend/src/shared/http/http.js:26 | with empty 401 bodies the error message is `HTTP 401` |
| HttpPipeline.NoRefreshTokenSendsNothing | frontend/src/shared/http/http.js:36-37 | refresh without a refresh token throws before any request |
| HttpPipeline.OtherErrorsRethrown | frontend/src/shared/http/http.js:55-60 | errors other than a 401, or any error without `withAuth`, are returned as they are after a single request |
| HttpPipeline.UnparsableUnauthorizedNotRefreshed | frontend/src/shared/http/http.js:22-25 | a 401 whose body is not JSON is a parse error and never triggers a refresh |
| AuthContext.AuthProvider.constructor | frontend/src/shared/auth/AuthContext.jsx:8 | the state starts from the stored access token |
| AuthContext.AuthProvider.IsAuthenticated | frontend/src/shared/auth/AuthContext.jsx:11 | true iff the access token is present and non-empty |
| AuthContext.AuthProvider.SetTokens | frontend/src/shared/auth/AuthContext.jsx:17-20 | stores both tokens and makes the state's access token `at` |
| AuthContext.AuthProvider.ClearLocal | frontend/src/shared/auth/AuthContext.jsx:22-25 | empties the store and the state, unauthenticated, no request |
| AuthContext.AuthProvider.Logout | frontend/src/shared/auth/AuthContext.jsx:27-38 | posts /auth/logout only when a refresh token is held; the store and state are cleared on every path, also when that request fails; the failure is reported |
| AuthContext.LogoutOptions | frontend/src/shared/auth/AuthContext.jsx:31-32 | no ensures of its own: the POST body `{refreshToken}` sent without a bearer, as `Logout`'s ensures use it |
| ChangePhone.Ceil | frontend/src/features/user/components/ChangePhoneSection.jsx:22 | the least integer not below x |
| ChangePhone.ResendLeft | frontend/src/features/user/components/ChangePhoneSection.jsx:21-23 | a natural; zero iff the deadline has passed; otherwise the remaining time rounded up to whole seconds |
| ChangePhone.ResendLeftNonIncreasing | frontend/src/features/user/components/ChangePhoneSection.jsx:21-23 | with `resendUntil` fixed, the seconds left never grow as time passes |
| ChangePhone.ValidationErrorRecognised | frontend/src/features/user/components/ChangePhoneSection.jsx:51-55 | a validation error has an object payload with a truthy `fields` member (what line 97 stores), is never a rate limit under either test, and an error without a payload is never one |
| ChangePhone.IsValidationError | frontend/src/features/user/components/ChangePhoneSection.jsx:51-55 | no ensures of its own; `ValidationErrorRecognised` states what it implies |
| ChangePhone.PayloadCode | frontend/src/features/user/components/ChangePhoneSection.jsx:52 | no ensures of its own: `err?.payload?.error`, read by `IsValidationError` and `RateLimitAsWritten` |
| ChangePhone.ShownMessage | frontend/src/features/user/components/ChangePhoneSection.jsx:100 | the payload message if it is a non-empty string; else the payload code if that is a non-empty string; else the error's own message |
| ChangePhone.RateLimitCodeMissed | frontend/src/features/user/components/ChangePhoneSection.jsx:91-94 | the component's test misses a body with code RATE_LIMIT_EXCEEDED, which the corrected test accepts |
| ChangePhone.RateLimitCorrectionKeepsOldSpelling | frontend/src/features/user/components/ChangePhoneSection.jsx:91 | the corrected test still accepts everything the written one does |
| ChangePhone.RateLimitAsWritten | frontend/src/features/user/components/ChangePhoneSection.jsx:91 | no ensures of its own: the code is exactly RATELIMITEXCEEDED; see `RateLimitCodeMissed` |
| ChangePhone.IsRateLimited | frontend/src/features/user/components/ChangePhoneSection.jsx:91 | no ensures of its own: the corrected test, either spelling; see `RateLimitCorrectionKeepsOldSpelling` |
| ChangePhone.RunEnd | frontend/src/features/user/components/ChangePhoneSection.jsx:59-61 | the maximal run of ASCII digits starting at `i` (`\d+`) |
| ChangePhone.SpacesEnd | frontend/src/features/user/components/ChangePhoneSection.jsx:59 | the maximal run of white space starting at `j` (`\s*`) |
| ChangePhone.FindHint | frontend/src/features/user/components/ChangePhoneSection.jsx:59 | the leftmost position at which `(\d+)\s*сек` matches (case-insensitively), or none |
| ChangePhone.FindDigit | frontend/src/features/user/components/ChangePhoneSection.jsx:61 | the leftmost digit, or none |
| ChangePhone.ParseSecondsFromMessage | frontend/src/features/user/components/ChangePhoneSection.jsx:57-63 | null iff the message has no digit |
| ChangePhone.RunEndFromPreviousDigit | frontend/src/features/user/components/ChangePhoneSection.jsx:59 | a digit run that starts one position earlier ends at the same place |
| ChangePhone.ParsePrefersSeconds | frontend/src/features/user/components/ChangePhoneSection.jsx:59-60 | when a number precedes "сек", the leftmost such number, read whole, is the answer |
| ChangePhone.ParseFallsBackToFirstNumber | frontend/src/features/user/components/ChangePhoneSection.jsx:61-62 | without a "сек" hint the first number is the answer |
| ChangePhone.ParseSecondsExample | frontend/src/features/user/components/ChangePhoneSection.jsx:57-63 | "wait 37 сек." gives 37 |
| ChangePhone.ParseFallbackExample | frontend/src/features/user/components/ChangePhoneSection.jsx:57-63 | "wait 12 s" gives 12 |
| ChangePhone.ParseNoNumberExample | frontend/src/features/user/components/ChangePhoneSection.jsx:58-62 | "" and "wait" give null |
| ChangePhone.CooldownShowsItsSeconds | frontend/src/features/user/components/ChangePhoneSection.jsx:65-69 | a positive cooldown sets the deadline ceil(s) whole seconds after the clock reading at which it starts, read at that same instant; a non-positive one keeps the old deadline |
| ChangePhone.CooldownShownFromStaleClock | frontend/src/features/user/components/ChangePhoneSection.jsx:45-47 | the form reads the deadline against its last `now`, refreshed every 250 ms; read at any earlier instant it shows at least ceil(s) seconds |
| ChangePhone.RateLimitSeconds | frontend/src/features/user/components/ChangePhoneSection.jsx:92 | no ensures of its own: the parsed seconds of a string `message`, else the captured cooldown; see `ServerRateLimitIgnored` |
| ChangePhone.CooldownUntil | frontend/src/features/user/components/ChangePhoneSection.jsx:65-69 | no ensures of its own: `StartCooldown` and `CooldownShowsItsSeconds` state it |
| ChangePhone.ResyncedUntil | frontend/src/features/user/components/ChangePhoneSection.jsx:91-94 | the handlers' branch as written: the deadline is unchanged unless the code is RATELIMITEXCEEDED, and then it is the clock plus the parsed seconds when those are positive |
| ChangePhone.ResyncedUntilIntended | frontend/src/features/user/components/ChangePhoneSection.jsx:91-94 | the corrected branch: the same with either spelling of the code |
| ChangePhone.ResyncIntendedExtendsAsWritten | frontend/src/features/user/components/ChangePhoneSection.jsx:91-94 | the two branches agree on every error the as-written test accepts and on every error neither accepts |
| ChangePhone.ServerRateLimit | backend/user-auth-service/src/main/java/com/logistics/userauth/common/web/GlobalExceptionHandler.java:167-172 | the 429 body the server sends carries the exception message as `message` |
| ChangePhone.ServerRateLimitIgnored | frontend/src/features/user/components/ChangePhoneSection.jsx:91-94 | on the server's 429 body asking for n > 0 seconds, the handlers as written keep the old deadline and the corrected branch sets it to clock + 1000·n |
| ChangePhone.ServerRateLimitExample | frontend/src/features/user/components/ChangePhoneSection.jsx:91-94 | "wait 37 сек." with code RATE_LIMIT_EXCEEDED: deadline unchanged as written, clock + 37000 ms when corrected |
| ChangePhone.ChangePhoneSection.constructor | frontend/src/features/user/components/ChangePhoneSection.jsx:6-19 | the initial state: closed, empty fields, step input, no error, 60 s cooldown, `resendUntil` 0 |
| ChangePhone.ChangePhoneSection.Left | frontend/src/features/user/components/ChangePhoneSection.jsx:21-23 | zero iff `resendUntil` is not after `now` |
| ChangePhone.ChangePhoneSection.LoadConfig | frontend/src/features/user/components/ChangePhoneSection.jsx:25-43 | only a positive number received while mounted replaces the cooldown; nothing else changes |
| ChangePhone.ChangePhoneSection.Tick | frontend/src/features/user/components/ChangePhoneSection.jsx:47 | `now` becomes the clock reading |
| ChangePhone.ChangePhoneSection.StartCooldown | frontend/src/features/user/components/ChangePhoneSection.jsx:65-69 | non-positive seconds are ignored; otherwise `resendUntil = clock + 1000·s`, strictly in the future |
| ChangePhone.ChangePhoneSection.StartEditing | frontend/src/features/user/components/ChangePhoneSection.jsx:170 | the form opens |
| ChangePhone.ChangePhoneSection.TypePhone | frontend/src/features/user/components/ChangePhoneSection.jsx:185 | the phone field takes the typed value |
| ChangePhone.ChangePhoneSection.TypeCode | frontend/src/features/user/components/ChangePhoneSection.jsx:209 | the code field takes the typed value |
| ChangePhone.ChangePhoneSection.ClearFlow | frontend/src/features/user/components/ChangePhoneSection.jsx:71-79 | closed form, empty phone and code, step input, no errors, cooldown reset; loading, configured cooldown and clock kept |
| ChangePhone.ChangePhoneSection.Cancel | frontend/src/features/user/components/ChangePhoneSection.jsx:151 | the same state as `clearFlow` |
| ChangePhone.ChangePhoneSection.BackToInput | frontend/src/features/user/components/ChangePhoneSection.jsx:153-159 | step input, code and errors cleared, `resendUntil` 0 so no seconds are left; the form stays open with the typed phone |
| ChangePhone.ChangePhoneSection.RateLimitResync | frontend/src/features/user/components/ChangePhoneSection.jsx:91-94 | as written: only the payload code RATELIMITEXCEEDED restarts the cooldown, with the server's seconds, else the configured ones; any other error leaves it unchanged |
| ChangePhone.ChangePhoneSection.Begin | frontend/src/features/user/components/ChangePhoneSection.jsx:82-84 | errors cleared, loading set, the phone, code and cooldown of this render captured |
| ChangePhone.ChangePhoneSection.ShowError | frontend/src/features/user/components/ChangePhoneSection.jsx:96-101 | a validation error shows its fields and the fix-errors text; any other shows `ShownMessage` |
| ChangePhone.ChangePhoneSection.BeginSend | frontend/src/features/user/components/ChangePhoneSection.jsx:81-87 | the shared prologue of the send handler |
| ChangePhone.ChangePhoneSection.FinishSend | frontend/src/features/user/components/ChangePhoneSection.jsx:86-104 | success moves to step verify and starts the captured cooldown; failure keeps the step, resyncs under the as-written rate-limit test, and shows the fields and fix-errors text for a validation error, else `ShownMessage` with the field errors kept; loading always ends |
| ChangePhone.ChangePhoneSection.BeginResend | frontend/src/features/user/components/ChangePhoneSection.jsx:107-112 | a no-op iff loading or seconds are left; otherwise the shared prologue |
| ChangePhone.ChangePhoneSection.FinishResend | frontend/src/features/user/components/ChangePhoneSection.jsx:114-126 | success restarts the cooldown; failure resyncs under the as-written rate-limit test and always shows `ShownMessage` (no field errors); the step never changes |
| ChangePhone.ChangePhoneSection.BeginVerify | frontend/src/features/user/components/ChangePhoneSection.jsx:129-132 | the shared prologue of the verify handler |
| ChangePhone.VerifyFailure | frontend/src/features/user/components/ChangePhoneSection.jsx:134-139 | no error is caught iff the code was verified, the update resolved and the parent's callback, when passed, did not throw; a failed verification is the error shown, and a failed update is the error shown after a verified code |
| ChangePhone.ChangePhoneSection.FinishVerify | frontend/src/features/user/components/ChangePhoneSection.jsx:134-148 | the phone update is made iff the code was verified; the parent's `onPhoneUpdated` receives the updated profile iff the code was verified, the update resolved and the parent passed the callback; no caught error clears the flow; a caught error (verification, update or a throwing callback) keeps step, cooldown and inputs and shows the fields and fix-errors text for a validation error, else `ShownMessage`; loading always ends |
| VerificationStore.CodeKey | backend/user-auth-service/src/main/java/com/logistics/userauth/notification/common/adapter/out/persistence/AbstractRedisVerificationRepository.java:122-124 | the code prefix followed by exactly the id |
| VerificationStore.VerifiedKey | backend/user-auth-service/src/main/java/com/logistics/userauth/notification/common/adapter/out/persistence/AbstractRedisVerificationRepository.java:126-128 | the flag prefix followed by exactly the id |
| VerificationStore.SmsPrefixesDiverge | backend/user-auth-service/src/main/java/com/logistics/userauth/notification/sms/adapter/out/persistence/RedisSmsRepository.java:46-47 | the SMS prefixes differ at a common position |
| VerificationStore.KeysNeverCollide | backend/user-auth-service/src/main/java/com/logistics/userauth/notification/common/adapter/out/persistence/AbstractRedisVerificationRepository.java:122-128 | with diverging prefixes no code key equals any flag key |
| VerificationStore.KeysInjective | backend/user-auth-service/src/main/java/com/logistics/userauth/notification/common/adapter/out/persistence/AbstractRedisVerificationRepository.java:122-128 | different ids give different code keys and different flag keys |
| VerificationStore.Find | backend/user-auth-service/src/main/java/com/logistics/userauth/notification/common/adapter/out/persistence/AbstractRedisVerificationRepository.java:78-81 | a code is found iff a code entry sits under the id's code key |
| VerificationStore.Verified | backend/user-auth-service/src/main/java/com/logistics/userauth/notification/common/adapter/out/persistence/AbstractRedisVerificationRepository.java:112-120 | no ensures of its own: a status entry under the flag key; see `MarkThenVerifiedThenDelete` |
| VerificationStore.Saved | backend/user-auth-service/src/main/java/com/logistics/userauth/notification/common/adapter/out/persistence/AbstractRedisVerificationRepository.java:71-76 | no ensures of its own: the code under its own id's key; see `SaveThenFind` and `WellKeyedPreserved` |
| VerificationStore.WithoutCode | backend/user-auth-service/src/main/java/com/logistics/userauth/notification/common/adapter/out/persistence/AbstractRedisVerificationRepository.java:83-87 | no ensures of its own: the code key removed; see `CodesAndFlagsIndependent` |
| VerificationStore.WithoutStatus | backend/user-auth-service/src/main/java/com/logistics/userauth/notification/common/adapter/out/persistence/AbstractRedisVerificationRepository.java:89-93 | no ensures of its own: the flag key removed; see `MarkThenVerifiedThenDelete` |
| VerificationStore.Incremented | backend/user-auth-service/src/main/java/com/logistics/userauth/notification/common/adapter/out/persistence/AbstractRedisVerificationRepository.java:95-104 | no ensures of its own: see `IncrementAbsentIsNoOp`, `IncrementPresentAddsOne` and `IncrementKeepsFlags` |
| VerificationStore.MarkedVerified | backend/user-auth-service/src/main/java/com/logistics/userauth/notification/common/adapter/out/persistence/AbstractRedisVerificationRepository.java:106-110 | no ensures of its own: see `MarkThenVerifiedThenDelete` |
| VerificationStore.WellKeyedPreserved | backend/user-auth-service/src/main/java/com/logistics/userauth/notification/common/adapter/out/persistence/AbstractRedisVerificationRepository.java:71-110 | every write and delete keeps each code under the key of its own id |
| VerificationStore.SaveThenFind | backend/user-auth-service/src/main/java/com/logistics/userauth/notification/common/adapter/out/persistence/AbstractRedisVerificationRepository.java:71-81 | `findById` after `save` returns that code, stored with the given TTL |
| VerificationStore.CodesAndFlagsIndependent | backend/user-auth-service/src/main/java/com/logistics/userauth/notification/common/adapter/out/persistence/AbstractRedisVerificationRepository.java:83-128 | saving or deleting a code never changes a flag; setting or deleting a flag never changes a code |
| VerificationStore.IncrementAbsentIsNoOp | backend/user-auth-service/src/main/java/com/logistics/userauth/notification/common/adapter/out/persistence/AbstractRedisVerificationRepository.java:95-104 | on an absent id the store is unchanged |
| VerificationStore.IncrementPresentAddsOne | backend/user-auth-service/src/main/java/com/logistics/userauth/notification/common/adapter/out/persistence/AbstractRedisVerificationRepository.java:95-104 | on a present id the attempts go up by exactly one, the other fields are kept, and the TTL is the remaining one (else the default) |
| VerificationStore.IncrementKeepsFlags | backend/user-auth-service/src/main/java/com/logistics/userauth/notification/common/adapter/out/persistence/AbstractRedisVerificationRepository.java:95-104 | incrementing never changes a flag |
| VerificationStore.MarkThenVerifiedThenDelete | backend/user-auth-service/src/main/java/com/logistics/userauth/notification/common/adapter/out/persistence/AbstractRedisVerificationRepository.java:89-120 | `isVerified` is true after `markAsVerified` and false after `deleteVerificationStatus` |
| VerificationStore.VerificationRepository.constructor | backend/user-auth-service/src/main/java/com/logistics/userauth/notification/common/adapter/out/persistence/AbstractRedisVerificationRepository.java:35-38 | the given prefixes and default TTL over an empty store |
| VerificationStore.VerificationRepository.Sms | backend/user-auth-service/src/main/java/com/logistics/userauth/notification/sms/adapter/out/persistence/RedisSmsRepository.java:42-49 | `sms:verification:` / `sms:verified:` with a 5-minute default, and the prefixes diverge |
| VerificationStore.VerificationRepository.BuildKey | backend/user-auth-service/src/main/java/com/logistics/userauth/notification/common/adapter/out/persistence/AbstractRedisVerificationRepository.java:122-124 | the code key of the id |
| VerificationStore.VerificationRepository.BuildVerifiedKey | backend/user-auth-service/src/main/java/com/logistics/userauth/notification/common/adapter/out/persistence/AbstractRedisVerificationRepository.java:126-128 | the flag key of the id |
| VerificationStore.VerificationRepository.Save | backend/user-auth-service/src/main/java/com/logistics/userauth/notification/common/adapter/out/persistence/AbstractRedisVerificationRepository.java:71-76 | the store becomes `Saved(old, code, ttl)` |
| VerificationStore.VerificationRepository.FindById | backend/user-auth-service/src/main/java/com/logistics/userauth/notification/common/adapter/out/persistence/AbstractRedisVerificationRepository.java:78-81 | answers `Find` on the current store |
| VerificationStore.VerificationRepository.DeleteVerificationCode | backend/user-auth-service/src/main/java/com/logistics/userauth/notification/common/adapter/out/persistence/AbstractRedisVerificationRepository.java:83-87 | only the code key is removed |
| VerificationStore.VerificationRepository.DeleteVerificationStatus | backend/user-auth-service/src/main/java/com/logistics/userauth/notification/common/adapter/out/persistence/AbstractRedisVerificationRepository.java:89-93 | only the flag key is removed |
| VerificationStore.VerificationRepository.IncrementAttempts | backend/user-auth-service/src/main/java/com/logistics/userauth/notification/common/adapter/out/persistence/AbstractRedisVerificationRepository.java:95-104 | the store becomes `Incremented(old, id, remaining TTL, default)` |
| VerificationStore.VerificationRepository.MarkAsVerified | backend/user-auth-service/src/main/java/com/logistics/userauth/notification/common/adapter/out/persistence/AbstractRedisVerificationRepository.java:106-110 | the flag "verified" is written under the flag key with the TTL |
| VerificationStore.VerificationRepository.IsVerified | backend/user-auth-service/src/main/java/com/logistics/userauth/notification/common/adapter/out/persistence/AbstractRedisVerificationRepository.java:112-120 | true iff a flag is present |
| SendCodeService.SecureCode | backend/user-auth-service/src/main/java/com/logistics/userauth/notification/common/application/usecase/SendAbstractVerificationCodeService.java:93-100 | exactly `n` characters, the k-th being the digit of the k-th draw |
| SendCodeService.SecureCodeIsDigits | backend/user-auth-service/src/main/java/com/logistics/userauth/notification/common/application/usecase/SendAbstractVerificationCodeService.java:93-100 | every character of a generated code is 0-9 |
| SendCodeService.GenerateSecureCode | backend/user-auth-service/src/main/java/com/logistics/userauth/notification/common/application/usecase/SendAbstractVerificationCodeService.java:93-100 | the loop builds `SecureCode(codeLength, draw)`: `codeLength` decimal digits |
| SendCodeService.NewCode | backend/user-auth-service/src/main/java/com/logistics/userauth/notification/common/application/usecase/SendAbstractVerificationCodeService.java:75-76 | keyed by the id, expiring `ttl` minutes after now, with zero attempts |
| SendCodeService.SendCode | backend/user-auth-service/src/main/java/com/logistics/userauth/notification/common/application/usecase/SendAbstractVerificationCodeService.java:68-91 | the code is stored under the normalized id with expiry now + TTL before sending, so it is findable even if delivery fails; the call fails iff the delivery port answers false, with the delivery message |
| VerifyCodeService.RemainingMessage | backend/user-auth-service/src/main/java/com/logistics/userauth/notification/common/application/usecase/AbstractVerifyService.java:80-84 | the fixed prefix followed by the decimal count |
| VerifyCodeService.Verify | backend/user-auth-service/src/main/java/com/logistics/userauth/notification/common/application/usecase/AbstractVerifyService.java:51-91 | succeeds iff a code is stored for the id, not expired, and equal to the one given; a missing code leaves the store as it was |
| VerifyCodeService.MissingCodeChangesNothing | backend/user-auth-service/src/main/java/com/logistics/userauth/notification/common/application/usecase/AbstractVerifyService.java:56-59 | no stored code: "not found" error, store unchanged |
| VerifyCodeService.ExpiredCodeDeleted | backend/user-auth-service/src/main/java/com/logistics/userauth/notification/common/application/usecase/AbstractVerifyService.java:61-67 | an expired code is deleted and rejected |
| VerifyCodeService.MismatchCostsOneAttempt | backend/user-auth-service/src/main/java/com/logistics/userauth/notification/common/application/usecase/AbstractVerifyService.java:69-84 | a wrong code below the limit adds exactly one attempt, keeps the code, and reports max − (attempts+1) > 0 |
| VerifyCodeService.MismatchAtLimitDeletes | backend/user-auth-service/src/main/java/com/logistics/userauth/notification/common/application/usecase/AbstractVerifyService.java:74-78 | the wrong code reaching the limit deletes the stored code |
| VerifyCodeService.MatchConsumesAndVerifies | backend/user-auth-service/src/main/java/com/logistics/userauth/notification/common/application/usecase/AbstractVerifyService.java:87-88 | the right code is deleted and the id is marked verified, so replaying it fails |
| VerifyCodeService.FailureNeverVerifies | backend/user-auth-service/src/main/java/com/logistics/userauth/notification/common/application/usecase/AbstractVerifyService.java:56-85 | no failing path changes any flag |
| VerifyCodeService.VerifyCode | backend/user-auth-service/src/main/java/com/logistics/userauth/notification/common/application/usecase/AbstractVerifyService.java:51-91 | the repository calls leave the store and result of `Verify` on the normalized id |
| UserSessions.FindByToken | backend/user-auth-service/src/main/java/com/logistics/userauth/auth/jwt/application/usecase/RefreshAccessTokenService.java:76-77 | a session with that token from the table, none iff no row has it |
| UserSessions.Stored | backend/user-auth-service/src/main/java/com/logistics/userauth/auth/jwt/application/usecase/RefreshAccessTokenService.java:83-84 | the row with the session's id is replaced, or the session appended |
| UserSessions.IdLocatesRow | backend/user-auth-service/src/main/java/com/logistics/userauth/auth/jwt/application/usecase/RevokeRefreshTokenService.java:53-55 | with unique ids, saving a row back replaces that same row |
| UserSessions.SessionRepository.constructor | backend/user-auth-service/src/main/java/com/logistics/userauth/auth/session/domain/UserSession.java:47-63 | an empty table |
| UserSessions.SessionRepository.FindByRefreshToken | backend/user-auth-service/src/main/java/com/logistics/userauth/auth/jwt/application/usecase/RefreshAccessTokenService.java:76 | answers `FindByToken` |
| UserSessions.SessionRepository.Save | backend/user-auth-service/src/main/java/com/logistics/userauth/auth/jwt/application/usecase/RefreshAccessTokenService.java:84 | the table becomes `Stored(old, s)` |
| UserSessions.SessionRepository.Insert | backend/user-auth-service/src/main/java/com/logistics/userauth/auth/jwt/application/usecase/InternalCreateRefreshTokenService.java:82 | appends the session under the next key and keeps keys unique |
| UserSessions.AppendUnderNextId | backend/user-auth-service/src/main/java/com/logistics/userauth/auth/jwt/application/usecase/InternalCreateRefreshTokenService.java:82 | appending a row keyed by the next id keeps the keys unique and below the new next id |
| TokenRotation.Validate | backend/user-auth-service/src/main/java/com/logistics/userauth/auth/jwt/application/usecase/RefreshAccessTokenService.java:118-126 | accepted iff not revoked and `now <= expiresAt` (so expiring now is accepted) |
| TokenRotation.ValidateMessages | backend/user-auth-service/src/main/java/com/logistics/userauth/auth/jwt/application/usecase/RefreshAccessTokenService.java:119-125 | revocation is checked (and reported) before expiry |
| TokenRotation.ValidateAntitone | backend/user-auth-service/src/main/java/com/logistics/userauth/auth/jwt/application/usecase/RefreshAccessTokenService.java:123-125 | valid later implies valid earlier |
| TokenRotation.NewSession | backend/user-auth-service/src/main/java/com/logistics/userauth/auth/jwt/application/usecase/InternalCreateRefreshTokenService.java:72-80 | the new token, not revoked, expiring `ttl` seconds after now |
| TokenRotation.Refresh | backend/user-auth-service/src/main/java/com/logistics/userauth/auth/jwt/application/usecase/RefreshAccessTokenService.java:75-109 | succeeds iff a session holds the token and it validates; a failure changes neither the table nor the key generator; a success issues the user's access token with the fresh refresh token and takes one key |
| TokenRotation.Revoke | backend/user-auth-service/src/main/java/com/logistics/userauth/auth/jwt/application/usecase/RevokeRefreshTokenService.java:52-56 | succeeds iff a session holds the token |
| TokenRotation.RewriteFoundRow | backend/user-auth-service/src/main/java/com/logistics/userauth/auth/jwt/application/usecase/RefreshAccessTokenService.java:83-84 | re-saving the found row under its id rewrites exactly that row and keeps keys unique |
| TokenRotation.AppendOtherToken | backend/user-auth-service/src/main/java/com/logistics/userauth/auth/jwt/application/usecase/InternalCreateRefreshTokenService.java:82 | appending a session with another token does not change lookups of the old one |
| TokenRotation.UnknownTokenChangesNothing | backend/user-auth-service/src/main/java/com/logistics/userauth/auth/jwt/application/usecase/RefreshAccessTokenService.java:76-77 | an unknown token fails with "Invalid refresh token" and nothing changes |
| TokenRotation.InvalidSessionChangesNothing | backend/user-auth-service/src/main/java/com/logistics/userauth/auth/jwt/application/usecase/RefreshAccessTokenService.java:79 | a revoked or expired session is rejected with the validation error and nothing changes |
| TokenRotation.ExpiringNowIsAccepted | backend/user-auth-service/src/main/java/com/logistics/userauth/auth/jwt/application/usecase/RefreshAccessTokenService.java:123 | a session with `expiresAt == now` is refreshed |
| TokenRotation.RefreshRotates | backend/user-auth-service/src/main/java/com/logistics/userauth/auth/jwt/application/usecase/RefreshAccessTokenService.java:81-108 | success revokes exactly the found row, appends one new session with the fresh token, and answers the new access token and that refresh token |
| TokenRotation.SecondRefreshFails | backend/user-auth-service/src/main/java/com/logistics/userauth/auth/jwt/application/usecase/RefreshAccessTokenService.java:83-84 | a second refresh with the same token is rejected as revoked |
| TokenRotation.RevokeUnknownFails | backend/user-auth-service/src/main/java/com/logistics/userauth/auth/jwt/application/usecase/RevokeRefreshTokenService.java:53 | revoking an unknown token fails |
| TokenRotation.RevokeSetsOnlyRevoked | backend/user-auth-service/src/main/java/com/logistics/userauth/auth/jwt/application/usecase/RevokeRefreshTokenService.java:54-55 | the found row gets `revoked` set and no other field changes; the rest of the table is kept |
| TokenRotation.RevokeIdempotent | backend/user-auth-service/src/main/java/com/logistics/userauth/auth/jwt/application/usecase/RevokeRefreshTokenService.java:54-55 | revoking twice is revoking once |
| TokenRotation.RevokedCannotRefresh | backend/user-auth-service/src/main/java/com/logistics/userauth/auth/jwt/application/usecase/RevokeRefreshTokenService.java:54-55 | after revoke the token cannot be refreshed |
| TokenRotation.CreateRefreshToken | backend/user-auth-service/src/main/java/com/logistics/userauth/auth/jwt/application/usecase/InternalCreateRefreshTokenService.java:67-100 | exactly one new session is appended under the next key; the fresh token is returned |
| TokenRotation.RefreshAccessToken | backend/user-auth-service/src/main/java/com/logistics/userauth/auth/jwt/application/usecase/RefreshAccessTokenService.java:75-109 | the repository calls leave the table, key generator and result of `Refresh` |
| TokenRotation.RevokeRefreshToken | backend/user-auth-service/src/main/java/com/logistics/userauth/auth/jwt/application/usecase/RevokeRefreshTokenService.java:52-56 | failure keeps the table; success leaves the table of `Revoke` |
| Users.FindById | backend/user-auth-service/src/main/java/com/logistics/userauth/user/application/usecase/UpdateUserPhoneService.java:25-26 | a user with that id from the table, none iff no row has it |
| Users.FindByPhone | backend/user-auth-service/src/main/java/com/logistics/userauth/user/application/usecase/EnsureUserByPhoneService.java:30-39 | a user with that phone, none iff no row has it |
| Users.FindByEmail | backend/user-auth-service/src/main/java/com/logistics/userauth/auth/jwt/application/usecase/CheckUserTypeService.java:92 | a user with that e-mail, none iff no row has it |
| Users.Inserted | backend/user-auth-service/src/main/java/com/logistics/userauth/user/application/usecase/EnsureUserByPhoneService.java:37 | the old table followed by the user under the new key |
| Users.RewriteById | backend/user-auth-service/src/main/java/com/logistics/userauth/user/application/usecase/UpdateUserPhoneService.java:41-44 | saving a found user rewrites exactly its row, is seen by the next lookup, and keeps keys unique |
| Users.RewriteKeepsOthers | backend/user-auth-service/src/main/java/com/logistics/userauth/user/application/usecase/UpdateUserPhoneService.java:44 | every other key's lookup is unchanged |
| Users.InsertKeepsWellFormed | backend/user-auth-service/src/main/java/com/logistics/userauth/user/application/usecase/EnsureUserByPhoneService.java:37 | the inserted user is found by its new key, and keys stay unique |
| Users.UserRepository.constructor | backend/user-auth-service/src/main/java/com/logistics/userauth/user/domain/User.java:37-61 | an empty table |
| Users.UserRepository.FindUserById | backend/user-auth-service/src/main/java/com/logistics/userauth/user/application/usecase/UpdateUserPhoneService.java:25 | answers `FindById` |
| Users.UserRepository.FindUserByPhone | backend/user-auth-service/src/main/java/com/logistics/userauth/user/application/usecase/EnsureUserByPhoneService.java:30 | answers `FindByPhone` |
| Users.UserRepository.FindUserByEmail | backend/user-auth-service/src/main/java/com/logistics/userauth/auth/jwt/application/usecase/CheckUserTypeService.java:92 | answers `FindByEmail` |
| Users.UserRepository.Save | backend/user-auth-service/src/main/java/com/logistics/userauth/user/application/usecase/EnsureUserByPhoneService.java:37 | a user with a key rewrites its row; one without is inserted under the next key; keys stay unique |
| UpdatePhone.UnknownUserIsNotFound | backend/user-auth-service/src/main/java/com/logistics/userauth/user/application/usecase/UpdateUserPhoneService.java:25-26 | an unknown user is a 404 and nothing changes |
| UpdatePhone.Update | backend/user-auth-service/src/main/java/com/logistics/userauth/user/application/usecase/UpdateUserPhoneService.java:24-46 | a failure changes neither the users nor the Redis store; a success answers the found user with the normalized phone |
| UpdatePhone.MissingPhoneIsBadRequest | backend/user-auth-service/src/main/java/com/logistics/userauth/user/application/usecase/UpdateUserPhoneService.java:28-31 | a null or blank normalized phone is a 400 and neither store changes |
| UpdatePhone.SamePhoneIsUnchanged | backend/user-auth-service/src/main/java/com/logistics/userauth/user/application/usecase/UpdateUserPhoneService.java:33-35 | the current phone answers the profile unchanged, flag or no flag |
| UpdatePhone.UnverifiedPhoneIsRefused | backend/user-auth-service/src/main/java/com/logistics/userauth/user/application/usecase/UpdateUserPhoneService.java:37-39 | a new phone without a flag is refused; the user and the flags are unchanged |
| UpdatePhone.VerifiedPhoneIsSavedAndConsumed | backend/user-auth-service/src/main/java/com/logistics/userauth/user/application/usecase/UpdateUserPhoneService.java:41-45 | a verified new phone is written into exactly the user's row; its flag is consumed; other flags and all codes are kept |
| UpdatePhone.FlagServesOneChange | backend/user-auth-service/src/main/java/com/logistics/userauth/user/application/usecase/UpdateUserPhoneService.java:37-42 | after one change, a second user asking for the same phone is refused |
| UpdatePhone.UpdateUserPhone | backend/user-auth-service/src/main/java/com/logistics/userauth/user/application/usecase/UpdateUserPhoneService.java:24-46 | the repository calls leave both stores and the result of `Update` |
| UpdatePassword.ChecksInOrder | backend/user-auth-service/src/main/java/com/logistics/userauth/user/application/usecase/UpdateUserPasswordService.java:28-41 | user (404), then old password blank (400), new password blank (400), old password wrong (401), in that order |
| UpdatePassword.Change | backend/user-auth-service/src/main/java/com/logistics/userauth/user/application/usecase/UpdateUserPasswordService.java:27-45 | a failure leaves the users unchanged |
| UpdatePassword.FailureKeepsHash | backend/user-auth-service/src/main/java/com/logistics/userauth/user/application/usecase/UpdateUserPasswordService.java:31-41 | no failing call changes the table |
| UpdatePassword.SuccessReplacesHash | backend/user-auth-service/src/main/java/com/logistics/userauth/user/application/usecase/UpdateUserPasswordService.java:43-44 | success sets the hash to `encode(newPassword)` in exactly the user's row, every other field kept |
| UpdatePassword.NewPasswordIsTheNextOld | backend/user-auth-service/src/main/java/com/logistics/userauth/user/application/usecase/UpdateUserPasswordService.java:39-44 | with a consistent encoder, the new password is accepted as the old one of the next change |
| UpdatePassword.UpdateUserPassword | backend/user-auth-service/src/main/java/com/logistics/userauth/user/application/usecase/UpdateUserPasswordService.java:27-45 | the repository calls leave the table and result of `Change` |
| EnsureUser.NewClient | backend/user-auth-service/src/main/java/com/logistics/userauth/user/application/usecase/EnsureUserByPhoneService.java:31-36 | the phone, role CLIENT, status ACTIVE, created now, no id |
| EnsureUser.Ensure | backend/user-auth-service/src/main/java/com/logistics/userauth/user/application/usecase/EnsureUserByPhoneService.java:29-40 | the answered id belongs to a user with that phone |
| EnsureUser.ExistingPhoneSavesNothing | backend/user-auth-service/src/main/java/com/logistics/userauth/user/application/usecase/EnsureUserByPhoneService.java:30-39 | a known phone answers its user's id and saves nothing |
| EnsureUser.MissingPhoneCreatesOneClient | backend/user-auth-service/src/main/java/com/logistics/userauth/user/application/usecase/EnsureUserByPhoneService.java:30-39 | an unknown phone adds exactly one ACTIVE CLIENT under the next key and answers that key |
| EnsureUser.EnsureIsIdempotent | backend/user-auth-service/src/main/java/com/logistics/userauth/user/application/usecase/EnsureUserByPhoneService.java:29-40 | a second call answers the same id and adds nobody |
| EnsureUser.EnsureUserByPhone | backend/user-auth-service/src/main/java/com/logistics/userauth/user/application/usecase/EnsureUserByPhoneService.java:29-40 | the repository calls leave the table, key generator and id of `Ensure` |
| CheckUserType.FindUserByIdentifier | backend/user-auth-service/src/main/java/com/logistics/userauth/auth/jwt/application/usecase/CheckUserTypeService.java:85-96 | any user found is a row of the table |
| Text.Trim | backend/user-auth-service/src/main/java/com/logistics/userauth/auth/jwt/application/usecase/CheckUserTypeService.java:92 | `String.trim`: the result is a contiguous slice of the input whose dropped prefix and suffix are all code points <= U+0020, and whose own first and last code points are above U+0020 |
| CheckUserType.Check | backend/user-auth-service/src/main/java/com/logistics/userauth/auth/jwt/application/usecase/CheckUserTypeService.java:60-76 | the user exists iff the identifier finds one; only an existing user can be a client |
| CheckUserType.UnknownIdentifier | backend/user-auth-service/src/main/java/com/logistics/userauth/auth/jwt/application/usecase/CheckUserTypeService.java:60-66 | an identifier matching nobody gives (userExists = false, isClient = false) |
| CheckUserType.FoundUser | backend/user-auth-service/src/main/java/com/logistics/userauth/auth/jwt/application/usecase/CheckUserTypeService.java:68-76 | a found user gives (true, role == CLIENT) |
| CheckUserType.PhoneFirst | backend/user-auth-service/src/main/java/com/logistics/userauth/auth/jwt/application/usecase/CheckUserTypeService.java:87-95 | a phone match wins; the trimmed, lower-cased e-mail is tried only when no phone matches |
| CheckUserType.EmailLookupIgnoresCaseAndBlanks | backend/user-auth-service/src/main/java/com/logistics/userauth/auth/jwt/application/usecase/CheckUserTypeService.java:92 | identifiers equal after trim and lower-casing get the same answer |
| CheckUserType.MaskIdentifier | backend/user-auth-service/src/main/java/com/logistics/userauth/auth/jwt/application/usecase/CheckUserTypeService.java:104-107 | null or shorter than 4 gives "***" |
| CheckUserType.EmailMask | backend/user-auth-service/src/main/java/com/logistics/userauth/auth/jwt/application/usecase/CheckUserTypeService.java:108-111 | an e-mail becomes its first character, "***", and everything from the first '@' |
| CheckUserType.PhoneMaskHides | backend/user-auth-service/src/main/java/com/logistics/userauth/auth/jwt/application/usecase/CheckUserTypeService.java:112-116 | a phone becomes its first min(6, len−4) characters, "***" and the last two; at least two characters stay hidden; 11 characters for len ≥ 10 |
| CheckUserType.PhoneMaskExample | backend/user-auth-service/src/main/java/com/logistics/userauth/auth/jwt/application/usecase/CheckUserTypeService.java:114-115 | "+79991234567" becomes "+79991***67" |
| CheckUserType.EmailMaskExample | backend/user-auth-service/src/main/java/com/logistics/userauth/auth/jwt/application/usecase/CheckUserTypeService.java:109-111 | "user@example.com" becomes "u***@example.com" |
| SmsCodeValidator.NullOrBlankIsInvalid | backend/user-auth-service/src/main/java/com/logistics/userauth/notification/sms/adapter/in/validation/SmsCodeValidator.java:57-59 | null and blank values are invalid for every length |
| SmsCodeValidator.IsValid | backend/user-auth-service/src/main/java/com/logistics/userauth/notification/sms/adapter/in/validation/SmsCodeValidator.java:52-61 | no ensures of its own: see `NullOrBlankIsInvalid`, `ValidIffDigits` and `WrongShapeIsInvalid` |
| Text.IsBlank | backend/user-auth-service/src/main/java/com/logistics/userauth/notification/sms/adapter/in/validation/SmsCodeValidator.java:58 | no ensures of its own: `String.isBlank`, every code point Java whitespace; see `SmsCodeValidator.NullOrBlankIsInvalid` and `UpdatePhone.MissingPhoneIsBadRequest` |
| SmsCodeValidator.ValidIffDigits | backend/user-auth-service/src/main/java/com/logistics/userauth/notification/sms/adapter/in/validation/SmsCodeValidator.java:52-61 | valid iff exactly `codeLength` decimal digits and not blank |
| SmsCodeValidator.GeneratedCodesPass | backend/user-auth-service/src/main/java/com/logistics/userauth/notification/sms/adapter/in/validation/SmsCodeValidator.java:53-61 | every generated code of a positive length passes the validator of that length |
| SmsCodeValidator.WrongShapeIsInvalid | backend/user-auth-service/src/main/java/com/logistics/userauth/notification/sms/adapter/in/validation/SmsCodeValidator.java:53-61 | a value of another length, or with a non-digit, is refused |
| PasswordValidator.RegexIsStrong | backend/shared-library/src/main/java/com/logistics/shared/validation/PasswordValidator.java:40-41 | the regex accepts exactly the strings of at least eight characters with no line terminator and with a lower-case letter, an upper-case letter, a digit and a non-word non-space character |
| PasswordValidator.IsValid | backend/shared-library/src/main/java/com/logistics/shared/validation/PasswordValidator.java:44-49 | no ensures of its own: see `NullIsInvalid` and `ValidIsStrong` |
| PasswordValidator.MatchesRegex | backend/shared-library/src/main/java/com/logistics/shared/validation/PasswordValidator.java:40-48 | no ensures of its own: `value.matches(REGEX)`, the four lookaheads and `.{8,}` anchored at both ends; `RegexIsStrong` proves it equal to `Strong` |
| PasswordValidator.Strong | backend/shared-library/src/main/java/com/logistics/shared/validation/PasswordValidator.java:40-41 | no ensures of its own: the independent plain-words rule that `RegexIsStrong` relates to the regex |
| PasswordValidator.NullIsInvalid | backend/shared-library/src/main/java/com/logistics/shared/validation/PasswordValidator.java:45-47 | null is invalid |
| PasswordValidator.ValidIsStrong | backend/shared-library/src/main/java/com/logistics/shared/validation/PasswordValidator.java:44-49 | a valid password is strong in the sense above |
| PasswordValidator.AcceptsExample | backend/shared-library/src/main/java/com/logistics/shared/validation/PasswordValidator.java:28 | "Password123!" is valid |
| PasswordValidator.RefusesExamples | backend/shared-library/src/main/java/com/logistics/shared/validation/PasswordValidator.java:29-31 | "Pass1!", "Password123" and "password123!" are invalid |
| PasswordValidator.AppendKeepsValid | backend/shared-library/src/main/java/com/logistics/shared/validation/PasswordValidator.java:40-41 | appending characters with no line terminator keeps a password valid |
| PasswordValidator.LineTerminatorBreaks | backend/shared-library/src/main/java/com/logistics/shared/validation/PasswordValidator.java:40-41 | a line terminator anywhere makes the value invalid |
| ErrorHandler.JsonText | backend/user-auth-service/src/main/java/com/logistics/userauth/common/web/GlobalExceptionHandler.java:83 | a null message becomes JSON null, a string a JSON string |
| ErrorHandler.CodeAndMessage | backend/user-auth-service/src/main/java/com/logistics/userauth/common/web/GlobalExceptionHandler.java:168-170 | no ensures of its own: an `error` and a `message` member; see `ValidationBodyFields` and `CodeDeterminesStatus` |
| ErrorHandler.ConflictMessage | backend/user-auth-service/src/main/java/com/logistics/userauth/common/web/GlobalExceptionHandler.java:113-120 | always one of the three conflict texts |
| ErrorHandler.ConflictMessagesDistinct | backend/user-auth-service/src/main/java/com/logistics/userauth/common/web/GlobalExceptionHandler.java:113-118 | the three conflict texts differ |
| ErrorHandler.ConflictMessageCases | backend/user-auth-service/src/main/java/com/logistics/userauth/common/web/GlobalExceptionHandler.java:113-122 | "email" in the message gives the e-mail text; else "phone" the phone text; else, or for null, the generic text; each an iff |
| ErrorHandler.FieldErrorMap | backend/user-auth-service/src/main/java/com/logistics/userauth/common/web/GlobalExceptionHandler.java:134-137 | a field is a key iff some error names it |
| ErrorHandler.LastErrorWins | backend/user-auth-service/src/main/java/com/logistics/userauth/common/web/GlobalExceptionHandler.java:135-137 | a field's value is the message of its last error |
| ErrorHandler.BuildFieldErrors | backend/user-auth-service/src/main/java/com/logistics/userauth/common/web/GlobalExceptionHandler.java:134-137 | the loop builds exactly `FieldErrorMap(errors)` |
| ErrorHandler.FieldsJson | backend/user-auth-service/src/main/java/com/logistics/userauth/common/web/GlobalExceptionHandler.java:141 | a JSON object with exactly the map's keys |
| ErrorHandler.Handle | backend/user-auth-service/src/main/java/com/logistics/userauth/common/web/GlobalExceptionHandler.java:62-85 | an audit record is written iff the exception is AuthenticationFailed |
| ErrorHandler.StatusOfCode | backend/user-auth-service/src/main/java/com/logistics/userauth/common/web/GlobalExceptionHandler.java:62-228 | no ensures of its own: the status each code is answered with; see `CodeDeterminesStatus` |
| ErrorHandler.CodeDeterminesStatus | backend/user-auth-service/src/main/java/com/logistics/userauth/common/web/GlobalExceptionHandler.java:62-228 | every body has a string `error` code whose status is the response's; `message` iff not a validation failure, `fields` iff one |
| ErrorHandler.ClientFacingCodes | backend/user-auth-service/src/main/java/com/logistics/userauth/common/web/GlobalExceptionHandler.java:152-228 | RATE_LIMIT_EXCEEDED is 429, INVALID_REFRESH_TOKEN 401, PHONE_NOT_VERIFIED 400, each with the exception's message |
| ErrorHandler.ValidationBodyFields | backend/user-auth-service/src/main/java/com/logistics/userauth/common/web/GlobalExceptionHandler.java:132-144 | the validation body has error VALIDATION_FAILED and maps each field to the message of its last error |
| WireContract.Delivered | backend/user-auth-service/src/main/java/com/logistics/userauth/common/web/GlobalExceptionHandler.java:62-228 | the handler's response reaches the client as a parsed JSON reply with its status |
| WireContract.AsApiError | frontend/src/shared/http/http.js:26-29 | an HttpError reaches the form's handler with its message and payload; other failures have no payload |
| WireContract.HandledIsHttpError | frontend/src/shared/http/http.js:25-31 | every handled server error is an HttpError on the client, with the server's status and body |
| WireContract.RateLimitBodyMissedByForm | frontend/src/features/user/components/ChangePhoneSection.jsx:91-94 | the server's rate-limit body is not recognised by the form as written, and is recognised by the corrected test |
| WireContract.ValidationBodyRecognised | frontend/src/features/user/components/ChangePhoneSection.jsx:51-55 | the server's validation body is recognised by the form |
| WireContract.UnauthorizedTriggersRefresh | frontend/src/shared/http/http.js:55 | a 401 from the handler is what triggers the client's refresh |
| WireContract.ServerMessageIsShown | frontend/src/features/user/components/ChangePhoneSection.jsx:100 | a non-empty server message of these errors is what the form shows |
| Decimal.Round2 | backend/shared-library/src/main/java/com/logistics/shared/pricing_rule/PricingRuleService.java:82 | `setScale(2, HALF_UP)`: the result is a whole number of hundredths within half a hundredth of the input, an exact half going away from zero |
| Decimal.Cents | backend/shared-library/src/main/java/com/logistics/shared/pricing_rule/PricingRuleService.java:82 | no ensures of its own: see `CentsIsNearest`, `CentsOdd`, `CentsMonotone` and `CentsOfCents` |
| Decimal.CentsIsNearest | backend/shared-library/src/main/java/com/logistics/shared/pricing_rule/PricingRuleService.java:82 | the nearest cent, ties away from zero |
| Decimal.CentsOdd | backend/shared-library/src/main/java/com/logistics/shared/pricing_rule/PricingRuleService.java:82 | rounding is symmetric about zero |
| Decimal.CentsMonotone | backend/shared-library/src/main/java/com/logistics/shared/pricing_rule/PricingRuleService.java:82 | rounding is monotone |
| Decimal.CentsOfCents | backend/shared-library/src/main/java/com/logistics/shared/pricing_rule/PricingRuleService.java:82 | an amount already in cents is kept |
| Decimal.Round2Idempotent | backend/shared-library/src/main/java/com/logistics/shared/pricing_rule/PricingRuleService.java:82 | rounding twice is rounding once |
| Decimal.Round2Monotone | backend/shared-library/src/main/java/com/logistics/shared/pricing_rule/PricingRuleService.java:82 | rounded amounts keep their order |
| PricingRules.ActiveIsClosedPeriod | backend/shared-library/src/main/java/com/logistics/shared/pricing_rule/domain/PricingRule.java:49-54 | active iff from ≤ now ≤ to, a null bound open; `now == from` and `now == to` are active |
| PricingRules.WeightRangeIsClosed | backend/shared-library/src/main/java/com/logistics/shared/pricing_rule/domain/PricingRule.java:56-60 | suitable iff min ≤ weight ≤ max, a null bound open |
| PricingRules.ActivePeriodIsConvex | backend/shared-library/src/main/java/com/logistics/shared/pricing_rule/domain/PricingRule.java:49-54 | active at two instants implies active between them |
| PricingRules.WeightRangeIsConvex | backend/shared-library/src/main/java/com/logistics/shared/pricing_rule/domain/PricingRule.java:56-60 | two suitable weights enclose only suitable weights |
| PricingRules.IsActive | backend/shared-library/src/main/java/com/logistics/shared/pricing_rule/domain/PricingRule.java:49-54 | no ensures of its own: see `ActiveIsClosedPeriod` and `ActivePeriodIsConvex` |
| PricingRules.IsWeightSuitable | backend/shared-library/src/main/java/com/logistics/shared/pricing_rule/domain/PricingRule.java:56-60 | no ensures of its own: see `WeightRangeIsClosed` and `WeightRangeIsConvex` |
| PricingRules.IsSuitable | backend/shared-library/src/main/java/com/logistics/shared/pricing_rule/domain/PricingRule.java:62-66 | no ensures of its own: see `Pricing.SuitableRuleIsActive` |
| Pricing.RuleNotFoundMessage | backend/shared-library/src/main/java/com/logistics/shared/pricing_rule/PricingRuleService.java:63-64 | the fixed prefix followed by the decimal id |
| Pricing.FindRule | backend/shared-library/src/main/java/com/logistics/shared/pricing_rule/PricingRuleService.java:62 | a rule with that id, none iff there is none |
| Pricing.Tariff | backend/shared-library/src/main/java/com/logistics/shared/pricing_rule/PricingRuleService.java:79-81 | no ensures of its own: see `PriceWithinHalfCent`, `PriceMonotoneInWeight` and `TariffExample` |
| Pricing.CalculatePrice | backend/shared-library/src/main/java/com/logistics/shared/pricing_rule/PricingRuleService.java:61-83 | succeeds iff the rule exists, is active and takes the weight; `CalculatePriceCases` gives each refusal |
| Pricing.CalculatePriceOf | backend/shared-library/src/main/java/com/logistics/shared/pricing_rule/PricingRuleService.java:61-83 | with both arguments given, the price of `CalculatePrice`; a null id fails |
| Pricing.CalculatePriceCases | backend/shared-library/src/main/java/com/logistics/shared/pricing_rule/PricingRuleService.java:61-83 | not found, inactive, and weight out of range each give their own message, iff that is the first failing check; success iff all three pass, and then the price is base + perKg·weight rounded HALF_UP to cents |
| Pricing.NotFoundDiffers | backend/shared-library/src/main/java/com/logistics/shared/pricing_rule/PricingRuleService.java:63-76 | the not-found message is never one of the other two |
| Pricing.PriceWithinHalfCent | backend/shared-library/src/main/java/com/logistics/shared/pricing_rule/PricingRuleService.java:79-82 | the price is within half a cent of the exact tariff |
| Pricing.PriceMonotoneInWeight | backend/shared-library/src/main/java/com/logistics/shared/pricing_rule/PricingRuleService.java:79-82 | with a non-negative rate a heavier parcel never costs less |
| Pricing.TariffExample | backend/shared-library/src/test/java/com/logistics/shared/pricing_rule/PricingRuleServiceTest.java:72-80 | 200 + 50·7.5 = 575.00 |
| Pricing.HeavyParcelRefused | backend/shared-library/src/main/java/com/logistics/shared/pricing_rule/PricingRuleService.java:73-77 | 15 kg for a rule up to 10 kg is refused with the weight message |
| Pricing.FindSuitableRule | backend/shared-library/src/main/java/com/logistics/shared/pricing_rule/PricingRuleService.java:92-99 | the first rule in order that is suitable, none iff no rule is |
| Pricing.GetActiveRules | backend/shared-library/src/main/java/com/logistics/shared/pricing_rule/PricingRuleService.java:106-111 | exactly the active rules, each as many times as the table holds it, none of the others |
| Pricing.ActiveRulesKeepOrder | backend/shared-library/src/main/java/com/logistics/shared/pricing_rule/PricingRuleService.java:106-111 | the active rules are an order-preserving sublist of all rules |
| Pricing.SuitableRuleIsActive | backend/shared-library/src/main/java/com/logistics/shared/pricing_rule/domain/PricingRule.java:62-66 | a suitable rule is among the active rules |
| Dimensions.Make | backend/core-business-service/src/main/java/com/logistics/corebusiness/waybill/domain/Dimensions.java:27-47 | no ensures of its own: see `MakeAcceptsExactlyValid`, `MakeReportsFirstBadSide` and `UnsetIsValid` |
| Dimensions.MakeAcceptsExactlyValid | backend/core-business-service/src/main/java/com/logistics/corebusiness/waybill/domain/Dimensions.java:27-47 | construction succeeds iff every given side is positive and the sides are all null or all non-null, and then keeps them |
| Dimensions.MakeReportsFirstBadSide | backend/core-business-service/src/main/java/com/logistics/corebusiness/waybill/domain/Dimensions.java:28-36 | a non-positive side is reported, the first one in length, width, height order |
| Dimensions.UnsetIsValid | backend/core-business-service/src/main/java/com/logistics/corebusiness/waybill/domain/Dimensions.java:38-46 | three nulls are accepted |
| Dimensions.Volume | backend/core-business-service/src/main/java/com/logistics/corebusiness/waybill/domain/Dimensions.java:54-61 | null iff unset, otherwise non-negative |
| Dimensions.VolumeIsRoundedProduct | backend/core-business-service/src/main/java/com/logistics/corebusiness/waybill/domain/Dimensions.java:58-60 | within half a hundredth of l·w·h |
| Dimensions.VolumetricWeight | backend/core-business-service/src/main/java/com/logistics/corebusiness/waybill/domain/Dimensions.java:74-80 | null when unset; otherwise fails iff the divisor is zero |
| Dimensions.VolumetricWeightAntitone | backend/core-business-service/src/main/java/com/logistics/corebusiness/waybill/domain/Dimensions.java:74-80 | a larger positive divisor never gives a larger weight |
| Dimensions.ExceedsMaxDimension | backend/core-business-service/src/main/java/com/logistics/corebusiness/waybill/domain/Dimensions.java:101-108 | no ensures of its own: see `ExceedsIffSomeSideLonger` and `ExceedsAntitone` |
| Dimensions.ExceedsIffSomeSideLonger | backend/core-business-service/src/main/java/com/logistics/corebusiness/waybill/domain/Dimensions.java:101-108 | false when unset, else true iff some side is strictly longer than the maximum |
| Dimensions.ExceedsAntitone | backend/core-business-service/src/main/java/com/logistics/corebusiness/waybill/domain/Dimensions.java:101-108 | exceeding a maximum implies exceeding every smaller one |
| Drafts.FindById | backend/core-business-service/src/main/java/com/logistics/corebusiness/waybill/application/usecase/UpdateDraftService.java:42-43 | a draft with that id, none iff there is none |
| Drafts.FindByBarcode | backend/core-business-service/src/main/java/com/logistics/corebusiness/waybill/application/usecase/GetDraftService.java:46-47 | a draft with that barcode, none iff there is none |
| Drafts.FindByCreator | backend/core-business-service/src/main/java/com/logistics/corebusiness/waybill/application/usecase/GetUserDraftListService.java:44 | exactly the drafts created by that user |
| Drafts.RewriteDraft | backend/core-business-service/src/main/java/com/logistics/corebusiness/waybill/application/usecase/UpdateDraftService.java:47 | saving a found draft rewrites exactly its row, is seen by the next lookup and keeps ids unique |
| Drafts.DraftRepository.constructor | backend/core-business-service/src/main/java/com/logistics/corebusiness/waybill/domain/WaybillDraft.java:39-50 | an empty table |
| Drafts.DraftRepository.FindDraftById | backend/core-business-service/src/main/java/com/logistics/corebusiness/waybill/application/usecase/UpdateDraftService.java:42 | answers `FindById` |
| Drafts.DraftRepository.FindDraftByBarcode | backend/core-business-service/src/main/java/com/logistics/corebusiness/waybill/application/usecase/GetDraftService.java:46 | answers `FindByBarcode` |
| Drafts.DraftRepository.FindDraftsByCreator | backend/core-business-service/src/main/java/com/logistics/corebusiness/waybill/application/usecase/GetUserDraftListService.java:44 | answers `FindByCreator` |
| Drafts.DraftRepository.Save | backend/core-business-service/src/main/java/com/logistics/corebusiness/waybill/application/usecase/UpdateDraftService.java:47 | the draft's row is rewritten, found by the next lookup; ids stay unique |
| DraftMapper.ToDimensionsDto | backend/core-business-service/src/main/java/com/logistics/corebusiness/waybill/adapter/in/DraftControllerMapper.java:62-71 | null iff null |
| DraftMapper.ToDimensions | backend/core-business-service/src/main/java/com/logistics/corebusiness/waybill/adapter/in/DraftControllerMapper.java:73-78 | null gives null |
| DraftMapper.DimensionsRoundTrip | backend/core-business-service/src/main/java/com/logistics/corebusiness/waybill/adapter/in/DraftControllerMapper.java:62-78 | `toDimensions(toDimensionsDto(d)) == d` for all valid or null dimensions |
| DraftMapper.DtoRoundTrip | backend/core-business-service/src/main/java/com/logistics/corebusiness/waybill/adapter/in/DraftControllerMapper.java:62-78 | an accepted triple comes back unchanged; a triple is refused iff it breaks the construction invariant |
| DraftMapper.ToResponse | backend/core-business-service/src/main/java/com/logistics/corebusiness/waybill/adapter/in/DraftControllerMapper.java:30-42 | id, barcode, recipient, address, weight, price, status and creation time copied unchanged; dimensions through `toDimensionsDto` |
| DraftMapper.ToDetailedResponse | backend/core-business-service/src/main/java/com/logistics/corebusiness/waybill/adapter/in/DraftControllerMapper.java:44-58 | additionally copies creator, sender and pricing rule |
| DraftMapper.DetailedResponseIsFaithful | backend/core-business-service/src/main/java/com/logistics/corebusiness/waybill/adapter/in/DraftControllerMapper.java:44-58 | the detailed response is injective: it loses no field of the draft |
| DraftMapper.ClientResponseHidesStaffFields | backend/core-business-service/src/main/java/com/logistics/corebusiness/waybill/adapter/in/DraftControllerMapper.java:30-58 | the client response is the detailed one minus creator, sender and rule, and does not depend on them |
| UpdateDraft.Patched | backend/core-business-service/src/main/java/com/logistics/corebusiness/waybill/application/usecase/UpdateDraftService.java:54-75 | no ensures of its own: see `UpdatedFields` |
| UpdateDraft.Override | backend/core-business-service/src/main/java/com/logistics/corebusiness/waybill/application/usecase/UpdateDraftService.java:54-75 | `if (x != null) draft.setX(x)`: a given value replaces the field, an absent one keeps it |
| UpdateDraft.Updated | backend/core-business-service/src/main/java/com/logistics/corebusiness/waybill/application/usecase/UpdateDraftService.java:51-82 | it can fail only when a price recalculation is due |
| UpdateDraft.Update | backend/core-business-service/src/main/java/com/logistics/corebusiness/waybill/application/usecase/UpdateDraftService.java:41-49 | a failure leaves the draft table unchanged |
| UpdateDraft.UpdatedFields | backend/core-business-service/src/main/java/com/logistics/corebusiness/waybill/application/usecase/UpdateDraftService.java:54-75 | each given field replaces the draft's, each null one keeps it; id, barcode, creator, sender, status and creation time never change |
| UpdateDraft.RecipientOnlyKeepsPrice | backend/core-business-service/src/main/java/com/logistics/corebusiness/waybill/application/usecase/UpdateDraftService.java:54-60 | a recipient- or address-only update never fails, keeps the price and consults neither rules nor clock |
| UpdateDraft.RecalculationUsesUpdatedRuleAndWeight | backend/core-business-service/src/main/java/com/logistics/corebusiness/waybill/application/usecase/UpdateDraftService.java:62-81 | a weight, dimensions or rule change prices the draft by its updated rule and weight, rounded to cents |
| UpdateDraft.PriceFailureAborts | backend/core-business-service/src/main/java/com/logistics/corebusiness/waybill/application/usecase/UpdateDraftService.java:77-81 | the update fails iff the recalculation does |
| UpdateDraft.CallerAndStatusAreNotChecked | backend/core-business-service/src/main/java/com/logistics/corebusiness/waybill/application/usecase/UpdateDraftService.java:41-49 | the outcome depends neither on the caller nor on the draft's status |
| UpdateDraft.UnknownDraftIsNotSaved | backend/core-business-service/src/main/java/com/logistics/corebusiness/waybill/application/usecase/UpdateDraftService.java:42-43 | an unknown draft is reported and nothing is saved |
| UpdateDraft.SuccessfulUpdateIsSaved | backend/core-business-service/src/main/java/com/logistics/corebusiness/waybill/application/usecase/UpdateDraftService.java:45-48 | a failure saves nothing; a success rewrites exactly the draft's row, keeps ids unique and answers the saved draft's response |
| UpdateDraft.UpdateFields | backend/core-business-service/src/main/java/com/logistics/corebusiness/waybill/application/usecase/UpdateDraftService.java:51-82 | the field-by-field updates and the recalculation flag produce `Updated(d, cmd)` |
| UpdateDraft.UpdateDraft | backend/core-business-service/src/main/java/com/logistics/corebusiness/waybill/application/usecase/UpdateDraftService.java:41-49 | the repository calls leave the table and result of `Update` |
| DraftList.InsertNewest | backend/core-business-service/src/main/java/com/logistics/corebusiness/waybill/application/usecase/GetUserDraftListService.java:52-53 | one element longer |
| DraftList.SortNewestFirst | backend/core-business-service/src/main/java/com/logistics/corebusiness/waybill/application/usecase/GetUserDraftListService.java:52-53 | the same length |
| DraftList.ConsNewestFirst | backend/core-business-service/src/main/java/com/logistics/corebusiness/waybill/application/usecase/GetUserDraftListService.java:52-53 | a draft not older than a sorted list can head it |
| DraftList.InsertKeepsBound | backend/core-business-service/src/main/java/com/logistics/corebusiness/waybill/application/usecase/GetUserDraftListService.java:52-53 | insertion keeps an upper bound on creation times |
| DraftList.InsertKeepsOrder | backend/core-business-service/src/main/java/com/logistics/corebusiness/waybill/application/usecase/GetUserDraftListService.java:52-53 | insertion into a newest-first list keeps it newest-first |
| DraftList.InsertKeepsElements | backend/core-business-service/src/main/java/com/logistics/corebusiness/waybill/application/usecase/GetUserDraftListService.java:52-53 | insertion adds exactly the draft |
| DraftList.SortIsOrderedPermutation | backend/core-business-service/src/main/java/com/logistics/corebusiness/waybill/application/usecase/GetUserDraftListService.java:52-54 | the result is sorted by creation time, newest first, and a permutation of the input |
| DraftList.InsertIsStable | backend/core-business-service/src/main/java/com/logistics/corebusiness/waybill/application/usecase/GetUserDraftListService.java:52-53 | insertion puts the draft before the drafts with the same creation time |
| DraftList.SortIsStable | backend/core-business-service/src/main/java/com/logistics/corebusiness/waybill/application/usecase/GetUserDraftListService.java:52-53 | drafts with equal creation times keep their input order |
| DraftList.SortKeepsMembers | backend/core-business-service/src/main/java/com/logistics/corebusiness/waybill/application/usecase/GetUserDraftListService.java:52-54 | sorting neither adds nor drops a draft |
| DraftList.Selected | backend/core-business-service/src/main/java/com/logistics/corebusiness/waybill/application/usecase/GetUserDraftListService.java:44-49 | exactly the user's drafts, and only those in the status when a status is given |
| DraftList.FindDrafts | backend/core-business-service/src/main/java/com/logistics/corebusiness/waybill/application/usecase/GetUserDraftListService.java:43-55 | no ensures of its own: see `FindDraftsContents` and `FindDraftsIsPermutation` |
| DraftList.FindDraftsContents | backend/core-business-service/src/main/java/com/logistics/corebusiness/waybill/application/usecase/GetUserDraftListService.java:43-55 | newest-first, containing exactly the user's drafts in the requested status (all when null) |
| DraftList.FindDraftsIsPermutation | backend/core-business-service/src/main/java/com/logistics/corebusiness/waybill/application/usecase/GetUserDraftListService.java:44-54 | the output is a permutation of the filtered input |
| DraftList.Get | backend/core-business-service/src/main/java/com/logistics/corebusiness/waybill/application/usecase/GetUserDraftListService.java:35-41 | the response, in order, of every draft `findDrafts` returns |
| GetDraft.FindDraft | backend/core-business-service/src/main/java/com/logistics/corebusiness/waybill/application/usecase/GetDraftService.java:41-51 | no ensures of its own: see `IdTakesPrecedence`, `BarcodeOnlyWithoutId` and `NeitherIsValidationError` |
| GetDraft.IdTakesPrecedence | backend/core-business-service/src/main/java/com/logistics/corebusiness/waybill/application/usecase/GetDraftService.java:42-44 | with an id the barcode is ignored; the answer is a draft with that id, or not-found by id iff none |
| GetDraft.BarcodeOnlyWithoutId | backend/core-business-service/src/main/java/com/logistics/corebusiness/waybill/application/usecase/GetDraftService.java:45-47 | with no id, a draft with that barcode, or not-found by barcode iff none |
| GetDraft.NeitherIsValidationError | backend/core-business-service/src/main/java/com/logistics/corebusiness/waybill/application/usecase/GetDraftService.java:48-50 | neither given: a validation error, whatever the table holds |
| GetDraft.CreatorIsNotChecked | backend/core-business-service/src/main/java/com/logistics/corebusiness/waybill/application/usecase/GetDraftService.java:41-51 | the answer does not depend on the caller |
| GetDraft.Get | backend/core-business-service/src/main/java/com/logistics/corebusiness/waybill/application/usecase/GetDraftService.java:36-39 | succeeds iff the lookup does, with that draft's response; otherwise its error |
| Facilities.IsActive | backend/shared-library/src/main/java/com/logistics/shared/company_facilities/FacilityService.java:97-100 | no ensures of its own: see `ClosingDayIsInactive` and `ActiveIsAntitone` |
| Facilities.GetById | backend/shared-library/src/main/java/com/logistics/shared/company_facilities/FacilityService.java:71-74 | a facility with that id, none iff there is none |
| Facilities.GetByType | backend/shared-library/src/main/java/com/logistics/shared/company_facilities/FacilityService.java:58-63 | exactly the facilities of that type, each with its multiplicity in the list |
| Facilities.GetActiveByType | backend/shared-library/src/main/java/com/logistics/shared/company_facilities/FacilityService.java:84-89 | exactly the active facilities of that type, each with its multiplicity in the list |
| Facilities.ClosingDayIsInactive | backend/shared-library/src/main/java/com/logistics/shared/company_facilities/FacilityService.java:97-100 | closing today or earlier is inactive, closing tomorrow is active |
| Facilities.ActiveIsAntitone | backend/shared-library/src/main/java/com/logistics/shared/company_facilities/FacilityService.java:97-100 | active at a date implies active at every earlier date |
| Facilities.ActiveByTypeIsSublist | backend/shared-library/src/main/java/com/logistics/shared/company_facilities/FacilityService.java:84-89 | the active list is an order-preserving sublist of the by-type list, hence no longer |
| Facilities.ActiveListShrinks | backend/shared-library/src/main/java/com/logistics/shared/company_facilities/FacilityService.java:84-100 | a facility active today was in the active list of every earlier date |

## Left out

- I/O and platform behaviour:
  - Redis key expiry (TTLs are only recorded with each entry).
  - The `setInterval` timers, React rendering and the unmount flag beyond the config effect.
  - The JSON parser and serializer; reply bodies come already classified as empty, parsed or unparsable.
- Audit records:
  - `CreateAuditLogService` calls (refresh, session creation, password change) are logging side effects and are not modelled.
  - The failed-login audit is kept only as the record `ErrorHandler.Handle` returns.
- Files not part of this model: `tokenStorage.js`, `authApi`, `smsApi`, `userApi`, `PhoneUtils`, `VerificationCode.isExpired`, the `Draft` domain class and its repository port, `DeliveryZone`, `Facility`, `DraftNotFoundException`.
  - The model takes the store to hold what it was last given.
  - Expiry is `now > expiresAt`.
  - The delivery zones are those the tests use: CITY, INTERCITY, REGIONAL.
- `TokenRotation.CreateRefreshToken`: assumes the session's user exists. The `User not found` RuntimeException of InternalCreateRefreshTokenService.java:68 is not modelled, because a session always references an existing user.
- `Dimensions.format`, `FacilityService.getAll`, `CreateDraftService` and `DeleteDraftService` are outside the named core.
- Numbers:
  - `BigDecimal` is an exact rational, so the scale of intermediate products is not tracked; only the final `setScale(2, HALF_UP)` is.
  - `Dimensions.Volume` is specified to within half a hundredth rather than by its digits.
  - A `divide` that does not terminate cannot happen at scale 2; only division by zero is an error.
- Text and exception messages:
  - `toLowerCase` and the case-insensitive regex flag are modelled for ASCII letters and the Cyrillic "сек" only.
  - The dimension exceptions carry the side and value, not their formatted messages.
- `null` handling:
  - `null` `basePrice`/`pricePerKg` and a `null` `createdAt` in the draft sort are not modelled: the persistence layer never produces them.
  - A `null` weight reaches `isWeightSuitable` only after the rule checks; the model then reports a null-argument error.
- The SMS code length comes from configuration and is taken to be a natural number; a negative `code-length` would make the pattern invalid, and is not modelled.
- Each service call reads the clock once, although the source calls `now()` again in places (the refresh audit, `createdAt`).
- `UpdateDraft.UpdateFields` mutates a copy that it returns, not the repository's object in place; aliasing between the two is therefore not modelled.
- `PasswordValidator.AppendKeepsValid`: states validity only for suffixes without line terminators, because `.` in the Java regex does not match them (`PasswordValidator.LineTerminatorBreaks`).
- `ChangePhone.ShownMessage`, `ChangePhone.RateLimitSeconds` and `HttpPipeline.ErrorMessage`: only a string-valued `message` or `error` is read. A truthy non-string value (a number, an object) would be shown or parsed through JavaScript's `String` conversion; the model skips it as if it were absent.
- `ChangePhone.ParseSecondsFromMessage`: the seconds are an unbounded natural. A run of more than 308 digits is `Infinity` in JavaScript, which `Number.isFinite` (ChangePhoneSection.jsx:67) then refuses; that case is not modelled.
- `ChangePhone.ChangePhoneSection.Left`: the form's `now` is refreshed only by the 250 ms interval, so just after a cooldown starts it may still hold an older reading and show more seconds than were requested; `ChangePhone.CooldownShownFromStaleClock` bounds this from below, and the timing of the interval is not modelled.
- `ChangePhone.ChangePhoneSection.FinishVerify`: what the parent does inside `onPhoneUpdated` is outside this component; the model keeps only whether the callback was passed, the profile it receives and the error it may throw, which is caught like any other.
- The client-side ordering of concurrent handlers is fixed by splitting each handler at its `await` (`Begin...`/`Finish...`); interleavings of two handlers are not explored.

## Findings

| source | as written | input that shows it | evidently intended | confidence | as-written member | corrected member |
|---|---|---|---|---|---|---|
| frontend/src/features/user/components/ChangePhoneSection.jsx:91-94 | the send and resend handlers resynchronise the cooldown only when `payload.error === "RATELIMITEXCEEDED"` | the server's 429 body `{"error": "RATE_LIMIT_EXCEEDED", "message": ...}` (GlobalExceptionHandler.java:166-172); `ChangePhone.RateLimitCodeMissed` and `WireContract.RateLimitBodyMissedByForm` show the as-written test refusing it and the corrected one accepting it; `ChangePhone.ServerRateLimitIgnored` shows the handlers as written (`RateLimitResync`, `ResyncedUntil`) keeping the old deadline where the corrected branch (`ResyncedUntilIntended`) starts the server's n-second cooldown | recognise the server's code `RATE_LIMIT_EXCEEDED`, keeping the other spelling as `isValidationError` does | not executed | ChangePhone.RateLimitAsWritten | ChangePhone.IsRateLimited |
