/** Issuing a one-time code (SendAbstractVerificationCodeService.java and its
    SMS subclass): a code of `codeLength` random decimal digits is stored
    under the normalized id with an expiry `ttl` minutes ahead, and only then
    handed to the delivery port.

    `SecureRandom.nextInt(10)` is the parameter `draw`: `draw(i)` is the
    i-th digit it returns. The delivery port is the parameter `send`. */
module SendCodeService {
  import opened Wrappers
  import opened Text
  import opened VerificationStore

  type Digit = d: nat | d < 10

  const SmsCodeLength: nat := 6
  const SmsCodeTtlMinutes: nat := 5
  const DeliveryFailedMessage: string := "\U{041D}\U{0435} \U{0443}\U{0434}\U{0430}\U{043B}\U{043E}\U{0441}\U{044C} \U{043E}\U{0442}\U{043F}\U{0440}\U{0430}\U{0432}\U{0438}\U{0442}\U{044C} \U{043A}\U{043E}\U{0434}. \U{041F}\U{043E}\U{043F}\U{0440}\U{043E}\U{0431}\U{0443}\U{0439}\U{0442}\U{0435} \U{043F}\U{043E}\U{0437}\U{0436}\U{0435} \U{0438}\U{043B}\U{0438} \U{043E}\U{0431}\U{0440}\U{0430}\U{0442}\U{0438}\U{0442}\U{0435}\U{0441}\U{044C} \U{0432} \U{043F}\U{043E}\U{0434}\U{0434}\U{0435}\U{0440}\U{0436}\U{043A}\U{0443}."

  /** The delivery exception of the channel (SmsDeliveryException for SMS). */
  datatype DeliveryFailure = DeliveryFailure(message: string)

  /** The code built from the first `n` draws. */
  function SecureCode(n: nat, draw: nat -> Digit): (code: string)
    ensures |code| == n
    ensures forall k :: 0 <= k < n ==> code[k] == DigitChar(draw(k))
  {
    if n == 0 then [] else SecureCode(n - 1, draw) + [DigitChar(draw(n - 1))]
  }

  /** Every character of a generated code is a decimal digit. */
  lemma SecureCodeIsDigits(n: nat, draw: nat -> Digit)
    ensures forall k :: 0 <= k < |SecureCode(n, draw)| ==> IsAsciiDigit(SecureCode(n, draw)[k])
  {
  }

  /** `generateSecureCode`: appends one draw per iteration. */
  method GenerateSecureCode(codeLength: nat, draw: nat -> Digit) returns (code: string)
    ensures code == SecureCode(codeLength, draw)
    ensures |code| == codeLength && forall k :: 0 <= k < |code| ==> IsAsciiDigit(code[k])
  {
    code := "";
    var i := 0;
    while i < codeLength
      invariant 0 <= i <= codeLength
      invariant |code| == i
      invariant forall k :: 0 <= k < i ==> code[k] == DigitChar(draw(k))
    {
      code := code + [DigitChar(draw(i))];
      i := i + 1;
    }
    assert code == SecureCode(codeLength, draw);
  }

  /** The record `createVerificationCode` builds: attempts start at zero.
      Times are in seconds; `plusMinutes(ttl)` adds `60 * ttl`. */
  function NewCode(id: string, code: string, now: int, ttlMinutes: nat): (c: VerificationCode)
    ensures c.id == id && c.code == code && c.attempts == 0 && c.expiresAt == now + 60 * ttlMinutes
  {
    VerificationCode(id, code, now + 60 * ttlMinutes, 0)
  }

  /** `sendCode`. The code is saved before the send, so a failed delivery
      still leaves it stored and verifiable. */
  method SendCode(repo: VerificationRepository, normalizeId: string -> string,
                  codeLength: nat, ttlMinutes: nat, draw: nat -> Digit,
                  send: (string, string) -> bool, id: string, now: int)
    returns (result: Result<Unit, DeliveryFailure>)
    modifies repo
    ensures var stored := NewCode(normalizeId(id), SecureCode(codeLength, draw), now, ttlMinutes);
            repo.redis == Saved(old(repo.redis), repo.prefixes, stored, ttlMinutes)
            && Find(repo.redis, repo.prefixes, normalizeId(id)) == Some(stored)
            && (result.Failure? <==> !send(normalizeId(id), stored.code))
            && (result.Failure? ==> result.error == DeliveryFailure(DeliveryFailedMessage))
  {
    var normalizedId := normalizeId(id);
    var code := GenerateSecureCode(codeLength, draw);
    var expiresAt := now + 60 * ttlMinutes;
    var verificationCode := VerificationCode(normalizedId, code, expiresAt, 0);
    repo.Save(verificationCode, ttlMinutes);
    SaveThenFind(old(repo.redis), repo.prefixes, verificationCode, ttlMinutes);
    var isSent := send(normalizedId, code);
    if !isSent {
      return Failure(DeliveryFailure(DeliveryFailedMessage));
    }
    return Success(Unit);
  }
}
