/** Checking a one-time code (AbstractVerifyService.java, `verifyCode`):
    a missing code, an expired code and a wrong code are rejected, a wrong
    code costs one attempt and the last allowed attempt deletes the code; the
    right code is consumed and the id is marked verified. */
module VerifyCodeService {
  import opened Wrappers
  import opened Text
  import opened VerificationStore

  datatype VerifyFailure = InvalidVerificationCode(message: string)

  const NotFoundMessage: string := "\U{041A}\U{043E}\U{0434} \U{043D}\U{0435} \U{043D}\U{0430}\U{0439}\U{0434}\U{0435}\U{043D}. \U{0417}\U{0430}\U{043F}\U{0440}\U{043E}\U{0441}\U{0438}\U{0442}\U{0435} \U{043D}\U{043E}\U{0432}\U{044B}\U{0439} \U{043A}\U{043E}\U{0434}."
  const ExpiredMessage: string := "\U{0421}\U{0440}\U{043E}\U{043A} \U{0434}\U{0435}\U{0439}\U{0441}\U{0442}\U{0432}\U{0438}\U{044F} \U{043A}\U{043E}\U{0434}\U{0430} \U{0438}\U{0441}\U{0442}\U{0435}\U{043A}. \U{0417}\U{0430}\U{043F}\U{0440}\U{043E}\U{0441}\U{0438}\U{0442}\U{0435} \U{043D}\U{043E}\U{0432}\U{044B}\U{0439} \U{043A}\U{043E}\U{0434}."
  const AttemptsExceededMessage: string := "\U{041D}\U{0435}\U{0432}\U{0435}\U{0440}\U{043D}\U{044B}\U{0439} \U{043A}\U{043E}\U{0434}. \U{041F}\U{0440}\U{0435}\U{0432}\U{044B}\U{0448}\U{0435}\U{043D}\U{043E} \U{043A}\U{043E}\U{043B}\U{0438}\U{0447}\U{0435}\U{0441}\U{0442}\U{0432}\U{043E} \U{043F}\U{043E}\U{043F}\U{044B}\U{0442}\U{043E}\U{043A}."
  const RemainingPrefix: string := "\U{041D}\U{0435}\U{0432}\U{0435}\U{0440}\U{043D}\U{044B}\U{0439} \U{043A}\U{043E}\U{0434}. \U{041E}\U{0441}\U{0442}\U{0430}\U{043B}\U{043E}\U{0441}\U{044C} \U{043F}\U{043E}\U{043F}\U{044B}\U{0442}\U{043E}\U{043A}: "

  /** `String.format("... %d", remaining)`. */
  function RemainingMessage(remaining: nat): (m: string)
    ensures IsPrefix(RemainingPrefix, m) && m[|RemainingPrefix|..] == NatToString(remaining)
  {
    RemainingPrefix + NatToString(remaining)
  }

  /** `VerificationCode.isExpired` is not part of this model: a code is taken
      to be expired once the clock is strictly past `expiresAt`. */
  predicate IsExpired(c: VerificationCode, now: int) {
    now > c.expiresAt
  }

  /** The store after a call and what the call returned. */
  datatype Outcome = Outcome(store: Store, result: Result<Unit, VerifyFailure>)

  /** The configuration a concrete channel supplies. */
  datatype Config = Config(maxAttempts: int, verifiedTtlMinutes: int)

  /** `verifyCode` on the normalized id, at clock `now`; `remaining` is the
      TTL Redis reports while the attempt counter is re-saved, `defaultTtl`
      the repository's fallback. */
  function Verify(s: Store, p: Prefixes, defaultTtl: int, cfg: Config, id: string, code: string, now: int, remaining: Option<nat>): (o: Outcome)
    ensures o.result.Success? <==>
              Find(s, p, id).Some? && !IsExpired(Find(s, p, id).value, now) && Find(s, p, id).value.code == code
    ensures Find(s, p, id).None? ==> o.store == s
  {
    match Find(s, p, id)
    case None => Outcome(s, Failure(InvalidVerificationCode(NotFoundMessage)))
    case Some(stored) =>
      if IsExpired(stored, now) then
        Outcome(WithoutCode(s, p, id), Failure(InvalidVerificationCode(ExpiredMessage)))
      else if stored.code != code then
        var newAttempts := stored.attempts + 1;
        var s1 := Incremented(s, p, id, remaining, defaultTtl);
        if newAttempts >= cfg.maxAttempts then
          Outcome(WithoutCode(s1, p, id), Failure(InvalidVerificationCode(AttemptsExceededMessage)))
        else
          Outcome(s1, Failure(InvalidVerificationCode(RemainingMessage(cfg.maxAttempts - newAttempts))))
      else
        Outcome(MarkedVerified(WithoutCode(s, p, id), p, id, cfg.verifiedTtlMinutes), Success(Unit))
  }

  lemma MissingCodeChangesNothing(s: Store, p: Prefixes, defaultTtl: int, cfg: Config, id: string, code: string, now: int, remaining: Option<nat>)
    requires Find(s, p, id).None?
    ensures Verify(s, p, defaultTtl, cfg, id, code, now, remaining) == Outcome(s, Failure(InvalidVerificationCode(NotFoundMessage)))
  {
  }

  lemma ExpiredCodeDeleted(s: Store, p: Prefixes, defaultTtl: int, cfg: Config, id: string, code: string, now: int, remaining: Option<nat>)
    requires Find(s, p, id).Some? && IsExpired(Find(s, p, id).value, now)
    ensures var o := Verify(s, p, defaultTtl, cfg, id, code, now, remaining);
            o.result == Failure(InvalidVerificationCode(ExpiredMessage)) && Find(o.store, p, id).None?
  {
  }

  /** A wrong code before the limit costs exactly one attempt and reports a
      positive number of attempts left. */
  lemma MismatchCostsOneAttempt(s: Store, p: Prefixes, defaultTtl: int, cfg: Config, id: string, code: string, now: int, remaining: Option<nat>)
    requires WellKeyed(s, p)
    requires Find(s, p, id).Some? && !IsExpired(Find(s, p, id).value, now) && Find(s, p, id).value.code != code
    requires Find(s, p, id).value.attempts + 1 < cfg.maxAttempts
    ensures var c, o := Find(s, p, id).value, Verify(s, p, defaultTtl, cfg, id, code, now, remaining);
            var left := cfg.maxAttempts - (c.attempts + 1);
            left > 0
            && o.result == Failure(InvalidVerificationCode(RemainingMessage(left)))
            && Find(o.store, p, id).Some? && Find(o.store, p, id).value == c.(attempts := c.attempts + 1)
  {
    IncrementPresentAddsOne(s, p, id, remaining, defaultTtl);
  }

  /** The wrong code that reaches the limit deletes the stored code. */
  lemma MismatchAtLimitDeletes(s: Store, p: Prefixes, defaultTtl: int, cfg: Config, id: string, code: string, now: int, remaining: Option<nat>)
    requires Find(s, p, id).Some? && !IsExpired(Find(s, p, id).value, now) && Find(s, p, id).value.code != code
    requires Find(s, p, id).value.attempts + 1 >= cfg.maxAttempts
    ensures var o := Verify(s, p, defaultTtl, cfg, id, code, now, remaining);
            o.result == Failure(InvalidVerificationCode(AttemptsExceededMessage)) && Find(o.store, p, id).None?
  {
  }

  /** The right code is consumed once, and the id becomes verified. */
  lemma {:induction false} MatchConsumesAndVerifies(s: Store, p: Prefixes, defaultTtl: int, cfg: Config, id: string, code: string, now: int, remaining: Option<nat>)
    requires Diverge(p)
    requires Find(s, p, id).Some? && !IsExpired(Find(s, p, id).value, now) && Find(s, p, id).value.code == code
    ensures var o := Verify(s, p, defaultTtl, cfg, id, code, now, remaining);
            o.result == Success(Unit) && Find(o.store, p, id).None? && Verified(o.store, p, id)
            && Verify(o.store, p, defaultTtl, cfg, id, code, now, remaining).result.Failure?
  {
    var s1 := WithoutCode(s, p, id);
    CodesAndFlagsIndependent(s1, p, Find(s, p, id).value, cfg.verifiedTtlMinutes, id, id);
  }

  /** No failing call changes any "verified" flag; in particular none marks
      an id verified. */
  lemma {:induction false} FailureNeverVerifies(s: Store, p: Prefixes, defaultTtl: int, cfg: Config, id: string, code: string, now: int, remaining: Option<nat>, other: string)
    requires Diverge(p)
    ensures var o := Verify(s, p, defaultTtl, cfg, id, code, now, remaining);
            o.result.Failure? ==> Verified(o.store, p, other) == Verified(s, p, other)
  {
    var c := Find(s, p, id);
    if c.Some? && !(c.value.code == code && !IsExpired(c.value, now)) {
      var s1 := Incremented(s, p, id, remaining, defaultTtl);
      IncrementKeepsFlags(s, p, id, other, remaining, defaultTtl);
      CodesAndFlagsIndependent(s, p, c.value, 0, id, other);
      CodesAndFlagsIndependent(s1, p, c.value, 0, id, other);
    }
  }

  /** `verifyCode` against the repository; `normalizeId` is the channel's
      normalisation. */
  method VerifyCode(repo: VerificationRepository, normalizeId: string -> string, cfg: Config,
                    id: string, code: string, now: int, remainingTtl: Option<nat>)
    returns (result: Result<Unit, VerifyFailure>)
    modifies repo
    ensures var o := Verify(old(repo.redis), repo.prefixes, repo.defaultTtlMinutes, cfg, normalizeId(id), code, now, remainingTtl);
            repo.redis == o.store && result == o.result
  {
    var normalizedId := normalizeId(id);
    var storedCode := repo.FindById(normalizedId);
    if storedCode.None? {
      return Failure(InvalidVerificationCode(NotFoundMessage));
    }
    var stored := storedCode.value;
    if IsExpired(stored, now) {
      repo.DeleteVerificationCode(normalizedId);
      return Failure(InvalidVerificationCode(ExpiredMessage));
    }
    if stored.code != code {
      var newAttempts := stored.attempts + 1;
      repo.IncrementAttempts(normalizedId, remainingTtl);
      if newAttempts >= cfg.maxAttempts {
        repo.DeleteVerificationCode(normalizedId);
        return Failure(InvalidVerificationCode(AttemptsExceededMessage));
      }
      var remainingAttempts := cfg.maxAttempts - newAttempts;
      return Failure(InvalidVerificationCode(RemainingMessage(remainingAttempts)));
    }
    repo.DeleteVerificationCode(normalizedId);
    repo.MarkAsVerified(normalizedId, cfg.verifiedTtlMinutes);
    return Success(Unit);
  }
}
