/** Changing a user's phone (UpdateUserPhoneService.java): allowed only for
    a number whose SMS "verified" flag is set, and the flag is consumed by
    the change. `PhoneUtils.normalize` is the parameter `normalize`; `None`
    stands for its `null`. */
module UpdatePhone {
  import opened Wrappers
  import opened Text
  import opened Seqs
  import opened Users
  import opened VerificationStore

  const PhoneRequiredReason: string := "Phone is required"
  const PhoneNotVerifiedMessage: string := "Phone is not verified"

  /** Both stores after a call, and what the call returned (the user whose
      profile is answered). */
  datatype PhoneOutcome = PhoneOutcome(users: seq<User>, redis: Store, result: Result<User, UserServiceError>)

  /** `update` on the user table `us` and the SMS store `s` with prefixes `p`. */
  function Update(us: seq<User>, s: Store, p: Prefixes, normalize: string -> Option<string>,
                  userId: nat, phone: string): (o: PhoneOutcome)
    ensures o.result.Failure? ==> o.users == us && o.redis == s
    ensures o.result.Success? ==>
              FindById(us, userId).Some? && normalize(phone).Some?
              && o.result.value == FindById(us, userId).value.(phone := normalize(phone))
  {
    match FindById(us, userId)
    case None => PhoneOutcome(us, s, Failure(ResponseStatus(404, UserNotFoundReason)))
    case Some(user) =>
      var normalized := normalize(phone);
      if normalized.None? || IsBlank(normalized.value) then
        PhoneOutcome(us, s, Failure(ResponseStatus(400, PhoneRequiredReason)))
      else if user.phone == Some(normalized.value) then
        PhoneOutcome(us, s, Success(user))
      else if !Verified(s, p, normalized.value) then
        PhoneOutcome(us, s, Failure(PhoneNotVerified(PhoneNotVerifiedMessage)))
      else
        var updated := user.(phone := Some(normalized.value));
        PhoneOutcome(Stored(us, updated), WithoutStatus(s, p, normalized.value), Success(updated))
  }

  lemma UnknownUserIsNotFound(us: seq<User>, s: Store, p: Prefixes, normalize: string -> Option<string>, userId: nat, phone: string)
    requires forall i :: 0 <= i < |us| ==> us[i].id != Some(userId)
    ensures Update(us, s, p, normalize, userId, phone) == PhoneOutcome(us, s, Failure(ResponseStatus(404, UserNotFoundReason)))
  {
  }

  /** A number that normalizes to nothing or to blank is a 400, and neither
      store is touched. */
  lemma MissingPhoneIsBadRequest(us: seq<User>, s: Store, p: Prefixes, normalize: string -> Option<string>, userId: nat, phone: string)
    requires FindById(us, userId).Some?
    requires normalize(phone).None? || IsBlank(normalize(phone).value)
    ensures Update(us, s, p, normalize, userId, phone) == PhoneOutcome(us, s, Failure(ResponseStatus(400, PhoneRequiredReason)))
  {
  }

  /** Re-submitting the current number answers the profile as it is, whether
      or not the number carries a flag. */
  lemma SamePhoneIsUnchanged(us: seq<User>, s: Store, p: Prefixes, normalize: string -> Option<string>, userId: nat, phone: string)
    requires FindById(us, userId).Some? && normalize(phone).Some? && !IsBlank(normalize(phone).value)
    requires FindById(us, userId).value.phone == normalize(phone)
    ensures Update(us, s, p, normalize, userId, phone) == PhoneOutcome(us, s, Success(FindById(us, userId).value))
  {
  }

  /** A new number without a flag is refused; neither the user nor any flag
      changes. */
  lemma UnverifiedPhoneIsRefused(us: seq<User>, s: Store, p: Prefixes, normalize: string -> Option<string>, userId: nat, phone: string)
    requires FindById(us, userId).Some? && normalize(phone).Some? && !IsBlank(normalize(phone).value)
    requires FindById(us, userId).value.phone != normalize(phone)
    requires !Verified(s, p, normalize(phone).value)
    ensures Update(us, s, p, normalize, userId, phone) == PhoneOutcome(us, s, Failure(PhoneNotVerified(PhoneNotVerifiedMessage)))
  {
  }

  /** A verified new number is written into exactly the user's row, every
      other field kept; its flag is consumed, and stored codes and the flags
      of other numbers stay as they were. */
  lemma {:induction false} VerifiedPhoneIsSavedAndConsumed(us: seq<User>, nextId: nat, s: Store, p: Prefixes,
                                                          normalize: string -> Option<string>, userId: nat, phone: string,
                                                          otherId: string, otherPhone: string)
    requires WellFormed(us, nextId) && Diverge(p)
    requires FindById(us, userId).Some? && normalize(phone).Some? && !IsBlank(normalize(phone).value)
    requires FindById(us, userId).value.phone != normalize(phone)
    requires Verified(s, p, normalize(phone).value)
    requires otherPhone != normalize(phone).value
    ensures var user, x := FindById(us, userId).value, normalize(phone).value;
            var o := Update(us, s, p, normalize, userId, phone);
            var i := FirstIndex(us, WithId(userId)).value;
            o.result == Success(user.(phone := Some(x)))
            && o.users == us[i := user.(phone := Some(x))]
            && FindById(o.users, userId) == Some(user.(phone := Some(x)))
            && WellFormed(o.users, nextId)
            && !Verified(o.redis, p, x)
            && Verified(o.redis, p, otherPhone) == Verified(s, p, otherPhone)
            && Find(o.redis, p, otherId) == Find(s, p, otherId)
  {
    var user, x := FindById(us, userId).value, normalize(phone).value;
    RewriteById(us, nextId, user.(phone := Some(x)));
    MarkThenVerifiedThenDelete(s, p, x, 0);
    CodesAndFlagsIndependent(s, p, VerificationCode(otherId, "", 0, 0), 0, otherId, x);
    KeysInjective(p, otherPhone, x);
  }

  /** A flag serves one change only: once it has been consumed, a second
      user asking for the same number is refused. */
  lemma {:induction false} FlagServesOneChange(us: seq<User>, nextId: nat, s: Store, p: Prefixes,
                                              normalize: string -> Option<string>, userId: nat, phone: string, secondId: nat)
    requires WellFormed(us, nextId) && Diverge(p)
    requires FindById(us, userId).Some? && normalize(phone).Some? && !IsBlank(normalize(phone).value)
    requires FindById(us, userId).value.phone != normalize(phone)
    requires Verified(s, p, normalize(phone).value)
    requires secondId != userId && FindById(us, secondId).Some? && FindById(us, secondId).value.phone != normalize(phone)
    ensures var o := Update(us, s, p, normalize, userId, phone);
            Update(o.users, o.redis, p, normalize, secondId, phone).result == Failure(PhoneNotVerified(PhoneNotVerifiedMessage))
  {
    var user, x := FindById(us, userId).value, normalize(phone).value;
    VerifiedPhoneIsSavedAndConsumed(us, nextId, s, p, normalize, userId, phone, "", "");
    RewriteKeepsOthers(us, nextId, user.(phone := Some(x)), secondId);
  }

  /** `update` against the user repository and the SMS repository. */
  method UpdateUserPhone(users: UserRepository, sms: VerificationRepository, normalize: string -> Option<string>,
                         userId: nat, phone: string) returns (result: Result<User, UserServiceError>)
    requires users.Valid()
    modifies users, sms
    ensures var o := Update(old(users.users), old(sms.redis), sms.prefixes, normalize, userId, phone);
            users.users == o.users && sms.redis == o.redis && result == o.result
    ensures users.nextId == old(users.nextId) && users.Valid()
  {
    var found := users.FindUserById(userId);
    if found.None? {
      return Failure(ResponseStatus(404, UserNotFoundReason));
    }
    var user := found.value;
    var normalizedPhone := normalize(phone);
    if normalizedPhone.None? || IsBlank(normalizedPhone.value) {
      return Failure(ResponseStatus(400, PhoneRequiredReason));
    }
    if user.phone == Some(normalizedPhone.value) {
      return Success(user);
    }
    var verified := sms.IsVerified(normalizedPhone.value);
    if !verified {
      return Failure(PhoneNotVerified(PhoneNotVerifiedMessage));
    }
    user := user.(phone := Some(normalizedPhone.value));
    sms.DeleteVerificationStatus(normalizedPhone.value);
    var saved := users.Save(user);
    return Success(saved);
  }
}
