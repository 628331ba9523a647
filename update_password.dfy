/** Changing a password (UpdateUserPasswordService.java): four checks in a
    fixed order, then the stored hash is replaced by the encoding of the new
    password. The PasswordEncoder is the pair of parameters `encode` and
    `matches`; `None` stands for a null field of the command. */
module UpdatePassword {
  import opened Wrappers
  import opened Text
  import opened Seqs
  import opened Users

  const OldPasswordRequiredReason: string := "\U{0412}\U{0432}\U{0435}\U{0434}\U{0438}\U{0442}\U{0435} \U{0441}\U{0442}\U{0430}\U{0440}\U{044B}\U{0439} \U{043F}\U{0430}\U{0440}\U{043E}\U{043B}\U{044C}"
  const NewPasswordRequiredReason: string := "\U{0412}\U{0432}\U{0435}\U{0434}\U{0438}\U{0442}\U{0435} \U{043D}\U{043E}\U{0432}\U{044B}\U{0439} \U{043F}\U{0430}\U{0440}\U{043E}\U{043B}\U{044C}"
  const WrongOldPasswordMessage: string := "\U{041D}\U{0435}\U{0432}\U{0435}\U{0440}\U{043D}\U{044B}\U{0439} \U{0441}\U{0442}\U{0430}\U{0440}\U{044B}\U{0439} \U{043F}\U{0430}\U{0440}\U{043E}\U{043B}\U{044C}"

  datatype PasswordOutcome = PasswordOutcome(users: seq<User>, result: Result<Unit, UserServiceError>)

  predicate Missing(password: Option<string>) {
    password.None? || IsBlank(password.value)
  }

  /** `update` on the user table `us`. */
  function Change(us: seq<User>, encode: string -> string, matches: (string, Option<string>) -> bool,
                  userId: nat, oldPassword: Option<string>, newPassword: Option<string>): (o: PasswordOutcome)
    ensures o.result.Failure? ==> o.users == us
  {
    match FindById(us, userId)
    case None => PasswordOutcome(us, Failure(ResponseStatus(404, UserNotFoundReason)))
    case Some(user) =>
      if Missing(oldPassword) then PasswordOutcome(us, Failure(ResponseStatus(400, OldPasswordRequiredReason)))
      else if Missing(newPassword) then PasswordOutcome(us, Failure(ResponseStatus(400, NewPasswordRequiredReason)))
      else if !matches(oldPassword.value, user.passwordHash) then PasswordOutcome(us, Failure(BadCredentials(WrongOldPasswordMessage)))
      else PasswordOutcome(Stored(us, user.(passwordHash := Some(encode(newPassword.value)))), Success(Unit))
  }

  /** The checks run in the order user, old password, new password, old
      password match: each failure is reported only when every earlier
      check passed. */
  lemma ChecksInOrder(us: seq<User>, encode: string -> string, matches: (string, Option<string>) -> bool,
                      userId: nat, oldPassword: Option<string>, newPassword: Option<string>)
    ensures var r := Change(us, encode, matches, userId, oldPassword, newPassword).result;
            (r == Failure(ResponseStatus(404, UserNotFoundReason)) <==> FindById(us, userId).None?)
            && (r == Failure(ResponseStatus(400, OldPasswordRequiredReason))
                <==> FindById(us, userId).Some? && Missing(oldPassword))
            && (r == Failure(ResponseStatus(400, NewPasswordRequiredReason))
                <==> FindById(us, userId).Some? && !Missing(oldPassword) && Missing(newPassword))
            && (r == Failure(BadCredentials(WrongOldPasswordMessage))
                <==> FindById(us, userId).Some? && !Missing(oldPassword) && !Missing(newPassword)
                     && !matches(oldPassword.value, FindById(us, userId).value.passwordHash))
            && (r.Success?
                <==> FindById(us, userId).Some? && !Missing(oldPassword) && !Missing(newPassword)
                     && matches(oldPassword.value, FindById(us, userId).value.passwordHash))
  {
  }

  /** No failing call touches the table. */
  lemma FailureKeepsHash(us: seq<User>, encode: string -> string, matches: (string, Option<string>) -> bool,
                         userId: nat, oldPassword: Option<string>, newPassword: Option<string>)
    requires Change(us, encode, matches, userId, oldPassword, newPassword).result.Failure?
    ensures Change(us, encode, matches, userId, oldPassword, newPassword).users == us
  {
  }

  /** A successful call replaces the user's hash by `encode(newPassword)`,
      keeps the user's other fields and every other user as they were, and
      keeps the keys well formed. */
  lemma {:induction false} SuccessReplacesHash(us: seq<User>, nextId: nat, encode: string -> string,
                                              matches: (string, Option<string>) -> bool,
                                              userId: nat, oldPassword: Option<string>, newPassword: Option<string>, other: nat)
    requires WellFormed(us, nextId)
    requires Change(us, encode, matches, userId, oldPassword, newPassword).result.Success?
    requires other != userId
    ensures var user, after := FindById(us, userId).value, Change(us, encode, matches, userId, oldPassword, newPassword).users;
            FindById(after, userId) == Some(user.(passwordHash := Some(encode(newPassword.value))))
            && FindById(after, other) == FindById(us, other)
            && |after| == |us| && WellFormed(after, nextId)
  {
    var user := FindById(us, userId).value;
    var u := user.(passwordHash := Some(encode(newPassword.value)));
    RewriteById(us, nextId, u);
    RewriteKeepsOthers(us, nextId, u, other);
  }

  /** With an encoder whose `matches` accepts every encoding it produced,
      the new password is the one the next change must present. */
  lemma {:induction false} NewPasswordIsTheNextOld(us: seq<User>, nextId: nat, encode: string -> string,
                                                  matches: (string, Option<string>) -> bool,
                                                  userId: nat, oldPassword: Option<string>, newPassword: Option<string>,
                                                  third: Option<string>)
    requires WellFormed(us, nextId)
    requires forall raw :: matches(raw, Some(encode(raw)))
    requires Change(us, encode, matches, userId, oldPassword, newPassword).result.Success?
    requires !Missing(third)
    ensures var after := Change(us, encode, matches, userId, oldPassword, newPassword).users;
            Change(after, encode, matches, userId, newPassword, third).result.Success?
  {
    var user := FindById(us, userId).value;
    RewriteById(us, nextId, user.(passwordHash := Some(encode(newPassword.value))));
    assert matches(newPassword.value, Some(encode(newPassword.value)));
  }

  /** `update` against the user repository. */
  method UpdateUserPassword(users: UserRepository, encode: string -> string, matches: (string, Option<string>) -> bool,
                            userId: nat, oldPassword: Option<string>, newPassword: Option<string>)
    returns (result: Result<Unit, UserServiceError>)
    requires users.Valid()
    modifies users
    ensures var o := Change(old(users.users), encode, matches, userId, oldPassword, newPassword);
            users.users == o.users && result == o.result
    ensures users.nextId == old(users.nextId) && users.Valid()
  {
    var found := users.FindUserById(userId);
    if found.None? {
      return Failure(ResponseStatus(404, UserNotFoundReason));
    }
    var user := found.value;
    if oldPassword.None? || IsBlank(oldPassword.value) {
      return Failure(ResponseStatus(400, OldPasswordRequiredReason));
    }
    if newPassword.None? || IsBlank(newPassword.value) {
      return Failure(ResponseStatus(400, NewPasswordRequiredReason));
    }
    if !matches(oldPassword.value, user.passwordHash) {
      return Failure(BadCredentials(WrongOldPasswordMessage));
    }
    user := user.(passwordHash := Some(encode(newPassword.value)));
    var saved := users.Save(user);
    return Success(Unit);
  }
}
