/** Refresh-token rotation and revocation (RefreshAccessTokenService.java,
    InternalCreateRefreshTokenService.java, RevokeRefreshTokenService.java).

    A refresh finds the session by its token, rejects it when revoked or
    expired, revokes it, and opens a new session with a new token. Revoke
    marks the session revoked. The clock, the token generator and the UUID
    of the new refresh token are parameters. */
module TokenRotation {
  import opened Wrappers
  import opened Seqs
  import opened UserSessions

  datatype InvalidRefreshToken = InvalidRefreshToken(message: string)

  const UnknownTokenMessage: string := "Invalid refresh token"
  const RevokedMessage: string := "Refresh token is revoked"
  const ExpiredMessage: string := "Refresh token is expired"

  /** `RefreshAccessTokenCommand`. */
  datatype RefreshCommand = RefreshCommand(refreshToken: string, ipAddress: Option<string>, userAgent: Option<string>)

  /** `JwtAuthenticationResponse`. */
  datatype TokenPair = TokenPair(accessToken: string, refreshToken: string)

  /** `validate`: the revocation check comes first; `isBefore` is strict, so
      a session expiring exactly now is still accepted. */
  function Validate(s: UserSession, now: int): (r: Result<Unit, InvalidRefreshToken>)
    ensures r.Success? <==> !s.revoked && now <= s.expiresAt
  {
    if s.revoked then Failure(InvalidRefreshToken(RevokedMessage))
    else if s.expiresAt < now then Failure(InvalidRefreshToken(ExpiredMessage))
    else Success(Unit)
  }

  /** Which message a rejected session gets. */
  lemma ValidateMessages(s: UserSession, now: int)
    ensures s.revoked ==> Validate(s, now) == Failure(InvalidRefreshToken(RevokedMessage))
    ensures !s.revoked && s.expiresAt < now ==> Validate(s, now) == Failure(InvalidRefreshToken(ExpiredMessage))
  {
  }

  /** A session valid at some time was valid at every earlier time. */
  lemma ValidateAntitone(s: UserSession, earlier: int, later: int)
    requires earlier <= later && Validate(s, later).Success?
    ensures Validate(s, earlier).Success?
  {
  }

  /** The session `create` builds; the database replaces `id`. */
  function NewSession(id: nat, userId: nat, token: string, now: int, ttlSeconds: int,
                      ipAddress: Option<string>, userAgent: Option<string>): (s: UserSession)
    ensures s.refreshToken == token && !s.revoked && s.expiresAt == now + ttlSeconds
  {
    UserSession(id, userId, token, now, now + ttlSeconds, ipAddress, userAgent, false)
  }

  /** The sessions, the key generator and what a call returned. */
  datatype Rotation = Rotation(sessions: seq<UserSession>, nextId: nat, result: Result<TokenPair, InvalidRefreshToken>)

  /** `refresh` against the table `ss`; `accessFor(user)` is the access
      token the generator issues, `freshToken` the new UUID. */
  function Refresh(ss: seq<UserSession>, nextId: nat, cmd: RefreshCommand, now: int, ttlSeconds: int,
                   accessFor: nat -> string, freshToken: string): (r: Rotation)
    ensures r.result.Success? <==>
              FindByToken(ss, cmd.refreshToken).Some? && Validate(FindByToken(ss, cmd.refreshToken).value, now).Success?
    ensures r.result.Failure? ==> r.sessions == ss && r.nextId == nextId
    ensures r.result.Success? ==>
              r.nextId == nextId + 1 && r.result.value == TokenPair(accessFor(FindByToken(ss, cmd.refreshToken).value.userId), freshToken)
  {
    match FindByToken(ss, cmd.refreshToken)
    case None => Rotation(ss, nextId, Failure(InvalidRefreshToken(UnknownTokenMessage)))
    case Some(s) =>
      match Validate(s, now)
      case Failure(e) => Rotation(ss, nextId, Failure(e))
      case Success(_) =>
        var created := NewSession(nextId, s.userId, freshToken, now, ttlSeconds, cmd.ipAddress, cmd.userAgent);
        Rotation(Stored(ss, s.(revoked := true)) + [created], nextId + 1,
                 Success(TokenPair(accessFor(s.userId), freshToken)))
  }

  /** `revoke`: the table after the call, or the error. */
  function Revoke(ss: seq<UserSession>, token: string): (r: Result<seq<UserSession>, InvalidRefreshToken>)
    ensures r.Success? <==> FindByToken(ss, token).Some?
  {
    match FindByToken(ss, token)
    case None => Failure(InvalidRefreshToken(UnknownTokenMessage))
    case Some(s) => Success(Stored(ss, s.(revoked := true)))
  }

  // Lemmas about the table: the row a lookup finds keeps its place.

  /** Re-saving the row found by token under its own key rewrites that row
      only, and a lookup by the same token then finds the rewritten row. */
  lemma RewriteFoundRow(ss: seq<UserSession>, nextId: nat, token: string, s': UserSession)
    requires WellFormed(ss, nextId)
    requires FirstIndex(ss, HasToken(token)).Some?
    requires var i := FirstIndex(ss, HasToken(token)).value;
             s'.id == ss[i].id && s'.refreshToken == token
    ensures var i := FirstIndex(ss, HasToken(token)).value;
            Stored(ss, s') == ss[i := s']
            && FirstIndex(ss[i := s'], HasToken(token)) == Some(i)
            && WellFormed(ss[i := s'], nextId)
  {
    var i := FirstIndex(ss, HasToken(token)).value;
    IdLocatesRow(ss, nextId, i);
    assert HasToken(token)(ss[i := s'][i]);
  }

  /** The appended session carries a different token, so lookups by the old
      token are unaffected. */
  lemma AppendOtherToken(ss: seq<UserSession>, token: string, s: UserSession)
    requires s.refreshToken != token
    ensures FirstIndex(ss + [s], HasToken(token)) == FirstIndex(ss, HasToken(token))
  {
    var a, b := FirstIndex(ss + [s], HasToken(token)), FirstIndex(ss, HasToken(token));
    assert forall j :: 0 <= j < |ss| ==> (ss + [s])[j] == ss[j];
    assert !HasToken(token)((ss + [s])[|ss|]);
    if b.Some? {
      assert HasToken(token)((ss + [s])[b.value]);
    }
  }

  // The properties of `refresh`.

  lemma UnknownTokenChangesNothing(ss: seq<UserSession>, nextId: nat, cmd: RefreshCommand, now: int, ttlSeconds: int,
                                    accessFor: nat -> string, freshToken: string)
    requires forall i :: 0 <= i < |ss| ==> ss[i].refreshToken != cmd.refreshToken
    ensures Refresh(ss, nextId, cmd, now, ttlSeconds, accessFor, freshToken)
            == Rotation(ss, nextId, Failure(InvalidRefreshToken(UnknownTokenMessage)))
  {
  }

  /** A found session that fails validation is rejected with the validation
      message; nothing changes. */
  lemma InvalidSessionChangesNothing(ss: seq<UserSession>, nextId: nat, cmd: RefreshCommand, now: int, ttlSeconds: int,
                                      accessFor: nat -> string, freshToken: string)
    requires FindByToken(ss, cmd.refreshToken).Some?
    requires var s := FindByToken(ss, cmd.refreshToken).value; s.revoked || s.expiresAt < now
    ensures var s, r := FindByToken(ss, cmd.refreshToken).value, Refresh(ss, nextId, cmd, now, ttlSeconds, accessFor, freshToken);
            r.sessions == ss && r.nextId == nextId
            && r.result == Failure(InvalidRefreshToken(if s.revoked then RevokedMessage else ExpiredMessage))
  {
  }

  /** The session expiring at this very second is still refreshed. */
  lemma ExpiringNowIsAccepted(ss: seq<UserSession>, nextId: nat, cmd: RefreshCommand, now: int, ttlSeconds: int,
                              accessFor: nat -> string, freshToken: string)
    requires FindByToken(ss, cmd.refreshToken).Some?
    requires var s := FindByToken(ss, cmd.refreshToken).value; !s.revoked && s.expiresAt == now
    ensures Refresh(ss, nextId, cmd, now, ttlSeconds, accessFor, freshToken).result.Success?
  {
  }

  /** A successful refresh revokes exactly the found session, appends one
      new unrevoked session under the next key with the new token, returns
      the new pair, and keeps the keys well formed. */
  lemma {:induction false} RefreshRotates(ss: seq<UserSession>, nextId: nat, cmd: RefreshCommand, now: int, ttlSeconds: int,
                                         accessFor: nat -> string, freshToken: string)
    requires WellFormed(ss, nextId)
    requires Refresh(ss, nextId, cmd, now, ttlSeconds, accessFor, freshToken).result.Success?
    ensures var i := FirstIndex(ss, HasToken(cmd.refreshToken)).value;
            var r := Refresh(ss, nextId, cmd, now, ttlSeconds, accessFor, freshToken);
            r.result == Success(TokenPair(accessFor(ss[i].userId), freshToken))
            && r.sessions == ss[i := ss[i].(revoked := true)]
                             + [NewSession(nextId, ss[i].userId, freshToken, now, ttlSeconds, cmd.ipAddress, cmd.userAgent)]
            && r.nextId == nextId + 1
            && WellFormed(r.sessions, r.nextId)
  {
    var i := FirstIndex(ss, HasToken(cmd.refreshToken)).value;
    var s := FindByToken(ss, cmd.refreshToken).value;
    assert s == ss[i];
    var created := NewSession(nextId, s.userId, freshToken, now, ttlSeconds, cmd.ipAddress, cmd.userAgent);
    assert Validate(s, now).Success?;
    assert Refresh(ss, nextId, cmd, now, ttlSeconds, accessFor, freshToken)
           == Rotation(Stored(ss, s.(revoked := true)) + [created], nextId + 1, Success(TokenPair(accessFor(s.userId), freshToken)));
    RewriteFoundRow(ss, nextId, cmd.refreshToken, s.(revoked := true));
    AppendUnderNextId(ss[i := s.(revoked := true)], nextId, created);
  }

  /** Rotation is one-shot: once a token has been used, using it again is
      rejected as revoked (the new token is a different UUID). */
  lemma {:induction false} SecondRefreshFails(ss: seq<UserSession>, nextId: nat, cmd: RefreshCommand, now: int, ttlSeconds: int,
                                             accessFor: nat -> string, freshToken: string,
                                             cmd2: RefreshCommand, now2: int, freshToken2: string)
    requires WellFormed(ss, nextId)
    requires Refresh(ss, nextId, cmd, now, ttlSeconds, accessFor, freshToken).result.Success?
    requires freshToken != cmd.refreshToken && cmd2.refreshToken == cmd.refreshToken
    ensures var r := Refresh(ss, nextId, cmd, now, ttlSeconds, accessFor, freshToken);
            Refresh(r.sessions, r.nextId, cmd2, now2, ttlSeconds, accessFor, freshToken2)
            == Rotation(r.sessions, r.nextId, Failure(InvalidRefreshToken(RevokedMessage)))
  {
    var token := cmd.refreshToken;
    var i := FirstIndex(ss, HasToken(token)).value;
    var revoked := ss[i].(revoked := true);
    RewriteFoundRow(ss, nextId, token, revoked);
    RefreshRotates(ss, nextId, cmd, now, ttlSeconds, accessFor, freshToken);
    var created := NewSession(nextId, ss[i].userId, freshToken, now, ttlSeconds, cmd.ipAddress, cmd.userAgent);
    AppendOtherToken(ss[i := revoked], token, created);
    assert FindByToken(ss[i := revoked] + [created], token) == Some(revoked);
  }

  // The properties of `revoke`.

  lemma RevokeUnknownFails(ss: seq<UserSession>, token: string)
    requires forall i :: 0 <= i < |ss| ==> ss[i].refreshToken != token
    ensures Revoke(ss, token) == Failure(InvalidRefreshToken(UnknownTokenMessage))
  {
  }

  /** Revoking rewrites the found row with `revoked` set and every other
      field as it was; no other row changes, and the token now finds a
      revoked session. */
  lemma {:induction false} RevokeSetsOnlyRevoked(ss: seq<UserSession>, nextId: nat, token: string)
    requires WellFormed(ss, nextId) && Revoke(ss, token).Success?
    ensures var i := FirstIndex(ss, HasToken(token)).value;
            var after := Revoke(ss, token).value;
            after == ss[i := ss[i].(revoked := true)]
            && FindByToken(after, token) == Some(ss[i].(revoked := true))
            && WellFormed(after, nextId)
  {
    var i := FirstIndex(ss, HasToken(token)).value;
    RewriteFoundRow(ss, nextId, token, ss[i].(revoked := true));
  }

  /** Revoking twice is revoking once. */
  lemma {:induction false} RevokeIdempotent(ss: seq<UserSession>, nextId: nat, token: string)
    requires WellFormed(ss, nextId) && Revoke(ss, token).Success?
    ensures Revoke(Revoke(ss, token).value, token) == Revoke(ss, token)
  {
    var i := FirstIndex(ss, HasToken(token)).value;
    var once := ss[i := ss[i].(revoked := true)];
    RevokeSetsOnlyRevoked(ss, nextId, token);
    RewriteFoundRow(once, nextId, token, once[i]);
    assert once[i := once[i]] == once;
  }

  /** A revoked token can no longer be refreshed. */
  lemma {:induction false} RevokedCannotRefresh(ss: seq<UserSession>, nextId: nat, cmd: RefreshCommand, now: int, ttlSeconds: int,
                                               accessFor: nat -> string, freshToken: string)
    requires WellFormed(ss, nextId) && Revoke(ss, cmd.refreshToken).Success?
    ensures var after := Revoke(ss, cmd.refreshToken).value;
            Refresh(after, nextId, cmd, now, ttlSeconds, accessFor, freshToken).result
            == Failure(InvalidRefreshToken(RevokedMessage))
  {
    RevokeSetsOnlyRevoked(ss, nextId, cmd.refreshToken);
  }

  // The services against the repository.

  /** `InternalCreateRefreshTokenService.create`: one new session, open for
      `ttlSeconds`, under the next key; the token is returned. */
  method CreateRefreshToken(repo: SessionRepository, userId: nat, ipAddress: Option<string>, userAgent: Option<string>,
                            freshToken: string, now: int, ttlSeconds: int) returns (token: string)
    requires repo.Valid()
    modifies repo
    ensures token == freshToken
    ensures repo.sessions == old(repo.sessions) + [NewSession(old(repo.nextId), userId, freshToken, now, ttlSeconds, ipAddress, userAgent)]
    ensures repo.nextId == old(repo.nextId) + 1 && repo.Valid()
  {
    var session := NewSession(0, userId, freshToken, now, ttlSeconds, ipAddress, userAgent);
    var id := repo.Insert(session);
    return freshToken;
  }

  /** `refresh`. */
  method RefreshAccessToken(repo: SessionRepository, accessFor: nat -> string, freshToken: string, ttlSeconds: int,
                            cmd: RefreshCommand, now: int) returns (result: Result<TokenPair, InvalidRefreshToken>)
    requires repo.Valid()
    modifies repo
    ensures var r := Refresh(old(repo.sessions), old(repo.nextId), cmd, now, ttlSeconds, accessFor, freshToken);
            repo.sessions == r.sessions && repo.nextId == r.nextId && result == r.result
    ensures repo.Valid()
  {
    var found := repo.FindByRefreshToken(cmd.refreshToken);
    if found.None? {
      return Failure(InvalidRefreshToken(UnknownTokenMessage));
    }
    var session := found.value;
    var valid := Validate(session, now);
    if valid.Failure? {
      return Failure(valid.error);
    }
    var newAccessToken := accessFor(session.userId);
    RewriteFoundRow(repo.sessions, repo.nextId, cmd.refreshToken, session.(revoked := true));
    session := session.(revoked := true);
    repo.Save(session);
    var newRefreshToken := CreateRefreshToken(repo, session.userId, cmd.ipAddress, cmd.userAgent, freshToken, now, ttlSeconds);
    return Success(TokenPair(newAccessToken, newRefreshToken));
  }

  /** `revoke`. */
  method RevokeRefreshToken(repo: SessionRepository, token: string) returns (result: Result<Unit, InvalidRefreshToken>)
    requires repo.Valid()
    modifies repo
    ensures match Revoke(old(repo.sessions), token)
            case Failure(e) => result == Failure(e) && repo.sessions == old(repo.sessions)
            case Success(after) => result == Success(Unit) && repo.sessions == after
    ensures repo.nextId == old(repo.nextId) && repo.Valid()
  {
    var found := repo.FindByRefreshToken(token);
    if found.None? {
      return Failure(InvalidRefreshToken(UnknownTokenMessage));
    }
    RewriteFoundRow(repo.sessions, repo.nextId, token, found.value.(revoked := true));
    var session := found.value.(revoked := true);
    repo.Save(session);
    return Success(Unit);
  }
}
