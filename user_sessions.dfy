/** Refresh-token sessions (auth/session/domain/UserSession.java) and the
    table that stores them, seen through the repository port the token
    services use: look a session up by its refresh token, save it back by id,
    insert a new one under a generated id. Times are LocalDateTime values in
    whole seconds. */
module UserSessions {
  import opened Wrappers
  import opened Seqs

  datatype UserSession = UserSession(
    id: nat,
    userId: nat,
    refreshToken: string,
    createdAt: int,
    expiresAt: int,
    ipAddress: Option<string>,
    userAgent: Option<string>,
    revoked: bool)

  function HasToken(token: string): UserSession -> bool {
    (s: UserSession) => s.refreshToken == token
  }

  function HasId(id: nat): UserSession -> bool {
    (s: UserSession) => s.id == id
  }

  /** Primary keys are unique and all below the next generated key. */
  ghost predicate WellFormed(ss: seq<UserSession>, nextId: nat) {
    (forall i :: 0 <= i < |ss| ==> ss[i].id < nextId)
    && (forall i, j :: 0 <= i < j < |ss| ==> ss[i].id != ss[j].id)
  }

  /** `findByRefreshToken`: the first row with that token. */
  function FindByToken(ss: seq<UserSession>, token: string): (r: Option<UserSession>)
    ensures r.Some? ==> r.value in ss && r.value.refreshToken == token
    ensures r.None? <==> forall i :: 0 <= i < |ss| ==> ss[i].refreshToken != token
  {
    FindFirst(ss, HasToken(token))
  }

  /** `save` of a session that already has a row: the row with its id is
      replaced; a session with no row is appended. */
  function Stored(ss: seq<UserSession>, s: UserSession): (r: seq<UserSession>)
    ensures FirstIndex(ss, HasId(s.id)).Some? ==> r == ss[FirstIndex(ss, HasId(s.id)).value := s]
    ensures FirstIndex(ss, HasId(s.id)).None? ==> r == ss + [s]
  {
    match FirstIndex(ss, HasId(s.id))
    case Some(i) => ss[i := s]
    case None => ss + [s]
  }

  /** With unique keys, the row a session was read from is the row saving it
      back replaces. */
  lemma {:induction false} IdLocatesRow(ss: seq<UserSession>, nextId: nat, i: nat)
    requires WellFormed(ss, nextId) && i < |ss|
    ensures FirstIndex(ss, HasId(ss[i].id)) == Some(i)
  {
    var r := FirstIndex(ss, HasId(ss[i].id));
    assert HasId(ss[i].id)(ss[i]);
    assert r.Some?;
  }

  /** Appending a row under the next key keeps the keys well formed. */
  lemma AppendUnderNextId(ss: seq<UserSession>, nextId: nat, s: UserSession)
    requires WellFormed(ss, nextId) && s.id == nextId
    ensures WellFormed(ss + [s], nextId + 1)
  {
  }

  /** The table, with the database's key generator. */
  class SessionRepository {
    var sessions: seq<UserSession>
    var nextId: nat

    ghost predicate Valid()
      reads this
    {
      WellFormed(sessions, nextId)
    }

    constructor ()
      ensures sessions == [] && nextId == 0 && Valid()
    {
      sessions := [];
      nextId := 0;
    }

    method FindByRefreshToken(token: string) returns (r: Option<UserSession>)
      ensures r == FindByToken(sessions, token)
    {
      r := FindByToken(sessions, token);
    }

    /** `save` of a session read from the table. */
    method Save(s: UserSession)
      modifies this
      ensures sessions == Stored(old(sessions), s) && nextId == old(nextId)
    {
      sessions := Stored(sessions, s);
    }

    /** `save` of a fresh session: the database assigns the next key. */
    method Insert(s: UserSession) returns (id: nat)
      requires Valid()
      modifies this
      ensures id == old(nextId) && nextId == old(nextId) + 1
      ensures sessions == old(sessions) + [s.(id := id)]
      ensures Valid()
    {
      id := nextId;
      sessions := sessions + [s.(id := id)];
      nextId := nextId + 1;
    }
  }
}
