/** Find-or-create by phone (EnsureUserByPhoneService.java): a phone with no
    user gets a new CLIENT account, and the id of the user with that phone is
    returned. The clock is the parameter `now`. */
module EnsureUser {
  import opened Wrappers
  import opened Seqs
  import opened Users

  /** The account `ensure` creates. */
  function NewClient(phone: string, now: int): (u: User)
    ensures u.id.None? && u.phone == Some(phone) && u.role == Some(CLIENT) && u.status == Some(ACTIVE)
  {
    User(None, None, Some(phone), None, Some(CLIENT), Some(ACTIVE), Some(now))
  }

  /** The table and key generator after a call, and the returned id. */
  datatype Ensured = Ensured(users: seq<User>, nextId: nat, id: nat)

  /** `ensure`: save a new client when the phone is unknown, then look the
      phone up again and answer that user's id. */
  function Ensure(us: seq<User>, nextId: nat, phone: string, now: int): (e: Ensured)
    requires WellFormed(us, nextId)
    ensures WellFormed(e.users, e.nextId)
    ensures FindByPhone(e.users, phone).Some? && FindByPhone(e.users, phone).value.id == Some(e.id)
  {
    var us1 := if FindByPhone(us, phone).None? then Inserted(us, nextId, NewClient(phone, now)) else us;
    var n1 := if FindByPhone(us, phone).None? then nextId + 1 else nextId;
    InsertKeepsWellFormed(us, nextId, NewClient(phone, now));
    assert FindByPhone(us, phone).None? ==> WithPhone(phone)(us1[|us|]);
    Ensured(us1, n1, FindByPhone(us1, phone).value.id.value)
  }

  /** A known phone: its user's id, and nothing is saved. */
  lemma ExistingPhoneSavesNothing(us: seq<User>, nextId: nat, phone: string, now: int)
    requires WellFormed(us, nextId) && FindByPhone(us, phone).Some?
    ensures Ensure(us, nextId, phone, now) == Ensured(us, nextId, FindByPhone(us, phone).value.id.value)
  {
  }

  /** An unknown phone: exactly one user is added, an ACTIVE CLIENT created
      now under the next key, and that key is returned. */
  lemma {:induction false} MissingPhoneCreatesOneClient(us: seq<User>, nextId: nat, phone: string, now: int)
    requires WellFormed(us, nextId) && FindByPhone(us, phone).None?
    ensures var e := Ensure(us, nextId, phone, now);
            e.users == us + [User(Some(nextId), None, Some(phone), None, Some(CLIENT), Some(ACTIVE), Some(now))]
            && e.nextId == nextId + 1 && e.id == nextId
  {
    var u := NewClient(phone, now).(id := Some(nextId));
    var us1 := us + [u];
    assert WithPhone(phone)(us1[|us|]);
    assert forall j :: 0 <= j < |us| ==> !WithPhone(phone)(us1[j]);
    assert FirstIndex(us1, WithPhone(phone)) == Some(|us|);
  }

  /** A second call with the same phone answers the same id and adds no
      user. */
  lemma {:induction false} EnsureIsIdempotent(us: seq<User>, nextId: nat, phone: string, now: int, later: int)
    requires WellFormed(us, nextId)
    ensures var e := Ensure(us, nextId, phone, now);
            Ensure(e.users, e.nextId, phone, later) == e
  {
    var e := Ensure(us, nextId, phone, now);
    ExistingPhoneSavesNothing(e.users, e.nextId, phone, later);
  }

  /** `ensure` against the user repository. */
  method EnsureUserByPhone(users: UserRepository, phone: string, now: int) returns (id: nat)
    requires users.Valid()
    modifies users
    ensures var e := Ensure(old(users.users), old(users.nextId), phone, now);
            users.users == e.users && users.nextId == e.nextId && id == e.id
    ensures users.Valid()
  {
    ghost var e := Ensure(users.users, users.nextId, phone, now);
    var existing := users.FindUserByPhone(phone);
    if existing.None? {
      var user := NewClient(phone, now);
      var saved := users.Save(user);
    }
    var found := users.FindUserByPhone(phone);
    id := found.value.id.value;
  }
}
