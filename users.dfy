/** Users (user/domain/User.java) and the user table behind the
    UserRepository port: lookups by id, phone and e-mail return the first
    matching row; `save` of a user with an id rewrites that row, `save` of a
    user without one inserts it under the next generated id. */
module Users {
  import opened Wrappers
  import opened Seqs

  /** `UserRole`. */
  datatype UserRole =
    | UNREGISTERED_CONTACT | CLIENT | PVZ_OPERATOR | PVZ_ADMIN | COURIER | DRIVER
    | DISPATCHER | WAREHOUSE_OPERATOR | WAREHOUSE_ADMIN | HR | ACCOUNTANT | SYSTEM_ADMIN | SYSTEM

  /** `UserStatus`. */
  datatype UserStatus = ACTIVE | ON_DELETE

  /** The fields the core reads or writes; nullable columns are options and
      times are seconds. */
  datatype User = User(
    id: Option<nat>,
    email: Option<string>,
    phone: Option<string>,
    passwordHash: Option<string>,
    role: Option<UserRole>,
    status: Option<UserStatus>,
    createdTime: Option<int>)

  /** The exceptions the user services throw: Spring's
      ResponseStatusException (status and reason), PhoneNotVerifiedException
      and BadCredentialsException. */
  datatype UserServiceError =
    | ResponseStatus(status: nat, reason: string)
    | PhoneNotVerified(message: string)
    | BadCredentials(message: string)

  const UserNotFoundReason: string := "User not found"

  function WithId(id: nat): User -> bool {
    (u: User) => u.id == Some(id)
  }

  function WithPhone(phone: string): User -> bool {
    (u: User) => u.phone == Some(phone)
  }

  function WithEmail(email: string): User -> bool {
    (u: User) => u.email == Some(email)
  }

  /** Every row has a key below the next generated key, and keys are unique. */
  ghost predicate WellFormed(us: seq<User>, nextId: nat) {
    (forall i :: 0 <= i < |us| ==> us[i].id.Some? && us[i].id.value < nextId)
    && (forall i, j :: 0 <= i < j < |us| ==> us[i].id != us[j].id)
  }

  function FindById(us: seq<User>, id: nat): (r: Option<User>)
    ensures r.Some? ==> r.value in us && r.value.id == Some(id)
    ensures r.None? <==> forall i :: 0 <= i < |us| ==> us[i].id != Some(id)
  {
    FindFirst(us, WithId(id))
  }

  function FindByPhone(us: seq<User>, phone: string): (r: Option<User>)
    ensures r.Some? ==> r.value in us && r.value.phone == Some(phone)
    ensures r.None? <==> forall i :: 0 <= i < |us| ==> us[i].phone != Some(phone)
  {
    FindFirst(us, WithPhone(phone))
  }

  function FindByEmail(us: seq<User>, email: string): (r: Option<User>)
    ensures r.Some? ==> r.value in us && r.value.email == Some(email)
    ensures r.None? <==> forall i :: 0 <= i < |us| ==> us[i].email != Some(email)
  {
    FindFirst(us, WithEmail(email))
  }

  /** `save` of a user read from the table: its row is rewritten (a user
      whose key has no row is appended). */
  function Stored(us: seq<User>, u: User): seq<User>
    requires u.id.Some?
  {
    match FirstIndex(us, WithId(u.id.value))
    case Some(i) => us[i := u]
    case None => us + [u]
  }

  /** The table after `save` of a new user, which gets key `nextId`. */
  function Inserted(us: seq<User>, nextId: nat, u: User): (r: seq<User>)
    ensures |r| == |us| + 1 && r[..|us|] == us && r[|us|] == u.(id := Some(nextId))
  {
    us + [u.(id := Some(nextId))]
  }

  /** Rewriting the row found by key, with the key kept, replaces that row
      in place, is seen by the next lookup by key, and keeps the keys well
      formed. */
  lemma {:induction false} RewriteById(us: seq<User>, nextId: nat, u: User)
    requires WellFormed(us, nextId) && u.id.Some? && FindById(us, u.id.value).Some?
    ensures var i := FirstIndex(us, WithId(u.id.value)).value;
            Stored(us, u) == us[i := u]
            && FindById(Stored(us, u), u.id.value) == Some(u)
            && WellFormed(Stored(us, u), nextId)
  {
    var i := FirstIndex(us, WithId(u.id.value)).value;
    assert WithId(u.id.value)(us[i := u][i]);
  }

  /** Rewriting one row under its own key leaves the lookups of every other
      key as they were. */
  lemma {:induction false} RewriteKeepsOthers(us: seq<User>, nextId: nat, u: User, other: nat)
    requires WellFormed(us, nextId) && u.id.Some? && FindById(us, u.id.value).Some? && other != u.id.value
    ensures FindById(Stored(us, u), other) == FindById(us, other)
  {
    var i := FirstIndex(us, WithId(u.id.value)).value;
    var r := us[i := u];
    assert forall k :: 0 <= k < |us| && k != i ==> r[k] == us[k];
    assert !WithId(other)(r[i]) && !WithId(other)(us[i]);
  }

  /** An insertion keeps the keys well formed, and the inserted user is
      found by its new key. */
  lemma InsertKeepsWellFormed(us: seq<User>, nextId: nat, u: User)
    requires WellFormed(us, nextId)
    ensures WellFormed(Inserted(us, nextId, u), nextId + 1)
    ensures FindById(Inserted(us, nextId, u), nextId) == Some(u.(id := Some(nextId)))
  {
    var r := Inserted(us, nextId, u);
    assert WithId(nextId)(r[|us|]);
    assert forall j :: 0 <= j < |us| ==> !WithId(nextId)(r[j]);
  }

  /** The user table with its key generator. */
  class UserRepository {
    var users: seq<User>
    var nextId: nat

    ghost predicate Valid()
      reads this
    {
      WellFormed(users, nextId)
    }

    constructor ()
      ensures users == [] && nextId == 0 && Valid()
    {
      users := [];
      nextId := 0;
    }

    method FindUserById(id: nat) returns (r: Option<User>)
      ensures r == FindById(users, id)
    {
      r := FindById(users, id);
    }

    method FindUserByPhone(phone: string) returns (r: Option<User>)
      ensures r == FindByPhone(users, phone)
    {
      r := FindByPhone(users, phone);
    }

    method FindUserByEmail(email: string) returns (r: Option<User>)
      ensures r == FindByEmail(users, email)
    {
      r := FindByEmail(users, email);
    }

    /** `save`: rewrites the row of a user with a key, inserts a user
        without one; returns the saved user. */
    method Save(u: User) returns (saved: User)
      requires Valid()
      requires u.id.Some? ==> FindById(users, u.id.value).Some?
      modifies this
      ensures u.id.Some? ==> users == Stored(old(users), u) && nextId == old(nextId) && saved == u
      ensures u.id.None? ==> users == Inserted(old(users), old(nextId), u) && nextId == old(nextId) + 1
                             && saved == u.(id := Some(old(nextId)))
      ensures Valid()
    {
      if u.id.Some? {
        RewriteById(users, nextId, u);
        users := Stored(users, u);
        saved := u;
      } else {
        InsertKeepsWellFormed(users, nextId, u);
        saved := u.(id := Some(nextId));
        users := users + [saved];
        nextId := nextId + 1;
      }
    }
  }
}
