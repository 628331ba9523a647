/** The Redis store of one-time codes and "verified" flags
    (AbstractRedisVerificationRepository.java and its SMS subclass).

    Codes live under `{channel}:verification:{id}`, flags under
    `{channel}:verified:{id}`. Redis is a map from keys to entries; the TTL
    given to each write is recorded with the entry, and keys are not made to
    expire here. */
module VerificationStore {
  import opened Wrappers
  import opened Text

  /** The stored code; `expiresAt` is in seconds. */
  datatype VerificationCode = VerificationCode(id: string, code: string, expiresAt: int, attempts: int)

  /** A Redis value with the TTL (minutes) it was written with. */
  datatype Entry = CodeEntry(stored: VerificationCode, ttl: int) | StatusEntry(text: string, ttl: int)

  type Store = map<string, Entry>

  datatype Prefixes = Prefixes(code: string, verified: string)

  const SmsPrefixes: Prefixes := Prefixes("sms:verification:", "sms:verified:")
  const SmsDefaultTtlMinutes: int := 5
  const VerifiedText: string := "verified"

  /** The two prefixes differ at some position both have, so no code key is
      ever a flag key. */
  ghost predicate Diverge(p: Prefixes) {
    exists k :: 0 <= k < |p.code| && k < |p.verified| && p.code[k] != p.verified[k]
  }

  function CodeKey(p: Prefixes, id: string): (key: string)
    ensures IsPrefix(p.code, key) && key[|p.code|..] == id
  {
    p.code + id
  }

  function VerifiedKey(p: Prefixes, id: string): (key: string)
    ensures IsPrefix(p.verified, key) && key[|p.verified|..] == id
  {
    p.verified + id
  }

  lemma SmsPrefixesDiverge()
    ensures Diverge(SmsPrefixes)
  {
    assert SmsPrefixes.code[10] == 'c' && SmsPrefixes.verified[10] == 'e';
  }

  /** Code keys and flag keys never collide, whatever the ids. */
  lemma KeysNeverCollide(p: Prefixes, id1: string, id2: string)
    requires Diverge(p)
    ensures CodeKey(p, id1) != VerifiedKey(p, id2)
  {
    var k :| 0 <= k < |p.code| && k < |p.verified| && p.code[k] != p.verified[k];
    assert CodeKey(p, id1)[k] == p.code[k];
    assert VerifiedKey(p, id2)[k] == p.verified[k];
  }

  /** Different ids give different code keys, and different flag keys. */
  lemma KeysInjective(p: Prefixes, id1: string, id2: string)
    ensures CodeKey(p, id1) == CodeKey(p, id2) ==> id1 == id2
    ensures VerifiedKey(p, id1) == VerifiedKey(p, id2) ==> id1 == id2
  {
  }

  // The store operations as functions of the old store.

  /** `findById`. */
  function Find(s: Store, p: Prefixes, id: string): (r: Option<VerificationCode>)
    ensures r.Some? <==> CodeKey(p, id) in s && s[CodeKey(p, id)].CodeEntry?
  {
    var key := CodeKey(p, id);
    if key in s && s[key].CodeEntry? then Some(s[key].stored) else None
  }

  /** `isVerified`: a flag is present under the id's flag key. */
  predicate Verified(s: Store, p: Prefixes, id: string) {
    var key := VerifiedKey(p, id);
    key in s && s[key].StatusEntry?
  }

  /** `save`: the code is stored under the key of its own id. */
  function Saved(s: Store, p: Prefixes, code: VerificationCode, ttl: int): Store {
    s[CodeKey(p, code.id) := CodeEntry(code, ttl)]
  }

  function WithoutCode(s: Store, p: Prefixes, id: string): Store {
    s - {CodeKey(p, id)}
  }

  function WithoutStatus(s: Store, p: Prefixes, id: string): Store {
    s - {VerifiedKey(p, id)}
  }

  /** `incrementAttempts`: re-saves a present code with one more attempt and
      the remaining TTL (`remaining`, whole minutes, None when Redis reports
      none), else the default TTL. */
  function Incremented(s: Store, p: Prefixes, id: string, remaining: Option<nat>, defaultTtl: int): Store {
    match Find(s, p, id)
    case None => s
    case Some(c) => Saved(s, p, c.(attempts := c.attempts + 1), if remaining.Some? then remaining.value else defaultTtl)
  }

  function MarkedVerified(s: Store, p: Prefixes, id: string, ttl: int): Store {
    s[VerifiedKey(p, id) := StatusEntry(VerifiedText, ttl)]
  }

  /** Every code sits under the key of its own id: `save` keys a code by
      `extractId(code)`, and nothing else writes codes. */
  ghost predicate WellKeyed(s: Store, p: Prefixes) {
    forall key :: key in s && s[key].CodeEntry? ==> key == CodeKey(p, s[key].stored.id)
  }

  lemma WellKeyedPreserved(s: Store, p: Prefixes, code: VerificationCode, ttl: int, id: string, remaining: Option<nat>, defaultTtl: int)
    requires WellKeyed(s, p)
    ensures WellKeyed(Saved(s, p, code, ttl), p)
    ensures WellKeyed(WithoutCode(s, p, id), p) && WellKeyed(WithoutStatus(s, p, id), p)
    ensures WellKeyed(MarkedVerified(s, p, id, ttl), p)
    ensures WellKeyed(Incremented(s, p, id, remaining, defaultTtl), p)
  {
  }

  lemma SaveThenFind(s: Store, p: Prefixes, code: VerificationCode, ttl: int)
    ensures Find(Saved(s, p, code, ttl), p, code.id) == Some(code)
    ensures CodeKey(p, code.id) in Saved(s, p, code, ttl) && Saved(s, p, code, ttl)[CodeKey(p, code.id)].ttl == ttl
  {
  }

  /** Writing or deleting a code never touches a flag, and the other way
      round. */
  lemma {:induction false} CodesAndFlagsIndependent(s: Store, p: Prefixes, code: VerificationCode, ttl: int, id1: string, id2: string)
    requires Diverge(p)
    ensures Verified(Saved(s, p, code, ttl), p, id2) == Verified(s, p, id2)
    ensures Verified(WithoutCode(s, p, id1), p, id2) == Verified(s, p, id2)
    ensures Find(MarkedVerified(s, p, id2, ttl), p, id1) == Find(s, p, id1)
    ensures Find(WithoutStatus(s, p, id2), p, id1) == Find(s, p, id1)
  {
    KeysNeverCollide(p, code.id, id2);
    KeysNeverCollide(p, id1, id2);
  }

  lemma IncrementAbsentIsNoOp(s: Store, p: Prefixes, id: string, remaining: Option<nat>, defaultTtl: int)
    requires Find(s, p, id).None?
    ensures Incremented(s, p, id, remaining, defaultTtl) == s
  {
  }

  /** On a present code, exactly the attempt counter moves, by one. */
  lemma IncrementPresentAddsOne(s: Store, p: Prefixes, id: string, remaining: Option<nat>, defaultTtl: int)
    requires WellKeyed(s, p) && Find(s, p, id).Some?
    ensures var c, c' := Find(s, p, id).value, Find(Incremented(s, p, id, remaining, defaultTtl), p, id);
            c'.Some? && c'.value.attempts == c.attempts + 1
            && c'.value.id == c.id && c'.value.code == c.code && c'.value.expiresAt == c.expiresAt
    ensures var s' := Incremented(s, p, id, remaining, defaultTtl);
            CodeKey(p, id) in s' && s'[CodeKey(p, id)].ttl == if remaining.Some? then remaining.value else defaultTtl
  {
  }

  lemma {:induction false} IncrementKeepsFlags(s: Store, p: Prefixes, id1: string, id2: string, remaining: Option<nat>, defaultTtl: int)
    requires Diverge(p)
    ensures Verified(Incremented(s, p, id1, remaining, defaultTtl), p, id2) == Verified(s, p, id2)
  {
    if Find(s, p, id1).Some? {
      var c := Find(s, p, id1).value;
      CodesAndFlagsIndependent(s, p, c.(attempts := c.attempts + 1), if remaining.Some? then remaining.value else defaultTtl, id1, id2);
    }
  }

  lemma MarkThenVerifiedThenDelete(s: Store, p: Prefixes, id: string, ttl: int)
    ensures Verified(MarkedVerified(s, p, id, ttl), p, id)
    ensures !Verified(WithoutStatus(MarkedVerified(s, p, id, ttl), p, id), p, id)
    ensures !Verified(WithoutStatus(s, p, id), p, id)
  {
  }

  /** The Redis-backed repository. */
  class VerificationRepository {
    const prefixes: Prefixes
    const defaultTtlMinutes: int
    var redis: Store

    constructor (prefixes0: Prefixes, defaultTtl: int)
      ensures prefixes == prefixes0 && defaultTtlMinutes == defaultTtl && redis == map[]
    {
      prefixes := prefixes0;
      defaultTtlMinutes := defaultTtl;
      redis := map[];
    }

    /** The SMS repository: `sms:verification:` / `sms:verified:`, 5 minutes. */
    constructor Sms()
      ensures prefixes == SmsPrefixes && defaultTtlMinutes == SmsDefaultTtlMinutes && redis == map[]
      ensures Diverge(prefixes)
    {
      prefixes := SmsPrefixes;
      defaultTtlMinutes := SmsDefaultTtlMinutes;
      redis := map[];
      SmsPrefixesDiverge();
    }

    function BuildKey(id: string): (key: string)
      reads this
      ensures key == CodeKey(prefixes, id)
    {
      prefixes.code + id
    }

    function BuildVerifiedKey(id: string): (key: string)
      reads this
      ensures key == VerifiedKey(prefixes, id)
    {
      prefixes.verified + id
    }

    method Save(code: VerificationCode, ttlMinutes: int)
      modifies this
      ensures redis == Saved(old(redis), prefixes, code, ttlMinutes)
    {
      var key := BuildKey(code.id);
      redis := redis[key := CodeEntry(code, ttlMinutes)];
    }

    method FindById(id: string) returns (r: Option<VerificationCode>)
      ensures r == Find(redis, prefixes, id)
    {
      var key := BuildKey(id);
      if key in redis && redis[key].CodeEntry? {
        r := Some(redis[key].stored);
      } else {
        r := None;
      }
    }

    method DeleteVerificationCode(id: string)
      modifies this
      ensures redis == WithoutCode(old(redis), prefixes, id)
    {
      redis := redis - {BuildKey(id)};
    }

    method DeleteVerificationStatus(id: string)
      modifies this
      ensures redis == WithoutStatus(old(redis), prefixes, id)
    {
      redis := redis - {BuildVerifiedKey(id)};
    }

    /** `remainingTtl` is what Redis reports for the code key, in whole minutes. */
    method IncrementAttempts(id: string, remainingTtl: Option<nat>)
      modifies this
      ensures redis == Incremented(old(redis), prefixes, id, remainingTtl, defaultTtlMinutes)
    {
      var found := FindById(id);
      if found.Some? {
        var code := found.value;
        code := code.(attempts := code.attempts + 1);
        var ttl := if remainingTtl.Some? then remainingTtl.value else defaultTtlMinutes;
        Save(code, ttl);
      }
    }

    method MarkAsVerified(id: string, ttlMinutes: int)
      modifies this
      ensures redis == MarkedVerified(old(redis), prefixes, id, ttlMinutes)
    {
      redis := redis[BuildVerifiedKey(id) := StatusEntry(VerifiedText, ttlMinutes)];
    }

    method IsVerified(id: string) returns (verified: bool)
      ensures verified == Verified(redis, prefixes, id)
    {
      var key := BuildVerifiedKey(id);
      verified := key in redis && redis[key].StatusEntry?;
    }
  }
}
