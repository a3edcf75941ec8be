/**
 The refresh token store as the program runs it: key names are built, values are
 read and written under them in a flat string store, and the scripts do so in order.
 `db` is the same content sorted by kind; the contracts speak of it.
 */
module RefreshTokenStore {
  import opened Wrappers
  import opened RedisStore
  import opened RefreshTokenSteps
  import Tombstone

  ghost function WithoutFamilies(db: Db, families: set<FamilyId>): Db {
    db.(tokens := db.tokens - LiveHashes(db, families), families := db.families - families)
  }

  ghost function WithoutFamily(db: Db, family: FamilyId): Db {
    Del(if family in db.families then Del(db, TokenKey(db.families[family].value)) else db, FamilyKey(family))
  }

  lemma NoFamilyEnded(db: Db)
    ensures WithoutFamilies(db, {}) == db
  {
    assert LiveHashes(db, {}) == {};
    assert db.tokens - {} == db.tokens && db.families - {} == db.families;
  }

  /** Ending one more listed family deletes the token its family key names, if it has one. */
  lemma OneMoreFamily(db: Db, ended: set<FamilyId>, family: FamilyId)
    requires family !in ended
    ensures WithoutFamilies(db, ended + {family}) == WithoutFamily(WithoutFamilies(db, ended), family)
  {
    var named := if family in db.families then {db.families[family].value} else {};
    assert LiveHashes(db, ended + {family}) == LiveHashes(db, ended) + named;
    assert db.families - (ended + {family}) == (db.families - ended) - {family};
    assert db.tokens - (LiveHashes(db, ended) + named) == (db.tokens - LiveHashes(db, ended)) - named;
  }

  /** The user whose index lists the family: of the presented live token, or of the live token its family key names. */
  ghost function OwnerToTell(db: Db, family: FamilyId, user: Option<UserId>): Option<UserId> {
    if user.Some? then user
    else if family in db.families && db.families[family].value in db.tokens
    then Some(db.tokens[db.families[family].value].value.user)
    else None
  }

  lemma EndsPresented(db: Db, hash: Hash, family: FamilyId, user: Option<UserId>)
    requires match user
             case Some(u) => hash in db.tokens && db.tokens[hash].value.user == u && db.tokens[hash].value.family == family
             case None => hash !in db.tokens
    ensures var owner, rest := OwnerToTell(db, family, user), Del(WithoutFamily(db, family), TokenKey(hash));
            (if owner.Some? then DropSession(rest, owner.value, family) else rest)
            == if user.Some? then RevokeLiveStep(db, hash) else KillFamily(db, family)
  {
    var named := if family in db.families then {db.families[family].value} else {};
    assert Del(WithoutFamily(db, family), TokenKey(hash)).tokens == db.tokens - named - {hash};
    if user.None? {
      assert db.tokens - named - {hash} == db.tokens - named;
      if family !in db.families {
        assert db.tokens - named == db.tokens && db.families - {family} == db.families;
      }
    }
  }

  class Store {
    var keys: map<string, Value>
    var clock: nat
    ghost var db: Db

    ghost predicate Valid()
      reads this
    {
      clock == db.clock && Represents(keys, db)
    }

    constructor (now: nat)
      ensures Valid() && db == Db(map[], map[], map[], map[], now)
    {
      keys, clock := map[], now;
      db := Db(map[], map[], map[], map[], now);
    }

    method Tick(seconds: nat)
      requires Valid()
      modifies this
      ensures Valid() && db == RedisStore.Tick(old(db), seconds)
    {
      TickRepresents(keys, db, seconds);
      keys := map s | s in keys && clock + seconds <= keys[s].ExpireAt() :: keys[s];
      clock := clock + seconds;
      db := RedisStore.Tick(db, seconds);
    }

    // ---- Redis commands ----

    method Read(k: Key) returns (v: Option<Value>)
      requires Valid()
      ensures v == Get(db, k)
    {
      var name := Render(k);
      v := if name in keys then Some(keys[name]) else None;
    }

    /** HSET or SADD with EXPIRE, and SET with EX.  Redis refuses a SET whose EX is below one. */
    method Write(k: Key, v: Value, ex: int)
      requires Valid() && SameKind(k, v)
      requires ex >= 1 && v.ExpireAt() == clock + ex
      modifies this
      ensures Valid() && db == Put(old(db), k, v)
    {
      PutRepresents(keys, db, k, v);
      keys := keys[Render(k) := v];
      db := Put(db, k, v);
    }

    method Delete(k: Key)
      requires Valid()
      modifies this
      ensures Valid() && db == Del(old(db), k)
    {
      DelRepresents(keys, db, k);
      keys := keys - {Render(k)};
      db := Del(db, k);
    }

    /** SREM keeps the expiry of the set. */
    method RemoveSession(user: UserId, family: FamilyId)
      requires Valid()
      modifies this
      ensures Valid() && db == DropSession(old(db), user, family)
    {
      var found := Read(SessionsKey(user));
      if found.Some? {
        var left := found.value.members.value - {family};
        if left == {} {
          Delete(SessionsKey(user));
        } else {
          var v := SetValue(Entry(left, found.value.members.expireAt));
          PutRepresents(keys, db, SessionsKey(user), v);
          keys := keys[Render(SessionsKey(user)) := v];
          db := Put(db, SessionsKey(user), v);
        }
      }
    }

    // ---- the store ----

    /** The raw token and the family id are drawn at random; `hash` is the digest of the former. */
    method Save(user: UserId, hash: Hash, family: FamilyId, ttl: int, now: int) returns (r: Result<(), Error>)
      requires Valid()
      modifies this
      ensures Valid()
      ensures r.Ok? <==> ttl >= 1
      ensures r.Err? ==> r.error == TtlTooShort && db == old(db)
      ensures r.Ok? ==> db == SaveStep(old(db), user, hash, family, ttl, now)
    {
      if ttl < 1 {
        return Err(TtlTooShort);
      }
      var ceiling := now + FAMILY_LIFETIME;
      var expiresAt, keyTtl := now + ttl, ttl;
      if expiresAt > ceiling {
        expiresAt, keyTtl := ceiling, FAMILY_LIFETIME;
      }
      Write(TokenKey(hash), HashValue(Entry(Record(user, family, expiresAt, Some(ceiling)), clock + keyTtl)), keyTtl);
      Write(FamilyKey(family), PointerValue(Entry(hash, clock + keyTtl)), keyTtl);
      var found := Read(SessionsKey(user));
      var members := if found.Some? then found.value.members.value else {};
      Write(SessionsKey(user), SetValue(Entry(members + {family}, clock + FAMILY_LIFETIME)), FAMILY_LIFETIME);
      return Ok(());
    }

    method Validate(hash: Hash, now: int) returns (r: Result<UserId, Error>)
      requires Valid()
      ensures r == ValidateStep(db, hash, now)
    {
      var found := Read(TokenKey(hash));
      if found.None? {
        return Err(TokenInvalid);
      }
      var record := found.value.record.value;
      if now >= record.expiresAt {
        return Err(TokenExpired);
      }
      return Ok(record.user);
    }

    /** HGET of the user of a token, which may have no record. */
    method Owner(hash: Hash) returns (user: Option<UserId>)
      requires Valid()
      ensures user == if hash in db.tokens then Some(db.tokens[hash].value.user) else None
    {
      var found := Read(TokenKey(hash));
      user := if found.Some? then Some(found.value.record.value.user) else None;
    }

    /** The branch of the rotate script for a token that has no record. */
    method ReplayScript(hash: Hash) returns (reply: RotateReply)
      requires Valid()
      modifies this
      ensures Valid() && Rotated(db, reply) == Replay(old(db), hash)
    {
      var found := Read(UsedKey(hash));
      if found.None? {
        return RotateInvalid;
      }
      var tombstone := Tombstone.Parse(found.value.text.value);
      if tombstone.rotatedAt.Some? {
        var age := clock - tombstone.rotatedAt.value;
        if age >= 0 && age <= GRACE_WINDOW {
          return RotateRace(tombstone.family);
        }
      }
      var family := tombstone.family;
      var pointer := Read(FamilyKey(family));
      if pointer.Some? {
        var live := pointer.value.live.value;
        var victim := Owner(live);
        if victim.Some? {
          RemoveSession(victim.value, family);
        }
        Delete(TokenKey(live));
      }
      Delete(FamilyKey(family));
      return RotateReused(family);
    }

    method RotateScript(hash: Hash, newHash: Hash, ttl: nat, now: int) returns (reply: RotateReply)
      requires Valid() && ttl >= 1
      modifies this
      ensures Valid() && Rotated(db, reply) == RotateStep(old(db), hash, newHash, ttl, now)
    {
      var found := Read(TokenKey(hash));
      if found.None? {
        reply := ReplayScript(hash);
        return;
      }
      var record := found.value.record.value;
      var ceiling := if record.ceiling.Some? then record.ceiling.value else now + FAMILY_LIFETIME;
      if now >= record.expiresAt || now >= ceiling {
        Delete(TokenKey(hash));
        return RotateExpired;
      }
      var keyTtl, expiresAt := ttl, now + ttl;
      var remaining := ceiling - now;
      if keyTtl > remaining {
        keyTtl := remaining;
      }
      if expiresAt > ceiling {
        expiresAt := ceiling;
      }
      Delete(TokenKey(hash));
      Write(UsedKey(hash),
            TombstoneValue(Entry(Tombstone.Print(record.family, clock), clock + (record.expiresAt - now))),
            record.expiresAt - now);
      Write(TokenKey(newHash),
            HashValue(Entry(Record(record.user, record.family, expiresAt, Some(ceiling)), clock + keyTtl)), keyTtl);
      Write(FamilyKey(record.family), PointerValue(Entry(newHash, clock + keyTtl)), keyTtl);
      return RotateOk(record.user, record.family);
    }

    method Rotate(hash: Hash, newHash: Hash, ttl: int, now: int) returns (r: Result<UserId, Error>)
      requires Valid()
      modifies this
      ensures Valid()
      ensures ttl < 1 ==> r == Err(TtlTooShort) && db == old(db)
      ensures ttl >= 1 ==> db == RotateStep(old(db), hash, newHash, ttl, now).db
      ensures ttl >= 1 ==>
                match RotateStep(old(db), hash, newHash, ttl, now).reply
                case RotateOk(user, _) => r == Ok(user)
                case RotateInvalid => r == Err(TokenInvalid)
                case RotateRace(_) => r == Err(TokenInvalid)
                case RotateReused(_) => r == Err(TokenReused)
                case RotateExpired => r == Err(TokenExpired)
      ensures ttl >= 1 ==> r == Answer(RotateStep(old(db), hash, newHash, ttl, now).reply)
    {
      if ttl < 1 {
        return Err(TtlTooShort);
      }
      var reply := RotateScript(hash, newHash, ttl, now);
      match reply {
        case RotateOk(user, _) => return Ok(user);
        case RotateInvalid => return Err(TokenInvalid);
        case RotateExpired => return Err(TokenExpired);
        case RotateRace(_) => return Err(TokenInvalid);
        case RotateReused(_) => return Err(TokenReused);
      }
    }

    /** The rest of the revoke script, once family and, for a live token, user are known. */
    method EndPresented(hash: Hash, family: FamilyId, user: Option<UserId>)
      requires Valid()
      requires match user
               case Some(u) => hash in db.tokens && db.tokens[hash].value.user == u
                               && db.tokens[hash].value.family == family
               case None => hash !in db.tokens
      modifies this
      ensures Valid()
      ensures db == if user.Some? then RevokeLiveStep(old(db), hash) else KillFamily(old(db), family)
    {
      var owner := user;
      var pointer := Read(FamilyKey(family));
      if pointer.Some? {
        var live := pointer.value.live.value;
        if user.None? {
          owner := Owner(live);
        }
        Delete(TokenKey(live));
      }
      Delete(FamilyKey(family));
      Delete(TokenKey(hash));
      assert db == Del(WithoutFamily(old(db), family), TokenKey(hash));
      EndsPresented(old(db), hash, family, user);
      if owner.Some? {
        RemoveSession(owner.value, family);
      }
    }

    method Revoke(hash: Hash) returns (reply: RevokeReply)
      requires Valid()
      modifies this
      ensures Valid() && Revoked(db, reply) == RevokeStep(old(db), hash)
    {
      var found := Read(TokenKey(hash));
      if found.Some? {
        var record := found.value.record.value;
        EndPresented(hash, record.family, Some(record.user));
        return RevokeLive(record.family);
      }
      var used := Read(UsedKey(hash));
      if used.None? {
        return RevokeMiss;
      }
      var family := Tombstone.Parse(used.value.text.value).family;
      EndPresented(hash, family, None);
      return RevokeSuperseded(family);
    }

    method EndFamily(family: FamilyId)
      requires Valid()
      modifies this
      ensures Valid() && db == WithoutFamily(old(db), family)
    {
      var pointer := Read(FamilyKey(family));
      if pointer.Some? {
        Delete(TokenKey(pointer.value.live.value));
      }
      Delete(FamilyKey(family));
    }

    method EndFamilies(listed: set<FamilyId>)
      requires Valid()
      modifies this
      ensures Valid() && db == WithoutFamilies(old(db), listed)
    {
      var left := listed;
      ghost var ended: set<FamilyId> := {};
      NoFamilyEnded(db);
      while left != {}
        invariant Valid() && ended !! left && ended + left == listed
        invariant db == WithoutFamilies(old(db), ended)
        decreases left
      {
        var family :| family in left;
        EndFamily(family);
        OneMoreFamily(old(db), ended, family);
        left := left - {family};
        ended := ended + {family};
      }
      assert ended == listed;
    }

    /** Returns how many families were listed. */
    method RevokeAllForUser(user: UserId) returns (count: nat)
      requires Valid()
      modifies this
      ensures Valid() && db == RevokeAllStep(old(db), user)
      ensures count == |Members(old(db), user)|
    {
      var found := Read(SessionsKey(user));
      var listed := if found.Some? then found.value.members.value else {};
      EndFamilies(listed);
      Delete(SessionsKey(user));
      count := |listed|;
    }
  }
}
