/**
 What one script, or the Save transaction, does to Redis when it runs as one step.
 `now` is the second the caller read before the call; `db.clock` is the second
 Redis itself reads.
 */
module RefreshTokenSteps {
  import opened Wrappers
  import opened RedisStore
  import Tombstone

  const GRACE_WINDOW: nat := 10
  const FAMILY_LIFETIME: nat := 7 * 24 * 3600

  datatype RotateReply =
    | RotateOk(user: UserId, family: FamilyId)
    | RotateInvalid
    | RotateRace(raced: FamilyId)
    | RotateReused(reused: FamilyId)
    | RotateExpired

  datatype RevokeReply = RevokeLive(live: FamilyId) | RevokeMiss | RevokeSuperseded(superseded: FamilyId)

  datatype Error = TtlTooShort | TokenInvalid | TokenExpired | TokenReused

  /** The caller learns the user, or one of three errors; a lost race reads as an invalid token. */
  function Answer(reply: RotateReply): Result<UserId, Error> {
    match reply
    case RotateOk(user, _) => Ok(user)
    case RotateInvalid => Err(TokenInvalid)
    case RotateRace(_) => Err(TokenInvalid)
    case RotateReused(_) => Err(TokenReused)
    case RotateExpired => Err(TokenExpired)
  }

  datatype Rotated = Rotated(db: Db, reply: RotateReply)
  datatype Revoked = Revoked(db: Db, reply: RevokeReply)

  function Min(a: int, b: int): int {
    if a < b then a else b
  }

  function Members(db: Db, user: UserId): set<FamilyId> {
    if user in db.sessions then db.sessions[user].value else {}
  }

  /** SREM: a set that loses its last member is no longer a key. */
  function DropSession(db: Db, user: UserId, family: FamilyId): Db {
    if user !in db.sessions then db
    else if Members(db, user) - {family} == {} then db.(sessions := db.sessions - {user})
    else db.(sessions := db.sessions[user := Entry(Members(db, user) - {family}, db.sessions[user].expireAt)])
  }

  function SaveStep(db: Db, user: UserId, hash: Hash, family: FamilyId, ttl: nat, now: int): Db {
    var keyTtl := Min(ttl, FAMILY_LIFETIME);
    var record := Record(user, family, now + keyTtl, Some(now + FAMILY_LIFETIME));
    db.(tokens := db.tokens[hash := Entry(record, db.clock + keyTtl)],
        families := db.families[family := Entry(hash, db.clock + keyTtl)],
        sessions := db.sessions[user := Entry(Members(db, user) + {family}, db.clock + FAMILY_LIFETIME)])
  }

  /** Ends a family through its family key: its session entry, its live token, the key itself. */
  function KillFamily(db: Db, family: FamilyId): Db {
    if family !in db.families then db
    else
      var live := db.families[family].value;
      var dropped := if live in db.tokens then DropSession(db, db.tokens[live].value.user, family) else db;
      dropped.(tokens := db.tokens - {live}, families := db.families - {family})
  }

  /** A record from before family_expires_at existed gets its ceiling at its first rotation. */
  function Ceiling(record: Record, now: int): int {
    match record.ceiling
    case Some(at) => at
    case None => now + FAMILY_LIFETIME
  }

  predicate WithinGrace(rotatedAt: Option<nat>, redisNow: nat) {
    rotatedAt.Some? && 0 <= redisNow - rotatedAt.value <= GRACE_WINDOW
  }

  function Replay(db: Db, hash: Hash): Rotated {
    if hash !in db.tombstones then Rotated(db, RotateInvalid)
    else
      var tombstone := Tombstone.Parse(db.tombstones[hash].value);
      if WithinGrace(tombstone.rotatedAt, db.clock) then Rotated(db, RotateRace(tombstone.family))
      else Rotated(KillFamily(db, tombstone.family), RotateReused(tombstone.family))
  }

  function Replace(db: Db, hash: Hash, newHash: Hash, ttl: nat, now: int): Db
    requires hash in db.tokens
  {
    var record := db.tokens[hash].value;
    var ceiling := Ceiling(record, now);
    var keyTtl := Min(ttl, ceiling - now);
    var successor := Record(record.user, record.family, Min(now + ttl, ceiling), Some(ceiling));
    db.(tokens := (db.tokens - {hash})[newHash := Entry(successor, db.clock + keyTtl)],
        tombstones := db.tombstones[hash := Entry(Tombstone.Print(record.family, db.clock),
                                                  db.clock + (record.expiresAt - now))],
        families := db.families[record.family := Entry(newHash, db.clock + keyTtl)])
  }

  function RotateStep(db: Db, hash: Hash, newHash: Hash, ttl: nat, now: int): Rotated {
    if hash !in db.tokens then Replay(db, hash)
    else
      var record := db.tokens[hash].value;
      if now >= record.expiresAt || now >= Ceiling(record, now) then
        Rotated(db.(tokens := db.tokens - {hash}), RotateExpired)
      else
        Rotated(Replace(db, hash, newHash, ttl, now), RotateOk(record.user, record.family))
  }

  /** Logout with a live token: the token key goes even when the family key names another token. */
  function RevokeLiveStep(db: Db, hash: Hash): Db
    requires hash in db.tokens
  {
    var record := db.tokens[hash].value;
    var family := record.family;
    var named := if family in db.families then {db.families[family].value} else {};
    DropSession(db.(tokens := db.tokens - named - {hash}, families := db.families - {family}), record.user, family)
  }

  function RevokeStep(db: Db, hash: Hash): Revoked {
    if hash in db.tokens then
      Revoked(RevokeLiveStep(db, hash), RevokeLive(db.tokens[hash].value.family))
    else if hash !in db.tombstones then
      Revoked(db, RevokeMiss)
    else
      var family := Tombstone.Parse(db.tombstones[hash].value).family;
      Revoked(KillFamily(db, family), RevokeSuperseded(family))
  }

  function LiveHashes(db: Db, families: set<FamilyId>): set<Hash> {
    set f | f in families && f in db.families :: db.families[f].value
  }

  /** The loop runs over the session index only, never over the tokens. */
  function RevokeAllStep(db: Db, user: UserId): Db {
    var listed := Members(db, user);
    db.(tokens := db.tokens - LiveHashes(db, listed),
        families := db.families - listed,
        sessions := db.sessions - {user})
  }

  function ValidateStep(db: Db, hash: Hash, now: int): Result<UserId, Error> {
    if hash !in db.tokens then Err(TokenInvalid)
    else if now >= db.tokens[hash].value.expiresAt then Err(TokenExpired)
    else Ok(db.tokens[hash].value.user)
  }
}
