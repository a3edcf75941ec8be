/**
 The part of Redis that refresh tokens live in.  Four kinds of keys share one flat
 store of strings; `Db` is the same data sorted by kind, and `Represents` says that a
 flat store holds exactly a `Db` under the key names that the program builds.

 Times are whole seconds.  A key is visible up to and including the second at which
 it expires, since Redis drops a key only once its clock has passed that instant.
 */
module RedisStore {
  import opened Wrappers

  type Hash = string
  type FamilyId = string
  type UserId = string

  datatype Entry<+T> = Entry(value: T, expireAt: int)

  /** The hash stored under a token key.  `ceiling` is family_expires_at. */
  datatype Record = Record(user: UserId, family: FamilyId, expiresAt: int, ceiling: Option<int>)

  datatype Db = Db(
    tokens: map<Hash, Entry<Record>>,
    families: map<FamilyId, Entry<Hash>>,
    tombstones: map<Hash, Entry<string>>,
    sessions: map<UserId, Entry<set<FamilyId>>>,
    clock: nat)

  datatype Key =
    | TokenKey(hash: Hash)
    | FamilyKey(family: FamilyId)
    | UsedKey(hash: Hash)
    | SessionsKey(user: UserId)

  datatype Value =
    | HashValue(record: Entry<Record>)
    | PointerValue(live: Entry<Hash>)
    | TombstoneValue(text: Entry<string>)
    | SetValue(members: Entry<set<FamilyId>>)
  {
    function ExpireAt(): int {
      match this
      case HashValue(e) => e.expireAt
      case PointerValue(e) => e.expireAt
      case TombstoneValue(e) => e.expireAt
      case SetValue(e) => e.expireAt
    }
  }

  predicate SameKind(k: Key, v: Value) {
    match k
    case TokenKey(_) => v.HashValue?
    case FamilyKey(_) => v.PointerValue?
    case UsedKey(_) => v.TombstoneValue?
    case SessionsKey(_) => v.SetValue?
  }

  const TOKEN_PREFIX := "refresh_token:"
  const FAMILY_PREFIX := "refresh_family:"
  const USED_PREFIX := "refresh_token_used:"
  const SESSIONS_PREFIX := "user_sessions:"

  function Render(k: Key): string {
    match k
    case TokenKey(hash) => TOKEN_PREFIX + hash
    case FamilyKey(family) => FAMILY_PREFIX + family
    case UsedKey(hash) => USED_PREFIX + hash
    case SessionsKey(user) => SESSIONS_PREFIX + user
  }

  /** Two keys of any kinds get the same name only when they are the same key. */
  lemma RenderIsInjective(k: Key, l: Key)
    ensures Render(k) == Render(l) <==> k == l
  {
    if Render(k) == Render(l) {
      var r := Render(k);
      // the first letter tells sessions apart, the ninth families, the fourteenth the two token kinds
      assert r[0] == Render(l)[0] && r[8] == Render(l)[8] && r[13] == Render(l)[13];
      var n := |match k case TokenKey(_) => TOKEN_PREFIX case FamilyKey(_) => FAMILY_PREFIX
                        case UsedKey(_) => USED_PREFIX case SessionsKey(_) => SESSIONS_PREFIX|;
      assert Render(k)[n..] == Render(l)[n..];
      match k
      case TokenKey(hash) => assert r[n..] == hash; assert l.TokenKey? && r[n..] == l.hash;
      case FamilyKey(family) => assert r[n..] == family; assert l.FamilyKey? && r[n..] == l.family;
      case UsedKey(hash) => assert r[n..] == hash; assert l.UsedKey? && r[n..] == l.hash;
      case SessionsKey(user) => assert r[n..] == user; assert l.SessionsKey? && r[n..] == l.user;
    }
  }

  function Get(db: Db, k: Key): Option<Value> {
    match k
    case TokenKey(h) => if h in db.tokens then Some(HashValue(db.tokens[h])) else None
    case FamilyKey(f) => if f in db.families then Some(PointerValue(db.families[f])) else None
    case UsedKey(h) => if h in db.tombstones then Some(TombstoneValue(db.tombstones[h])) else None
    case SessionsKey(u) => if u in db.sessions then Some(SetValue(db.sessions[u])) else None
  }

  function Put(db: Db, k: Key, v: Value): Db
    requires SameKind(k, v)
  {
    match k
    case TokenKey(h) => db.(tokens := db.tokens[h := v.record])
    case FamilyKey(f) => db.(families := db.families[f := v.live])
    case UsedKey(h) => db.(tombstones := db.tombstones[h := v.text])
    case SessionsKey(u) => db.(sessions := db.sessions[u := v.members])
  }

  function Del(db: Db, k: Key): Db {
    match k
    case TokenKey(h) => db.(tokens := db.tokens - {h})
    case FamilyKey(f) => db.(families := db.families - {f})
    case UsedKey(h) => db.(tombstones := db.tombstones - {h})
    case SessionsKey(u) => db.(sessions := db.sessions - {u})
  }

  function Unexpired<K, T>(m: map<K, Entry<T>>, now: nat): map<K, Entry<T>> {
    map k | k in m && now <= m[k].expireAt :: m[k]
  }

  /** The Redis clock moves forward and every key whose expiry it has passed is gone. */
  function Tick(db: Db, seconds: nat): Db {
    var now := db.clock + seconds;
    Db(Unexpired(db.tokens, now), Unexpired(db.families, now),
       Unexpired(db.tombstones, now), Unexpired(db.sessions, now), now)
  }

  /** Other keys, of other features, may share the flat store. */
  ghost predicate Represents(store: map<string, Value>, db: Db) {
    forall k: Key ::
      && (Render(k) in store <==> Get(db, k).Some?)
      && (Get(db, k).Some? ==> store[Render(k)] == Get(db, k).value)
  }

  lemma PutRepresents(store: map<string, Value>, db: Db, k: Key, v: Value)
    requires Represents(store, db) && SameKind(k, v)
    ensures Represents(store[Render(k) := v], Put(db, k, v))
  {
    forall l: Key
      ensures Get(Put(db, k, v), l) == if l == k then Some(v) else Get(db, l)
      ensures Render(l) == Render(k) <==> l == k
    {
      RenderIsInjective(k, l);
    }
  }

  lemma DelRepresents(store: map<string, Value>, db: Db, k: Key)
    requires Represents(store, db)
    ensures Represents(store - {Render(k)}, Del(db, k))
  {
    forall l: Key
      ensures Get(Del(db, k), l) == if l == k then None else Get(db, l)
      ensures Render(l) == Render(k) <==> l == k
    {
      RenderIsInjective(k, l);
    }
  }

  lemma TickRepresents(store: map<string, Value>, db: Db, seconds: nat)
    requires Represents(store, db)
    ensures Represents(map s | s in store && db.clock + seconds <= store[s].ExpireAt() :: store[s],
                       Tick(db, seconds))
  {
    var now := db.clock + seconds;
    forall l: Key
      ensures Get(Tick(db, seconds), l) ==
              if Get(db, l).Some? && now <= Get(db, l).value.ExpireAt() then Get(db, l) else None
    {
    }
  }
}
