/**
 The four kinds of Redis keys refine a machine with two maps: live sessions by
 family, and rotated tokens that are still remembered.  Every reply is the same and
 every step of a run lands on the abstraction of the same step.
 */
module RefreshTokenRefinement {
  import opened Wrappers
  import opened RedisStore
  import opened RefreshTokenSteps
  import opened RefreshTokenRuns
  import Tombstone

  datatype Session = Session(user: UserId, live: Hash, expiresAt: int, deadline: int)

  datatype Spent = Spent(family: FamilyId, rotatedAt: nat, until: int)

  datatype Machine = Machine(sessions: map<FamilyId, Session>, spent: map<Hash, Spent>, clock: nat)

  // ---- the simple machine ----

  ghost function Holder(m: Machine, h: Hash): Option<FamilyId> {
    if f :| f in m.sessions && m.sessions[f].live == h then Some(f) else None
  }

  function SignIn(m: Machine, user: UserId, h: Hash, family: FamilyId, ttl: nat): Machine {
    m.(sessions := m.sessions[family := Session(user, h, m.clock + Min(ttl, FAMILY_LIFETIME), m.clock + FAMILY_LIFETIME)])
  }

  function SessionsOfOthers(m: map<FamilyId, Session>, user: UserId): map<FamilyId, Session> {
    map f | f in m && m[f].user != user :: m[f]
  }

  function LiveSessions(m: map<FamilyId, Session>, now: nat): map<FamilyId, Session> {
    map f | f in m && now <= m[f].expiresAt :: m[f]
  }

  function Remembered(m: map<Hash, Spent>, now: nat): map<Hash, Spent> {
    map h | h in m && now <= m[h].until :: m[h]
  }

  function End(m: Machine, family: FamilyId): Machine {
    m.(sessions := m.sessions - {family})
  }

  ghost function RotateReplyOf(m: Machine, h: Hash): RotateReply {
    match Holder(m, h)
    case Some(f) =>
      if f in m.sessions && m.clock < m.sessions[f].expiresAt then RotateOk(m.sessions[f].user, f) else RotateExpired
    case None =>
      if h !in m.spent then RotateInvalid
      else if m.clock - m.spent[h].rotatedAt <= GRACE_WINDOW then RotateRace(m.spent[h].family)
      else RotateReused(m.spent[h].family)
  }

  ghost function ValidateReplyOf(m: Machine, h: Hash): Result<UserId, Error> {
    match Holder(m, h)
    case Some(f) =>
      if f in m.sessions && m.clock < m.sessions[f].expiresAt then Ok(m.sessions[f].user) else Err(TokenExpired)
    case None => Err(TokenInvalid)
  }

  ghost function RevokeReplyOf(m: Machine, h: Hash): RevokeReply {
    if Holder(m, h).Some? then RevokeLive(Holder(m, h).value)
    else if h in m.spent then RevokeSuperseded(m.spent[h].family)
    else RevokeMiss
  }

  function RotateSession(m: Machine, f: FamilyId, h: Hash, newHash: Hash, ttl: nat): Machine
    requires f in m.sessions
  {
    var s := m.sessions[f];
    m.(sessions := m.sessions[f := s.(live := newHash, expiresAt := Min(m.clock + ttl, s.deadline))],
       spent := m.spent[h := Spent(f, m.clock, s.expiresAt)])
  }

  /** A rotation replaces the live token and its expiry; a reuse or an expiry ends the session. */
  ghost function Rotated(m: Machine, h: Hash, newHash: Hash, ttl: nat): Machine {
    match RotateReplyOf(m, h)
    case RotateOk(_, f) =>
      if f !in m.sessions then m else RotateSession(m, f, h, newHash, ttl)
    case RotateExpired => if Holder(m, h).Some? then End(m, Holder(m, h).value) else m
    case RotateReused(f) => End(m, f)
    case _ => m
  }

  ghost function FamilyOf(m: Machine, h: Hash): Option<FamilyId> {
    if Holder(m, h).Some? then Holder(m, h)
    else if h in m.spent then Some(m.spent[h].family)
    else None
  }

  ghost function MachineStep(m: Machine, c: Command): Machine {
    match c
    case Save(user, h, family, ttl) => if ttl < 1 then m else SignIn(m, user, h, family, ttl)
    case Rotate(h, newHash, ttl) => if ttl < 1 then m else Rotated(m, h, newHash, ttl)
    case Revoke(h) => if FamilyOf(m, h).Some? then End(m, FamilyOf(m, h).value) else m
    case RevokeAll(user) => m.(sessions := SessionsOfOthers(m.sessions, user))
    case Tick(seconds) =>
      var now := m.clock + seconds;
      Machine(LiveSessions(m.sessions, now), Remembered(m.spent, now), now)
  }

  ghost function MachineRun(m: Machine, cs: seq<Command>): Machine
    decreases cs
  {
    if cs == [] then m else MachineRun(MachineStep(m, cs[0]), cs[1..])
  }

  // ---- the relation between store and machine ----

  function SessionOf(h: Hash, r: Record): Session {
    Session(r.user, h, r.expiresAt, if r.ceiling.Some? then r.ceiling.value else 0)
  }

  function SpentOf(tombstone: Entry<string>): Spent {
    var parsed := Tombstone.Parse(tombstone.value);
    Spent(parsed.family, if parsed.rotatedAt.Some? then parsed.rotatedAt.value else 0, tombstone.expireAt)
  }

  /** A family key that names a token is a session; a tombstone is a spent token; nothing else is either. */
  ghost predicate SessionsMatch(db: Db, sessions: map<FamilyId, Session>) {
    && (forall f :: f in sessions <==> f in db.families && db.families[f].value in db.tokens)
    && (forall f :: f in sessions ==>
          sessions[f] == SessionOf(db.families[f].value, db.tokens[db.families[f].value].value))
  }

  ghost predicate SpentMatch(db: Db, spent: map<Hash, Spent>) {
    && (forall h :: h in spent <==> h in db.tombstones)
    && (forall h :: h in spent ==> spent[h] == SpentOf(db.tombstones[h]))
  }

  ghost predicate Refines(db: Db, m: Machine) {
    m.clock == db.clock && SessionsMatch(db, m.sessions) && SpentMatch(db, m.spent)
  }

  /** The store determines the machine's state. */
  lemma RefinesOne(db: Db, m: Machine, n: Machine)
    requires Refines(db, m) && Refines(db, n)
    ensures m == n
  {
    assert m.sessions == n.sessions;
    assert m.spent == n.spent;
  }

  /** `family` is the only family key that names the token `h`. */
  ghost predicate NamedOnce(db: Db, h: Hash, family: FamilyId) {
    && h in db.tokens && family in db.families && db.families[family].value == h
    && forall f :: f in db.families && db.families[f].value == h ==> f == family
  }

  lemma TokenNamedOnce(w: World, h: Hash)
    requires Inv(w) && h in w.db.tokens
    ensures NamedOnce(w.db, h, w.db.tokens[h].value.family)
  {
    assert TokenOk(w, h);
  }

  ghost predicate NotNamed(db: Db, h: Hash) {
    h !in db.tokens && forall f :: f in db.families ==> db.families[f].value != h
  }

  lemma FreshIsNotNamed(w: World, h: Hash)
    requires Inv(w) && h !in w.ledger.issues
    ensures NotNamed(w.db, h)
  {
  }

  lemma HolderOfNamed(db: Db, m: Machine, h: Hash, family: FamilyId)
    requires SessionsMatch(db, m.sessions) && NamedOnce(db, h, family)
    ensures Holder(m, h) == Some(family)
    ensures family in m.sessions && m.sessions[family] == SessionOf(h, db.tokens[h].value)
  {
    assert m.sessions[family].live == h;
  }

  lemma HolderOf(w: World, m: Machine, h: Hash)
    requires Inv(w) && Refines(w.db, m)
    ensures Holder(m, h) == if h in w.db.tokens then Some(w.db.tokens[h].value.family) else None
  {
    if h in w.db.tokens {
      TokenNamedOnce(w, h);
      HolderOfNamed(w.db, m, h, w.db.tokens[h].value.family);
    }
  }

  // ---- each step ----

  lemma KillKeeps(db: Db, family: FamilyId)
    ensures var after := KillFamily(db, family);
            && after.tombstones == db.tombstones && after.clock == db.clock
            && after.families == db.families - {family}
            && after.tokens == if family in db.families then db.tokens - {db.families[family].value} else db.tokens
  {
  }

  lemma KillEndsSession(db: Db, m: Machine, family: FamilyId)
    requires Refines(db, m)
    requires family in db.families && db.families[family].value in db.tokens ==>
               NamedOnce(db, db.families[family].value, family)
    ensures Refines(KillFamily(db, family), End(m, family))
  {
    KillKeeps(db, family);
  }

  lemma KillRefines(w: World, m: Machine, family: FamilyId)
    requires Inv(w) && Refines(w.db, m)
    ensures Refines(KillFamily(w.db, family), End(m, family))
  {
    if family in w.db.families && w.db.families[family].value in w.db.tokens {
      assert TokenOk(w, w.db.families[family].value);
    }
    KillEndsSession(w.db, m, family);
  }

  lemma ReplaceRefines(db: Db, m: Machine, h: Hash, newHash: Hash, ttl: nat)
    requires Refines(db, m) && h in db.tokens && NamedOnce(db, h, db.tokens[h].value.family) && NotNamed(db, newHash)
    requires db.tokens[h].value.ceiling.Some? && db.tokens[h].value.family in m.sessions
    ensures Refines(Replace(db, h, newHash, ttl, db.clock),
                    RotateSession(m, db.tokens[h].value.family, h, newHash, ttl))
  {
    Tombstone.RoundTrip(db.tokens[h].value.family, db.clock);
  }

  lemma ExpiryRefines(db: Db, m: Machine, h: Hash, family: FamilyId)
    requires Refines(db, m) && NamedOnce(db, h, family)
    ensures Refines(db.(tokens := db.tokens - {h}), End(m, family))
  {
  }

  lemma LiveRotateRefines(db: Db, m: Machine, h: Hash, newHash: Hash, ttl: nat)
    requires Refines(db, m) && h in db.tokens && NamedOnce(db, h, db.tokens[h].value.family) && NotNamed(db, newHash)
    requires var r := db.tokens[h].value; r.ceiling.Some? && r.expiresAt <= r.ceiling.value
    ensures var out := RotateStep(db, h, newHash, ttl, db.clock);
            out.reply == RotateReplyOf(m, h) && Refines(out.db, Rotated(m, h, newHash, ttl))
  {
    var f := db.tokens[h].value.family;
    HolderOfNamed(db, m, h, f);
    if db.clock < db.tokens[h].value.expiresAt {
      ReplaceRefines(db, m, h, newHash, ttl);
    } else {
      ExpiryRefines(db, m, h, f);
    }
  }

  lemma ReplayRefines(db: Db, m: Machine, h: Hash, newHash: Hash, ttl: nat)
    requires Refines(db, m) && Holder(m, h).None?
    requires h in db.tombstones ==>
               var spent := SpentOf(db.tombstones[h]);
               && Tombstone.Parse(db.tombstones[h].value).rotatedAt == Some(spent.rotatedAt)
               && spent.rotatedAt <= db.clock
               && Refines(KillFamily(db, spent.family), End(m, spent.family))
    ensures Replay(db, h).reply == RotateReplyOf(m, h) && Refines(Replay(db, h).db, Rotated(m, h, newHash, ttl))
  {
  }

  lemma RotateRefines(w: World, m: Machine, h: Hash, newHash: Hash, ttl: nat)
    requires Inv(w) && Refines(w.db, m) && newHash !in w.ledger.issues
    ensures var out := RotateStep(w.db, h, newHash, ttl, w.db.clock);
            out.reply == RotateReplyOf(m, h) && Refines(out.db, Rotated(m, h, newHash, ttl))
  {
    if h in w.db.tokens {
      assert TokenOk(w, h);
      TokenNamedOnce(w, h);
      FreshIsNotNamed(w, newHash);
      LiveRotateRefines(w.db, m, h, newHash, ttl);
    } else {
      HolderOf(w, m, h);
      if h in w.db.tombstones {
        assert ConsumedOk(w, h);
        Tombstone.RoundTrip(w.ledger.issues[h].family, w.ledger.consumed[h]);
        KillRefines(w, m, w.ledger.issues[h].family);
      }
      ReplayRefines(w.db, m, h, newHash, ttl);
    }
  }

  lemma SaveRefines(db: Db, m: Machine, user: UserId, h: Hash, family: FamilyId, ttl: nat)
    requires Refines(db, m) && NotNamed(db, h)
    ensures Refines(SaveStep(db, user, h, family, ttl, db.clock), SignIn(m, user, h, family, ttl))
  {
  }

  lemma RevokeRefines(w: World, m: Machine, h: Hash)
    requires Inv(w) && Refines(w.db, m)
    ensures Refines(RevokeStep(w.db, h).db, MachineStep(m, Revoke(h)))
  {
    HolderOf(w, m, h);
    if h in w.db.tokens {
      RevokeLiveIsKillFamily(w, h);
      KillRefines(w, m, w.db.tokens[h].value.family);
    } else if h in w.db.tombstones {
      KillRefines(w, m, SpentOf(w.db.tombstones[h]).family);
    }
  }

  lemma RevokeAllEnds(db: Db, m: Machine, user: UserId, listed: set<FamilyId>, dead: set<Hash>)
    requires SessionsMatch(db, m.sessions)
    requires forall f :: f in db.families && db.families[f].value in db.tokens ==>
               && (db.families[f].value in dead <==> db.tokens[db.families[f].value].value.user == user)
               && (f in listed <==> db.tokens[db.families[f].value].value.user == user)
    ensures SessionsMatch(db.(tokens := db.tokens - dead, families := db.families - listed,
                              sessions := db.sessions - {user}),
                          SessionsOfOthers(m.sessions, user))
  {
  }

  lemma RevokeAllRefines(w: World, m: Machine, user: UserId)
    requires Inv(w) && Refines(w.db, m)
    ensures Refines(RevokeAllStep(w.db, user), MachineStep(m, RevokeAll(user)))
  {
    var listed := Members(w.db, user);
    forall f | f in w.db.families && w.db.families[f].value in w.db.tokens
      ensures var h := w.db.families[f].value;
              && (h in LiveHashes(w.db, listed) <==> w.db.tokens[h].value.user == user)
              && (f in listed <==> w.db.tokens[h].value.user == user)
    {
      ListedTokens(w, user, w.db.families[f].value);
      assert TokenOk(w, w.db.families[f].value);
    }
    RevokeAllEnds(w.db, m, user, listed, LiveHashes(w.db, listed));
  }

  /** A token, its record and the family key that names it share one expiry. */
  ghost predicate ExpireTogether(db: Db) {
    forall f :: f in db.families && db.families[f].value in db.tokens ==>
      db.tokens[db.families[f].value].expireAt == db.tokens[db.families[f].value].value.expiresAt
      == db.families[f].expireAt
  }

  lemma TokensExpireTogether(w: World)
    requires Inv(w)
    ensures ExpireTogether(w.db)
  {
    forall f | f in w.db.families && w.db.families[f].value in w.db.tokens
      ensures TokenOk(w, w.db.families[f].value)
    {
    }
  }

  lemma TickRefines(db: Db, m: Machine, seconds: nat)
    requires Refines(db, m) && ExpireTogether(db)
    ensures Refines(RedisStore.Tick(db, seconds), MachineStep(m, Tick(seconds)))
  {
  }

  lemma StepRefines(w: World, m: Machine, c: Command)
    requires Inv(w) && Fresh(w, c) && Refines(w.db, m)
    ensures Refines(Step(w, c).db, MachineStep(m, c))
  {
    match c
    case Save(user, h, family, ttl) =>
      FreshIsNotNamed(w, h);
      SaveRefines(w.db, m, user, h, family, ttl);
    case Rotate(h, newHash, ttl) => RotateRefines(w, m, h, newHash, ttl);
    case Revoke(h) => RevokeRefines(w, m, h);
    case RevokeAll(user) => RevokeAllRefines(w, m, user);
    case Tick(seconds) =>
      TokensExpireTogether(w);
      TickRefines(w.db, m, seconds);
  }

  /** Over any run the store does what the simple machine does. */
  lemma {:induction false} RunRefines(w: World, m: Machine, cs: seq<Command>)
    requires Inv(w) && FreshRun(w, cs) && Refines(w.db, m)
    ensures Refines(Run(w, cs).db, MachineRun(m, cs))
    decreases cs
  {
    if cs != [] {
      StepRefines(w, m, cs[0]);
      StepKeepsInv(w, cs[0]);
      RunRefines(Step(w, cs[0]), MachineStep(m, cs[0]), cs[1..]);
    }
  }

  lemma ValidateRefines(w: World, m: Machine, h: Hash)
    requires Inv(w) && Refines(w.db, m)
    ensures ValidateStep(w.db, h, w.db.clock) == ValidateReplyOf(m, h)
  {
    HolderOf(w, m, h);
    if h in w.db.tokens {
      TokenNamedOnce(w, h);
      HolderOfNamed(w.db, m, h, w.db.tokens[h].value.family);
    }
  }

  lemma RevokeReplyRefines(w: World, m: Machine, h: Hash)
    requires Inv(w) && Refines(w.db, m)
    ensures RevokeStep(w.db, h).reply == RevokeReplyOf(m, h)
  {
    HolderOf(w, m, h);
  }

  /** After any run, the answer to a presented token is the machine's, and so are Validate's and Revoke's. */
  lemma RepliesRefine(now: nat, cs: seq<Command>, h: Hash, newHash: Hash, ttl: nat)
    requires FreshRun(Start(now), cs) && newHash !in Run(Start(now), cs).ledger.issues
    ensures var db := Run(Start(now), cs).db;
            var m := MachineRun(Machine(map[], map[], now), cs);
            && Refines(db, m)
            && RotateStep(db, h, newHash, ttl, db.clock).reply == RotateReplyOf(m, h)
            && ValidateStep(db, h, db.clock) == ValidateReplyOf(m, h)
            && RevokeStep(db, h).reply == RevokeReplyOf(m, h)
  {
    var w := Run(Start(now), cs);
    var m := MachineRun(Machine(map[], map[], now), cs);
    RunKeepsInv(Start(now), cs);
    RunRefines(Start(now), Machine(map[], map[], now), cs);
    RotateRefines(w, m, h, newHash, ttl);
    ValidateRefines(w, m, h);
    RevokeReplyRefines(w, m, h);
  }
}
