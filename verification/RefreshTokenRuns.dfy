/**
 Runs of the session protocol on one clock, and what every reachable state keeps.
 Beside the store, a ledger records what the callers were told: which tokens each
 Save and each successful Rotate handed out, and when a token was rotated.  No step
 reads the ledger.
 */
module RefreshTokenRuns {
  import opened Wrappers
  import opened RedisStore
  import opened RefreshTokenSteps
  import Tombstone

  /** One family: whom it was saved for, the ceiling fixed then, its tokens in order of issue. */
  datatype Line = Line(user: UserId, ceiling: int, chain: seq<Hash>)

  datatype Issue = Issue(family: FamilyId, expiresAt: int)

  datatype Ledger = Ledger(lines: map<FamilyId, Line>, issues: map<Hash, Issue>, consumed: map<Hash, nat>)

  datatype World = World(db: Db, ledger: Ledger)

  datatype Command =
    | Save(user: UserId, hash: Hash, family: FamilyId, ttl: nat)
    | Rotate(hash: Hash, newHash: Hash, ttl: nat)
    | Revoke(hash: Hash)
    | RevokeAll(user: UserId)
    | Tick(seconds: nat)

  function Start(now: nat): World {
    World(Db(map[], map[], map[], map[], now), Ledger(map[], map[], map[]))
  }

  /** Random token digests and family ids have never been drawn before. */
  predicate Fresh(w: World, c: Command) {
    match c
    case Save(_, hash, family, _) => hash !in w.ledger.issues && family !in w.ledger.lines
    case Rotate(_, newHash, _) => newHash !in w.ledger.issues
    case _ => true
  }

  function RecordSave(l: Ledger, user: UserId, hash: Hash, family: FamilyId, ttl: nat, now: nat): Ledger {
    l.(lines := l.lines[family := Line(user, now + FAMILY_LIFETIME, [hash])],
       issues := l.issues[hash := Issue(family, now + Min(ttl, FAMILY_LIFETIME))])
  }

  function RecordRotation(l: Ledger, family: FamilyId, hash: Hash, newHash: Hash, ttl: nat, now: nat): Ledger {
    if family !in l.lines then l
    else
      var line := l.lines[family];
      l.(lines := l.lines[family := line.(chain := line.chain + [newHash])],
         issues := l.issues[newHash := Issue(family, Min(now + ttl, line.ceiling))],
         consumed := l.consumed[hash := now])
  }

  /** A ttl below one second is refused before anything is written. */
  function Step(w: World, c: Command): World {
    var now := w.db.clock;
    match c
    case Save(user, hash, family, ttl) =>
      if ttl < 1 then w
      else World(SaveStep(w.db, user, hash, family, ttl, now), RecordSave(w.ledger, user, hash, family, ttl, now))
    case Rotate(hash, newHash, ttl) =>
      if ttl < 1 then w
      else
        var out := RotateStep(w.db, hash, newHash, ttl, now);
        World(out.db,
              if out.reply.RotateOk? then RecordRotation(w.ledger, out.reply.family, hash, newHash, ttl, now)
              else w.ledger)
    case Revoke(hash) => w.(db := RevokeStep(w.db, hash).db)
    case RevokeAll(user) => w.(db := RevokeAllStep(w.db, user))
    case Tick(seconds) => w.(db := RedisStore.Tick(w.db, seconds))
  }

  function Run(w: World, cs: seq<Command>): World
    decreases cs
  {
    if cs == [] then w else Run(Step(w, cs[0]), cs[1..])
  }

  predicate FreshRun(w: World, cs: seq<Command>)
    decreases cs
  {
    cs == [] || (Fresh(w, cs[0]) && FreshRun(Step(w, cs[0]), cs[1..]))
  }

  // ---- what every reachable state keeps ----

  /**
   A token record is the newest token of its family, the family key names it and
   expires with it, and its owner's session set lists the family until the ceiling.
   */
  ghost predicate TokenOk(w: World, h: Hash)
    requires h in w.db.tokens
  {
    var e := w.db.tokens[h];
    var r := e.value;
    && h in w.ledger.issues && w.ledger.issues[h] == Issue(r.family, r.expiresAt)
    && r.family in w.ledger.lines
    && var line := w.ledger.lines[r.family];
    && r.user == line.user && r.ceiling == Some(line.ceiling)
    && line.chain != [] && line.chain[|line.chain| - 1] == h
    && w.db.clock <= e.expireAt == r.expiresAt <= line.ceiling
    && r.family in w.db.families && w.db.families[r.family] == Entry(h, e.expireAt)
    && r.user in w.db.sessions && r.family in w.db.sessions[r.user].value
    && line.ceiling <= w.db.sessions[r.user].expireAt
    && h !in w.ledger.consumed
  }

  ghost predicate TokensOk(w: World) {
    forall h :: h in w.db.tokens ==> TokenOk(w, h)
  }

  ghost predicate PointersOk(w: World) {
    forall f :: f in w.db.families ==>
      && f in w.ledger.lines && w.db.clock <= w.db.families[f].expireAt <= w.ledger.lines[f].ceiling
      && w.db.families[f].value in w.ledger.issues && w.ledger.issues[w.db.families[f].value].family == f
  }

  ghost predicate SessionsOk(w: World) {
    && (forall u :: u in w.db.sessions ==> w.db.clock <= w.db.sessions[u].expireAt)
    && (forall u, f :: u in w.db.sessions && f in w.db.sessions[u].value ==>
          f in w.ledger.lines && w.ledger.lines[f].user == u)
  }

  /** A tombstone stays from the rotation until the token's own expiry. */
  ghost predicate ConsumedOk(w: World, h: Hash)
    requires h in w.ledger.consumed
  {
    && h in w.ledger.issues && h !in w.db.tokens
    && w.ledger.consumed[h] <= w.db.clock
    && var issue := w.ledger.issues[h];
    && (h in w.db.tombstones <==> w.db.clock <= issue.expiresAt)
    && (h in w.db.tombstones ==>
          w.db.tombstones[h] == Entry(Tombstone.Print(issue.family, w.ledger.consumed[h]), issue.expiresAt))
  }

  ghost predicate TombstonesOk(w: World) {
    && (forall h :: h in w.db.tombstones ==> h in w.ledger.consumed)
    && (forall h :: h in w.ledger.consumed ==> ConsumedOk(w, h))
  }

  /** The tokens of a family are one chain: all but the last have been rotated, each once. */
  ghost predicate LineOk(l: Ledger, f: FamilyId)
    requires f in l.lines
  {
    var line := l.lines[f];
    && line.chain != []
    && (forall i, j :: 0 <= i < j < |line.chain| ==> line.chain[i] != line.chain[j])
    && (forall i :: 0 <= i < |line.chain| ==>
          && line.chain[i] in l.issues
          && l.issues[line.chain[i]].family == f
          && l.issues[line.chain[i]].expiresAt <= line.ceiling
          && (line.chain[i] in l.consumed <==> i < |line.chain| - 1))
  }

  ghost predicate LinesOk(l: Ledger) {
    && (forall f :: f in l.lines ==> LineOk(l, f))
    && (forall h :: h in l.issues ==> l.issues[h].family in l.lines && h in l.lines[l.issues[h].family].chain)
    && l.consumed.Keys <= l.issues.Keys
  }

  /** No ceiling lies further ahead than a session set saved now would live. */
  ghost predicate CeilingsOk(w: World) {
    forall f :: f in w.ledger.lines ==> w.ledger.lines[f].ceiling <= w.db.clock + FAMILY_LIFETIME
  }

  ghost predicate Inv(w: World) {
    CeilingsOk(w) && TokensOk(w) && PointersOk(w) && SessionsOk(w) && TombstonesOk(w) && LinesOk(w.ledger)
  }

  /** `after` has lost keys, but no surviving token lost its family key or its session entry. */
  ghost predicate Shrinks(before: Db, after: Db) {
    && before.clock <= after.clock
    && (forall h :: h in after.tokens ==>
          && h in before.tokens && after.tokens[h] == before.tokens[h]
          && var e := after.tokens[h];
          && after.clock <= e.expireAt
          && e.value.family in after.families
          && e.value.user in after.sessions && e.value.family in after.sessions[e.value.user].value)
    && (forall f :: f in after.families ==>
          && f in before.families && after.families[f] == before.families[f]
          && after.clock <= after.families[f].expireAt)
    && (forall u :: u in after.sessions ==>
          && u in before.sessions
          && after.sessions[u].value <= before.sessions[u].value
          && after.clock <= after.sessions[u].expireAt == before.sessions[u].expireAt)
    && after.tombstones == Unexpired(before.tombstones, after.clock)
  }

  lemma ShrinkKeepsTokens(w: World, after: Db)
    requires TokensOk(w) && PointersOk(w) && SessionsOk(w) && CeilingsOk(w) && Shrinks(w.db, after)
    ensures var v := World(after, w.ledger); TokensOk(v) && PointersOk(v) && SessionsOk(v) && CeilingsOk(v)
  {
    var v := World(after, w.ledger);
    forall h | h in after.tokens
      ensures TokenOk(v, h)
    {
      assert TokenOk(w, h);
    }
  }

  lemma ShrinkKeepsTombstones(w: World, after: Db)
    requires TombstonesOk(w) && w.db.clock <= after.clock
    requires after.tokens.Keys <= w.db.tokens.Keys && after.tombstones == Unexpired(w.db.tombstones, after.clock)
    ensures TombstonesOk(World(after, w.ledger))
  {
    var v := World(after, w.ledger);
    forall h | h in v.ledger.consumed
      ensures ConsumedOk(v, h)
    {
      assert ConsumedOk(w, h);
    }
  }

  lemma ShrinkKeepsInv(w: World, after: Db)
    requires Inv(w) && Shrinks(w.db, after)
    ensures Inv(World(after, w.ledger))
  {
    ShrinkKeepsTokens(w, after);
    ShrinkKeepsTombstones(w, after);
  }

  lemma NothingExpired(w: World)
    requires Inv(w)
    ensures Unexpired(w.db.tombstones, w.db.clock) == w.db.tombstones
  {
    forall h | h in w.db.tombstones
      ensures w.db.clock <= w.db.tombstones[h].expireAt
    {
      assert ConsumedOk(w, h);
    }
  }

  lemma DropSessionKeepsOthers(db: Db, user: UserId, family: FamilyId)
    ensures var after := DropSession(db, user, family);
            && after == db.(sessions := after.sessions)
            && (forall u :: u in after.sessions ==>
                  && u in db.sessions
                  && after.sessions[u].value <= db.sessions[u].value
                  && after.sessions[u].expireAt == db.sessions[u].expireAt)
            && (forall u, f :: u in db.sessions && f in db.sessions[u].value && f != family ==>
                  u in after.sessions && f in after.sessions[u].value)
  {
    forall u, f | u in db.sessions && f in db.sessions[u].value && f != family
      ensures u in DropSession(db, user, family).sessions && f in DropSession(db, user, family).sessions[u].value
    {
      assert u == user ==> f in Members(db, user) - {family};
    }
  }

  /** Ending a family takes no other family's token, family key or session entry. */
  lemma KillFamilyShrinks(w: World, family: FamilyId)
    requires Inv(w)
    ensures Shrinks(w.db, KillFamily(w.db, family))
  {
    NothingExpired(w);
    var after := KillFamily(w.db, family);
    forall h | h in after.tokens
      ensures w.db.tokens[h].value.family != family && TokenOk(w, h)
    {
      assert TokenOk(w, h);
    }
    if family in w.db.families && w.db.families[family].value in w.db.tokens {
      DropSessionKeepsOthers(w.db, w.db.tokens[w.db.families[family].value].value.user, family);
    }
  }

  lemma RevokeLiveIsKillFamily(w: World, hash: Hash)
    requires Inv(w) && hash in w.db.tokens
    ensures RevokeLiveStep(w.db, hash) == KillFamily(w.db, w.db.tokens[hash].value.family)
  {
    assert TokenOk(w, hash);
    assert w.db.tokens - {hash} - {hash} == w.db.tokens - {hash};
  }

  /** The index finds exactly the tokens of the user. */
  lemma ListedTokens(w: World, user: UserId, h: Hash)
    requires Inv(w) && h in w.db.tokens
    ensures h in LiveHashes(w.db, Members(w.db, user)) <==> w.db.tokens[h].value.user == user
  {
    assert TokenOk(w, h);
    var f := w.db.tokens[h].value.family;
    assert h in LiveHashes(w.db, Members(w.db, user)) ==> f in Members(w.db, user);
  }

  lemma RevokeAllShrinks(w: World, user: UserId)
    requires Inv(w)
    ensures Shrinks(w.db, RevokeAllStep(w.db, user))
  {
    NothingExpired(w);
    forall h | h in RevokeAllStep(w.db, user).tokens
      ensures TokenOk(w, h) && w.db.tokens[h].value.user != user
    {
      assert TokenOk(w, h);
      ListedTokens(w, user, h);
    }
  }

  lemma TickShrinks(w: World, seconds: nat)
    requires TokensOk(w)
    ensures Shrinks(w.db, RedisStore.Tick(w.db, seconds))
  {
    forall h | h in RedisStore.Tick(w.db, seconds).tokens
      ensures TokenOk(w, h)
    {
    }
  }

  lemma SaveKeepsTokens(w: World, user: UserId, hash: Hash, family: FamilyId, ttl: nat)
    requires TokensOk(w) && CeilingsOk(w) && w.ledger.consumed.Keys <= w.ledger.issues.Keys
    requires Fresh(w, Save(user, hash, family, ttl)) && ttl >= 1
    ensures TokensOk(Step(w, Save(user, hash, family, ttl)))
  {
    var v := Step(w, Save(user, hash, family, ttl));
    forall h | h in v.db.tokens
      ensures TokenOk(v, h)
    {
      if h != hash {
        assert TokenOk(w, h);
      }
    }
  }

  lemma SaveKeepsTombstones(w: World, user: UserId, hash: Hash, family: FamilyId, ttl: nat)
    requires TombstonesOk(w) && Fresh(w, Save(user, hash, family, ttl)) && ttl >= 1
    ensures TombstonesOk(Step(w, Save(user, hash, family, ttl)))
  {
    var v := Step(w, Save(user, hash, family, ttl));
    forall h | h in v.ledger.consumed
      ensures ConsumedOk(v, h)
    {
      assert ConsumedOk(w, h);
    }
  }

  lemma SaveKeepsLines(l: Ledger, user: UserId, hash: Hash, family: FamilyId, ttl: nat, now: nat)
    requires LinesOk(l) && hash !in l.issues && family !in l.lines
    ensures LinesOk(RecordSave(l, user, hash, family, ttl, now))
  {
    var m := RecordSave(l, user, hash, family, ttl, now);
    forall f | f in m.lines
      ensures LineOk(m, f)
    {
      if f != family {
        assert LineOk(l, f);
      }
    }
  }

  lemma SaveKeepsPointers(w: World, user: UserId, hash: Hash, family: FamilyId, ttl: nat)
    requires PointersOk(w) && SessionsOk(w) && CeilingsOk(w) && Fresh(w, Save(user, hash, family, ttl)) && ttl >= 1
    ensures var v := Step(w, Save(user, hash, family, ttl)); PointersOk(v) && SessionsOk(v) && CeilingsOk(v)
  {
  }

  lemma SaveKeepsInv(w: World, user: UserId, hash: Hash, family: FamilyId, ttl: nat)
    requires Inv(w) && Fresh(w, Save(user, hash, family, ttl)) && ttl >= 1
    ensures Inv(Step(w, Save(user, hash, family, ttl)))
  {
    SaveKeepsTokens(w, user, hash, family, ttl);
    SaveKeepsTombstones(w, user, hash, family, ttl);
    SaveKeepsPointers(w, user, hash, family, ttl);
    SaveKeepsLines(w.ledger, user, hash, family, ttl, w.db.clock);
  }

  lemma RotateKeepsLine(l: Ledger, family: FamilyId, hash: Hash, newHash: Hash, ttl: nat, now: nat)
    requires family in l.lines && LineOk(l, family) && newHash !in l.issues && newHash !in l.consumed
    requires var chain := l.lines[family].chain; chain[|chain| - 1] == hash
    ensures LineOk(RecordRotation(l, family, hash, newHash, ttl, now), family)
  {
    assert newHash !in l.lines[family].chain;
  }

  lemma RotateKeepsLines(l: Ledger, family: FamilyId, hash: Hash, newHash: Hash, ttl: nat, now: nat)
    requires LinesOk(l) && family in l.lines && newHash !in l.issues
    requires var chain := l.lines[family].chain; chain != [] && chain[|chain| - 1] == hash
    ensures LinesOk(RecordRotation(l, family, hash, newHash, ttl, now))
  {
    var m := RecordRotation(l, family, hash, newHash, ttl, now);
    RotateKeepsLine(l, family, hash, newHash, ttl, now);
    assert LineOk(l, family);
    forall f | f in m.lines && f != family
      ensures LineOk(m, f)
    {
      assert LineOk(l, f);
    }
    assert forall h :: h in l.lines[family].chain ==> h in m.lines[family].chain;
    assert newHash in m.lines[family].chain;
  }

  function Rotation(w: World, hash: Hash, newHash: Hash, ttl: nat): World
    requires hash in w.db.tokens
  {
    World(Replace(w.db, hash, newHash, ttl, w.db.clock),
          RecordRotation(w.ledger, w.db.tokens[hash].value.family, hash, newHash, ttl, w.db.clock))
  }

  lemma RotationKeepsTokens(w: World, hash: Hash, newHash: Hash, ttl: nat)
    requires TokensOk(w) && w.ledger.consumed.Keys <= w.ledger.issues.Keys
    requires newHash !in w.ledger.issues && ttl >= 1 && hash in w.db.tokens && TokenOk(w, hash)
    requires w.db.clock < w.db.tokens[hash].value.expiresAt
    ensures TokensOk(Rotation(w, hash, newHash, ttl))
  {
    var v := Rotation(w, hash, newHash, ttl);
    forall h | h in v.db.tokens
      ensures TokenOk(v, h)
    {
      if h != newHash {
        assert TokenOk(w, h);
      }
    }
  }

  lemma RotationKeepsTombstones(w: World, hash: Hash, newHash: Hash, ttl: nat)
    requires TombstonesOk(w) && LinesOk(w.ledger)
    requires newHash !in w.ledger.issues && ttl >= 1 && hash in w.db.tokens && TokenOk(w, hash)
    requires w.db.clock < w.db.tokens[hash].value.expiresAt
    ensures TombstonesOk(Rotation(w, hash, newHash, ttl))
  {
    var v := Rotation(w, hash, newHash, ttl);
    forall h | h in v.ledger.consumed
      ensures ConsumedOk(v, h)
    {
      if h != hash {
        assert ConsumedOk(w, h);
      }
    }
  }

  lemma RotationKeepsPointers(w: World, hash: Hash, newHash: Hash, ttl: nat)
    requires PointersOk(w) && SessionsOk(w) && CeilingsOk(w)
    requires newHash !in w.ledger.issues && ttl >= 1 && hash in w.db.tokens && TokenOk(w, hash)
    requires w.db.clock < w.db.tokens[hash].value.expiresAt
    ensures var v := Rotation(w, hash, newHash, ttl); PointersOk(v) && SessionsOk(v) && CeilingsOk(v)
  {
  }

  lemma RotationKeepsInv(w: World, hash: Hash, newHash: Hash, ttl: nat)
    requires Inv(w)
    requires newHash !in w.ledger.issues && ttl >= 1 && hash in w.db.tokens && TokenOk(w, hash)
    requires w.db.clock < w.db.tokens[hash].value.expiresAt
    ensures Inv(Rotation(w, hash, newHash, ttl))
  {
    RotationKeepsTokens(w, hash, newHash, ttl);
    RotationKeepsTombstones(w, hash, newHash, ttl);
    RotationKeepsPointers(w, hash, newHash, ttl);
    RotateKeepsLines(w.ledger, w.db.tokens[hash].value.family, hash, newHash, ttl, w.db.clock);
  }

  lemma StepKeepsInv(w: World, c: Command)
    requires Inv(w) && Fresh(w, c)
    ensures Inv(Step(w, c))
  {
    match c
    case Save(user, hash, family, ttl) =>
      if ttl >= 1 {
        SaveKeepsInv(w, user, hash, family, ttl);
      }
    case Rotate(hash, newHash, ttl) =>
      if ttl >= 1 {
        var out := RotateStep(w.db, hash, newHash, ttl, w.db.clock);
        if out.reply.RotateOk? {
          RotationKeepsInv(w, hash, newHash, ttl);
        } else {
          RotateRefusalShrinks(w, hash, newHash, ttl);
          ShrinkKeepsInv(w, out.db);
        }
      }
    case Revoke(hash) =>
      RevokeShrinks(w, hash);
      ShrinkKeepsInv(w, RevokeStep(w.db, hash).db);
    case RevokeAll(user) =>
      RevokeAllShrinks(w, user);
      ShrinkKeepsInv(w, RevokeAllStep(w.db, user));
    case Tick(seconds) =>
      TickShrinks(w, seconds);
      ShrinkKeepsInv(w, RedisStore.Tick(w.db, seconds));
  }

  lemma SelfShrinks(w: World)
    requires Inv(w)
    ensures Shrinks(w.db, w.db)
  {
    NothingExpired(w);
    forall h | h in w.db.tokens
      ensures TokenOk(w, h)
    {
    }
  }

  lemma ExpiryShrinks(before: Db, hash: Hash)
    requires Shrinks(before, before)
    ensures Shrinks(before, before.(tokens := before.tokens - {hash}))
  {
  }

  lemma ReplayShrinks(w: World, hash: Hash)
    requires Inv(w)
    ensures Shrinks(w.db, Replay(w.db, hash).db)
  {
    if hash in w.db.tombstones && Replay(w.db, hash).reply.RotateReused? {
      KillFamilyShrinks(w, Tombstone.Parse(w.db.tombstones[hash].value).family);
    } else {
      SelfShrinks(w);
    }
  }

  lemma RotateRefusalShrinks(w: World, hash: Hash, newHash: Hash, ttl: nat)
    requires Inv(w) && !RotateStep(w.db, hash, newHash, ttl, w.db.clock).reply.RotateOk?
    ensures Shrinks(w.db, RotateStep(w.db, hash, newHash, ttl, w.db.clock).db)
  {
    if hash in w.db.tokens {
      SelfShrinks(w);
      ExpiryShrinks(w.db, hash);
    } else {
      ReplayShrinks(w, hash);
    }
  }

  lemma RevokeShrinks(w: World, hash: Hash)
    requires Inv(w)
    ensures Shrinks(w.db, RevokeStep(w.db, hash).db)
  {
    SelfShrinks(w);
    if hash in w.db.tokens {
      RevokeLiveIsKillFamily(w, hash);
      KillFamilyShrinks(w, w.db.tokens[hash].value.family);
    } else if hash in w.db.tombstones {
      KillFamilyShrinks(w, Tombstone.Parse(w.db.tombstones[hash].value).family);
    }
  }

  /** The invariant holds after any run that starts in an empty store. */
  lemma {:induction false} RunKeepsInv(w: World, cs: seq<Command>)
    requires Inv(w) && FreshRun(w, cs)
    ensures Inv(Run(w, cs))
    decreases cs
  {
    if cs != [] {
      StepKeepsInv(w, cs[0]);
      RunKeepsInv(Step(w, cs[0]), cs[1..]);
    }
  }

  /** Redis keeps no empty set. */
  ghost predicate NoEmptySets(db: Db) {
    forall u :: u in db.sessions ==> db.sessions[u].value != {}
  }

  lemma StepKeepsSetsFilled(w: World, c: Command)
    requires NoEmptySets(w.db)
    ensures NoEmptySets(Step(w, c).db)
  {
  }

  lemma {:induction false} RunKeepsSetsFilled(w: World, cs: seq<Command>)
    requires NoEmptySets(w.db)
    ensures NoEmptySets(Run(w, cs).db)
    decreases cs
  {
    if cs != [] {
      StepKeepsSetsFilled(w, cs[0]);
      RunKeepsSetsFilled(Step(w, cs[0]), cs[1..]);
    }
  }

  ghost predicate Reachable(w: World) {
    exists now: nat, cs: seq<Command> :: FreshRun(Start(now), cs) && w == Run(Start(now), cs)
  }

  lemma ReachableInv(w: World)
    requires Reachable(w)
    ensures Inv(w)
  {
    var now: nat, cs: seq<Command> :| FreshRun(Start(now), cs) && w == Run(Start(now), cs);
    RunKeepsInv(Start(now), cs);
  }
}
