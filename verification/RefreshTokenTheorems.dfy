/** What the session protocol promises, over every reachable state and every run. */
module RefreshTokenTheorems {
  import opened Wrappers
  import opened RedisStore
  import opened RefreshTokenSteps
  import opened RefreshTokenRuns
  import Tombstone

  ghost predicate FamilyLive(db: Db, family: FamilyId) {
    exists h :: h in db.tokens && db.tokens[h].value.family == family
  }

  ghost predicate UserLive(db: Db, user: UserId) {
    exists h :: h in db.tokens && db.tokens[h].value.user == user
  }

  /** A live family has one token, found through its family key, and its owner's index lists it. */
  lemma LiveFamily(w: World, h: Hash, g: Hash)
    requires Reachable(w) && h in w.db.tokens
    ensures var r := w.db.tokens[h].value;
            && r.family in w.db.families && w.db.families[r.family] == Entry(h, w.db.tokens[h].expireAt)
            && r.family in Members(w.db, r.user)
            && w.db.tokens[h].expireAt <= w.db.sessions[r.user].expireAt
            && (forall u :: r.family in Members(w.db, u) ==> u == r.user)
            && (g in w.db.tokens && w.db.tokens[g].value.family == r.family ==> g == h)
  {
    ReachableInv(w);
    assert TokenOk(w, h);
    if g in w.db.tokens {
      assert TokenOk(w, g);
    }
  }

  // ---- revoking every session of a user ----

  function RevokeAllByScan(db: Db, user: UserId): map<Hash, Entry<Record>> {
    map h | h in db.tokens && db.tokens[h].value.user != user :: db.tokens[h]
  }

  lemma IndexFindsTokens(w: World, user: UserId)
    requires Inv(w)
    ensures RevokeAllStep(w.db, user).tokens == RevokeAllByScan(w.db, user)
  {
    forall h | h in w.db.tokens
      ensures h in LiveHashes(w.db, Members(w.db, user)) <==> w.db.tokens[h].value.user == user
    {
      ListedTokens(w, user, h);
    }
  }

  lemma IndexListsOwnFamilies(w: World, user: UserId, f: FamilyId)
    requires SessionsOk(w) && f in w.ledger.lines && w.ledger.lines[f].user != user
    ensures f !in Members(w.db, user)
  {
  }

  /** The loop over the index removes what a scan of all tokens would, and nothing of anyone else. */
  lemma IndexAgreesWithScan(w: World, user: UserId)
    requires Reachable(w)
    ensures var after := RevokeAllStep(w.db, user);
            && after.tokens == RevokeAllByScan(w.db, user)
            && (forall f :: f in w.ledger.lines && w.ledger.lines[f].user != user ==>
                  (f in after.families <==> f in w.db.families)
                  && (f in after.families ==> after.families[f] == w.db.families[f]))
            && (forall u :: u != user ==>
                  (u in after.sessions <==> u in w.db.sessions)
                  && (u in after.sessions ==> after.sessions[u] == w.db.sessions[u]))
            && user !in after.sessions
            && after.tombstones == w.db.tombstones
  {
    ReachableInv(w);
    IndexFindsTokens(w, user);
    forall f | f in w.ledger.lines && w.ledger.lines[f].user != user
      ensures f !in Members(w.db, user)
    {
      IndexListsOwnFamilies(w, user, f);
    }
  }

  predicate SavesFor(c: Command, user: UserId) {
    c.Save? && c.user == user
  }

  lemma StepBringsNoUser(w: World, c: Command, user: UserId)
    requires Inv(w) && !UserLive(w.db, user) && !SavesFor(c, user)
    ensures !UserLive(Step(w, c).db, user)
  {
    var v := Step(w, c);
    if h :| h in v.db.tokens && v.db.tokens[h].value.user == user {
      TokensComeFrom(w, c, h);
    }
  }

  /** A token present after a step was there before, or was just saved, or replaces one of its family. */
  lemma TokensComeFrom(w: World, c: Command, h: Hash)
    requires h in Step(w, c).db.tokens
    ensures var r := Step(w, c).db.tokens[h].value;
            || (h in w.db.tokens && w.db.tokens[h].value == r)
            || (c.Save? && c.hash == h && c.user == r.user && c.family == r.family)
            || (c.Rotate? && c.newHash == h && c.hash in w.db.tokens
                && w.db.tokens[c.hash].value.user == r.user && w.db.tokens[c.hash].value.family == r.family)
  {
  }

  lemma {:induction false} NoUserWithoutSave(w: World, cs: seq<Command>, user: UserId)
    requires Inv(w) && FreshRun(w, cs) && !UserLive(w.db, user)
    requires forall c :: c in cs ==> !SavesFor(c, user)
    ensures !UserLive(Run(w, cs).db, user)
    decreases cs
  {
    if cs != [] {
      StepBringsNoUser(w, cs[0], user);
      StepKeepsInv(w, cs[0]);
      NoUserWithoutSave(Step(w, cs[0]), cs[1..], user);
    }
  }

  /** After revoke-all, only a new sign-in gives the user a token again. */
  lemma RevokeAllLasts(w: World, user: UserId, cs: seq<Command>)
    requires Reachable(w) && FreshRun(Step(w, RevokeAll(user)), cs)
    requires forall c :: c in cs ==> !SavesFor(c, user)
    ensures !UserLive(Run(Step(w, RevokeAll(user)), cs).db, user)
  {
    IndexAgreesWithScan(w, user);
    ReachableInv(w);
    StepKeepsInv(w, RevokeAll(user));
    NoUserWithoutSave(Step(w, RevokeAll(user)), cs, user);
  }

  // ---- the ledger only grows ----

  predicate RotatesOk(w: World, c: Command) {
    c.Rotate? && c.ttl >= 1 && RotateStep(w.db, c.hash, c.newHash, c.ttl, w.db.clock).reply.RotateOk?
  }

  /** Lines keep their user and ceiling and only lengthen; issues and rotations are never rewritten. */
  ghost predicate Extends(l: Ledger, m: Ledger) {
    && (forall f :: f in l.lines ==>
          && f in m.lines && m.lines[f].user == l.lines[f].user && m.lines[f].ceiling == l.lines[f].ceiling
          && l.lines[f].chain <= m.lines[f].chain)
    && (forall h :: h in l.issues ==> h in m.issues && m.issues[h] == l.issues[h])
    && (forall h :: h in l.consumed ==> h in m.consumed && m.consumed[h] == l.consumed[h])
  }

  lemma RotationExtends(l: Ledger, family: FamilyId, hash: Hash, newHash: Hash, ttl: nat, now: nat)
    requires newHash !in l.issues && hash !in l.consumed
    ensures Extends(l, RecordRotation(l, family, hash, newHash, ttl, now))
  {
  }

  lemma SaveExtends(l: Ledger, user: UserId, hash: Hash, family: FamilyId, ttl: nat, now: nat)
    requires hash !in l.issues && family !in l.lines
    ensures Extends(l, RecordSave(l, user, hash, family, ttl, now))
  {
  }

  /** The ledger moves on a Save and on an accepted rotation only. */
  lemma StepRecords(w: World, c: Command)
    ensures Step(w, c).ledger ==
            if c.Save? && c.ttl >= 1 then RecordSave(w.ledger, c.user, c.hash, c.family, c.ttl, w.db.clock)
            else if RotatesOk(w, c) then
              RecordRotation(w.ledger, w.db.tokens[c.hash].value.family, c.hash, c.newHash, c.ttl, w.db.clock)
            else w.ledger
  {
  }

  lemma StepExtends(w: World, c: Command)
    requires Inv(w) && Fresh(w, c)
    ensures Extends(w.ledger, Step(w, c).ledger)
  {
    StepRecords(w, c);
    if RotatesOk(w, c) {
      assert TokenOk(w, c.hash);
      RotationExtends(w.ledger, w.db.tokens[c.hash].value.family, c.hash, c.newHash, c.ttl, w.db.clock);
    } else if c.Save? {
      SaveExtends(w.ledger, c.user, c.hash, c.family, c.ttl, w.db.clock);
    }
  }

  lemma {:induction false} RunExtends(w: World, cs: seq<Command>)
    requires Inv(w) && FreshRun(w, cs)
    ensures Extends(w.ledger, Run(w, cs).ledger)
    decreases cs
  {
    if cs != [] {
      StepExtends(w, cs[0]);
      StepKeepsInv(w, cs[0]);
      RunExtends(Step(w, cs[0]), cs[1..]);
    }
  }

  // ---- linear history ----

  /** The tokens of one Save are a chain without repeats; a live token is its end; a token is rotated from its end. */
  lemma HistoryIsAChain(w: World, f: FamilyId, h: Hash)
    requires Reachable(w) && f in w.ledger.lines && h in w.ledger.issues && w.ledger.issues[h].family == f
    ensures var chain := w.ledger.lines[f].chain;
            && chain != []
            && (forall i, j :: 0 <= i < j < |chain| ==> chain[i] != chain[j])
            && h in chain
            && (h in w.ledger.consumed <==> h != chain[|chain| - 1])
            && (h in w.db.tokens ==> h == chain[|chain| - 1] && w.db.tokens[h].value.family == f)
  {
    ReachableInv(w);
    assert LineOk(w.ledger, f);
    var i :| 0 <= i < |w.ledger.lines[f].chain| && w.ledger.lines[f].chain[i] == h;
    if h in w.db.tokens {
      assert TokenOk(w, h);
    }
  }

  /** A successful rotation lengthens exactly one chain, at the end, by exactly the new token. */
  lemma RotationAppends(w: World, c: Command)
    requires Reachable(w) && Fresh(w, c) && RotatesOk(w, c)
    ensures var f := w.db.tokens[c.hash].value.family;
            && f in w.ledger.lines
            && var chain := w.ledger.lines[f].chain;
            && chain != [] && chain[|chain| - 1] == c.hash
            && Step(w, c).ledger.lines == w.ledger.lines[f := w.ledger.lines[f].(chain := chain + [c.newHash])]
  {
    ReachableInv(w);
    assert TokenOk(w, c.hash);
  }

  lemma RotatedIsConsumed(w: World, c: Command)
    requires Inv(w) && Fresh(w, c) && RotatesOk(w, c)
    ensures c.hash in w.db.tokens && c.hash !in w.ledger.consumed
    ensures var m := Step(w, c).ledger;
            && c.hash in m.consumed && m.consumed[c.hash] == w.db.clock
            && c.hash in m.issues && m.issues[c.hash] == w.ledger.issues[c.hash]
            && m.issues[c.hash] == Issue(w.db.tokens[c.hash].value.family, w.db.tokens[c.hash].value.expiresAt)
  {
    assert TokenOk(w, c.hash);
  }

  /** No token is rotated twice, whatever happens in between. */
  lemma RotatedAtMostOnce(w: World, c: Command, cs: seq<Command>, d: Command)
    requires Reachable(w) && FreshRun(w, [c] + cs) && RotatesOk(w, c)
    requires RotatesOk(Run(Step(w, c), cs), d) && Fresh(Run(Step(w, c), cs), d)
    ensures d.hash != c.hash
  {
    ReachableInv(w);
    assert ([c] + cs)[1..] == cs;
    RotatedIsConsumed(w, c);
    StepKeepsInv(w, c);
    RunExtends(Step(w, c), cs);
    RunKeepsInv(Step(w, c), cs);
    RotatedIsConsumed(Run(Step(w, c), cs), d);
  }

  /** A family whose live token is gone never gets one again. */
  lemma {:induction false} DeadFamilyStaysDead(w: World, cs: seq<Command>, f: FamilyId)
    requires Inv(w) && FreshRun(w, cs) && f in w.ledger.lines && !FamilyLive(w.db, f)
    ensures !FamilyLive(Run(w, cs).db, f)
    decreases cs
  {
    if cs != [] {
      var v := Step(w, cs[0]);
      if h :| h in v.db.tokens && v.db.tokens[h].value.family == f {
        TokensComeFrom(w, cs[0], h);
      }
      StepExtends(w, cs[0]);
      StepKeepsInv(w, cs[0]);
      DeadFamilyStaysDead(v, cs[1..], f);
    }
  }

  // ---- reuse of a rotated token ----

  lemma KilledFamilyIsDead(w: World, family: FamilyId)
    requires Inv(w)
    ensures !FamilyLive(KillFamily(w.db, family), family)
  {
    forall h | h in w.db.tokens
      ensures TokenOk(w, h)
    {
    }
  }

  lemma KillIgnoresClock(db: Db, family: FamilyId, redisNow: nat)
    ensures KillFamily(db.(clock := redisNow), family) == KillFamily(db, family).(clock := redisNow)
  {
  }

  /**
   A token rotated at second `t` and presented while its tombstone stands is answered
   race or reused.  Which of the two follows from Redis' clock `redisNow` alone, be it
   ahead of `t` or set back behind it, and not from the caller's.
   */
  lemma ReplayVerdict(w: World, h: Hash, newHash: Hash, ttl: nat, callerNow: int, redisNow: nat)
    requires Inv(w) && h in w.ledger.consumed && h in w.db.tombstones
    ensures var out := RotateStep(w.db.(clock := redisNow), h, newHash, ttl, callerNow);
            var family := w.ledger.issues[h].family;
            if 0 <= redisNow - w.ledger.consumed[h] <= 10
            then out == Rotated(w.db.(clock := redisNow), RotateRace(family)) && Answer(out.reply) == Err(TokenInvalid)
            else && out.reply == RotateReused(family) && Answer(out.reply) == Err(TokenReused)
                 && !FamilyLive(out.db, family)
  {
    assert ConsumedOk(w, h);
    var family := w.ledger.issues[h].family;
    Tombstone.RoundTrip(family, w.ledger.consumed[h]);
    KilledFamilyIsDead(w, family);
    KillIgnoresClock(w.db, family, redisNow);
  }

  /**
   From its rotation to its own original expiry, whatever ran in between, a rotated
   token is never accepted and never unknown; past the grace window it ends its family.
   */
  lemma ReuseCoverage(w: World, c: Command, cs: seq<Command>, newHash: Hash, ttl: nat, callerNow: int)
    requires Reachable(w) && FreshRun(w, [c] + cs) && RotatesOk(w, c)
    requires Run(Step(w, c), cs).db.clock <= w.db.tokens[c.hash].value.expiresAt
    ensures var v := Run(Step(w, c), cs);
            var family := w.db.tokens[c.hash].value.family;
            var out := RotateStep(v.db, c.hash, newHash, ttl, callerNow);
            && w.db.clock <= v.db.clock
            && if v.db.clock - w.db.clock <= 10
               then out == Rotated(v.db, RotateRace(family)) && Answer(out.reply) == Err(TokenInvalid)
               else && out.reply == RotateReused(family) && Answer(out.reply) == Err(TokenReused)
                    && !FamilyLive(out.db, family)
  {
    ReachableInv(w);
    assert ([c] + cs)[1..] == cs;
    RotatedIsConsumed(w, c);
    StepKeepsInv(w, c);
    RunExtends(Step(w, c), cs);
    RunKeepsInv(Step(w, c), cs);
    var v := Run(Step(w, c), cs);
    assert ConsumedOk(v, c.hash);
    ReplayVerdict(v, c.hash, newHash, ttl, callerNow, v.db.clock);
  }

  /**
   What the caller of Rotate learns, from what has been handed out and rotated so far: a
   token that is still there is good until its expiry, a rotated one is reported as
   reused from ten seconds after its rotation until its expiry, and nothing else is.
   */
  lemma RotateAnswers(w: World, h: Hash, newHash: Hash, ttl: nat, now: int)
    requires Reachable(w)
    ensures h in w.db.tokens ==> h in w.ledger.issues && w.ledger.issues[h].family in w.ledger.lines
    ensures w.ledger.consumed.Keys <= w.ledger.issues.Keys
    ensures Answer(RotateStep(w.db, h, newHash, ttl, now).reply) ==
            if h in w.db.tokens then
              if now >= w.ledger.issues[h].expiresAt then Err(TokenExpired)
              else Ok(w.ledger.lines[w.ledger.issues[h].family].user)
            else if h in w.ledger.consumed && w.db.clock <= w.ledger.issues[h].expiresAt
                    && w.db.clock > w.ledger.consumed[h] + 10 then Err(TokenReused)
            else Err(TokenInvalid)
  {
    ReachableInv(w);
    if h in w.db.tokens {
      assert TokenOk(w, h);
    } else if h in w.ledger.consumed {
      assert ConsumedOk(w, h);
      if h in w.db.tombstones {
        ReplayVerdict(w, h, newHash, ttl, now, w.db.clock);
      }
    }
  }

  // ---- what older versions left behind ----

  /** A tombstone without a stamp is never taken for a race. */
  lemma UnstampedIsReuse(db: Db, h: Hash, newHash: Hash, ttl: nat, now: int)
    requires h !in db.tokens && h in db.tombstones
    requires var family := db.tombstones[h].value; forall j :: 0 <= j < |family| ==> family[j] != ':'
    ensures var family := db.tombstones[h].value;
            RotateStep(db, h, newHash, ttl, now) == Rotated(KillFamily(db, family), RotateReused(family))
  {
    Tombstone.Unstamped(db.tombstones[h].value);
  }

  /** A record without a ceiling gets one seven days ahead at its first rotation, and every later token is below it. */
  lemma FirstRotationSetsCeiling(db: Db, h: Hash, newHash: Hash, ttl: nat, now: int)
    requires h in db.tokens && db.tokens[h].value.ceiling.None? && now < db.tokens[h].value.expiresAt && newHash != h
    ensures var out := RotateStep(db, h, newHash, ttl, now);
            && out.reply == RotateOk(db.tokens[h].value.user, db.tokens[h].value.family)
            && newHash in out.db.tokens && h !in out.db.tokens
            && out.db.tokens[newHash].value.ceiling == Some(now + 7 * 24 * 3600)
            && out.db.tokens[newHash].value.expiresAt <= now + 7 * 24 * 3600
            && out.db.tokens[newHash].expireAt <= out.db.clock + 7 * 24 * 3600
  {
  }

  // ---- a burst of presentations ----

  datatype Presentation = Presentation(wait: nat, newHash: Hash, ttl: nat)

  datatype Burst = Burst(db: Db, answers: seq<Result<UserId, Error>>)

  function Present(db: Db, h: Hash, ps: seq<Presentation>): Burst
    decreases ps
  {
    if ps == [] then Burst(db, [])
    else
      var ticked := RedisStore.Tick(db, ps[0].wait);
      var out := RotateStep(ticked, h, ps[0].newHash, ps[0].ttl, ticked.clock);
      var rest := Present(out.db, h, ps[1..]);
      Burst(rest.db, [Answer(out.reply)] + rest.answers)
  }

  function TotalWait(ps: seq<Presentation>): nat {
    if ps == [] then 0 else ps[0].wait + TotalWait(ps[1..])
  }

  lemma TicksAdd(db: Db, a: nat, b: nat, total: nat)
    requires total == a + b
    ensures RedisStore.Tick(RedisStore.Tick(db, a), b) == RedisStore.Tick(db, total)
  {
  }

  /** A token rotated at second `t` whose grace window has at least `elapse` seconds left. */
  ghost predicate Losing(db: Db, h: Hash, t: nat, elapse: nat) {
    && h !in db.tokens
    && (h in db.tombstones ==> Tombstone.Parse(db.tombstones[h].value).rotatedAt == Some(t))
    && t <= db.clock && db.clock - t + elapse <= GRACE_WINDOW
  }

  lemma LoserChangesNothing(db: Db, h: Hash, t: nat, p: Presentation, elapse: nat)
    requires Losing(db, h, t, elapse) && p.wait <= elapse
    ensures var ticked := RedisStore.Tick(db, p.wait);
            var out := RotateStep(ticked, h, p.newHash, p.ttl, ticked.clock);
            && Losing(ticked, h, t, elapse - p.wait)
            && out.db == ticked && Answer(out.reply) == Err(TokenInvalid)
  {
  }

  lemma PresentLoser(db: Db, ticked: Db, h: Hash, ps: seq<Presentation>)
    requires ps != [] && ticked == RedisStore.Tick(db, ps[0].wait)
    requires var out := RotateStep(ticked, h, ps[0].newHash, ps[0].ttl, ticked.clock);
             out.db == ticked && Answer(out.reply) == Err(TokenInvalid)
    ensures Present(db, h, ps) ==
            var rest := Present(ticked, h, ps[1..]); Burst(rest.db, [Err(TokenInvalid)] + rest.answers)
  {
  }

  lemma {:induction false} LosersAreRejected(db: Db, h: Hash, t: nat, ps: seq<Presentation>)
    requires Losing(db, h, t, TotalWait(ps))
    ensures |Present(db, h, ps).answers| == |ps|
    ensures forall i :: 0 <= i < |ps| ==> Present(db, h, ps).answers[i] == Err(TokenInvalid)
    decreases ps
  {
    if ps != [] {
      var ticked := RedisStore.Tick(db, ps[0].wait);
      LoserChangesNothing(db, h, t, ps[0], TotalWait(ps));
      PresentLoser(db, ticked, h, ps);
      LosersAreRejected(ticked, h, t, ps[1..]);
    }
  }

  ghost predicate OnlyWaits(db: Db, ps: seq<Presentation>, after: Db) {
    after == if ps == [] then db else RedisStore.Tick(db, TotalWait(ps))
  }

  lemma WaitsAdd(db: Db, ps: seq<Presentation>)
    requires ps != []
    ensures RedisStore.Tick(RedisStore.Tick(db, ps[0].wait), TotalWait(ps[1..])) == RedisStore.Tick(db, TotalWait(ps))
  {
    TicksAdd(db, ps[0].wait, TotalWait(ps[1..]), TotalWait(ps));
  }

  lemma OnlyWaitsStep(db: Db, ps: seq<Presentation>, after: Db)
    requires ps != [] && OnlyWaits(db, ps, after)
    ensures OnlyWaits(RedisStore.Tick(db, ps[0].wait), ps[1..], after)
  {
    if ps[1..] == [] {
      assert TotalWait(ps) == ps[0].wait;
    } else {
      WaitsAdd(db, ps);
    }
  }

  /** The store after the losers is the store after the waits alone. */
  lemma {:induction false} LosersChangeNothing(db: Db, h: Hash, t: nat, ps: seq<Presentation>, after: Db)
    requires Losing(db, h, t, TotalWait(ps)) && OnlyWaits(db, ps, after)
    ensures Present(db, h, ps).db == after
    decreases ps
  {
    if ps != [] {
      var ticked := RedisStore.Tick(db, ps[0].wait);
      LoserChangesNothing(db, h, t, ps[0], TotalWait(ps));
      PresentLoser(db, ticked, h, ps);
      OnlyWaitsStep(db, ps, after);
      LosersChangeNothing(ticked, h, t, ps[1..], after);
    }
  }

  lemma TickOfZero(w: World)
    requires Inv(w)
    ensures RedisStore.Tick(w.db, 0) == w.db
  {
    NothingExpired(w);
    forall h | h in w.db.tokens
      ensures w.db.clock <= w.db.tokens[h].expireAt
    {
      assert TokenOk(w, h);
    }
    assert Unexpired(w.db.tokens, w.db.clock) == w.db.tokens;
    assert Unexpired(w.db.families, w.db.clock) == w.db.families;
    assert Unexpired(w.db.sessions, w.db.clock) == w.db.sessions;
  }

  lemma ValidTokenRotates(w: World, c: Command)
    requires Inv(w) && c.Rotate? && c.ttl >= 1 && ValidateStep(w.db, c.hash, w.db.clock).Ok?
    ensures RotatesOk(w, c)
    ensures Answer(RotateStep(w.db, c.hash, c.newHash, c.ttl, w.db.clock).reply)
            == ValidateStep(w.db, c.hash, w.db.clock)
    ensures RotateStep(w.db, c.hash, c.newHash, c.ttl, w.db.clock).db == Step(w, c).db
  {
    assert TokenOk(w, c.hash);
  }

  lemma RotatedIsLosing(w: World, c: Command, elapse: nat)
    requires Inv(w) && Fresh(w, c) && RotatesOk(w, c) && elapse <= GRACE_WINDOW
    ensures Losing(Step(w, c).db, c.hash, w.db.clock, elapse)
    ensures RedisStore.Tick(Step(w, c).db, 0) == Step(w, c).db
  {
    StepKeepsInv(w, c);
    TickOfZero(Step(w, c));
    RotatedIsConsumed(w, c);
    assert ConsumedOk(Step(w, c), c.hash);
    Tombstone.RoundTrip(Step(w, c).ledger.issues[c.hash].family, w.db.clock);
  }

  /**
   Of n >= 1 presentations of one acceptable token within the grace window exactly the
   first is accepted, and the store ends as that one left it, up to key expiry.
   */
  lemma BurstSafety(w: World, h: Hash, ps: seq<Presentation>)
    requires Reachable(w) && ValidateStep(w.db, h, w.db.clock).Ok?
    requires ps != [] && ps[0].wait == 0 && ps[0].ttl >= 1 && ps[0].newHash !in w.ledger.issues
    requires TotalWait(ps) <= GRACE_WINDOW
    ensures var burst := Present(w.db, h, ps);
            && |burst.answers| == |ps|
            && burst.answers[0] == ValidateStep(w.db, h, w.db.clock)
            && (forall i :: 0 < i < |ps| ==> burst.answers[i] == Err(TokenInvalid))
            && burst.db == RedisStore.Tick(
                             RotateStep(w.db, h, ps[0].newHash, ps[0].ttl, w.db.clock).db, TotalWait(ps))
  {
    ReachableInv(w);
    TickOfZero(w);
    var c := Rotate(h, ps[0].newHash, ps[0].ttl);
    ValidTokenRotates(w, c);
    RotatedIsLosing(w, c, TotalWait(ps));
    var won := Step(w, c).db;
    LosersAreRejected(won, h, w.db.clock, ps[1..]);
    LosersChangeNothing(won, h, w.db.clock, ps[1..], RedisStore.Tick(won, TotalWait(ps)));
  }

  // ---- the family ceiling ----

  /** No token outlives the ceiling set when its family was saved, in the record or as a key, and no family key does. */
  lemma FamilyCeiling(w: World, cs: seq<Command>, f: FamilyId, h: Hash)
    requires Reachable(w) && FreshRun(w, cs) && f in w.ledger.lines
    ensures var v := Run(w, cs);
            && f in v.ledger.lines && v.ledger.lines[f].ceiling == w.ledger.lines[f].ceiling
            && (h in v.ledger.issues && v.ledger.issues[h].family == f ==>
                  v.ledger.issues[h].expiresAt <= w.ledger.lines[f].ceiling)
            && (h in v.db.tokens && v.db.tokens[h].value.family == f ==>
                  && v.db.tokens[h].value.ceiling == Some(w.ledger.lines[f].ceiling)
                  && v.db.tokens[h].value.expiresAt == v.db.tokens[h].expireAt <= w.ledger.lines[f].ceiling)
            && (f in v.db.families ==> v.db.families[f].expireAt <= w.ledger.lines[f].ceiling)
  {
    ReachableInv(w);
    RunKeepsInv(w, cs);
    RunExtends(w, cs);
    var v := Run(w, cs);
    assert LineOk(v.ledger, f);
    if h in v.db.tokens {
      assert TokenOk(v, h);
    }
  }

  /** A saved token is good for its user for `ttl` seconds, and for seven days at most. */
  lemma SavedTokenIsGood(w: World, c: Command, seconds: nat)
    requires c.Save? && c.ttl >= 1
    ensures var v := Step(Step(w, c), Tick(seconds));
            ValidateStep(v.db, c.hash, v.db.clock) ==
            if seconds < c.ttl && seconds < 7 * 24 * 3600 then Ok(c.user)
            else if seconds == c.ttl <= 7 * 24 * 3600 || seconds == 7 * 24 * 3600 <= c.ttl then Err(TokenExpired)
            else Err(TokenInvalid)
  {
  }

  /** The ceiling of a family lies seven days after its Save. */
  lemma SaveSetsCeiling(w: World, c: Command)
    requires c.Save? && c.ttl >= 1
    ensures c.family in Step(w, c).ledger.lines
    ensures Step(w, c).ledger.lines[c.family] == Line(c.user, w.db.clock + 7 * 24 * 3600, [c.hash])
  {
  }

  lemma ReplacedTokenIsGood(db: Db, h: Hash, newHash: Hash, ttl: nat, seconds: nat)
    requires h in db.tokens && db.tokens[h].value.ceiling.Some? && ttl >= 1
    ensures var record, v := db.tokens[h].value, RedisStore.Tick(Replace(db, h, newHash, ttl, db.clock), seconds);
            ValidateStep(v, newHash, v.clock) == Ok(record.user)
            <==> seconds < ttl && db.clock + seconds < record.ceiling.value
  {
  }

  lemma RotationReplaces(w: World, c: Command)
    requires Inv(w) && Fresh(w, c) && RotatesOk(w, c)
    ensures c.hash in w.db.tokens && Step(w, c).db == Replace(w.db, c.hash, c.newHash, c.ttl, w.db.clock)
    ensures var r := w.db.tokens[c.hash].value;
            && r.family in w.ledger.lines && r.user == w.ledger.lines[r.family].user
            && r.ceiling == Some(w.ledger.lines[r.family].ceiling)
  {
    assert TokenOk(w, c.hash);
  }

  /** A successor is good for the same user for `ttl` seconds, and up to its family's ceiling at most. */
  lemma RotatedTokenIsGood(w: World, c: Command, seconds: nat)
    requires Reachable(w) && Fresh(w, c) && RotatesOk(w, c)
    ensures w.db.tokens[c.hash].value.family in w.ledger.lines
    ensures var line := w.ledger.lines[w.db.tokens[c.hash].value.family];
            var v := RedisStore.Tick(Step(w, c).db, seconds);
            ValidateStep(v, c.newHash, v.clock) == Ok(line.user)
            <==> seconds < c.ttl && w.db.clock + seconds < line.ceiling
  {
    ReachableInv(w);
    RotationReplaces(w, c);
    ReplacedTokenIsGood(w.db, c.hash, c.newHash, c.ttl, seconds);
  }

  // ---- logout ----

  /** Logging out with a rotated token, or with the live one, or a detected reuse: the same state. */
  lemma LogoutConfluence(w: World, h: Hash, live: Hash, newHash: Hash, ttl: nat)
    requires Reachable(w) && h in w.db.tombstones && live in w.db.tokens && h in w.ledger.issues
    requires w.db.tokens[live].value.family == w.ledger.issues[h].family
    ensures RevokeStep(w.db, h).db == RevokeStep(w.db, live).db
    ensures var out := RotateStep(w.db, h, newHash, ttl, w.db.clock);
            out.reply.RotateReused? ==> out.db == RevokeStep(w.db, live).db
  {
    ReachableInv(w);
    assert ConsumedOk(w, h);
    Tombstone.RoundTrip(w.ledger.issues[h].family, w.ledger.consumed[h]);
    RevokeLiveIsKillFamily(w, live);
  }

  /** Logout ends exactly one family, and doing it twice is doing it once. */
  lemma LogoutEndsOneFamily(w: World, h: Hash)
    requires Reachable(w) && h in w.ledger.issues && (h in w.db.tokens || h in w.db.tombstones)
    ensures var family := w.ledger.issues[h].family;
            var after := RevokeStep(w.db, h).db;
            && !FamilyLive(after, family)
            && (forall g :: g in w.db.tokens && w.db.tokens[g].value.family != family ==>
                  g in after.tokens && after.tokens[g] == w.db.tokens[g])
            && (forall f :: f in w.db.families && f != family ==>
                  f in after.families && after.families[f] == w.db.families[f])
            && (forall u :: Members(after, u) - {family} == Members(w.db, u) - {family})
            && (forall u :: u in after.sessions ==>
                  u in w.db.sessions && after.sessions[u].expireAt == w.db.sessions[u].expireAt)
            && after.tombstones == w.db.tombstones
            && RevokeStep(after, h).db == after
  {
    ReachableInv(w);
    RevokeIsKill(w, h);
    KillEndsOneFamily(w, w.ledger.issues[h].family);
    RevokeAgain(w, h);
  }

  lemma KillEndsOneFamily(w: World, family: FamilyId)
    requires Inv(w)
    ensures var after := KillFamily(w.db, family);
            && !FamilyLive(after, family)
            && (forall g :: g in w.db.tokens && w.db.tokens[g].value.family != family ==>
                  g in after.tokens && after.tokens[g] == w.db.tokens[g])
            && (forall f :: f in w.db.families && f != family ==>
                  f in after.families && after.families[f] == w.db.families[f])
            && (forall u :: Members(after, u) - {family} == Members(w.db, u) - {family})
            && (forall u :: u in after.sessions ==>
                  u in w.db.sessions && after.sessions[u].expireAt == w.db.sessions[u].expireAt)
            && after.tombstones == w.db.tombstones
  {
    KilledFamilyIsDead(w, family);
    KillTouchesOneFamily(w, family);
  }

  lemma RevokeIsKill(w: World, h: Hash)
    requires Inv(w) && h in w.ledger.issues && (h in w.db.tokens || h in w.db.tombstones)
    ensures RevokeStep(w.db, h).db == KillFamily(w.db, w.ledger.issues[h].family)
  {
    if h in w.db.tokens {
      assert TokenOk(w, h);
      RevokeLiveIsKillFamily(w, h);
    } else {
      assert ConsumedOk(w, h);
      Tombstone.RoundTrip(w.ledger.issues[h].family, w.ledger.consumed[h]);
    }
  }

  lemma KillRemoves(db: Db, family: FamilyId)
    ensures var after := KillFamily(db, family);
            && after.tombstones == db.tombstones && family !in after.families
            && after.tokens.Keys <= db.tokens.Keys
            && (family in db.families ==> db.families[family].value !in after.tokens)
  {
  }

  lemma RevokeOfNothing(db: Db, h: Hash, family: FamilyId)
    requires h !in db.tokens && family !in db.families
    requires h in db.tombstones ==> Tombstone.Parse(db.tombstones[h].value).family == family
    ensures RevokeStep(db, h).db == db
  {
  }

  lemma RevokeAgain(w: World, h: Hash)
    requires Inv(w) && h in w.ledger.issues && (h in w.db.tokens || h in w.db.tombstones)
    ensures var after := KillFamily(w.db, w.ledger.issues[h].family); RevokeStep(after, h).db == after
  {
    var family := w.ledger.issues[h].family;
    KillRemoves(w.db, family);
    if h in w.db.tokens {
      assert TokenOk(w, h);
      assert h !in w.db.tombstones;
    } else {
      assert ConsumedOk(w, h);
      Tombstone.RoundTrip(family, w.ledger.consumed[h]);
    }
    RevokeOfNothing(KillFamily(w.db, family), h, family);
  }

  lemma KillTouchesOneFamily(w: World, family: FamilyId)
    requires TokensOk(w) && PointersOk(w)
    ensures var after := KillFamily(w.db, family);
            && (forall g :: g in w.db.tokens && w.db.tokens[g].value.family != family ==>
                  g in after.tokens && after.tokens[g] == w.db.tokens[g])
            && after.families == w.db.families - {family} && after.tombstones == w.db.tombstones
            && (forall u :: Members(after, u) - {family} == Members(w.db, u) - {family})
            && (forall u :: u in after.sessions ==>
                  u in w.db.sessions && after.sessions[u].expireAt == w.db.sessions[u].expireAt)
  {
    forall g | g in w.db.tokens
      ensures family in w.db.families && w.db.families[family].value == g ==> w.db.tokens[g].value.family == family
    {
      assert TokenOk(w, g);
    }
  }

  // ---- the two ways of checking a token ----

  /** Validate accepts a token, for a user, exactly when Rotate would at the same caller's second. */
  lemma ValidateAgreesWithRotate(w: World, h: Hash, newHash: Hash, ttl: nat, now: int, user: UserId)
    requires Reachable(w) && ttl >= 1
    ensures ValidateStep(w.db, h, now) == Ok(user)
            <==> Answer(RotateStep(w.db, h, newHash, ttl, now).reply) == Ok(user)
    ensures ValidateStep(w.db, h, now) == Err(TokenExpired)
            <==> Answer(RotateStep(w.db, h, newHash, ttl, now).reply) == Err(TokenExpired)
  {
    ReachableInv(w);
    if h in w.db.tokens {
      ExpiresByItsCeiling(w, h);
    } else {
      ReplayIsNotExpired(w.db, h);
    }
  }

  lemma ExpiresByItsCeiling(w: World, h: Hash)
    requires TokensOk(w) && h in w.db.tokens
    ensures w.db.tokens[h].value.ceiling.Some?
    ensures w.db.tokens[h].value.expiresAt <= w.db.tokens[h].value.ceiling.value
  {
    assert TokenOk(w, h);
  }

  lemma ReplayIsNotExpired(db: Db, h: Hash)
    ensures Answer(Replay(db, h).reply).Err? && Answer(Replay(db, h).reply) != Err(TokenExpired)
  {
  }
}
