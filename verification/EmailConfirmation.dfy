/**
 Confirming an email address.  A confirmer first reads its token outside any
 transaction and later commits: both updates are guarded by the column still being
 null.  Resends read the user, invalidate its active tokens and create a new one, in
 three separate statements.  Any number of both run interleaved.
 */
module EmailConfirmation {
  import opened Wrappers

  datatype Token = Token(user: nat, digest: string, expiresAt: int, usedAt: Option<int>)

  /** confirmed_at by user id, and the token rows by token id. */
  datatype Rows = Rows(users: seq<Option<int>>, tokens: seq<Token>)

  datatype Error = TokenInvalid | TokenExpired | TokenUsed | DigestTaken

  /** What a confirmer carries from its read to its commit. */
  datatype Captured = Captured(token: nat, user: nat, readAt: int)

  datatype ReadOutcome = Finished(result: Result<(), Error>) | MayCommit(captured: Captured)

  const TOKEN_TTL := 24 * 3600

  function TokenByDigest(tokens: seq<Token>, digest: string): Option<nat> {
    FirstIndex(tokens, (t: Token) => t.digest == digest)
  }

  function ReadToken(rows: Rows, digest: string, now: int): ReadOutcome {
    var found := TokenByDigest(rows.tokens, digest);
    if found.None? then Finished(Err(TokenInvalid))
    else
      var token := rows.tokens[found.value];
      if now >= token.expiresAt then Finished(Err(TokenExpired))
      else if token.usedAt.Some? then
        Finished(if token.user < |rows.users| && rows.users[token.user].Some? then Ok(()) else Err(TokenUsed))
      else MayCommit(Captured(found.value, token.user, now))
  }

  function Confirmed(users: seq<Option<int>>, user: nat, at: int): seq<Option<int>> {
    if user < |users| && users[user].None? then users[user := Some(at)] else users
  }

  predicate Unused(tokens: seq<Token>, k: nat) {
    k < |tokens| && tokens[k].usedAt.None?
  }

  function CommitRows(rows: Rows, c: Captured, at: int): Rows {
    if !Unused(rows.tokens, c.token) then rows
    else Rows(Confirmed(rows.users, c.user, at), rows.tokens[c.token := rows.tokens[c.token].(usedAt := Some(at))])
  }

  function Invalidated(t: Token, user: nat, at: int): Token {
    if t.user == user && t.usedAt.None? && t.expiresAt > at then t.(usedAt := Some(at)) else t
  }

  function InvalidateActive(tokens: seq<Token>, user: nat, at: int): seq<Token> {
    seq(|tokens|, k requires 0 <= k < |tokens| => Invalidated(tokens[k], user, at))
  }

  function WithToken(rows: Rows, user: nat, digest: string, at: int): Rows {
    if TokenByDigest(rows.tokens, digest).Some? then rows
    else rows.(tokens := rows.tokens + [Token(user, digest, at + TOKEN_TTL, None)])
  }

  function SignUpRows(rows: Rows, digest: string, at: int): Rows {
    if TokenByDigest(rows.tokens, digest).Some? then rows
    else WithToken(rows.(users := rows.users + [None]), |rows.users|, digest, at)
  }

  class Confirmations {
    var users: seq<Option<int>>
    var tokens: seq<Token>

    function State(): Rows
      reads this
    {
      Rows(users, tokens)
    }

    constructor ()
      ensures State() == Rows([], [])
    {
      users, tokens := [], [];
    }

    method ConfirmEmailRead(digest: string, now: int) returns (r: ReadOutcome)
      ensures r == ReadToken(State(), digest, now)
    {
      var found := TokenByDigest(tokens, digest);
      if found.None? {
        return Finished(Err(TokenInvalid));
      }
      var token := tokens[found.value];
      if now >= token.expiresAt {
        return Finished(Err(TokenExpired));
      }
      if token.usedAt.Some? {
        var confirmed := token.user < |users| && users[token.user].Some?;
        return Finished(if confirmed then Ok(()) else Err(TokenUsed));
      }
      return MayCommit(Captured(found.value, token.user, now));
    }

    /** WHERE id = $1 AND confirmed_at IS NULL: no row is no error. */
    method MarkConfirmed(user: nat, at: int)
      modifies this`users
      ensures users == Confirmed(old(users), user, at)
    {
      if user < |users| && users[user].None? {
        users := users[user := Some(at)];
      }
    }

    /** An account that is confirmed as it is created, for someone who joins by an invitation. */
    method CreateConfirmedUser(at: int)
      modifies this`users
      ensures users == old(users) + [Some(at)]
    {
      users := users + [None];
      MarkConfirmed(|users| - 1, at);
    }

    /** WHERE id = $1 AND used_at IS NULL: no row is an error. */
    method MarkUsed(k: nat, at: int) returns (r: Result<(), Error>)
      modifies this`tokens
      ensures r == if Unused(old(tokens), k) then Ok(()) else Err(TokenUsed)
      ensures tokens == if r.Ok? then old(tokens)[k := old(tokens)[k].(usedAt := Some(at))] else old(tokens)
    {
      if k >= |tokens| || tokens[k].usedAt.Some? {
        return Err(TokenUsed);
      }
      tokens := tokens[k := tokens[k].(usedAt := Some(at))];
      return Ok(());
    }

    /** The transaction: the user first, then the token, and everything back on an error. */
    method ConfirmEmailCommit(c: Captured, at: int) returns (r: Result<(), Error>)
      modifies this
      ensures r == if Unused(old(tokens), c.token) then Ok(()) else Err(TokenUsed)
      ensures State() == CommitRows(old(State()), c, at)
    {
      var usersBefore, tokensBefore := users, tokens;
      MarkConfirmed(c.user, at);
      r := MarkUsed(c.token, at);
      if r.Err? {
        users, tokens := usersBefore, tokensBefore;
      }
    }

    /** One UPDATE: it stamps this user's unused tokens that have not expired and leaves every other row. */
    method InvalidateActiveForUser(user: nat, at: int)
      modifies this`tokens
      ensures |tokens| == |old(tokens)|
      ensures forall k :: 0 <= k < |tokens| ==>
                && tokens[k] == old(tokens)[k].(usedAt := tokens[k].usedAt)
                && tokens[k].usedAt == if old(tokens)[k].usedAt.Some? then old(tokens)[k].usedAt
                                       else if tokens[k].user == user && at < tokens[k].expiresAt then Some(at) else None
      ensures tokens == InvalidateActive(old(tokens), user, at)
    {
      for k := 0 to |tokens|
        invariant |tokens| == |old(tokens)|
        invariant forall j :: 0 <= j < |tokens| ==>
            tokens[j] == if j < k then Invalidated(old(tokens)[j], user, at) else old(tokens)[j]
      {
        if tokens[k].user == user && tokens[k].usedAt.None? && tokens[k].expiresAt > at {
          tokens := tokens[k := tokens[k].(usedAt := Some(at))];
        }
      }
    }

    method CreateToken(user: nat, digest: string, at: int) returns (r: Result<(), Error>)
      modifies this`tokens
      ensures r == if TokenByDigest(old(tokens), digest).Some? then Err(DigestTaken) else Ok(())
      ensures State() == WithToken(old(State()), user, digest, at)
    {
      if TokenByDigest(tokens, digest).Some? {
        return Err(DigestTaken);
      }
      tokens := tokens + [Token(user, digest, at + TOKEN_TTL, None)];
      return Ok(());
    }

    /** The two rows of a sign-up that matter here, in one transaction. */
    method SignUp(digest: string, at: int) returns (r: Result<(), Error>)
      modifies this
      ensures r == if TokenByDigest(old(tokens), digest).Some? then Err(DigestTaken) else Ok(())
      ensures State() == SignUpRows(old(State()), digest, at)
    {
      var before := users;
      users := users + [None];
      r := CreateToken(|before|, digest, at);
      if r.Err? {
        users := before;
      }
    }
  }

  // ---- interleaved runs ----

  /** A commit that succeeded. */
  datatype Commit = Commit(captured: Captured, at: int)

  /**
   `readers` and `resenders` are the calls in flight.  No step reads the log of commits,
   nor the set of users who were confirmed when they joined by an invitation.
   */
  datatype World = World(
    rows: Rows, readers: map<nat, Captured>, resenders: map<nat, nat>, commits: seq<Commit>, invited: set<nat>)

  datatype Event =
    | SignUp(digest: string, at: int)
    | JoinByInvitation(at: int)
    | Read(call: nat, digest: string, at: int)
    | CommitCall(call: nat, at: int)
    | ResendRead(call: nat, user: nat)
    | ResendInvalidate(call: nat, at: int)
    | ResendCreate(call: nat, digest: string, at: int)

  function Step(w: World, e: Event): World {
    match e
    case SignUp(digest, at) => w.(rows := SignUpRows(w.rows, digest, at))
    case JoinByInvitation(at) =>
      w.(rows := w.rows.(users := w.rows.users + [Some(at)]), invited := w.invited + {|w.rows.users|})
    case Read(call, digest, at) =>
      var r := ReadToken(w.rows, digest, at);
      if r.MayCommit? then w.(readers := w.readers[call := r.captured]) else w
    case CommitCall(call, at) =>
      if call !in w.readers then w
      else
        var c := w.readers[call];
        w.(rows := CommitRows(w.rows, c, at), readers := w.readers - {call},
           commits := if Unused(w.rows.tokens, c.token) then w.commits + [Commit(c, at)] else w.commits)
    case ResendRead(call, user) =>
      if user < |w.rows.users| && w.rows.users[user].None? then w.(resenders := w.resenders[call := user]) else w
    case ResendInvalidate(call, at) =>
      if call !in w.resenders then w
      else w.(rows := w.rows.(tokens := InvalidateActive(w.rows.tokens, w.resenders[call], at)))
    case ResendCreate(call, digest, at) =>
      if call !in w.resenders then w else w.(rows := WithToken(w.rows, w.resenders[call], digest, at))
  }

  function Run(w: World, es: seq<Event>): World
    decreases es
  {
    if es == [] then w else Run(Step(w, es[0]), es[1..])
  }

  const EMPTY := World(Rows([], []), map[], map[], [], {})

  ghost predicate Reachable(w: World) {
    exists es :: w == Run(EMPTY, es)
  }

  // ---- what every interleaving keeps ----

  /** Rows are only added; confirmed_at and used_at never change once set; no token changes hands or term. */
  ghost predicate Extends(r: Rows, s: Rows) {
    && |r.users| <= |s.users| && |r.tokens| <= |s.tokens|
    && (forall u :: 0 <= u < |r.users| ==> r.users[u].Some? ==> s.users[u] == r.users[u])
    && (forall k :: 0 <= k < |r.tokens| ==>
          && s.tokens[k] == r.tokens[k].(usedAt := s.tokens[k].usedAt)
          && (r.tokens[k].usedAt.Some? ==> s.tokens[k] == r.tokens[k]))
  }

  lemma StepExtends(w: World, e: Event)
    ensures Extends(w.rows, Step(w, e).rows)
    ensures w.commits <= Step(w, e).commits
  {
  }

  lemma {:induction false} StampsNeverChange(w: World, es: seq<Event>)
    ensures Extends(w.rows, Run(w, es).rows) && w.commits <= Run(w, es).commits
    decreases es
  {
    if es != [] {
      StepExtends(w, es[0]);
      StampsNeverChange(Step(w, es[0]), es[1..]);
    }
  }

  /** The token was read before it expired, and belongs to the user the confirmer carries. */
  ghost predicate CapturedOk(rows: Rows, c: Captured) {
    && c.token < |rows.tokens| && c.user == rows.tokens[c.token].user < |rows.users|
    && c.readAt < rows.tokens[c.token].expiresAt
  }

  ghost predicate Confirms(w: World, u: nat, n: nat)
    requires u < |w.rows.users|
  {
    n < |w.commits| && w.commits[n].captured.user == u && w.rows.users[u] == Some(w.commits[n].at)
  }

  /** Who joined by an invitation is confirmed from the start, so no resend makes a token for that account. */
  ghost predicate InvitedOk(w: World) {
    && (forall u <- w.invited :: u < |w.rows.users| && w.rows.users[u].Some?)
    && (forall k :: 0 <= k < |w.rows.tokens| ==> w.rows.tokens[k].user !in w.invited)
    && (forall call :: call in w.resenders ==> w.resenders[call] !in w.invited)
  }

  ghost predicate CallsOk(w: World) {
    && (forall k :: 0 <= k < |w.rows.tokens| ==> w.rows.tokens[k].user < |w.rows.users|)
    && (forall call :: call in w.readers ==> CapturedOk(w.rows, w.readers[call]))
    && (forall call :: call in w.resenders ==> w.resenders[call] < |w.rows.users|)
    && InvitedOk(w)
  }

  ghost predicate CommitsOk(w: World) {
    && (forall n :: 0 <= n < |w.commits| ==>
          && CapturedOk(w.rows, w.commits[n].captured)
          && w.rows.tokens[w.commits[n].captured.token].usedAt == Some(w.commits[n].at)
          && w.rows.users[w.commits[n].captured.user].Some?)
    && (forall m, n :: 0 <= m < n < |w.commits| ==> w.commits[m].captured.token != w.commits[n].captured.token)
  }

  ghost predicate UsersOk(w: World) {
    forall u :: 0 <= u < |w.rows.users| && w.rows.users[u].Some? && u !in w.invited ==> exists n :: Confirms(w, u, n)
  }

  ghost predicate Inv(w: World) {
    CallsOk(w) && CommitsOk(w) && UsersOk(w)
  }

  lemma CommitKeepsUsers(w: World, e: Event)
    requires Inv(w) && e.CommitCall?
    ensures UsersOk(Step(w, e))
  {
    var v := Step(w, e);
    forall u | 0 <= u < |v.rows.users| && v.rows.users[u].Some? && u !in v.invited
      ensures exists n :: Confirms(v, u, n)
    {
      if w.rows.users[u].Some? {
        var n :| Confirms(w, u, n);
        assert Confirms(v, u, n);
      } else {
        assert Confirms(v, u, |w.commits|);
      }
    }
  }

  lemma OtherStepsKeepUsers(w: World, e: Event)
    requires Inv(w) && !e.CommitCall?
    ensures UsersOk(Step(w, e))
  {
    var v := Step(w, e);
    forall u | 0 <= u < |v.rows.users| && v.rows.users[u].Some? && u !in v.invited
      ensures exists n :: Confirms(v, u, n)
    {
      var n :| Confirms(w, u, n);
      assert Confirms(v, u, n);
    }
  }

  lemma StepKeepsCalls(w: World, e: Event)
    requires CallsOk(w)
    ensures CallsOk(Step(w, e))
  {
    StepExtends(w, e);
  }

  lemma StepKeepsCommits(w: World, e: Event)
    requires CallsOk(w) && CommitsOk(w)
    ensures CommitsOk(Step(w, e))
  {
    var v := Step(w, e);
    StepExtends(w, e);
    forall n | 0 <= n < |v.commits|
      ensures CapturedOk(v.rows, v.commits[n].captured)
      ensures v.rows.tokens[v.commits[n].captured.token].usedAt == Some(v.commits[n].at)
      ensures v.rows.users[v.commits[n].captured.user].Some?
    {
      if n < |w.commits| {
        assert v.commits[n] == w.commits[n] && CapturedOk(w.rows, w.commits[n].captured);
      }
    }
    if |v.commits| > |w.commits| {
      assert Unused(w.rows.tokens, v.commits[|w.commits|].captured.token);
    }
  }

  lemma StepKeepsInv(w: World, e: Event)
    requires Inv(w)
    ensures Inv(Step(w, e))
  {
    StepKeepsCalls(w, e);
    StepKeepsCommits(w, e);
    if e.CommitCall? {
      CommitKeepsUsers(w, e);
    } else {
      OtherStepsKeepUsers(w, e);
    }
  }

  lemma {:induction false} RunKeepsInv(w: World, es: seq<Event>)
    requires Inv(w)
    ensures Inv(Run(w, es))
    decreases es
  {
    if es != [] {
      StepKeepsInv(w, es[0]);
      RunKeepsInv(Step(w, es[0]), es[1..]);
    }
  }

  /**
   However reads, commits and resends interleave, every confirmed account joined by an
   invitation and never has a token, or was confirmed by a commit of one of its own
   tokens, read before it expired; each token was committed at most once.
   */
  lemma ConfirmationProvenance(w: World, u: nat)
    requires Reachable(w)
    ensures u < |w.rows.users| && w.rows.users[u].Some? ==>
              if u in w.invited then forall k :: 0 <= k < |w.rows.tokens| ==> w.rows.tokens[k].user != u
              else exists n :: Confirms(w, u, n)
    ensures forall n :: 0 <= n < |w.commits| ==> CapturedOk(w.rows, w.commits[n].captured)
    ensures forall m, n :: 0 <= m < n < |w.commits| ==>
              w.commits[m].captured.token != w.commits[n].captured.token
  {
    var es :| w == Run(EMPTY, es);
    RunKeepsInv(EMPTY, es);
  }

  /** A commit succeeds exactly when the token is unused at that moment; otherwise no row changes. */
  lemma CommitOutcome(w: World, call: nat, at: int)
    requires Reachable(w) && call in w.readers
    ensures var c := w.readers[call];
            var v := Step(w, CommitCall(call, at));
            && CapturedOk(w.rows, c) && CapturedOk(v.rows, c)
            && if w.rows.tokens[c.token].usedAt.None?
               then v.commits == w.commits + [Commit(c, at)] && v.rows.users[c.user].Some?
                    && v.rows.tokens[c.token].usedAt == Some(at)
               else v.rows == w.rows && v.commits == w.commits
  {
    var es :| w == Run(EMPTY, es);
    RunKeepsInv(EMPTY, es);
  }

  /** A token that is used at any moment, by a commit or a resend, is never committed after it. */
  lemma UsedTokenNeverConfirms(w: World, k: nat, es: seq<Event>, call: nat, at: int)
    requires Reachable(w) && k < |w.rows.tokens| && w.rows.tokens[k].usedAt.Some?
    requires var v := Run(w, es); call in v.readers && v.readers[call].token == k
    ensures var v := Run(w, es);
            Step(v, CommitCall(call, at)).rows == v.rows && Step(v, CommitCall(call, at)).commits == v.commits
  {
    StampsNeverChange(w, es);
  }

  /** A resend invalidates exactly the user's tokens that are unused and have not expired yet. */
  lemma ResendInvalidates(w: World, call: nat, at: int, k: nat)
    requires call in w.resenders && k < |w.rows.tokens|
    ensures var before := w.rows.tokens[k];
            var after := Step(w, ResendInvalidate(call, at)).rows.tokens[k];
            after.usedAt.None? <==>
            before.usedAt.None? && (before.user != w.resenders[call] || before.expiresAt <= at)
  {
  }

  lemma {:induction false} UsedTokenIsNotCommitted(w: World, k: nat, es: seq<Event>, n: nat)
    requires k < |w.rows.tokens| && w.rows.tokens[k].usedAt.Some?
    requires |w.commits| <= n < |Run(w, es).commits|
    ensures Run(w, es).commits[n].captured.token != k
    decreases es
  {
    if es != [] {
      var v := Step(w, es[0]);
      StepExtends(w, es[0]);
      if n < |v.commits| {
        StampsNeverChange(v, es[1..]);
      } else {
        UsedTokenIsNotCommitted(v, k, es[1..], n);
      }
    }
  }

  /** Whatever runs after a resend, a commit of one of the user's older tokens is of one that had expired before the resend. */
  lemma OnlyExpiredOutliveResend(w: World, call: nat, at: int, k: nat, es: seq<Event>, n: nat)
    requires call in w.resenders && k < |w.rows.tokens| && w.rows.tokens[k].user == w.resenders[call]
    requires var v := Run(Step(w, ResendInvalidate(call, at)), es);
             |w.commits| <= n < |v.commits| && v.commits[n].captured.token == k
    ensures w.rows.tokens[k].usedAt.None? && w.rows.tokens[k].expiresAt <= at
  {
    ResendInvalidates(w, call, at, k);
    var v := Step(w, ResendInvalidate(call, at));
    if v.rows.tokens[k].usedAt.Some? {
      UsedTokenIsNotCommitted(v, k, es, n);
    }
  }

  /** A commit right after the resend succeeds if and only if its token is such a one. */
  lemma CommitAfterResendIff(w: World, call: nat, at: int, reader: nat, later: int)
    requires Reachable(w) && call in w.resenders && reader in w.readers
    requires w.readers[reader].user == w.resenders[call]
    ensures CapturedOk(w.rows, w.readers[reader])
    ensures var c := w.readers[reader];
            var token := w.rows.tokens[c.token];
            var v := Step(Step(w, ResendInvalidate(call, at)), CommitCall(reader, later));
            v.commits == if token.usedAt.None? && token.expiresAt <= at
                         then w.commits + [Commit(c, later)] else w.commits
  {
    var es :| w == Run(EMPTY, es);
    RunKeepsInv(EMPTY, es);
    ResendInvalidates(w, call, at, w.readers[reader].token);
  }

  /** A confirmer in flight holds token k. */
  ghost predicate Held(w: World, k: nat) {
    exists c :: c in w.readers && w.readers[c].token == k
  }

  predicate NotBefore(e: Event, at: int) {
    e.ResendRead? || at <= e.at
  }

  /** Once a token has expired nobody new gets hold of it. */
  lemma StepKeepsUnheld(w: World, e: Event, k: nat, at: int)
    requires k < |w.rows.tokens| && w.rows.tokens[k].expiresAt <= at && NotBefore(e, at) && !Held(w, k)
    ensures !Held(Step(w, e), k)
    ensures forall n :: |w.commits| <= n < |Step(w, e).commits| ==> Step(w, e).commits[n].captured.token != k
  {
    var v := Step(w, e);
    forall c | c in v.readers
      ensures v.readers[c].token != k
    {
      if c in w.readers {
        assert w.readers[c].token != k;
      }
    }
  }

  lemma {:induction false} UnheldIsNotCommitted(w: World, k: nat, es: seq<Event>, at: int, n: nat)
    requires k < |w.rows.tokens| && w.rows.tokens[k].expiresAt <= at && !Held(w, k)
    requires (forall e <- es :: NotBefore(e, at)) && |w.commits| <= n < |Run(w, es).commits|
    ensures Run(w, es).commits[n].captured.token != k
    decreases es
  {
    if es != [] {
      var v := Step(w, es[0]);
      StepExtends(w, es[0]);
      StepKeepsUnheld(w, es[0], k, at);
      if n < |v.commits| {
        StampsNeverChange(v, es[1..]);
      } else {
        UnheldIsNotCommitted(v, k, es[1..], at, n);
      }
    }
  }

  /** Run `es`, none of it before `at`, commits token k. */
  ghost predicate CommitsLater(w: World, es: seq<Event>, at: int, k: nat, n: nat) {
    && (forall e <- es :: NotBefore(e, at))
    && |w.commits| <= n < |Run(w, es).commits| && Run(w, es).commits[n].captured.token == k
  }

  /**
   After a resend at `at`, one of the user's older tokens can still be committed if and
   only if it is unused, had expired by then, and a confirmer that read it holds it.
   */
  lemma OutlivesResendIff(w: World, call: nat, at: int, k: nat)
    requires Reachable(w) && call in w.resenders
    requires k < |w.rows.tokens| && w.rows.tokens[k].user == w.resenders[call]
    ensures (exists es, n :: CommitsLater(Step(w, ResendInvalidate(call, at)), es, at, k, n))
            <==> w.rows.tokens[k].usedAt.None? && w.rows.tokens[k].expiresAt <= at && Held(w, k)
  {
    var v := Step(w, ResendInvalidate(call, at));
    if es, n :| CommitsLater(v, es, at, k, n) {
      OnlyExpiredOutliveResend(w, call, at, k, es, n);
      if !Held(v, k) {
        UnheldIsNotCommitted(v, k, es, at, n);
      }
    }
    if w.rows.tokens[k].usedAt.None? && w.rows.tokens[k].expiresAt <= at && Held(w, k) {
      var c :| c in w.readers && w.readers[c].token == k;
      ReaderHasTheUser(w, c);
      CommitAfterResendIff(w, call, at, c, at);
      var es := [CommitCall(c, at)];
      assert Run(v, es) == Run(Step(v, es[0]), []) == Step(v, es[0]);
      assert CommitsLater(v, es, at, k, |w.commits|);
    }
  }

  lemma ReaderHasTheUser(w: World, reader: nat)
    requires Reachable(w) && reader in w.readers
    ensures CapturedOk(w.rows, w.readers[reader])
  {
    var es :| w == Run(EMPTY, es);
    RunKeepsInv(EMPTY, es);
  }

  const SIGNED_UP := World(Rows([None], [Token(0, "a", TOKEN_TTL, None)]), map[], map[], [], {})
  const IN_FLIGHT := SIGNED_UP.(readers := map[1 := Captured(0, 0, TOKEN_TTL - 1)], resenders := map[2 := 0])
  const RESENT := IN_FLIGHT.(rows := Rows([None], [Token(0, "a", TOKEN_TTL, None), Token(0, "b", 2 * TOKEN_TTL, None)]))

  lemma ReadInTime()
    ensures Step(EMPTY, SignUp("a", 0)) == SIGNED_UP
    ensures Step(Step(SIGNED_UP, Read(1, "a", TOKEN_TTL - 1)), ResendRead(2, 0)) == IN_FLIGHT
  {
  }

  lemma ResendTooLate()
    ensures Step(IN_FLIGHT, ResendInvalidate(2, TOKEN_TTL)) == IN_FLIGHT
    ensures Step(IN_FLIGHT, ResendCreate(2, "b", TOKEN_TTL)) == RESENT
  {
    assert InvalidateActive(IN_FLIGHT.rows.tokens, 0, TOKEN_TTL) == IN_FLIGHT.rows.tokens;
    assert "a"[0] != "b"[0];
    assert TokenByDigest(IN_FLIGHT.rows.tokens, "b").None?;
  }

  lemma RunFirst(w: World, e: Event, es: seq<Event>)
    ensures Run(w, [e] + es) == Run(Step(w, e), es)
  {
    assert ([e] + es)[1..] == es;
  }

  lemma RunOfFive(w: World, a: Event, b: Event, c: Event, d: Event, e: Event)
    ensures Run(w, [a, b, c, d, e]) == Step(Step(Step(Step(Step(w, a), b), c), d), e)
  {
    var w2 := Step(Step(w, a), b);
    assert [a, b, c, d, e] == [a] + ([b] + [c, d, e]) && [c, d, e] == [c] + ([d] + [e]) && [e] == [e] + [];
    RunFirst(w, a, [b] + [c, d, e]);
    RunFirst(Step(w, a), b, [c, d, e]);
    RunFirst(w2, c, [d] + [e]);
    RunFirst(Step(w2, c), d, [e]);
    RunFirst(Step(Step(w2, c), d), e, []);
  }

  /** Such a run: the token is read in time, expires before the resend, and confirms the account after it. */
  lemma ExpiredTokenOutlivesResend()
    ensures var es := [SignUp("a", 0), Read(1, "a", TOKEN_TTL - 1), ResendRead(2, 0),
                       ResendInvalidate(2, TOKEN_TTL), ResendCreate(2, "b", TOKEN_TTL)];
            var w := Run(EMPTY, es);
            && 1 in w.readers && w.readers[1].token == 0 && |w.rows.tokens| == 2 && w.rows.users == [None]
            && Step(w, CommitCall(1, TOKEN_TTL + 1)).rows.users == [Some(TOKEN_TTL + 1)]
  {
    ReadInTime();
    ResendTooLate();
    RunOfFive(EMPTY, SignUp("a", 0), Read(1, "a", TOKEN_TTL - 1), ResendRead(2, 0),
              ResendInvalidate(2, TOKEN_TTL), ResendCreate(2, "b", TOKEN_TTL));
  }
}
