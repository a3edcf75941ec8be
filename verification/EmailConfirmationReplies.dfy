/** What someone who opens a confirmation link is told, over every interleaving. */
module EmailConfirmationReplies {
  import opened Wrappers
  import opened EmailConfirmation

  ghost predicate DigestsUnique(tokens: seq<Token>) {
    forall k, l :: 0 <= k < l < |tokens| ==> tokens[k].digest != tokens[l].digest
  }

  lemma StepKeepsDigests(w: World, e: Event)
    requires DigestsUnique(w.rows.tokens)
    ensures DigestsUnique(Step(w, e).rows.tokens)
  {
  }

  lemma {:induction false} RunKeepsDigests(w: World, es: seq<Event>)
    requires DigestsUnique(w.rows.tokens)
    ensures DigestsUnique(Run(w, es).rows.tokens)
    decreases es
  {
    if es != [] {
      StepKeepsDigests(w, es[0]);
      RunKeepsDigests(Step(w, es[0]), es[1..]);
    }
  }

  lemma ReachableDigests(w: World)
    requires Reachable(w)
    ensures Inv(w) && DigestsUnique(w.rows.tokens)
  {
    var es :| w == Run(EMPTY, es);
    RunKeepsInv(EMPTY, es);
    RunKeepsDigests(EMPTY, es);
  }

  lemma DigestFinds(tokens: seq<Token>, k: nat)
    requires DigestsUnique(tokens) && k < |tokens|
    ensures TokenByDigest(tokens, tokens[k].digest) == Some(k)
  {
  }

  /** Unknown is invalid. */
  lemma UnknownIsInvalid(w: World, digest: string, now: int)
    requires Reachable(w)
    ensures ReadToken(w.rows, digest, now) == Finished(Err(TokenInvalid))
            <==> forall k :: 0 <= k < |w.rows.tokens| ==> w.rows.tokens[k].digest != digest
  {
    if k :| 0 <= k < |w.rows.tokens| && w.rows.tokens[k].digest == digest {
      ReachableDigests(w);
      DigestFinds(w.rows.tokens, k);
    }
  }

  /** A known token: expired from its expiry on, then to be confirmed if unused, then judged by its account. */
  lemma ReadAnswers(w: World, k: nat, now: int)
    requires Reachable(w) && k < |w.rows.tokens|
    ensures var token := w.rows.tokens[k];
            && token.user < |w.rows.users|
            && ReadToken(w.rows, token.digest, now) ==
               if token.expiresAt <= now then Finished(Err(TokenExpired))
               else if token.usedAt.None? then MayCommit(Captured(k, token.user, now))
               else if w.rows.users[token.user].None? then Finished(Err(TokenUsed))
               else Finished(Ok(()))
  {
    ReachableDigests(w);
    DigestFinds(w.rows.tokens, k);
  }

  lemma RunStaysReachable(w: World, es: seq<Event>)
    requires Reachable(w)
    ensures Reachable(Run(w, es))
  {
    var before :| w == Run(EMPTY, before);
    RunConcat(EMPTY, before, es);
  }

  lemma {:induction false} RunConcat(w: World, es: seq<Event>, more: seq<Event>)
    ensures Run(w, es + more) == Run(Run(w, es), more)
    decreases es
  {
    if es == [] {
      assert es + more == more;
    } else {
      assert (es + more)[1..] == es[1..] + more;
      RunConcat(Step(w, es[0]), es[1..], more);
    }
  }

  lemma StepStaysReachable(w: World, e: Event)
    requires Reachable(w)
    ensures Reachable(Step(w, e))
  {
    RunStaysReachable(w, [e]);
    assert Run(w, [e]) == Run(Step(w, e), []) == Step(w, e);
  }

  /** Opening the link again after it confirmed the account is a success until the token expires, whatever ran since. */
  lemma ReplayAfterCommit(w: World, call: nat, at: int, es: seq<Event>, now: int)
    requires Reachable(w) && call in w.readers && w.readers[call].token < |w.rows.tokens|
    requires w.rows.tokens[w.readers[call].token].usedAt.None?
    ensures var token := w.rows.tokens[w.readers[call].token];
            ReadToken(Run(Step(w, CommitCall(call, at)), es).rows, token.digest, now)
            == Finished(if now < token.expiresAt then Ok(()) else Err(TokenExpired))
  {
    CommitOutcome(w, call, at);
    var v := Step(w, CommitCall(call, at));
    StepExtends(w, CommitCall(call, at));
    StampsNeverChange(v, es);
    StepStaysReachable(w, CommitCall(call, at));
    RunStaysReachable(v, es);
    ReadAnswers(Run(v, es), w.readers[call].token, now);
  }

  /** Opening a link that a resend withdrew says so while the account is unconfirmed; once it is confirmed it is a success. */
  lemma ReplayAfterResend(w: World, call: nat, at: int, k: nat, es: seq<Event>, now: int)
    requires Reachable(w) && call in w.resenders && k < |w.rows.tokens| && w.rows.tokens[k].user == w.resenders[call]
    requires w.rows.tokens[k].usedAt.None? && at < w.rows.tokens[k].expiresAt && now < w.rows.tokens[k].expiresAt
    ensures var v, token := Run(Step(w, ResendInvalidate(call, at)), es), w.rows.tokens[k];
            && token.user < |v.rows.users|
            && ReadToken(v.rows, token.digest, now)
               == Finished(if v.rows.users[token.user].None? then Err(TokenUsed) else Ok(()))
  {
    var v := Step(w, ResendInvalidate(call, at));
    ResendInvalidates(w, call, at, k);
    StepExtends(w, ResendInvalidate(call, at));
    StampsNeverChange(v, es);
    StepStaysReachable(w, ResendInvalidate(call, at));
    RunStaysReachable(v, es);
    ReadAnswers(Run(v, es), k, now);
  }

  /** A resend is for an account that is registered and unconfirmed, and changes nothing otherwise. */
  lemma ResendOnlyUnconfirmed(w: World, call: nat, user: nat)
    requires call !in w.resenders
    ensures call in Step(w, ResendRead(call, user)).resenders <==> user < |w.rows.users| && w.rows.users[user] == None
    ensures Step(w, ResendRead(call, user)).rows == w.rows
  {
  }

  /** The link of a resend can be opened for a day, for the account it was sent to. */
  lemma ResentLinkWorks(w: World, call: nat, digest: string, at: int, now: int)
    requires Reachable(w) && call in w.resenders
    requires forall k :: 0 <= k < |w.rows.tokens| ==> w.rows.tokens[k].digest != digest
    ensures ReadToken(Step(w, ResendCreate(call, digest, at)).rows, digest, now) ==
            if now < at + 24 * 3600 then MayCommit(Captured(|w.rows.tokens|, w.resenders[call], now))
            else Finished(Err(TokenExpired))
  {
    var v := Step(w, ResendCreate(call, digest, at));
    StepStaysReachable(w, ResendCreate(call, digest, at));
    assert TokenByDigest(w.rows.tokens, digest).None?;
    assert v.rows.tokens[|w.rows.tokens|].digest == digest;
    ReadAnswers(v, |w.rows.tokens|, now);
  }

  /** So can the link of a sign-up, for the new and still unconfirmed account; a taken digest signs nobody up. */
  lemma SignedUpLinkWorks(w: World, digest: string, at: int, now: int)
    requires Reachable(w)
    ensures var v := Step(w, SignUp(digest, at)).rows;
            if exists k :: 0 <= k < |w.rows.tokens| && w.rows.tokens[k].digest == digest then v == w.rows
            else && v.users == w.rows.users + [None] && |v.tokens| == |w.rows.tokens| + 1
                 && ReadToken(v, digest, now) ==
                    if now < at + 24 * 3600 then MayCommit(Captured(|w.rows.tokens|, |w.rows.users|, now))
                    else Finished(Err(TokenExpired))
  {
    var v := Step(w, SignUp(digest, at));
    if !exists k :: 0 <= k < |w.rows.tokens| && w.rows.tokens[k].digest == digest {
      StepStaysReachable(w, SignUp(digest, at));
      assert TokenByDigest(w.rows.tokens, digest).None?;
      assert v.rows.tokens[|w.rows.tokens|].digest == digest;
      ReadAnswers(v, |w.rows.tokens|, now);
    }
  }
}
