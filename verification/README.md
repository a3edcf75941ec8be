# Verified models of tuenti

Dafny models of the parts of tuenti where state, time and concurrency meet, with
proofs about every input, every run or every reachable state. Each operation that the
program performs step by step is a method on a class whose fields it changes, proved
equal to one function from old state to new state; the theorems are lemmas about those
functions and about runs of them.

- **Refresh-token sessions** (`RedisStore`, `Tombstone`, `RefreshTokenSteps`,
  `RefreshTokenStore`, `RefreshTokenRuns`, `RefreshTokenTheorems`,
  `RefreshTokenRefinement`). The three scripts and the Save transaction over one flat
  store of string keys: single-use rotation, the grace window, reuse detection, the
  family ceiling, the session index. The store refines a machine with two maps. The
  scheme is the refresh token rotation of section 4.14.2 of RFC 9700.
- **Rate limiter** (`RateLimit`). INCR and PEXPIRE NX of many requests, interleaved.
- **Membership by invitation** (`Memberships`, `MembershipTheorems`, `MembershipOutcomes`). Sign-up, create,
  accept and revoke over five tables, with rollback.
- **Email confirmation** (`EmailConfirmation`, `EmailConfirmationReplies`). Confirmers that read and commit
  separately, interleaved with resends.
- **Expired-trial sweep** (`TrialSweep`, `SubscriptionLaws`). The loop, the batch query, the access policy.
- **Items and their taxes** (`ItemTaxes`, `ItemLaws`). The transactional writes and the batched
  loader.

## Where the code does not do what one would expect

Each of these is proved as the exact condition under which the expectation holds, or
with a concrete state that breaks it.

- The limiter can serve more than Max requests in one window, if and only if Max and the
  window are both at least two (`MoreThanMaxIff`): 2 * Max - 1, and Max in a window of one
  millisecond, are the exact bounds (`WindowBound`, `BoundIsSharp`). A rejection is
  preceded by exactly Max served requests since its window *opened*; over the whole
  preceding window Max is only a lower bound, exact if and only if the last request that
  the previous counter served came before that window (`PrecedingWindow`).
- An invitation that expires unanswered blocks its address from that organization for
  ever: the unique index ignores the expiry, and revoking an expired invitation does
  nothing (`ExpiredInvitationBlocksForever`).
- A revoked invitation is stamped accepted if and only if someone who is already a member
  presents it (`RevokedIsStampedIff`), and such a state is reached (`RevokedIsStamped`).
  Only a revoked one can be stamped without anybody joining (`StampWithoutJoining`).
- After a resend a user's older token can still be committed if and only if it is unused,
  had expired before the resend, and is held by a confirmer that read it in time
  (`OutlivesResendIff`); such a run exists (`ExpiredTokenOutlivesResend`).
- The sweep compares strictly where the policy does not, so a trial ending at the
  sweep's own instant waits for the next sweep (`DueUnlessEndingNow`).
- While a row that would not fail is due, a sweep may get nowhere if and only if 500
  failing due rows end no later than any such row (`MayStallIff`), and gets nowhere
  whatever the query answers if and only if 500 end earlier (`MustStallIff`). As long as
  those keep failing, every later sweep changes nothing (`HoldUpLasts`); such a state
  exists (`HeldUp`).
- Tax rates pass validation with any number of decimals, but the column has two: the
  taxes read back are the taxes written if and only if no rate is finer
  (`ReadBackIsExactIff`). An item rate below half a cent is stored as zero, and the
  item as read is then refused by validation (`ReadBackIsRefusedIff`).

## Model

| member | source | states |
|---|---|---|
| Tombstone.RoundTrip | internal/core/identity/persistence/refresh_token_store.go:52-61 | parsing the printed tombstone gives back family and stamp, whatever characters the family id holds |
| Tombstone.Unstamped | internal/core/identity/persistence/refresh_token_store.go:54-57 | a bare family id parses to itself without a stamp |
| RedisStore.RenderIsInjective | internal/core/identity/persistence/refresh_token_store.go:441-444 | two keys of any of the four kinds have one name only if they are one key |
| RedisStore.PutRepresents | internal/core/identity/persistence/refresh_token_store.go:441-444 | writing one name in the flat store changes that one key of that one kind |
| RedisStore.DelRepresents | internal/core/identity/persistence/refresh_token_store.go:441-444 | deleting one name in the flat store deletes that one key |
| RedisStore.TickRepresents | internal/core/identity/persistence/refresh_token_store.go:136-144 | dropping expired names from the flat store drops the expired keys of each kind |
| RefreshTokenStore.Store.Write | internal/core/identity/persistence/refresh_token_store.go:136-144 | every expiry argument is at least one, as its callers prove; exactly one key changes |
| RefreshTokenStore.Store.RemoveSession | internal/core/identity/persistence/refresh_token_store.go:184-186 | SREM takes one family out of one set, and an emptied set is no key |
| RefreshTokenStore.Store.Save | internal/core/identity/persistence/refresh_token_store.go:217-262 | a ttl below a second is refused unchanged; otherwise record, family key and session entry are written, capped at the family lifetime |
| RefreshTokenStore.Store.Validate | internal/core/identity/persistence/refresh_token_store.go:264-286 | unknown is invalid, at or past its expiry is expired, else the user; nothing changes |
| RefreshTokenStore.Store.ReplayScript | internal/core/identity/persistence/refresh_token_store.go:90-118 | a token without record is invalid, raced, or reused with its family ended |
| RefreshTokenStore.Store.RotateScript | internal/core/identity/persistence/refresh_token_store.go:69-147 | the script's commands in order amount to one rotation step and its reply |
| RefreshTokenStore.Store.Rotate | internal/core/identity/persistence/refresh_token_store.go:288-352 | each outcome of the script becomes the user or one of the four errors by name, a lost race reading as invalid and a reuse as reused |
| RefreshTokenStore.Store.Revoke | internal/core/identity/persistence/refresh_token_store.go:149-189 | logout ends the family of a live token, or of a remembered rotated one |
| RefreshTokenStore.Store.EndFamilies | internal/core/identity/persistence/refresh_token_store.go:196-204 | the loop, in any order, deletes the listed family keys and the tokens they name |
| RefreshTokenStore.Store.RevokeAllForUser | internal/core/identity/persistence/refresh_token_store.go:191-207 | all listed families end, the index goes, and the reply is their number |
| RefreshTokenRuns.StepKeepsInv | internal/core/identity/persistence/refresh_token_store.go:84-207 | every command keeps the run invariant, key expiry included |
| RefreshTokenRuns.RunKeepsInv | internal/core/identity/persistence/refresh_token_store.go:84-262 | the invariant holds along any run with fresh token digests and family ids |
| RefreshTokenRuns.RunKeepsSetsFilled | internal/core/identity/persistence/refresh_token_store.go:110-112 | no run leaves an empty session set behind |
| RefreshTokenRuns.ListedTokens | internal/core/identity/persistence/refresh_token_store.go:196-205 | the index reaches a token exactly when the token is the user's |
| RefreshTokenTheorems.LiveFamily | internal/core/identity/persistence/refresh_token_store.go:125-144 | a live family has one token, its family key names it, its owner's index and no other lists it, and that index outlives it |
| RefreshTokenTheorems.IndexAgreesWithScan | internal/core/identity/persistence/refresh_token_store.go:191-207 | looping over the index removes what a scan of all records would, and every other user's tokens, family keys and session set stay as they were |
| RefreshTokenTheorems.RevokeAllLasts | internal/core/identity/persistence/refresh_token_store.go:384-393 | no continuation without a new Save gives the user a token again |
| RefreshTokenTheorems.HistoryIsAChain | internal/core/identity/persistence/refresh_token_store.go:84-146 | the tokens of one Save form a chain without repeats, consumed but for the last, which alone can be live |
| RefreshTokenTheorems.RotationAppends | internal/core/identity/persistence/refresh_token_store.go:125-146 | a rotation lengthens one chain at its end by the new token |
| RefreshTokenTheorems.RotatedAtMostOnce | internal/core/identity/persistence/refresh_token_store.go:135-136 | after any run in between, a rotated token is not rotated again |
| RefreshTokenTheorems.DeadFamilyStaysDead | internal/core/identity/persistence/refresh_token_store.go:90-118 | a family without a live token never regains one |
| RefreshTokenTheorems.ReplayVerdict | internal/core/identity/persistence/refresh_token_store.go:96-117 | race or reused, and with it the caller's error, is decided by the Redis clock alone, a negative age being reuse, and reuse ends the family |
| RefreshTokenTheorems.ReuseCoverage | internal/core/identity/persistence/refresh_token_store.go:90-136 | until its own expiry a rotated token presented again is answered as invalid for ten seconds and as reused after them, whatever ran since |
| RefreshTokenTheorems.RotateAnswers | internal/core/identity/persistence/refresh_token_store.go:324-351 | in every reachable state, the caller's user or error from what was issued and rotated; reused is reported for such rotated tokens and no others |
| RefreshTokenTheorems.UnstampedIsReuse | internal/core/identity/persistence/refresh_token_store.go:96-117 | a tombstone without a stamp is never taken for a race |
| RefreshTokenTheorems.FirstRotationSetsCeiling | internal/core/identity/persistence/refresh_token_store.go:88 | a record without a ceiling gets one seven days ahead at its first rotation |
| RefreshTokenTheorems.BurstSafety | internal/core/identity/persistence/refresh_token_store.go:96-104 | of any number of presentations inside the grace window only the first is accepted, and the state is the winner's |
| RefreshTokenTheorems.FamilyCeiling | internal/core/identity/persistence/refresh_token_store.go:120-144 | over any run and all ttls, no token, token key or family key of a family outlives the ceiling fixed at Save |
| RefreshTokenTheorems.SavedTokenIsGood | internal/core/identity/persistence/refresh_token_store.go:217-262 | a saved token validates for its user for its ttl and for seven days at most, then is expired, then unknown |
| RefreshTokenTheorems.SaveSetsCeiling | internal/core/identity/persistence/refresh_token_store.go:235-241 | the ceiling of a family lies seven days after its Save |
| RefreshTokenTheorems.RotatedTokenIsGood | internal/core/identity/persistence/refresh_token_store.go:125-144 | a successor validates for the same user for its ttl and up to the family's ceiling at most |
| RefreshTokenTheorems.LogoutConfluence | internal/core/identity/persistence/refresh_token_store.go:149-189 | logout by a rotated token, by the live token, and a detected reuse leave the same state |
| RefreshTokenTheorems.LogoutEndsOneFamily | internal/core/identity/persistence/refresh_token_store.go:173-186 | logout ends one family, leaves the others and the expiry of every remaining session set, and twice is once |
| RefreshTokenTheorems.ValidateAgreesWithRotate | internal/core/identity/domain/refresh_token.go:13-27 | Validate accepts, or calls expired, exactly what Rotate would at that second, for the same user |
| RefreshTokenRefinement.RefinesOne | internal/core/identity/persistence/refresh_token_store.go:18-23 | the store determines the state of the simple machine |
| RefreshTokenRefinement.StepRefines | internal/core/identity/persistence/refresh_token_store.go:69-262 | each command on the four kinds of keys is one step of the two-map machine |
| RefreshTokenRefinement.RunRefines | internal/core/identity/persistence/refresh_token_store.go:69-262 | so is every run |
| RefreshTokenRefinement.RepliesRefine | internal/core/identity/persistence/refresh_token_store.go:264-352 | after any run the reply to a presented token, Validate's user or error, and the outcome of a logout are the machine's |
| RateLimit.Limiter.DoIncr | internal/http/middleware/ratelimit.go:103 | counts on from a visible counter and from nothing once it expired |
| RateLimit.Limiter.DoPExpireNx | internal/http/middleware/ratelimit.go:104 | sets an expiry only where there is none, on this key only |
| RateLimit.Limiter.Admit | internal/http/middleware/ratelimit.go:51-71 | a request is served exactly when its count is at most Max |
| RateLimit.WindowBound | internal/http/middleware/ratelimit.go:51-68 | under any interleaving of the commands at most 2 * Max - 1 requests are served in an interval of one window, and at most Max in a window of one millisecond |
| RateLimit.BoundIsSharp | internal/http/middleware/ratelimit.go:96-112 | for every Max and every window some stream serves exactly that many |
| RateLimit.MoreThanMaxIff | internal/http/middleware/ratelimit.go:76-94 | some stream gets more than Max served within one window if and only if Max and the window are both at least two |
| RateLimit.LifetimeBound | internal/http/middleware/ratelimit.go:96-112 | one counter lifetime serves at most Max, less what it has already counted |
| RateLimit.EveryCounterExpires | internal/http/middleware/ratelimit.go:102-107 | once all pipelines have finished no counter is without an expiry |
| RateLimit.OpenerCounts | internal/http/middleware/ratelimit.go:102-107 | a counter counts the requests since its opener, rejected ones too, and expires one window after it |
| RateLimit.LastServed | internal/http/middleware/ratelimit.go:61-71 | which request a counter served last: its Max-th, or the last before the next counter opened |
| RateLimit.RejectionJustified | internal/http/middleware/ratelimit.go:61-69 | a rejection follows exactly Max served requests since its window opened |
| RateLimit.PrecedingWindow | internal/http/middleware/ratelimit.go:61-69 | over the whole preceding window at least Max were served, and exactly Max if and only if there was no earlier counter or the last request it served came before that window |
| RateLimit.MoreThanMaxBeforeARejection | internal/http/middleware/ratelimit.go:61-69 | a stream where the preceding window served more than Max |
| RateLimit.ServedOnceTheWindowEnds | internal/http/middleware/ratelimit.go:102-107 | rejected requests do not extend the window: the first request after it is served |
| Memberships.Database.InsertMembership | internal/core/organization/persistence/membership_repository.go:33-47 | one membership per user and organization, else an error and no change |
| Memberships.Database.InsertInvitation | internal/core/organization/persistence/invitation_repository.go:50-66 | unique digest, and one open invitation per folded address and organization, whatever its expiry |
| Memberships.Database.EnsureNotAlreadyMember | internal/core/organization/application/create_invitation.go:119-143 | refused exactly if a user of that address has a membership in the organization |
| Memberships.Database.EnsureNoPendingInvitation | internal/core/organization/application/create_invitation.go:145-160 | refused exactly if the address has an unanswered, unexpired invitation there |
| Memberships.Database.SignUp | internal/core/identity/application/signup.go:54-108 | user, organization, founding manager and confirmation token together, or nothing |
| Memberships.Database.CreateInvitation | internal/core/organization/application/create_invitation.go:58-117 | the checks in order, then the insert; an error leaves every table |
| Memberships.Database.JoinOrganization | internal/core/organization/application/accept_invitation.go:171-195 | a membership on the invitation's terms and the accepted stamp |
| Memberships.Database.AcceptAsExistingUser | internal/core/organization/application/accept_invitation.go:87-118 | a repeat by a member succeeds, before validity is looked at |
| Memberships.Database.AcceptAsNewUser | internal/core/organization/application/accept_invitation.go:120-169 | fields first, then validity, then a confirmed user who joins |
| Memberships.Database.AcceptInvitation | internal/core/organization/application/accept_invitation.go:33-71 | the unit of work: the outcome of the step, or the tables as they were |
| Memberships.Database.RevokeInvitation | internal/core/organization/application/revoke_invitation.go:29-63 | stamps only an unanswered, unexpired invitation; otherwise succeeds without effect |
| MembershipTheorems.ReachableInv | internal/core/organization/application/accept_invitation.go:33-195 | the invariant of users, organizations, memberships and invitations holds in every reachable state |
| MembershipTheorems.LineageReachesFounder | internal/core/organization/domain/authorization_policy.go:32-43 | following inviters from any membership ends at a founder, never through a plain member |
| MembershipTheorems.RoleProvenance | internal/core/organization/domain/authorization_policy.go:32-43 | every membership leads by invitations of earlier members with the right to assign its role to the one founder, managers through managers only |
| MembershipTheorems.StampsAreWrittenOnce | internal/core/organization/persistence/invitation_repository.go:36-38 | over any run rows are only added, invitations keep their terms, and each stamp is written at most once |
| MembershipTheorems.JoinsWhileValid | internal/core/organization/application/accept_invitation.go:113-139 | a membership comes of an invitation only while that is unaccepted, unrevoked and unexpired, with its role and organization |
| MembershipTheorems.InvitationLifecycle | internal/core/organization/domain/invitation.go:22-48 | one membership per user and organization and per invitation, and one open invitation per folded address and organization |
| MembershipTheorems.OpenInvitesStrangers | internal/core/organization/application/create_invitation.go:92-98 | in no reachable state is the address of an unanswered, unrevoked invitation a member of its organization |
| MembershipTheorems.CreateSucceedsIff | internal/core/organization/application/create_invitation.go:64-111 | inviting succeeds exactly when the inviter may, the address is no member, and no unanswered invitation is left |
| MembershipTheorems.AcceptSucceedsIff | internal/core/organization/application/accept_invitation.go:43-139 | accepting succeeds exactly when a member repeats it, or the invitation is valid and the fields fit the account |
| MembershipTheorems.RevokedIsStampedIff | internal/core/organization/application/accept_invitation.go:98-108 | a revoked invitation is stamped accepted exactly when a member presents it, and nobody joins by it |
| MembershipTheorems.RevokedIsStamped | internal/core/organization/application/accept_invitation.go:98-108 | a reachable state in which it happens: revoked, invited again, joined, then the first invitation presented |
| MembershipTheorems.StampWithoutJoining | internal/core/organization/application/accept_invitation.go:98-108 | an invitation stamped accepted without a new membership had been revoked |
| MembershipTheorems.ExpiredInvitationBlocksForever | db/migrations/000010_create_invitations.up.sql:19-21 | once any invitation expired unanswered, every later attempt to invite its address is refused, whatever runs between |
| MembershipTheorems.ExpiredInvitationExists | internal/core/organization/application/revoke_invitation.go:50-54 | such a state is reached by one sign-up and one invitation |
| MembershipOutcomes.FoldIgnoresCase | internal/core/organization/persistence/invitation_repository.go:28-31 | two addresses are one exactly when they differ in nothing but the case of letters |
| MembershipOutcomes.SignUpOutcome | internal/core/identity/application/signup.go:54-108 | every answer of a sign-up, and every row it writes |
| MembershipOutcomes.CreateOutcome | internal/core/organization/application/create_invitation.go:64-111 | every answer of an invitation attempt with its exact condition, roles by name |
| MembershipOutcomes.CreateWrites | internal/core/organization/application/create_invitation.go:100-111 | a success adds exactly the invitation asked for, from the inviter's own membership, for seven days; an error changes nothing |
| MembershipOutcomes.JoinsAsInvited | internal/core/organization/application/accept_invitation.go:171-195 | whatever runs in between, whoever joins by an invitation has the address, organization and role it was made for |
| MembershipOutcomes.RevokeOutcome | internal/core/organization/application/revoke_invitation.go:29-63 | every answer of a revocation, and its only effect |
| MembershipOutcomes.RevokedIff | internal/core/organization/application/revoke_invitation.go:32-58 | in any step, an invitation becomes revoked exactly if a manager, or an admin for roles below manager, revokes it in its organization while it is unanswered and unexpired |
| MembershipOutcomes.UnknownTokenIsRefused | internal/core/organization/application/accept_invitation.go:46-49 | a token of no invitation is not found and changes nothing |
| MembershipOutcomes.AcceptErrors | internal/core/organization/application/accept_invitation.go:51-139 | every error of an acceptance, in the order in which they are looked for |
| MembershipOutcomes.AcceptWrites | internal/core/organization/application/accept_invitation.go:120-195 | the account is the one of the address or a new confirmed one; it joins on the invitation's terms, which is stamped, and nothing else changes |
| MembershipOutcomes.RepeatedAcceptWrites | internal/core/organization/application/accept_invitation.go:98-108 | a member gets the membership there is, and at most the stamp is written |
| EmailConfirmation.Confirmations.ConfirmEmailRead | internal/core/identity/application/confirm_email.go:34-48 | the read phase finishes for an unknown, expired or used token and otherwise carries token and user on |
| EmailConfirmation.Confirmations.MarkConfirmed | internal/core/identity/persistence/user_repository.go:24 | writes confirmed_at only where it is null |
| EmailConfirmation.Confirmations.CreateConfirmedUser | internal/core/organization/application/accept_invitation.go:142-169 | one more account, confirmed as it is created |
| EmailConfirmation.Confirmations.MarkUsed | internal/core/identity/persistence/email_confirmation_token_repository.go:52-63 | writes used_at only where it is null, and no row is an error |
| EmailConfirmation.Confirmations.ConfirmEmailCommit | internal/core/identity/application/confirm_email.go:50-56 | both updates or neither |
| EmailConfirmation.Confirmations.InvalidateActiveForUser | internal/core/identity/persistence/email_confirmation_token_repository.go:65-69 | row by row: owner, digest and expiry are kept, used rows stay as they are, and a row becomes used exactly if it is this user's and unexpired |
| EmailConfirmation.Confirmations.CreateToken | internal/core/identity/persistence/email_confirmation_token_repository.go:30-33 | one unused token for a day, or an error and no row if its digest is taken |
| EmailConfirmation.Confirmations.SignUp | internal/core/identity/application/signup.go:74-108 | the unconfirmed user and its token together, or neither |
| EmailConfirmation.StampsNeverChange | internal/core/identity/persistence/email_confirmation_token_repository.go:18-20 | over every interleaving used_at and confirmed_at never change once set and rows are only added |
| EmailConfirmation.ConfirmationProvenance | internal/core/identity/application/confirm_email.go:34-62 | every confirmed account joined by an invitation and never has a token, or was confirmed by a commit of its own token read in time; no token is committed twice |
| EmailConfirmation.CommitOutcome | internal/core/identity/application/confirm_email.go:50-56 | a commit succeeds exactly when its token is unused at that moment; a failed one changes no row |
| EmailConfirmation.UsedTokenNeverConfirms | internal/core/identity/persistence/email_confirmation_token_repository.go:18-20 | a token used at any moment, by a commit or a resend, is never committed after it |
| EmailConfirmation.ResendInvalidates | internal/core/identity/application/resend_confirmation.go:44-50 | exactly the user's unused tokens that have not expired become used |
| EmailConfirmation.OnlyExpiredOutliveResend | internal/core/identity/persistence/email_confirmation_token_repository.go:20 | whatever runs after a resend, in any order of clocks, a commit of an older token of its user is of one that was unused and had expired before the resend |
| EmailConfirmation.CommitAfterResendIff | internal/core/identity/application/confirm_email.go:50-56 | for a confirmer that holds an older token, a commit right after the resend succeeds if and only if the token is such a one |
| EmailConfirmation.OutlivesResendIff | internal/core/identity/application/confirm_email.go:34-56 | some continuation not before the resend commits an older token if and only if that is unused, had expired by then, and a confirmer in flight holds it |
| EmailConfirmation.ExpiredTokenOutlivesResend | internal/core/identity/persistence/email_confirmation_token_repository.go:20 | a run in which a token that expired before the resend still confirms after it |
| EmailConfirmationReplies.UnknownIsInvalid | internal/core/identity/application/confirm_email.go:37-40 | invalid exactly for a digest of no row |
| EmailConfirmationReplies.ReadAnswers | internal/core/identity/application/confirm_email.go:42-48 | a known token is expired from its expiry on, else confirms if unused, else is judged by its account |
| EmailConfirmationReplies.ReplayAfterCommit | internal/core/identity/application/confirm_email.go:64-75 | after a successful commit and any further run, opening the link again succeeds until the token expires |
| EmailConfirmationReplies.ReplayAfterResend | internal/core/identity/application/confirm_email.go:64-75 | after a resend and any further run, the withdrawn link is reported as used exactly while its account is unconfirmed |
| EmailConfirmationReplies.ResendOnlyUnconfirmed | internal/core/identity/application/resend_confirmation.go:35-46 | a resend goes on exactly for a registered, unconfirmed account |
| EmailConfirmationReplies.ResentLinkWorks | internal/core/identity/application/resend_confirmation.go:57-65 | the new link can be opened for a day, for the account it was sent to |
| EmailConfirmationReplies.SignedUpLinkWorks | internal/core/identity/application/signup.go:96-107 | so can the link of a sign-up; a taken digest signs nobody up |
| TrialSweep.Organization.StartTrial | internal/core/organization/domain/organization.go:32-36 | the policy lets the organization work exactly until fourteen days from now, and the sweep passes it over until after that |
| TrialSweep.Organization.TransitionTo | internal/core/organization/domain/organization.go:54-63 | succeeds exactly for an allowed target, else keeps the status |
| TrialSweep.Sweeper.Register | internal/core/identity/application/signup.go:79-88 | a sign-up stores its organization on trial from now |
| TrialSweep.Sweeper.UpdateSubscriptionStatus | internal/core/organization/persistence/organization_repository.go:87-98 | sets one row's status, or reports that there is no such row |
| TrialSweep.Sweeper.Execute | internal/core/organization/application/suspend_expired_trials.go:27-66 | found is suspended plus failed, and exactly the rows that did not fail are suspended |
| TrialSweep.SweepIsInvisible | internal/core/organization/domain/access_policy.go:7-24 | whatever fails, no answer of the policy changes at the sweep's clock or later |
| TrialSweep.SweepWrites | internal/core/organization/application/suspend_expired_trials.go:39-74 | exactly the due rows of the batch that do not fail become suspended, with their dates as they were |
| TrialSweep.DueUnlessEndingNow | internal/core/organization/persistence/organization_repository.go:21-22 | an expired trial is passed over only at the instant it ends |
| TrialSweep.BatchSize | internal/core/organization/persistence/organization_repository.go:60-67 | any answer to the query has the size of the backlog, at most the limit |
| TrialSweep.BatchExists | internal/core/organization/persistence/organization_repository.go:21-22 | the query always has an answer |
| TrialSweep.SweepShrinksBacklog | internal/core/organization/application/suspend_expired_trials.go:27-66 | a sweep without failures takes a full batch off the backlog, or all of it |
| TrialSweep.BacklogEmptiesInBatches | internal/core/organization/persistence/organization_repository.go:60-67 | such sweeps at one clock empty a backlog of k after ceil(k / 500) runs and not before |
| TrialSweep.StallsIff | internal/core/organization/application/suspend_expired_trials.go:39-49 | a sweep changes nothing if and only if its whole batch fails |
| TrialSweep.MayStallIff | internal/core/organization/persistence/organization_repository.go:21-22 | with a row due that would not fail, some answer of the query stalls the sweep if and only if 500 failing due rows end no later than any such row |
| TrialSweep.MustStallIff | internal/core/organization/persistence/organization_repository.go:21-22 | every answer stalls it if and only if 500 failing due rows end earlier than any such row |
| TrialSweep.AheadHoldUp | internal/core/organization/persistence/organization_repository.go:21-22 | those 500 rows end before every other trial, due or not |
| TrialSweep.HoldUpLasts | internal/core/organization/application/suspend_expired_trials.go:27-66 | while 500 such rows keep failing every later sweep, at any later clock, changes nothing, whatever else is done in between that moves no trial's end and starts none ending before theirs |
| TrialSweep.RegisterIsMeanwhile | internal/core/organization/domain/organization.go:32-36 | sign-ups are among the things that do not help |
| TrialSweep.HeldUp | internal/core/organization/persistence/organization_repository.go:60-67 | such a state: 500 trials that fail and one that never gets its turn |
| TrialSweep.FewFailuresNeverBlock | internal/core/organization/application/suspend_expired_trials.go:39-49 | fewer failing due rows than a batch holds cannot stop it |
| SubscriptionLaws.ChangesThereAre | internal/core/organization/domain/organization.go:25-30 | the nine status changes there are |
| SubscriptionLaws.AccessAfterChange | internal/core/organization/domain/access_policy.go:7-24 | after a change the organization may work always if it became active and never otherwise |
| SubscriptionLaws.AccessAfterRun | internal/core/organization/domain/access_policy.go:7-24 | over any run of changes nothing returns to trial, the dates stay, and time decides only for an untouched trial |
| SubscriptionLaws.CanceledForGood | internal/core/organization/domain/organization.go:25-30 | a canceled organization stays canceled and may never work again |
| SubscriptionLaws.CanceledIsTheOnlyEnd | internal/core/organization/domain/organization.go:25-30 | some run of changes makes an organization active if and only if it is not canceled |
| SubscriptionLaws.SweptThenActivated | internal/core/organization/domain/organization.go:38-63 | a swept organization may not work until it becomes active, the only change left to it |
| ItemTaxes.Catalog.AttachTaxes | internal/core/catalog/persistence/item_repository.go:145-181 | each item gets what a query for it alone gives, an empty list if that is nothing; of several with one id the last does |
| ItemTaxes.Catalog.List | internal/core/catalog/persistence/item_repository.go:117-143 | every listed item carries its own taxes in query order |
| ItemTaxes.Catalog.FindById | internal/core/catalog/persistence/item_repository.go:99-115 | a visible item with its stored details and taxes, else not found |
| ItemTaxes.Catalog.InsertItemTaxes | internal/core/catalog/persistence/item_repository.go:183-197 | succeeds exactly when all rows fit and no key repeats, and then appends them all and fills in their ids |
| ItemTaxes.Catalog.Create | internal/core/catalog/persistence/item_repository.go:56-65 | succeeds exactly when the item and all its taxes can be inserted |
| ItemTaxes.Catalog.Update | internal/core/catalog/persistence/item_repository.go:67-84 | only an item its organization can see; its taxes are replaced |
| ItemTaxes.Catalog.Delete | internal/core/catalog/persistence/item_repository.go:86-97 | hides a visible item once, and a second time does not find it |
| ItemTaxes.Catalog.CreateItem | internal/core/catalog/application/create_item.go:26-41 | validation, then one transaction: everything written or no table changed |
| ItemTaxes.Catalog.UpdateItem | internal/core/catalog/application/update_item.go:20-35 | validation, then one transaction: everything replaced or no table changed |
| ItemTaxes.Validate | internal/core/catalog/domain/item.go:76-119 | the first failing check in the program's order, and the normalized item otherwise |
| ItemTaxes.BatchedEqualsPerItem | internal/core/catalog/persistence/item_repository.go:42-43 | the rows of some items within a batch are, in order, what a query for those alone gives |
| ItemTaxes.ReadBack | internal/core/catalog/persistence/item_repository.go:56-84 | after a write the item has exactly the taxes written, as the columns keep them, and no other item's change |
| ItemTaxes.ReadBackIsExactIff | db/migrations/000014_create_item_taxes.up.sql:7 | they are the taxes as given if and only if no rate has more than two decimals |
| ItemTaxes.FineRateIsRounded | db/migrations/000014_create_item_taxes.up.sql:7 | 12.345 passes validation and is kept as 12.35 |
| ItemTaxes.ValidRatesFit | db/migrations/000014_create_item_taxes.up.sql:11 | after validation the column's range check cannot fail |
| ItemTaxes.ReadBackIsRefusedIff | internal/core/catalog/domain/item.go:87-89 | an item read back after a valid write is refused if and only if its rate was below half a cent |
| ItemTaxes.SavingWhatWasRead | internal/core/catalog/persistence/item_repository.go:67-84 | saving an item as read changes only timestamps, and fails exactly when its stored rate is zero |
| ItemLaws.ValidationIs | internal/core/catalog/domain/item.go:76-119 | every answer of validation, with its bounds by name, in the program's order |
| ItemLaws.CreateSucceedsIff | internal/core/catalog/persistence/item_repository.go:56-65 | a new item is written exactly if it is valid, fits its columns, and neither it nor its taxes repeat an identity |
| ItemLaws.UpdateSucceedsIff | internal/core/catalog/persistence/item_repository.go:67-84 | an update succeeds only on an item its organization has and did not delete, else not found, and may reuse its own taxes' identities |
| ItemLaws.CreateThenFind | internal/core/catalog/persistence/item_repository.go:56-115 | what was created is found by its organization and no other, with what was given, to the cent |
| ItemLaws.UpdateThenFind | internal/core/catalog/persistence/item_repository.go:67-115 | what was updated is found as updated, by the same organization only, created when it was |
| ItemLaws.DeleteThenFind | internal/core/catalog/persistence/item_repository.go:86-115 | only what an organization has can it delete, and then nobody finds it |
| ItemLaws.OtherItemsAreUntouched | internal/core/catalog/persistence/item_repository.go:56-97 | a refused command changes nothing, and no command changes any other item or its taxes |
| ItemLaws.RunIsolates | internal/core/catalog/persistence/item_repository.go:31-46 | however many commands other organizations send, an item and its taxes stay as they are |
| ItemLaws.DeletedForGood | internal/core/catalog/persistence/item_repository.go:39-46 | after any run a deleted item is found by nobody |
| ItemLaws.RunKeepsRows | db/migrations/000014_create_item_taxes.up.sql:2-12 | in every state, taxes belong to items, rates are valid to the cent, and no service tracks stock |
| ItemLaws.QueryHolds | internal/core/catalog/persistence/item_repository.go:42-43 | the query answers each row of the items asked for as often as the table has it, and no other |
| ItemLaws.QueryIsOrdered | internal/core/catalog/persistence/item_repository.go:42-43 | oldest first, and by identity among rows created at once |

## Left out

- Records written before `family_expires_at` existed and tombstones without a stamp: their branches are modelled and the methods cover them, but nothing in the program writes them any more, so no run contains them.
- Time within a second, and a caller's clock that differs from the Redis clock, in the run theorems; `ReplayVerdict`, `ReuseCoverage` and `ValidateAgreesWithRotate` let the caller's clock be anything.
- HSET followed by EXPIRE in one script or transaction is one write of a key with its expiry.
- Token text, digests, random draws and password hashing: digests are opaque strings, fresh where the program draws them.
- The size of Lua numbers: stamps and expiries are unbounded here.
- Failures of Redis and Postgres, the limiter's fail-open paths and uncounted requests; the sweep's failing updates are a parameter.
- Extraction of the limiter's key from an address or an email, and the middleware's defaults.
- Concurrent runs of sign-up, invitations and the trial sweep: their reads are not guarded, so they are steps one after another.
- The commit of an email confirmation is one atomic step, its user update and token update together, as its transaction runs.
- Case folding of letters other than A to Z.
- Row ids of users, organizations, memberships and invitations are positions; a membership's source, the log of commits and the set of invited accounts are written for the theorems and read by no step.
- An item's description, currency and income account, and the filters and order of the item list: the list takes the database's selection as a parameter.
- JSON, HTTP handlers, routing, mapping of errors to statuses, Kafka events, logging, configuration, JWT, password reset, customers, countries and industries.
