/**
 What each membership use case answers and writes, in terms of the rows, over every
 reachable state; and what that means across use cases.
 */
module MembershipOutcomes {
  import opened Wrappers
  import opened Memberships
  import opened MembershipTheorems
  import EmailConfirmation

  ghost predicate HasRole(t: Tables, user: nat, organization: nat, role: Role) {
    exists m <- t.memberships :: m.user == user && m.organization == organization && m.role == role
  }

  ghost predicate BelongsTo(t: Tables, user: nat, organization: nat) {
    exists m <- t.memberships :: m.user == user && m.organization == organization
  }

  /** Managers deal with invitations of every role, admins with all but a manager's, members with none. */
  ghost predicate MayHandle(t: Tables, user: nat, organization: nat, role: Role) {
    HasRole(t, user, organization, Manager) || (HasRole(t, user, organization, Admin) && role != Manager)
  }

  ghost predicate Registered(t: Tables, email: string) {
    exists u <- t.users :: Fold(u.email) == Fold(email)
  }

  ghost predicate Unanswered(i: Invitation) {
    i.acceptedAt.None? && i.revokedAt.None?
  }

  ghost predicate HasOpen(t: Tables, email: string, organization: nat) {
    exists i <- t.invitations :: Unanswered(i) && i.organization == organization && Fold(i.email) == Fold(email)
  }

  ghost predicate HasPending(t: Tables, email: string, organization: nat, now: int) {
    exists i <- t.invitations ::
      Unanswered(i) && now < i.expiresAt && i.organization == organization && Fold(i.email) == Fold(email)
  }

  ghost predicate DigestInUse(t: Tables, digest: string) {
    exists i <- t.invitations :: i.digest == digest
  }

  predicate SameLetter(c: char, d: char) {
    || c == d
    || ('A' <= c <= 'Z' && d as int == c as int + 32)
    || ('A' <= d <= 'Z' && c as int == d as int + 32)
  }

  /** Two addresses are one exactly when they differ in nothing but the case of letters. */
  lemma FoldIgnoresCase(a: string, b: string)
    ensures Fold(a) == Fold(b) <==> |a| == |b| && forall i :: 0 <= i < |a| ==> SameLetter(a[i], b[i])
  {
    if Fold(a) == Fold(b) {
      forall i | 0 <= i < |a|
        ensures SameLetter(a[i], b[i])
      {
        assert Fold(a)[i] == Fold(b)[i];
      }
    }
  }

  lemma Authorized(t: Tables, user: nat, organization: nat)
    requires MembersUnique(t)
    ensures var a := MembershipOf(t.memberships, user, organization);
            && (a.Some? <==> BelongsTo(t, user, organization))
            && (a.Some? ==> forall role :: HasRole(t, user, organization, role) <==> t.memberships[a.value].role == role)
  {
    var a := MembershipOf(t.memberships, user, organization);
    if a.Some? {
      assert t.memberships[a.value] in t.memberships;
      forall m <- t.memberships | m.user == user && m.organization == organization
        ensures m == t.memberships[a.value]
      {
        var b :| 0 <= b < |t.memberships| && t.memberships[b] == m;
        assert b == a.value;
      }
    }
  }

  lemma MayHandleIs(t: Tables, user: nat, organization: nat, role: Role)
    requires MembersUnique(t)
    ensures var a := MembershipOf(t.memberships, user, organization);
            && (a.Some? <==> BelongsTo(t, user, organization))
            && var may := MayHandle(t, user, organization, role);
            && (may <==> a.Some? && role in RevocableBy(t.memberships[a.value].role))
            && (may <==> a.Some? && CanCreateInvitation(t.memberships[a.value].role)
                         && role in AssignableBy(t.memberships[a.value].role))
  {
    Authorized(t, user, organization);
    if HasRole(t, user, organization, Manager) || HasRole(t, user, organization, Admin) {
      assert BelongsTo(t, user, organization);
    }
  }

  // ---- sign-up ----

  lemma NewUserHasNoMembership(t: Tables, organization: nat)
    requires RowsOk(t)
    ensures MembershipOf(t.memberships, |t.users|, organization).None?
  {
    forall a | 0 <= a < |t.memberships|
      ensures t.memberships[a].user != |t.users|
    {
      assert MemberOk(t, a);
    }
  }

  lemma SignUpOutcome(t: Tables, op: Op)
    requires Reachable(t) && op.SignUp?
    ensures var taken := exists k <- t.tokens :: k.digest == op.digest;
            Do(t, op) ==
            if !op.industryExists then Outcome(t, Err(IndustryNotFound))
            else if Registered(t, op.email) then Outcome(t, Err(UserAlreadyExists))
            else if taken then Outcome(t, Err(DigestTaken))
            else Outcome(
                Tables(t.users + [User(op.email, None)], t.organizations + 1,
                       t.memberships + [Membership(t.organizations, |t.users|, Manager, op.at, Founder)],
                       t.invitations,
                       t.tokens + [EmailConfirmation.Token(|t.users|, op.digest, op.at + 24 * 3600, None)]),
                Ok(|t.memberships|))
  {
    ReachableInv(t);
    NewUserHasNoMembership(t, t.organizations);
  }

  // ---- invitations are made ----

  lemma InvitationLookups(t: Tables, op: Op)
    requires op.Create?
    ensures PendingInvitation(t.invitations, op.email, op.organization, op.at).Some?
            <==> HasPending(t, op.email, op.organization, op.at)
    ensures OpenInvitation(t.invitations, op.email, op.organization).Some? <==> HasOpen(t, op.email, op.organization)
    ensures InvitationByDigest(t.invitations, op.digest).Some? <==> DigestInUse(t, op.digest)
  {
  }

  lemma MemberIsKnown(t: Tables, user: nat, organization: nat)
    requires RowsOk(t) && MembershipOf(t.memberships, user, organization).Some?
    ensures user < |t.users| && organization < t.organizations
  {
    assert MemberOk(t, MembershipOf(t.memberships, user, organization).value);
  }

  /** Every answer of an invitation attempt; organizations and inviters are always found once authorized. */
  lemma CreateOutcome(t: Tables, op: Op)
    requires Reachable(t) && op.Create?
    ensures Do(t, op).result ==
            if !BelongsTo(t, op.inviter, op.organization) then Err(MembershipNotFound)
            else if !MayHandle(t, op.inviter, op.organization, op.role) then Err(InvitationForbidden)
            else if IsMember(t, op.email, op.organization) then Err(AlreadyMember)
            else if HasPending(t, op.email, op.organization, op.at) then Err(DuplicateInvitation)
            else if DigestInUse(t, op.digest) then Err(DigestTaken)
            else if HasOpen(t, op.email, op.organization) then Err(DuplicateInvitation)
            else Ok(|t.invitations|)
  {
    ReachableInv(t);
    MayHandleIs(t, op.inviter, op.organization, op.role);
    MemberLookup(t, op.email, op.organization);
    InvitationLookups(t, op);
    if BelongsTo(t, op.inviter, op.organization) {
      MemberIsKnown(t, op.inviter, op.organization);
    }
  }

  /** Exactly the invitation asked for is added, from the inviter's own membership, for seven days; no other row changes. */
  lemma CreateWrites(t: Tables, op: Op)
    requires Reachable(t) && op.Create?
    ensures var out := Do(t, op);
            if out.result.Err? then out.tables == t
            else exists inviter: nat ::
              && inviter < |t.memberships| && t.memberships[inviter].user == op.inviter
              && t.memberships[inviter].organization == op.organization
              && out.tables == t.(invitations := t.invitations + [
                   Invitation(op.organization, op.email, op.role, op.digest, inviter, op.at + 7 * 24 * 3600, None, None)])
  {
    if Do(t, op).result.Ok? {
      var inviter := MembershipOf(t.memberships, op.inviter, op.organization).value;
      assert t.memberships[inviter].user == op.inviter;
    }
  }

  lemma CreateAdds(t: Tables, op: Op)
    requires op.Create? && Do(t, op).result.Ok?
    ensures var v := Do(t, op).tables;
            && |v.invitations| == |t.invitations| + 1
            && var i := v.invitations[|t.invitations|];
            && i.organization == op.organization && i.email == op.email && i.role == op.role
            && i.digest == op.digest && i.expiresAt == op.at + 7 * 24 * 3600
  {
  }

  /** Whatever runs after an invitation, whoever joins by it has the address, the organization and the role it was made for. */
  lemma JoinsAsInvited(t: Tables, op: Op, ops: seq<Op>, a: nat)
    requires Reachable(t) && op.Create? && Do(t, op).result.Ok?
    requires var v := Run(Do(t, op).tables, ops); a < |v.memberships| && v.memberships[a].source == Joined(|t.invitations|)
    ensures var v := Run(Do(t, op).tables, ops);
            && v.memberships[a].organization == op.organization && v.memberships[a].role == op.role
            && v.memberships[a].user < |v.users| && Fold(v.users[v.memberships[a].user].email) == Fold(op.email)
            && v.memberships[a].createdAt < op.at + 7 * 24 * 3600
  {
    ReachableInv(t);
    StepKeepsInv(t, op);
    RunKeepsInv(Do(t, op).tables, ops);
    StampsAreWrittenOnce(Do(t, op).tables, ops);
    CreateAdds(t, op);
    assert MemberOk(Run(Do(t, op).tables, ops), a);
  }

  // ---- and revoked ----

  /** Every answer of a revocation, and its only effect: one stamp, on an unanswered invitation that has not expired. */
  lemma RevokeOutcome(t: Tables, op: Op)
    requires Reachable(t) && op.Revoke?
    ensures var k := op.invitation;
            var here := k < |t.invitations| && t.invitations[k].organization == op.organization;
            Do(t, op) ==
            if !BelongsTo(t, op.revoker, op.organization) then Outcome(t, Err(MembershipNotFound))
            else if !here then Outcome(t, Err(InvitationNotFound))
            else if !MayHandle(t, op.revoker, op.organization, t.invitations[k].role)
              then Outcome(t, Err(InvitationForbidden))
            else if Unanswered(t.invitations[k]) && op.at < t.invitations[k].expiresAt then
              Outcome(t.(invitations := t.invitations[k := t.invitations[k].(revokedAt := Some(op.at))]), Ok(k))
            else Outcome(t, Ok(k))
  {
    ReachableInv(t);
    var k := op.invitation;
    MayHandleIs(t, op.revoker, op.organization, if k < |t.invitations| then t.invitations[k].role else Member);
  }

  /** In any step, an invitation's revocation changes exactly if someone entitled revokes it in time, in its organization. */
  lemma RevokedIff(t: Tables, op: Op, k: nat)
    requires Reachable(t) && k < |t.invitations|
    ensures k < |Do(t, op).tables.invitations|
    ensures var i := t.invitations[k];
            Do(t, op).tables.invitations[k].revokedAt != i.revokedAt <==>
            && op.Revoke? && op.invitation == k && op.organization == i.organization
            && (HasRole(t, op.revoker, i.organization, Manager)
                || (HasRole(t, op.revoker, i.organization, Admin) && i.role != Manager))
            && i.acceptedAt.None? && i.revokedAt.None? && op.at < i.expiresAt
  {
    StepExtends(t, op);
    if op.Revoke? {
      RevokeOutcome(t, op);
      ReachableInv(t);
      MayHandleIs(t, op.revoker, op.organization, t.invitations[k].role);
    }
  }

  // ---- and accepted ----

  lemma UnknownTokenIsRefused(t: Tables, op: Op)
    requires op.Accept? && !DigestInUse(t, op.digest)
    ensures Do(t, op) == Outcome(t, Err(InvitationNotFound))
  {
    assert InvitationByDigest(t.invitations, op.digest).None?;
  }

  function ValidityError(i: Invitation, now: int): Option<Error> {
    if i.acceptedAt.Some? then Some(InvitationAlreadyAccepted)
    else if i.revokedAt.Some? then Some(InvitationRevoked)
    else if i.expiresAt <= now then Some(InvitationExpired)
    else None
  }

  /** Every error of an acceptance, in the order in which they are looked for. */
  lemma AcceptErrors(t: Tables, op: Op, k: nat)
    requires Reachable(t) && op.Accept? && k < |t.invitations| && t.invitations[k].digest == op.digest
    ensures var i := t.invitations[k];
            var error :=
              if Registered(t, i.email) then
                if op.name.Some? || op.password.Some? then Some(EmailAlreadyRegistered)
                else if IsMember(t, i.email, i.organization) then None
                else ValidityError(i, op.at)
              else if op.name.None? || op.password.None? || IsBlank(op.name.value) || IsBlank(op.password.value)
              then Some(SignupFieldsRequired)
              else ValidityError(i, op.at);
            && (error.Some? ==> Do(t, op) == Outcome(t, Err(error.value)))
            && (error.None? ==> Do(t, op).result.Ok?)
  {
    ReachableInv(t);
    DigestFinds(t, k);
    MemberLookup(t, t.invitations[k].email, t.invitations[k].organization);
    AcceptSucceedsIff(t, op);
  }

  lemma DigestFinds(t: Tables, k: nat)
    requires InvitationsUnique(t) && k < |t.invitations|
    ensures InvitationByDigest(t.invitations, t.invitations[k].digest) == Some(k)
  {
  }

  /** The account an accepted invitation belongs to: the one of its address, or a new one, confirmed at once. */
  lemma AcceptWrites(t: Tables, op: Op, k: nat)
    requires Reachable(t) && op.Accept? && k < |t.invitations| && t.invitations[k].digest == op.digest
    requires Do(t, op).result.Ok? && !IsMember(t, t.invitations[k].email, t.invitations[k].organization)
    ensures var i, v := t.invitations[k], Do(t, op).tables;
            && Do(t, op).result == Ok(|t.memberships|)
            && v.users == (if Registered(t, i.email) then t.users else t.users + [User(i.email, Some(op.at))])
            && (exists user: nat ::
                  && user < |v.users| && Fold(v.users[user].email) == Fold(i.email)
                  && v.memberships == t.memberships + [Membership(i.organization, user, i.role, op.at, Joined(k))])
            && v.invitations == t.invitations[k := i.(acceptedAt := Some(op.at))]
            && v.organizations == t.organizations && v.tokens == t.tokens
  {
    ReachableInv(t);
    DigestFinds(t, k);
    var i, v := t.invitations[k], Do(t, op).tables;
    MemberLookup(t, i.email, i.organization);
    var found := UserByEmail(t.users, i.email);
    var user := if found.Some? then found.value else |t.users|;
    assert v.memberships == t.memberships + [Membership(i.organization, user, i.role, op.at, Joined(k))];
    assert user < |v.users| && Fold(v.users[user].email) == Fold(i.email);
  }

  /** A member who presents an invitation again gets the membership there is; at most the accepted stamp is written. */
  lemma RepeatedAcceptWrites(t: Tables, op: Op, k: nat)
    requires Reachable(t) && op.Accept? && k < |t.invitations| && t.invitations[k].digest == op.digest
    requires Do(t, op).result.Ok? && IsMember(t, t.invitations[k].email, t.invitations[k].organization)
    ensures var i, out := t.invitations[k], Do(t, op);
            && out.result.value < |t.memberships|
            && IsMemberAs(t, out.result.value, i.email, i.organization)
            && out.tables == if i.acceptedAt.Some? then t
                             else t.(invitations := t.invitations[k := i.(acceptedAt := Some(op.at))])
  {
    ReachableInv(t);
    DigestFinds(t, k);
    MemberLookup(t, t.invitations[k].email, t.invitations[k].organization);
  }
}
