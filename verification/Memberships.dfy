/**
 Organizations, their members and the invitations that bring members in.  Tables are
 sequences of rows and a row's id is its position.  Each use case is one step on the
 tables; `Database` runs its statements in order and rolls back on an error.
 */
module Memberships {
  import opened Wrappers
  import EmailConfirmation

  datatype Role = Manager | Admin | Member

  datatype User = User(email: string, confirmedAt: Option<int>)

  /** Where a membership came from.  The table does not store it; no step reads it. */
  datatype Source = Founder | Joined(invitation: nat)

  datatype Membership = Membership(organization: nat, user: nat, role: Role, createdAt: int, source: Source)

  datatype Invitation = Invitation(
    organization: nat, email: string, role: Role, digest: string, invitedBy: nat,
    expiresAt: int, acceptedAt: Option<int>, revokedAt: Option<int>)
  {
    /** What the partial unique index covers: it does not look at the expiry. */
    predicate IsOpen() {
      acceptedAt.None? && revokedAt.None?
    }

    function Validate(now: int): Result<(), Error> {
      if acceptedAt.Some? then Err(InvitationAlreadyAccepted)
      else if revokedAt.Some? then Err(InvitationRevoked)
      else if now >= expiresAt then Err(InvitationExpired)
      else Ok(())
    }
  }

  datatype Tables = Tables(
    users: seq<User>, organizations: nat, memberships: seq<Membership>, invitations: seq<Invitation>,
    tokens: seq<EmailConfirmation.Token>)

  datatype Error =
    | IndustryNotFound | UserAlreadyExists | UserNotFound | OrganizationNotFound
    | MembershipNotFound | MembershipAlreadyExists | AlreadyMember
    | InvitationForbidden | DuplicateInvitation | DigestTaken
    | InvitationNotFound | InvitationExpired | InvitationRevoked | InvitationAlreadyAccepted
    | EmailAlreadyRegistered | SignupFieldsRequired

  const INVITATION_TTL := 7 * 24 * 3600

  // ---- policy ----

  predicate CanCreateInvitation(role: Role) {
    role == Manager || role == Admin
  }

  function AssignableBy(inviter: Role): set<Role> {
    match inviter
    case Manager => {Manager, Admin, Member}
    case Admin => {Admin, Member}
    case Member => {}
  }

  function RevocableBy(revoker: Role): set<Role> {
    match revoker
    case Manager => {Manager, Admin, Member}
    case Admin => {Admin, Member}
    case Member => {}
  }

  // ---- lookups ----

  function LowerChar(c: char): char {
    if 'A' <= c <= 'Z' then c - 'A' + 'a' else c
  }

  /** Emails compare without regard to case, as citext and lower() do. */
  function Fold(email: string): string {
    seq(|email|, i requires 0 <= i < |email| => LowerChar(email[i]))
  }

  predicate Blank(field: Option<string>) {
    field.None? || IsBlank(field.value)
  }

  function UserByEmail(users: seq<User>, email: string): Option<nat> {
    FirstIndex(users, (u: User) => Fold(u.email) == Fold(email))
  }

  function MembershipOf(memberships: seq<Membership>, user: nat, organization: nat): Option<nat> {
    FirstIndex(memberships, (m: Membership) => m.user == user && m.organization == organization)
  }

  function InvitationByDigest(invitations: seq<Invitation>, digest: string): Option<nat> {
    FirstIndex(invitations, (i: Invitation) => i.digest == digest)
  }

  function PendingInvitation(invitations: seq<Invitation>, email: string, organization: nat, now: int): Option<nat> {
    FirstIndex(invitations, (i: Invitation) =>
      Fold(i.email) == Fold(email) && i.organization == organization && i.IsOpen() && i.expiresAt > now)
  }

  function OpenInvitation(invitations: seq<Invitation>, email: string, organization: nat): Option<nat> {
    FirstIndex(invitations, (i: Invitation) =>
      Fold(i.email) == Fold(email) && i.organization == organization && i.IsOpen())
  }

  // ---- each use case as one step ----

  datatype Outcome = Outcome(tables: Tables, result: Result<nat, Error>)

  function Refused(t: Tables, e: Error): Outcome {
    Outcome(t, Err(e))
  }

  /** Creates the user, an organization on trial, the user's manager membership and a confirmation token. */
  function SignUpStep(t: Tables, email: string, industryExists: bool, digest: string, now: int): Outcome {
    if !industryExists then Refused(t, IndustryNotFound)
    else if UserByEmail(t.users, email).Some? then Refused(t, UserAlreadyExists)
    else if MembershipOf(t.memberships, |t.users|, t.organizations).Some? then Refused(t, MembershipAlreadyExists)
    else if EmailConfirmation.TokenByDigest(t.tokens, digest).Some? then Refused(t, DigestTaken)
    else
      var m := Membership(t.organizations, |t.users|, Manager, now, Founder);
      var token := EmailConfirmation.Token(|t.users|, digest, now + EmailConfirmation.TOKEN_TTL, None);
      Outcome(t.(users := t.users + [User(email, None)], organizations := t.organizations + 1,
                 memberships := t.memberships + [m], tokens := t.tokens + [token]),
              Ok(|t.memberships|))
  }

  function CreateStep(t: Tables, inviter: nat, organization: nat, email: string, role: Role, digest: string, now: int)
    : Outcome
  {
    var authorization := MembershipOf(t.memberships, inviter, organization);
    if authorization.None? then Refused(t, MembershipNotFound)
    else if !CanCreateInvitation(t.memberships[authorization.value].role)
            || role !in AssignableBy(t.memberships[authorization.value].role) then Refused(t, InvitationForbidden)
    else if organization >= t.organizations then Refused(t, OrganizationNotFound)
    else if inviter >= |t.users| then Refused(t, UserNotFound)
    else
      var user := UserByEmail(t.users, email);
      if user.Some? && MembershipOf(t.memberships, user.value, organization).Some? then Refused(t, AlreadyMember)
      else if PendingInvitation(t.invitations, email, organization, now).Some? then Refused(t, DuplicateInvitation)
      else if InvitationByDigest(t.invitations, digest).Some? then Refused(t, DigestTaken)
      else if OpenInvitation(t.invitations, email, organization).Some? then Refused(t, DuplicateInvitation)
      else
        var i := Invitation(organization, email, role, digest, authorization.value, now + INVITATION_TTL, None, None);
        Outcome(t.(invitations := t.invitations + [i]), Ok(|t.invitations|))
  }

  function StampAccepted(t: Tables, k: nat, now: int): Tables
    requires k < |t.invitations|
  {
    t.(invitations := t.invitations[k := t.invitations[k].(acceptedAt := Some(now))])
  }

  function JoinStep(t: Tables, k: nat, user: nat, now: int): Outcome
    requires k < |t.invitations|
  {
    var i := t.invitations[k];
    if MembershipOf(t.memberships, user, i.organization).Some? then Refused(t, MembershipAlreadyExists)
    else
      var m := Membership(i.organization, user, i.role, now, Joined(k));
      Outcome(StampAccepted(t.(memberships := t.memberships + [m]), k, now), Ok(|t.memberships|))
  }

  function AcceptAsExistingStep(t: Tables, k: nat, user: nat, name: Option<string>, password: Option<string>, now: int)
    : Outcome
    requires k < |t.invitations|
  {
    var existing := MembershipOf(t.memberships, user, t.invitations[k].organization);
    if name.Some? || password.Some? then Refused(t, EmailAlreadyRegistered)
    else if existing.Some? then
      Outcome(if t.invitations[k].acceptedAt.None? then StampAccepted(t, k, now) else t, Ok(existing.value))
    else if t.invitations[k].Validate(now).Err? then Refused(t, t.invitations[k].Validate(now).error)
    else JoinStep(t, k, user, now)
  }

  function AcceptAsNewStep(t: Tables, k: nat, name: Option<string>, password: Option<string>, now: int): Outcome
    requires k < |t.invitations|
  {
    var i := t.invitations[k];
    if Blank(name) || Blank(password) then Refused(t, SignupFieldsRequired)
    else if i.Validate(now).Err? then Refused(t, i.Validate(now).error)
    else
      var joined := JoinStep(t.(users := t.users + [User(i.email, Some(now))]), k, |t.users|, now);
      if joined.result.Err? then Refused(t, joined.result.error) else joined
  }

  function AcceptStep(t: Tables, digest: string, name: Option<string>, password: Option<string>, now: int): Outcome {
    var found := InvitationByDigest(t.invitations, digest);
    if found.None? then Refused(t, InvitationNotFound)
    else
      var user := UserByEmail(t.users, t.invitations[found.value].email);
      if user.Some? then AcceptAsExistingStep(t, found.value, user.value, name, password, now)
      else AcceptAsNewStep(t, found.value, name, password, now)
  }

  /** Revoking an invitation that is accepted, revoked or expired succeeds and does nothing. */
  function RevokeStep(t: Tables, revoker: nat, organization: nat, k: nat, now: int): Outcome {
    var authorization := MembershipOf(t.memberships, revoker, organization);
    if authorization.None? then Refused(t, MembershipNotFound)
    else if k >= |t.invitations| || t.invitations[k].organization != organization then Refused(t, InvitationNotFound)
    else
      var i := t.invitations[k];
      if i.role !in RevocableBy(t.memberships[authorization.value].role) then Refused(t, InvitationForbidden)
      else if i.Validate(now).Err? then Outcome(t, Ok(k))
      else Outcome(t.(invitations := t.invitations[k := i.(revokedAt := Some(now))]), Ok(k))
  }

  // ---- the use cases as they run ----

  class Database {
    var users: seq<User>
    var organizations: nat
    var memberships: seq<Membership>
    var invitations: seq<Invitation>
    var tokens: seq<EmailConfirmation.Token>

    constructor ()
      ensures State() == Tables([], 0, [], [], [])
    {
      users, organizations, memberships, invitations, tokens := [], 0, [], [], [];
    }

    function State(): Tables
      reads this
    {
      Tables(users, organizations, memberships, invitations, tokens)
    }

    /** What a unit of work leaves when its function returns an error. */
    method Rollback(before: Tables)
      modifies this
      ensures State() == before
    {
      users, organizations := before.users, before.organizations;
      memberships, invitations, tokens := before.memberships, before.invitations, before.tokens;
    }

    /** users_email_unique */
    method InsertUser(user: User) returns (r: Result<nat, Error>)
      modifies this`users
      ensures r == if UserByEmail(old(users), user.email).Some? then Err(UserAlreadyExists) else Ok(|old(users)|)
      ensures users == if r.Ok? then old(users) + [user] else old(users)
    {
      if UserByEmail(users, user.email).Some? {
        return Err(UserAlreadyExists);
      }
      users := users + [user];
      return Ok(|users| - 1);
    }

    /** memberships_org_user_unique */
    method InsertMembership(m: Membership) returns (r: Result<nat, Error>)
      modifies this`memberships
      ensures r == if MembershipOf(old(memberships), m.user, m.organization).Some?
                   then Err(MembershipAlreadyExists) else Ok(|old(memberships)|)
      ensures memberships == if r.Ok? then old(memberships) + [m] else old(memberships)
    {
      if MembershipOf(memberships, m.user, m.organization).Some? {
        return Err(MembershipAlreadyExists);
      }
      memberships := memberships + [m];
      return Ok(|memberships| - 1);
    }

    /** The unique index on the digest, then the one on open invitations of an address. */
    method InsertInvitation(i: Invitation) returns (r: Result<nat, Error>)
      requires i.IsOpen()
      modifies this`invitations
      ensures r == if InvitationByDigest(old(invitations), i.digest).Some? then Err(DigestTaken)
                   else if OpenInvitation(old(invitations), i.email, i.organization).Some?
                   then Err(DuplicateInvitation) else Ok(|old(invitations)|)
      ensures invitations == if r.Ok? then old(invitations) + [i] else old(invitations)
    {
      if InvitationByDigest(invitations, i.digest).Some? {
        return Err(DigestTaken);
      }
      if OpenInvitation(invitations, i.email, i.organization).Some? {
        return Err(DuplicateInvitation);
      }
      invitations := invitations + [i];
      return Ok(|invitations| - 1);
    }

    method MarkAccepted(k: nat, at: int)
      requires k < |invitations|
      modifies this`invitations
      ensures invitations == old(invitations)[k := old(invitations)[k].(acceptedAt := Some(at))]
    {
      invitations := invitations[k := invitations[k].(acceptedAt := Some(at))];
    }

    method MarkRevoked(k: nat, at: int)
      requires k < |invitations|
      modifies this`invitations
      ensures invitations == old(invitations)[k := old(invitations)[k].(revokedAt := Some(at))]
    {
      invitations := invitations[k := invitations[k].(revokedAt := Some(at))];
    }

    /** The unique index on the digest. */
    method InsertToken(user: nat, digest: string, now: int) returns (r: Result<nat, Error>)
      modifies this`tokens
      ensures r == if EmailConfirmation.TokenByDigest(old(tokens), digest).Some? then Err(DigestTaken)
                   else Ok(|old(tokens)|)
      ensures tokens == if r.Err? then old(tokens)
                        else old(tokens) + [EmailConfirmation.Token(user, digest, now + EmailConfirmation.TOKEN_TTL, None)]
    {
      if EmailConfirmation.TokenByDigest(tokens, digest).Some? {
        return Err(DigestTaken);
      }
      tokens := tokens + [EmailConfirmation.Token(user, digest, now + EmailConfirmation.TOKEN_TTL, None)];
      return Ok(|tokens| - 1);
    }

    method SignUp(email: string, industryExists: bool, digest: string, now: int) returns (r: Result<nat, Error>)
      modifies this
      ensures Outcome(State(), r) == SignUpStep(old(State()), email, industryExists, digest, now)
    {
      if !industryExists {
        return Err(IndustryNotFound);
      }
      var before := State();
      var user := InsertUser(User(email, None));
      if user.Err? {
        Rollback(before);
        return user;
      }
      var organization := organizations;
      organizations := organizations + 1;
      r := InsertMembership(Membership(organization, user.value, Manager, now, Founder));
      if r.Err? {
        Rollback(before);
        return;
      }
      var token := InsertToken(user.value, digest, now);
      if token.Err? {
        Rollback(before);
        return token;
      }
    }

    /** Refuses an address whose user has a membership in the organization. */
    method EnsureNotAlreadyMember(email: string, organization: nat) returns (r: Result<(), Error>)
      ensures r.Err? ==> r.error == AlreadyMember
      ensures r.Err? <==> var user := UserByEmail(users, email);
                          user.Some? && exists m <- memberships :: m.user == user.value && m.organization == organization
    {
      var user := UserByEmail(users, email);
      if user.None? {
        return Ok(());
      }
      var member := MembershipOf(memberships, user.value, organization);
      return if member.Some? then Err(AlreadyMember) else Ok(());
    }

    /** Refuses an address with an unanswered, unexpired invitation to the organization. */
    method EnsureNoPendingInvitation(email: string, organization: nat, now: int) returns (r: Result<(), Error>)
      ensures r.Err? ==> r.error == DuplicateInvitation
      ensures r.Err? <==> exists i <- invitations ::
                            && Fold(i.email) == Fold(email) && i.organization == organization
                            && i.acceptedAt.None? && i.revokedAt.None? && now < i.expiresAt
    {
      var pending := PendingInvitation(invitations, email, organization, now);
      return if pending.Some? then Err(DuplicateInvitation) else Ok(());
    }

    method CreateInvitation(inviter: nat, organization: nat, email: string, role: Role, digest: string, now: int)
      returns (r: Result<nat, Error>)
      modifies this
      ensures Outcome(State(), r) == CreateStep(old(State()), inviter, organization, email, role, digest, now)
    {
      var authorization := MembershipOf(memberships, inviter, organization);
      if authorization.None? {
        return Err(MembershipNotFound);
      }
      var inviterRole := memberships[authorization.value].role;
      if !CanCreateInvitation(inviterRole) || role !in AssignableBy(inviterRole) {
        return Err(InvitationForbidden);
      }
      if organization >= organizations {
        return Err(OrganizationNotFound);
      }
      if inviter >= |users| {
        return Err(UserNotFound);
      }
      var noMember := EnsureNotAlreadyMember(email, organization);
      if noMember.Err? {
        return Err(noMember.error);
      }
      var noneOpen := EnsureNoPendingInvitation(email, organization, now);
      if noneOpen.Err? {
        return Err(noneOpen.error);
      }
      r := InsertInvitation(
        Invitation(organization, email, role, digest, authorization.value, now + INVITATION_TTL, None, None));
    }

    method JoinOrganization(k: nat, user: nat, now: int) returns (r: Result<nat, Error>)
      requires k < |invitations|
      modifies this
      ensures Outcome(State(), r) == JoinStep(old(State()), k, user, now)
    {
      var i := invitations[k];
      r := InsertMembership(Membership(i.organization, user, i.role, now, Joined(k)));
      if r.Ok? {
        MarkAccepted(k, now);
      }
    }

    method AcceptAsExistingUser(k: nat, user: nat, name: Option<string>, password: Option<string>, now: int)
      returns (r: Result<nat, Error>)
      requires k < |invitations|
      modifies this
      ensures Outcome(State(), r) == AcceptAsExistingStep(old(State()), k, user, name, password, now)
    {
      if name.Some? || password.Some? {
        return Err(EmailAlreadyRegistered);
      }
      var existing := MembershipOf(memberships, user, invitations[k].organization);
      if existing.Some? {
        if invitations[k].acceptedAt.None? {
          MarkAccepted(k, now);
        }
        return Ok(existing.value);
      }
      var valid := invitations[k].Validate(now);
      if valid.Err? {
        return Err(valid.error);
      }
      r := JoinOrganization(k, user, now);
    }

    /** On an error the new user may be left in the table; the unit of work takes it back. */
    method AcceptAsNewUser(k: nat, name: Option<string>, password: Option<string>, now: int)
      returns (r: Result<nat, Error>)
      requires k < |invitations| && UserByEmail(users, invitations[k].email).None?
      modifies this
      ensures r == AcceptAsNewStep(old(State()), k, name, password, now).result
      ensures r.Ok? ==> State() == AcceptAsNewStep(old(State()), k, name, password, now).tables
    {
      if Blank(name) || Blank(password) {
        return Err(SignupFieldsRequired);
      }
      var valid := invitations[k].Validate(now);
      if valid.Err? {
        return Err(valid.error);
      }
      var user := InsertUser(User(invitations[k].email, None));
      if user.Err? {
        return user;
      }
      // the guarded update that confirms the row just inserted
      users := users[user.value := users[user.value].(confirmedAt := Some(now))];
      assert users == old(users) + [User(invitations[k].email, Some(now))];
      r := JoinOrganization(k, user.value, now);
    }

    method AcceptInvitation(digest: string, name: Option<string>, password: Option<string>, now: int)
      returns (r: Result<nat, Error>)
      modifies this
      ensures Outcome(State(), r) == AcceptStep(old(State()), digest, name, password, now)
    {
      var before := State();
      var found := InvitationByDigest(invitations, digest);
      if found.None? {
        return Err(InvitationNotFound);
      }
      var user := UserByEmail(users, invitations[found.value].email);
      if user.Some? {
        r := AcceptAsExistingUser(found.value, user.value, name, password, now);
      } else {
        r := AcceptAsNewUser(found.value, name, password, now);
      }
      if r.Err? {
        Rollback(before);
      }
    }

    method RevokeInvitation(revoker: nat, organization: nat, k: nat, now: int) returns (r: Result<nat, Error>)
      modifies this
      ensures Outcome(State(), r) == RevokeStep(old(State()), revoker, organization, k, now)
    {
      var authorization := MembershipOf(memberships, revoker, organization);
      if authorization.None? {
        return Err(MembershipNotFound);
      }
      if k >= |invitations| || invitations[k].organization != organization {
        return Err(InvitationNotFound);
      }
      var i := invitations[k];
      if i.role !in RevocableBy(memberships[authorization.value].role) {
        return Err(InvitationForbidden);
      }
      if i.acceptedAt.Some? || i.revokedAt.Some? || now >= i.expiresAt {
        return Ok(k);
      }
      MarkRevoked(k, now);
      return Ok(k);
    }
  }
}
