/** What every run of sign-ups and invitations keeps. */
module MembershipTheorems {
  import opened Wrappers
  import opened Memberships
  import EmailConfirmation

  datatype Op =
    | SignUp(email: string, industryExists: bool, digest: string, at: int)
    | Create(inviter: nat, organization: nat, email: string, role: Role, digest: string, at: int)
    | Accept(digest: string, name: Option<string>, password: Option<string>, at: int)
    | Revoke(revoker: nat, organization: nat, invitation: nat, at: int)

  function Do(t: Tables, op: Op): Outcome {
    match op
    case SignUp(email, industryExists, digest, at) => SignUpStep(t, email, industryExists, digest, at)
    case Create(inviter, organization, email, role, digest, at) =>
      CreateStep(t, inviter, organization, email, role, digest, at)
    case Accept(digest, name, password, at) => AcceptStep(t, digest, name, password, at)
    case Revoke(revoker, organization, k, at) => RevokeStep(t, revoker, organization, k, at)
  }

  function Run(t: Tables, ops: seq<Op>): Tables
    decreases ops
  {
    if ops == [] then t else Run(Do(t, ops[0]).tables, ops[1..])
  }

  const EMPTY := Tables([], 0, [], [], [])

  ghost predicate Reachable(t: Tables) {
    exists ops :: t == Run(EMPTY, ops)
  }

  // ---- what every reachable state keeps ----

  ghost predicate UsersOk(t: Tables) {
    forall i, j :: 0 <= i < j < |t.users| ==> Fold(t.users[i].email) != Fold(t.users[j].email)
  }

  /** An invitation was sent by a member of its organization who may assign its role. */
  ghost predicate InvitationOk(t: Tables, k: nat)
    requires k < |t.invitations|
  {
    var i := t.invitations[k];
    && i.invitedBy < |t.memberships|
    && t.memberships[i.invitedBy].organization == i.organization < t.organizations
    && i.role in AssignableBy(t.memberships[i.invitedBy].role)
  }

  /** A member is the founder, or came by an invitation from an earlier membership while it was valid. */
  ghost predicate MemberOk(t: Tables, a: nat)
    requires a < |t.memberships|
  {
    var m := t.memberships[a];
    && m.organization < t.organizations && m.user < |t.users|
    && match m.source
       case Founder => m.role == Manager && forall b :: 0 <= b < a ==> t.memberships[b].organization != m.organization
       case Joined(k) =>
         && k < |t.invitations|
         && var i := t.invitations[k];
         && i.organization == m.organization && i.role == m.role && i.invitedBy < a
         && Fold(i.email) == Fold(t.users[m.user].email)
         && i.acceptedAt == Some(m.createdAt) && i.revokedAt.None? && m.createdAt < i.expiresAt
  }

  ghost predicate RowsOk(t: Tables) {
    && (forall k :: 0 <= k < |t.invitations| ==> InvitationOk(t, k))
    && (forall a :: 0 <= a < |t.memberships| ==> MemberOk(t, a))
  }

  ghost predicate MembersUnique(t: Tables) {
    forall a, b :: 0 <= a < b < |t.memberships| ==>
      && (t.memberships[a].user != t.memberships[b].user
          || t.memberships[a].organization != t.memberships[b].organization)
      && (t.memberships[a].source == t.memberships[b].source ==> t.memberships[a].source == Founder)
  }

  ghost predicate InvitationsUnique(t: Tables) {
    forall k, l :: 0 <= k < l < |t.invitations| ==>
      var i, j := t.invitations[k], t.invitations[l];
      && i.digest != j.digest
      && !(i.IsOpen() && j.IsOpen() && i.organization == j.organization && Fold(i.email) == Fold(j.email))
  }

  ghost predicate Inv(t: Tables) {
    UsersOk(t) && RowsOk(t) && MembersUnique(t) && InvitationsUnique(t)
  }

  lemma SignUpKeepsInv(t: Tables, email: string, industryExists: bool, digest: string, now: int)
    requires Inv(t)
    ensures Inv(SignUpStep(t, email, industryExists, digest, now).tables)
  {
    var v := SignUpStep(t, email, industryExists, digest, now).tables;
    forall k | 0 <= k < |v.invitations|
      ensures InvitationOk(v, k)
    {
      assert InvitationOk(t, k);
    }
    forall a | 0 <= a < |v.memberships|
      ensures MemberOk(v, a)
      ensures a < |t.memberships| ==> v.memberships[a].organization < t.organizations
    {
      if a < |t.memberships| {
        assert MemberOk(t, a);
      } else if v != t {
        forall b | 0 <= b < a
          ensures v.memberships[b].organization != t.organizations
        {
          assert MemberOk(t, b);
        }
      }
    }
  }

  lemma CreateKeepsInv(t: Tables, c: Op)
    requires Inv(t) && c.Create?
    ensures Inv(Do(t, c).tables)
  {
    var v := Do(t, c).tables;
    forall k | 0 <= k < |v.invitations|
      ensures InvitationOk(v, k)
    {
      if k < |t.invitations| {
        assert InvitationOk(t, k);
      }
    }
    forall a | 0 <= a < |v.memberships|
      ensures MemberOk(v, a)
    {
      assert MemberOk(t, a);
    }
  }

  /** Stamping an invitation that no membership came from leaves every row in order. */
  lemma RestampKeepsRows(t: Tables, k: nat, i: Invitation)
    requires Inv(t) && k < |t.invitations|
    requires forall a :: 0 <= a < |t.memberships| ==> t.memberships[a].source != Joined(k)
    requires i == t.invitations[k].(acceptedAt := i.acceptedAt, revokedAt := i.revokedAt)
    requires i.IsOpen() ==> t.invitations[k].IsOpen()
    ensures Inv(t.(invitations := t.invitations[k := i]))
  {
    var v := t.(invitations := t.invitations[k := i]);
    forall l | 0 <= l < |v.invitations|
      ensures InvitationOk(v, l)
    {
      assert InvitationOk(t, l);
    }
    forall a | 0 <= a < |v.memberships|
      ensures MemberOk(v, a)
    {
      assert MemberOk(t, a);
    }
  }

  lemma OpenHasNoMember(t: Tables, k: nat)
    requires Inv(t) && k < |t.invitations| && t.invitations[k].acceptedAt.None?
    ensures forall a :: 0 <= a < |t.memberships| ==> t.memberships[a].source != Joined(k)
  {
    forall a | 0 <= a < |t.memberships|
      ensures t.memberships[a].source != Joined(k)
    {
      assert MemberOk(t, a);
    }
  }

  lemma JoinKeepsInv(t: Tables, k: nat, user: nat, now: int)
    requires Inv(t) && k < |t.invitations| && user < |t.users|
    requires Fold(t.users[user].email) == Fold(t.invitations[k].email) && t.invitations[k].Validate(now).Ok?
    ensures Inv(JoinStep(t, k, user, now).tables)
  {
    var v := JoinStep(t, k, user, now).tables;
    OpenHasNoMember(t, k);
    assert InvitationOk(t, k);
    forall l | 0 <= l < |v.invitations|
      ensures InvitationOk(v, l)
    {
      assert InvitationOk(t, l);
    }
    forall a | 0 <= a < |t.memberships|
      ensures MemberOk(v, a)
    {
      assert MemberOk(t, a);
    }
  }

  lemma NewUserKeepsInv(t: Tables, u: User)
    requires Inv(t) && UserByEmail(t.users, u.email).None?
    ensures Inv(t.(users := t.users + [u]))
  {
    var v := t.(users := t.users + [u]);
    forall k | 0 <= k < |v.invitations|
      ensures InvitationOk(v, k)
    {
      assert InvitationOk(t, k);
    }
    forall a | 0 <= a < |v.memberships|
      ensures MemberOk(v, a)
    {
      assert MemberOk(t, a);
    }
  }

  lemma AcceptKeepsInv(t: Tables, digest: string, name: Option<string>, password: Option<string>, now: int)
    requires Inv(t)
    ensures Inv(AcceptStep(t, digest, name, password, now).tables)
  {
    var found := InvitationByDigest(t.invitations, digest);
    if found.Some? {
      var k := found.value;
      var i := t.invitations[k];
      var user := UserByEmail(t.users, i.email);
      if user.Some? {
        if i.acceptedAt.None? {
          OpenHasNoMember(t, k);
          RestampKeepsRows(t, k, i.(acceptedAt := Some(now)));
        }
        if i.Validate(now).Ok? {
          JoinKeepsInv(t, k, user.value, now);
        }
      } else if i.Validate(now).Ok? {
        NewUserKeepsInv(t, User(i.email, Some(now)));
        JoinKeepsInv(t.(users := t.users + [User(i.email, Some(now))]), k, |t.users|, now);
      }
    }
  }

  lemma StepKeepsInv(t: Tables, op: Op)
    requires Inv(t)
    ensures Inv(Do(t, op).tables)
  {
    match op
    case SignUp(email, industryExists, digest, at) => SignUpKeepsInv(t, email, industryExists, digest, at);
    case Create(_, _, _, _, _, _) => CreateKeepsInv(t, op);
    case Accept(digest, name, password, at) => AcceptKeepsInv(t, digest, name, password, at);
    case Revoke(revoker, organization, k, at) =>
      var v := RevokeStep(t, revoker, organization, k, at).tables;
      if v != t {
        OpenHasNoMember(t, k);
        RestampKeepsRows(t, k, t.invitations[k].(revokedAt := Some(at)));
      }
  }

  lemma {:induction false} RunKeepsInv(t: Tables, ops: seq<Op>)
    requires Inv(t)
    ensures Inv(Run(t, ops))
    decreases ops
  {
    if ops != [] {
      StepKeepsInv(t, ops[0]);
      RunKeepsInv(Do(t, ops[0]).tables, ops[1..]);
    }
  }

  lemma ReachableInv(t: Tables)
    requires Reachable(t)
    ensures Inv(t)
  {
    var ops :| t == Run(EMPTY, ops);
    RunKeepsInv(EMPTY, ops);
  }

  // ---- role provenance ----

  /** Membership `a` came by an invitation that membership `b` sent and whose role `b` may assign. */
  ghost predicate InvitedBy(t: Tables, a: nat, b: nat) {
    && b < a < |t.memberships| && t.memberships[a].source.Joined?
    && var k := t.memberships[a].source.invitation;
    && k < |t.invitations| && t.invitations[k].invitedBy == b && t.invitations[k].role == t.memberships[a].role
    && t.memberships[a].organization == t.memberships[b].organization
    && t.memberships[a].role in AssignableBy(t.memberships[b].role)
  }

  ghost function Lineage(t: Tables, a: nat): seq<nat>
    requires RowsOk(t) && a < |t.memberships|
  {
    assert MemberOk(t, a);
    match t.memberships[a].source
    case Founder => [a]
    case Joined(k) => [a] + Lineage(t, t.invitations[k].invitedBy)
  }

  ghost predicate IsLineage(t: Tables, a: nat, path: seq<nat>) {
    && path != [] && path[0] == a
    && (forall n :: 0 <= n < |path| ==> path[n] < |t.memberships|)
    && (forall n :: 0 <= n < |path| - 1 ==> InvitedBy(t, path[n], path[n + 1]))
    && t.memberships[path[|path| - 1]].source == Founder
  }

  /** A path within one organization, of managers if it starts at one, and without plain members past its start. */
  ghost predicate RolesNeverFall(t: Tables, a: nat, path: seq<nat>)
    requires a < |t.memberships| && IsLineage(t, a, path)
  {
    forall n :: 0 <= n < |path| ==>
      && t.memberships[path[n]].organization == t.memberships[a].organization
      && (t.memberships[a].role == Manager ==> t.memberships[path[n]].role == Manager)
      && (n > 0 ==> t.memberships[path[n]].role != Member)
  }

  lemma {:induction false} LineageReachesFounder(t: Tables, a: nat)
    requires Inv(t) && a < |t.memberships|
    ensures IsLineage(t, a, Lineage(t, a))
    ensures RolesNeverFall(t, a, Lineage(t, a))
    decreases a
  {
    assert MemberOk(t, a);
    match t.memberships[a].source {
      case Founder =>
      case Joined(k) =>
        var b := t.invitations[k].invitedBy;
        assert InvitationOk(t, k);
        LineageReachesFounder(t, b);
        var path := Lineage(t, a);
        forall n | 0 <= n < |path| - 1
          ensures InvitedBy(t, path[n], path[n + 1])
        {
          if n > 0 {
            assert path[n] == Lineage(t, b)[n - 1] && path[n + 1] == Lineage(t, b)[n];
          }
        }
    }
  }

  ghost predicate LeadsToTheFounder(t: Tables, a: nat, path: seq<nat>)
    requires a < |t.memberships| && IsLineage(t, a, path)
  {
    && RolesNeverFall(t, a, path)
    && (forall f :: 0 <= f < |t.memberships| && IsFounderOf(t.memberships[f], t.memberships[a].organization) ==>
          f == path[|path| - 1])
  }

  predicate IsFounderOf(m: Membership, organization: nat) {
    m.source == Founder && m.organization == organization
  }

  /**
   Every membership leads by invitations, each from an earlier member of the same
   organization who may assign the role, to the organization's one founder; a
   manager's whole chain is of managers.
   */
  lemma RoleProvenance(t: Tables, a: nat)
    requires Reachable(t) && a < |t.memberships|
    ensures exists path :: IsLineage(t, a, path) && LeadsToTheFounder(t, a, path)
  {
    ReachableInv(t);
    LineageReachesFounder(t, a);
    var path := Lineage(t, a);
    var last := path[|path| - 1];
    assert t.memberships[last].organization == t.memberships[a].organization;
    forall f | 0 <= f < |t.memberships| && IsFounderOf(t.memberships[f], t.memberships[a].organization)
      ensures f == last
    {
      assert MemberOk(t, f) && MemberOk(t, last);
    }
    assert LeadsToTheFounder(t, a, path);
  }

  // ---- the life of an invitation ----

  /** Rows are only added; an invitation keeps its terms, and each of its two stamps is written at most once. */
  ghost predicate Extends(t: Tables, v: Tables) {
    && t.users <= v.users && t.organizations <= v.organizations && t.memberships <= v.memberships
    && t.tokens <= v.tokens && |t.invitations| <= |v.invitations|
    && forall k :: 0 <= k < |t.invitations| ==>
         var i, j := t.invitations[k], v.invitations[k];
         && j == i.(acceptedAt := j.acceptedAt, revokedAt := j.revokedAt)
         && (i.acceptedAt.Some? ==> j.acceptedAt == i.acceptedAt)
         && (i.revokedAt.Some? ==> j.revokedAt == i.revokedAt)
  }

  lemma JoinExtends(t: Tables, k: nat, user: nat, now: int)
    requires k < |t.invitations| && t.invitations[k].acceptedAt.None?
    ensures Extends(t, JoinStep(t, k, user, now).tables)
  {
  }

  lemma AcceptExtends(t: Tables, op: Op)
    requires op.Accept?
    ensures Extends(t, Do(t, op).tables)
  {
    var found := InvitationByDigest(t.invitations, op.digest);
    if found.Some? && t.invitations[found.value].acceptedAt.None? {
      var k := found.value;
      var user := UserByEmail(t.users, t.invitations[k].email);
      var added := t.(users := t.users + [User(t.invitations[k].email, Some(op.at))]);
      if user.Some? {
        JoinExtends(t, k, user.value, op.at);
      } else {
        JoinExtends(added, k, |t.users|, op.at);
      }
    }
  }

  lemma StepExtends(t: Tables, op: Op)
    ensures Extends(t, Do(t, op).tables)
  {
    if op.Accept? {
      AcceptExtends(t, op);
    }
  }

  /** A use case that reports an error has changed no table. */
  lemma FailureChangesNothing(t: Tables, op: Op)
    requires Do(t, op).result.Err?
    ensures Do(t, op).tables == t
  {
  }

  lemma {:induction false} StampsAreWrittenOnce(t: Tables, ops: seq<Op>)
    ensures Extends(t, Run(t, ops))
    decreases ops
  {
    if ops != [] {
      StepExtends(t, ops[0]);
      StampsAreWrittenOnce(Do(t, ops[0]).tables, ops[1..]);
    }
  }

  /** A step creates a membership by an invitation only while that invitation is valid, on its terms. */
  lemma JoinsWhileValid(t: Tables, op: Op, k: nat)
    requires Reachable(t) && |t.memberships| < |Do(t, op).tables.memberships|
    requires Do(t, op).tables.memberships[|t.memberships|].source == Joined(k)
    ensures k < |t.invitations| && t.invitations[k].Validate(op.at).Ok?
    ensures var m := Do(t, op).tables.memberships[|t.memberships|];
            && m.organization == t.invitations[k].organization && m.role == t.invitations[k].role
            && op.Accept? && t.invitations[k].digest == op.digest
            && Do(t, op).tables.invitations[k].acceptedAt == Some(op.at)
  {
  }

  /** At most one membership per user and organization, and per invitation; at most one open invitation per address. */
  lemma InvitationLifecycle(t: Tables, a: nat, b: nat, k: nat, l: nat)
    requires Reachable(t) && a < |t.memberships| && b < |t.memberships|
    requires k < |t.invitations| && l < |t.invitations|
    ensures (t.memberships[a].user == t.memberships[b].user
             && t.memberships[a].organization == t.memberships[b].organization) ==> a == b
    ensures t.memberships[a].source == t.memberships[b].source == Joined(k) ==> a == b
    ensures t.memberships[a].source == Joined(k) ==>
              && t.invitations[k].acceptedAt == Some(t.memberships[a].createdAt)
              && t.invitations[k].revokedAt == None
              && t.memberships[a].createdAt < t.invitations[k].expiresAt
    ensures (t.invitations[k].IsOpen() && t.invitations[l].IsOpen()
             && t.invitations[k].organization == t.invitations[l].organization
             && Fold(t.invitations[k].email) == Fold(t.invitations[l].email)) ==> k == l
  {
    ReachableInv(t);
    assert MemberOk(t, a);
  }

  // ---- exactly when a use case succeeds ----

  ghost predicate IsMember(t: Tables, email: string, organization: nat) {
    exists a :: 0 <= a < |t.memberships| && IsMemberAs(t, a, email, organization)
  }

  ghost predicate IsMemberAs(t: Tables, a: nat, email: string, organization: nat)
    requires a < |t.memberships|
  {
    && t.memberships[a].organization == organization && t.memberships[a].user < |t.users|
    && Fold(t.users[t.memberships[a].user].email) == Fold(email)
  }

  lemma MemberLookup(t: Tables, email: string, organization: nat)
    requires Inv(t)
    ensures var u := UserByEmail(t.users, email);
            IsMember(t, email, organization) <==>
            u.Some? && MembershipOf(t.memberships, u.value, organization).Some?
  {
    var u := UserByEmail(t.users, email);
    if IsMember(t, email, organization) {
      var a :| 0 <= a < |t.memberships| && IsMemberAs(t, a, email, organization);
      assert u.Some? && u.value == t.memberships[a].user;
    }
    if u.Some? && MembershipOf(t.memberships, u.value, organization).Some? {
      assert IsMemberAs(t, MembershipOf(t.memberships, u.value, organization).value, email, organization);
    }
  }

  /**
   Inviting an address succeeds exactly when the inviter may, the address is no member
   and has no open invitation there; an expired one that was never revoked still counts.
   */
  lemma CreateSucceedsIff(t: Tables, op: Op)
    requires Reachable(t) && op.Create? && InvitationByDigest(t.invitations, op.digest).None?
    ensures Do(t, op).result.Ok? <==>
            && (exists a :: 0 <= a < |t.memberships| && t.memberships[a].user == op.inviter
                  && t.memberships[a].organization == op.organization
                  && op.role in AssignableBy(t.memberships[a].role))
            && !IsMember(t, op.email, op.organization)
            && !(exists k :: 0 <= k < |t.invitations| && t.invitations[k].IsOpen()
                   && t.invitations[k].organization == op.organization
                   && Fold(t.invitations[k].email) == Fold(op.email))
  {
    ReachableInv(t);
    MemberLookup(t, op.email, op.organization);
    var authorization := MembershipOf(t.memberships, op.inviter, op.organization);
    if authorization.Some? {
      assert MemberOk(t, authorization.value);
    }
  }

  /** An invitation that expired without being accepted or revoked, for an address that is no member. */
  ghost predicate Stuck(t: Tables, k: nat, now: int) {
    && k < |t.invitations| && t.invitations[k].IsOpen() && t.invitations[k].expiresAt <= now
    && !IsMember(t, t.invitations[k].email, t.invitations[k].organization)
  }

  /** Nobody can join for that address, and nobody can revoke it either. */
  lemma StepKeepsStuck(t: Tables, op: Op, k: nat, now: int)
    requires Inv(t) && Stuck(t, k, now) && now <= op.at
    ensures Stuck(Do(t, op).tables, k, now)
    ensures Do(t, op).tables.invitations[k] == t.invitations[k]
  {
    if op.Accept? {
      AcceptLeavesStuck(t, op, k, now);
    } else {
      assert InvitationOk(t, k);
      MoreRowsStayStuck(t, Do(t, op).tables, k, now);
    }
  }

  /** Presenting the stuck invitation itself is refused. */
  lemma AcceptingStuckIsRefused(t: Tables, op: Op, k: nat, now: int)
    requires Inv(t) && Stuck(t, k, now) && now <= op.at && op.Accept?
    requires InvitationByDigest(t.invitations, op.digest) == Some(k)
    ensures Do(t, op).tables == t
  {
    MemberLookup(t, t.invitations[k].email, t.invitations[k].organization);
  }

  /** Presenting another invitation joins another address or another organization. */
  lemma AcceptingAnotherJoinsElsewhere(t: Tables, op: Op, k: nat, l: nat)
    requires Inv(t) && k < |t.invitations| && t.invitations[k].IsOpen() && op.Accept?
    requires InvitationByDigest(t.invitations, op.digest) == Some(l) && l != k
    ensures var v := Do(t, op).tables;
            && t.memberships <= v.memberships && t.users <= v.users && |v.memberships| <= |t.memberships| + 1
            && |v.invitations| == |t.invitations| && v.invitations[k] == t.invitations[k]
            && (|v.memberships| > |t.memberships| ==>
                  !IsMemberAs(v, |t.memberships|, t.invitations[k].email, t.invitations[k].organization))
  {
    var v := Do(t, op).tables;
    if |v.memberships| > |t.memberships| {
      assert t.invitations[l].IsOpen();
    }
  }

  lemma AcceptLeavesStuck(t: Tables, op: Op, k: nat, now: int)
    requires Inv(t) && Stuck(t, k, now) && now <= op.at && op.Accept?
    ensures Stuck(Do(t, op).tables, k, now)
    ensures Do(t, op).tables.invitations[k] == t.invitations[k]
  {
    var found := InvitationByDigest(t.invitations, op.digest);
    if found.Some? {
      if found.value == k {
        AcceptingStuckIsRefused(t, op, k, now);
      } else {
        AcceptingAnotherJoinsElsewhere(t, op, k, found.value);
        MoreRowsStayStuck(t, Do(t, op).tables, k, now);
      }
    }
  }

  lemma MoreRowsStayStuck(t: Tables, v: Tables, k: nat, now: int)
    requires RowsOk(t) && Stuck(t, k, now) && t.memberships <= v.memberships && t.users <= v.users
    requires |v.memberships| <= |t.memberships| + 1
    requires k < |v.invitations| && v.invitations[k] == t.invitations[k]
    requires |v.memberships| > |t.memberships| ==>
               !IsMemberAs(v, |t.memberships|, t.invitations[k].email, t.invitations[k].organization)
    ensures Stuck(v, k, now)
  {
    var i := t.invitations[k];
    forall a | 0 <= a < |v.memberships|
      ensures !IsMemberAs(v, a, i.email, i.organization)
    {
      if a < |t.memberships| {
        assert MemberOk(t, a);
        assert !IsMemberAs(t, a, i.email, i.organization);
      }
    }
  }

  lemma {:induction false} RunKeepsStuck(t: Tables, ops: seq<Op>, k: nat, now: int)
    requires Inv(t) && Stuck(t, k, now) && forall n :: 0 <= n < |ops| ==> now <= ops[n].at
    ensures Inv(Run(t, ops)) && Stuck(Run(t, ops), k, now) && Run(t, ops).invitations[k] == t.invitations[k]
    decreases ops
  {
    if ops != [] {
      StepKeepsStuck(t, ops[0], k, now);
      StepKeepsInv(t, ops[0]);
      RunKeepsStuck(Do(t, ops[0]).tables, ops[1..], k, now);
    }
  }

  /** Nobody with the address of an open invitation is a member of its organization. */
  ghost predicate NoOpenForMembers(t: Tables) {
    forall k :: 0 <= k < |t.invitations| && t.invitations[k].IsOpen() ==>
      !IsMember(t, t.invitations[k].email, t.invitations[k].organization)
  }

  lemma AcceptKeepsStranger(t: Tables, op: Op, k: nat)
    requires Inv(t) && op.Accept? && k < |t.invitations| && Stuck(t, k, t.invitations[k].expiresAt)
    requires Do(t, op).tables.invitations[k].IsOpen()
    ensures Stuck(Do(t, op).tables, k, t.invitations[k].expiresAt)
  {
    var found := InvitationByDigest(t.invitations, op.digest);
    if found.Some? && found.value != k {
      AcceptingAnotherJoinsElsewhere(t, op, k, found.value);
      MoreRowsStayStuck(t, Do(t, op).tables, k, t.invitations[k].expiresAt);
    } else {
      assert Do(t, op).tables == t;
    }
  }

  lemma CreateKeepsStranger(t: Tables, op: Op, k: nat)
    requires Inv(t) && NoOpenForMembers(t) && op.Create? && k < |Do(t, op).tables.invitations|
    requires Do(t, op).tables.invitations[k].IsOpen()
    ensures var i := Do(t, op).tables.invitations[k]; !IsMember(Do(t, op).tables, i.email, i.organization)
  {
    MemberLookup(t, op.email, op.organization);
    var v := Do(t, op).tables;
    assert v.memberships == t.memberships && v.users == t.users;
    assert k < |t.invitations| ==> v.invitations[k] == t.invitations[k];
    var i := v.invitations[k];
    assert !IsMember(t, i.email, i.organization);
    forall a | 0 <= a < |v.memberships|
      ensures !IsMemberAs(v, a, i.email, i.organization)
    {
      assert !IsMemberAs(t, a, i.email, i.organization);
    }
  }

  /** A sign-up makes members of new organizations only, and revoking makes none. */
  lemma OtherKeepsStranger(t: Tables, op: Op, k: nat)
    requires Inv(t) && (op.SignUp? || op.Revoke?) && k < |t.invitations| && Stuck(t, k, t.invitations[k].expiresAt)
    requires Do(t, op).tables.invitations[k].IsOpen()
    ensures Stuck(Do(t, op).tables, k, t.invitations[k].expiresAt)
  {
    assert InvitationOk(t, k);
    MoreRowsStayStuck(t, Do(t, op).tables, k, t.invitations[k].expiresAt);
  }

  lemma StepKeepsStranger(t: Tables, op: Op, k: nat)
    requires Inv(t) && NoOpenForMembers(t) && k < |Do(t, op).tables.invitations|
    requires Do(t, op).tables.invitations[k].IsOpen()
    ensures var i := Do(t, op).tables.invitations[k]; !IsMember(Do(t, op).tables, i.email, i.organization)
  {
    if op.Create? {
      CreateKeepsStranger(t, op, k);
    } else {
      OpenWasOpen(t, op, k);
      if op.Accept? {
        AcceptKeepsStranger(t, op, k);
      } else {
        OtherKeepsStranger(t, op, k);
      }
    }
  }

  lemma OpenWasOpen(t: Tables, op: Op, k: nat)
    requires NoOpenForMembers(t) && !op.Create? && k < |Do(t, op).tables.invitations|
    requires Do(t, op).tables.invitations[k].IsOpen()
    ensures k < |t.invitations| && Do(t, op).tables.invitations[k] == t.invitations[k]
    ensures Stuck(t, k, t.invitations[k].expiresAt)
  {
    StepExtends(t, op);
    assert |Do(t, op).tables.invitations| == |t.invitations|;
  }

  lemma StepKeepsStrangers(t: Tables, op: Op)
    requires Inv(t) && NoOpenForMembers(t)
    ensures NoOpenForMembers(Do(t, op).tables)
  {
    forall k | 0 <= k < |Do(t, op).tables.invitations| && Do(t, op).tables.invitations[k].IsOpen()
      ensures var i := Do(t, op).tables.invitations[k]; !IsMember(Do(t, op).tables, i.email, i.organization)
    {
      StepKeepsStranger(t, op, k);
    }
  }

  lemma {:induction false} RunKeepsStrangers(t: Tables, ops: seq<Op>)
    requires Inv(t) && NoOpenForMembers(t)
    ensures NoOpenForMembers(Run(t, ops))
    decreases ops
  {
    if ops != [] {
      StepKeepsInv(t, ops[0]);
      StepKeepsStrangers(t, ops[0]);
      RunKeepsStrangers(Do(t, ops[0]).tables, ops[1..]);
    }
  }

  /** In no reachable state does a member of an organization have an open invitation to it. */
  lemma OpenInvitesStrangers(t: Tables, k: nat)
    requires Reachable(t) && k < |t.invitations| && t.invitations[k].IsOpen()
    ensures !IsMember(t, t.invitations[k].email, t.invitations[k].organization)
  {
    var ops :| t == Run(EMPTY, ops);
    RunKeepsStrangers(EMPTY, ops);
  }

  /** So an invitation that is stamped accepted without a new membership had been revoked. */
  lemma StampWithoutJoining(t: Tables, op: Op, k: nat)
    requires Reachable(t) && op.Accept? && k < |t.invitations| && t.invitations[k].acceptedAt.None?
    requires var v := Do(t, op).tables; v.invitations[k].acceptedAt.Some? && v.memberships == t.memberships
    ensures t.invitations[k].revokedAt.Some?
  {
    ReachableInv(t);
    if t.invitations[k].IsOpen() {
      OpenInvitesStrangers(t, k);
      MemberLookup(t, t.invitations[k].email, t.invitations[k].organization);
    }
  }

  /**
   Once an invitation has expired unanswered, its address can never again be invited to
   that organization: whatever runs later, every attempt is refused.
   */
  lemma {:induction false} ExpiredInvitationBlocksForever(t: Tables, ops: seq<Op>, k: nat, now: int, op: Op)
    requires Reachable(t) && k < |t.invitations| && t.invitations[k].IsOpen() && t.invitations[k].expiresAt <= now
    requires forall n :: 0 <= n < |ops| ==> now <= ops[n].at
    requires op.Create? && op.organization == t.invitations[k].organization
    requires Fold(op.email) == Fold(t.invitations[k].email)
    ensures Do(Run(t, ops), op).result.Err?
  {
    ReachableInv(t);
    OpenInvitesStrangers(t, k);
    RunKeepsStuck(t, ops, k, now);
  }

  const FOUNDED := Tables([User("a", None)], 1, [Membership(0, 0, Manager, 0, Founder)], [],
                          [EmailConfirmation.Token(0, "t", EmailConfirmation.TOKEN_TTL, None)])

  function Invited(digest: string): Invitation {
    Invitation(0, "b", Member, digest, 0, INVITATION_TTL, None, None)
  }

  lemma FoundedThenInvited()
    ensures Do(EMPTY, SignUp("a", true, "t", 0)).tables == FOUNDED
    ensures Do(FOUNDED, Create(0, 0, "b", Member, "d", 0)).tables == FOUNDED.(invitations := [Invited("d")])
    ensures UserByEmail(FOUNDED.users, "b").None?
  {
    assert Fold("a")[0] == 'a' && Fold("b")[0] == 'b';
  }

  /** Such a state is reached by one sign-up and one invitation. */
  lemma ExpiredInvitationExists()
    ensures var ops := [SignUp("a", true, "t", 0), Create(0, 0, "b", Member, "d", 0)];
            && Reachable(Run(EMPTY, ops)) && Stuck(Run(EMPTY, ops), 0, INVITATION_TTL)
            && Run(EMPTY, ops).invitations[0].email == "b"
  {
    var ops := [SignUp("a", true, "t", 0), Create(0, 0, "b", Member, "d", 0)];
    FoundedThenInvited();
    assert ops[1..] == [ops[1]];
    assert Run(EMPTY, ops) == Run(FOUNDED, ops[1..]) == FOUNDED.(invitations := [Invited("d")]);
  }

  /** Accepting succeeds exactly when a member repeats it, or the invitation is valid and the fields fit. */
  lemma AcceptSucceedsIff(t: Tables, op: Op)
    requires Reachable(t) && op.Accept?
    ensures var found := InvitationByDigest(t.invitations, op.digest);
            Do(t, op).result.Ok? <==>
            && found.Some?
            && var i := t.invitations[found.value];
            if UserByEmail(t.users, i.email).Some?
            then op.name.None? && op.password.None?
                 && (IsMember(t, i.email, i.organization) || i.Validate(op.at).Ok?)
            else !Blank(op.name) && !Blank(op.password) && i.Validate(op.at).Ok?
  {
    ReachableInv(t);
    var found := InvitationByDigest(t.invitations, op.digest);
    if found.Some? {
      var i := t.invitations[found.value];
      MemberLookup(t, i.email, i.organization);
      if UserByEmail(t.users, i.email).None? {
        forall a | 0 <= a < |t.memberships|
          ensures t.memberships[a].user < |t.users|
        {
          assert MemberOk(t, a);
        }
      }
    }
  }

  /**
   A revoked invitation is stamped accepted exactly when someone who is already a member
   presents it; no membership comes of it, and both its stamps are then set.
   */
  lemma RevokedIsStampedIff(t: Tables, op: Op, k: nat)
    requires Reachable(t) && op.Accept? && k < |t.invitations|
    requires t.invitations[k].revokedAt.Some? && t.invitations[k].acceptedAt.None?
    ensures var i, after := t.invitations[k], Do(t, op).tables;
            && (after.invitations[k].acceptedAt.Some? <==>
                op.digest == i.digest && op.name.None? && op.password.None? && IsMember(t, i.email, i.organization))
            && (after.invitations[k].acceptedAt.Some? ==> after.memberships == t.memberships)
  {
    ReachableInv(t);
    MemberLookup(t, t.invitations[k].email, t.invitations[k].organization);
    var found := InvitationByDigest(t.invitations, op.digest);
    if op.digest == t.invitations[k].digest {
      assert found == Some(k);
    }
  }

  const REINVITED := FOUNDED.(invitations := [Invited("d").(revokedAt := Some(1)), Invited("e")])

  const JOINED := Tables(
    [User("a", None), User("b", Some(2))], 1,
    [Membership(0, 0, Manager, 0, Founder), Membership(0, 1, Member, 2, Joined(1))],
    [Invited("d").(revokedAt := Some(1)), Invited("e").(acceptedAt := Some(2))], FOUNDED.tokens)

  lemma RevokedThenReinvited()
    ensures var revoked := FOUNDED.(invitations := [Invited("d").(revokedAt := Some(1))]);
            && Do(FOUNDED.(invitations := [Invited("d")]), Revoke(0, 0, 0, 1)).tables == revoked
            && Do(revoked, Create(0, 0, "b", Member, "e", 0)).tables == REINVITED
  {
    FoundedThenInvited();
    assert "d"[0] != "e"[0];
    assert FOUNDED.(invitations := [Invited("d").(revokedAt := Some(1))]).invitations + [Invited("e")]
        == REINVITED.invitations;
  }

  lemma LookupsByDigest()
    ensures InvitationByDigest(REINVITED.invitations, "e") == Some(1)
    ensures InvitationByDigest(JOINED.invitations, "d") == Some(0)
    ensures UserByEmail(JOINED.users, "b") == Some(1) && MembershipOf(JOINED.memberships, 1, 0) == Some(1)
  {
    assert "d"[0] != "e"[0] && Fold("a")[0] == 'a' && Fold("b")[0] == 'b';
    assert REINVITED.invitations[0].digest == "d" && REINVITED.invitations[1].digest == "e";
    assert JOINED.invitations[0].digest == "d";
    assert JOINED.users[0].email == "a" && JOINED.users[1].email == "b";
    assert JOINED.memberships[0].user == 0 && JOINED.memberships[1].user == 1;
  }

  lemma ReinvitedThenJoined()
    ensures Do(REINVITED, Accept("e", Some("n"), Some("p"), 2)).tables == JOINED
  {
    FoundedThenInvited();
    LookupsByDigest();
    assert !IsSpace("n"[0]) && !IsSpace("p"[0]);
    assert MembershipOf(REINVITED.memberships, 1, 0).None?;
  }

  lemma {:induction false} RunThenDo(t: Tables, ops: seq<Op>, op: Op)
    ensures Run(t, ops + [op]) == Do(Run(t, ops), op).tables
    decreases ops
  {
    if ops == [] {
      assert ops + [op] == [op];
      assert Run(Do(t, op).tables, []) == Do(t, op).tables;
    } else {
      assert (ops + [op])[1..] == ops[1..] + [op];
      RunThenDo(Do(t, ops[0]).tables, ops[1..], op);
    }
  }

  lemma DoStaysReachable(t: Tables, op: Op)
    requires Reachable(t)
    ensures Reachable(Do(t, op).tables)
  {
    var ops :| t == Run(EMPTY, ops);
    RunThenDo(EMPTY, ops, op);
  }

  lemma JoinedIsReachable()
    ensures Reachable(JOINED)
  {
    FoundedThenInvited();
    RevokedThenReinvited();
    ReinvitedThenJoined();
    assert EMPTY == Run(EMPTY, []);
    DoStaysReachable(EMPTY, SignUp("a", true, "t", 0));
    DoStaysReachable(FOUNDED, Create(0, 0, "b", Member, "d", 0));
    DoStaysReachable(FOUNDED.(invitations := [Invited("d")]), Revoke(0, 0, 0, 1));
    DoStaysReachable(FOUNDED.(invitations := [Invited("d").(revokedAt := Some(1))]), Create(0, 0, "b", Member, "e", 0));
    DoStaysReachable(REINVITED, Accept("e", Some("n"), Some("p"), 2));
  }

  /** Such a state: an invitation was revoked, its address joined by a second one, and the first is presented. */
  lemma RevokedIsStamped()
    ensures var after := Do(JOINED, Accept("d", None, None, 3));
            && Reachable(JOINED)
            && JOINED.invitations[0].revokedAt == Some(1) && JOINED.invitations[0].acceptedAt == None
            && after.result.Ok? && after.tables.invitations[0].acceptedAt == Some(3)
            && after.tables.invitations[0].revokedAt == Some(1)
  {
    JoinedIsReachable();
    LookupsByDigest();
    assert JOINED.invitations[0].email == "b";
  }
}
