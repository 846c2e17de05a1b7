/**
 What is stored of a membership and of an invite, told from the requests alone: who is a member,
 in which role, and what an invite is good for.
 */
module OrgsLaws {
  import opened Wrappers
  import opened Orgs
  import opened OrgsRuns

  // ---- memberships -------------------------------------------------------------

  /** Why an operation is refused, if it is. */
  ghost function ErrorOf(s: State, op: Op): Option<OrgError> {
    match op
    case Register(_, email) => if email in s.users then Some(UniqueViolation) else None
    case CreateOrg(_, _, slug) => if slug in s.slugs then Some(BadRequest) else None
    case AddMember(_, _, _, _, _) => None
    case AcceptInvite(_, email, token, now) => Refusal(s, email, token, now)
    case UpdateRole(org, target, _) => MemberError(s, target, org)
    case RemoveMember(org, target) => MemberError(s, target, org)
  }

  /** A stranger cannot be changed, an owner must not be. */
  function MemberError(s: State, user: UserId, org: OrgId): Option<OrgError> {
    match RoleOf(s, user, org)
    case None => Some(NotFound)
    case Some(Owner) => Some(Forbidden)
    case _ => None
  }

  function RoleOf(s: State, user: UserId, org: OrgId): Option<Role> {
    if MemberKey(user, org) in s.members then Some(s.members[MemberKey(user, org)]) else None
  }

  /** An operation succeeds or is refused as told, and a refused one changes nothing. */
  lemma RefusedAsTold(s: State, op: Op)
    ensures Step(s, op).1 == ErrorOf(s, op)
    ensures ErrorOf(s, op).Some? ==> Step(s, op).0 == s
  {
  }

  /** An operation that succeeded, and the tables it found. */
  datatype Accepted = Accepted(before: State, op: Op)

  /** The operation is about the user's membership of the organisation. */
  ghost predicate IsAbout(s: State, op: Op, user: UserId, org: OrgId) {
    match op
    case Register(_, _) => false
    case CreateOrg(u, o, _) => u == user && o == org
    case AddMember(o, email, _, _, _) => o == org && Lower(email) in s.users && s.users[Lower(email)] == user
    case AcceptInvite(u, _, token, _) =>
      u == user && InviteWith(s.invites, token).Some? && InviteWith(s.invites, token).value.org == org
    case UpdateRole(o, target, _) => o == org && target == user
    case RemoveMember(o, target) => o == org && target == user
  }

  ghost function About(s: State, ops: seq<Op>, user: UserId, org: OrgId): seq<Accepted>
    decreases |ops|
  {
    if ops == [] then []
    else
      var rest := About(Step(s, ops[0]).0, ops[1..], user, org);
      if IsAbout(s, ops[0], user, org) && ErrorOf(s, ops[0]).None? then [Accepted(s, ops[0])] + rest else rest
  }

  /** The membership an operation about it leaves: a role, or none. */
  ghost function RoleIn(a: Accepted): Option<Option<Role>> {
    match a.op
    case Register(_, _) => None
    case CreateOrg(_, _, _) => Some(Some(Owner))
    case AddMember(_, _, role, _, _) => Some(Some(role))
    case AcceptInvite(_, _, token, _) =>
      var k := InviteWith(a.before.invites, token);
      if k.Some? then Some(Some(a.before.invites[k.value].role)) else None
    case UpdateRole(_, _, role) => Some(Some(role))
    case RemoveMember(_, _) => Some(None)
  }

  lemma OneOperation(s: State, op: Op, user: UserId, org: OrgId)
    ensures RoleOf(Step(s, op).0, user, org) ==
            if IsAbout(s, op, user, org) && ErrorOf(s, op).None? then RoleIn(Accepted(s, op)).value
            else RoleOf(s, user, org)
  {
    assert IsAbout(s, op, user, org) && ErrorOf(s, op).None? ==> RoleIn(Accepted(s, op)).Some?;
  }

  /**
   In every run, whether and in which role somebody is a member is what the last successful
   operation about that membership left: creating the organisation, being added, accepting an
   invite, a change of role, or a removal.
   */
  lemma {:induction false} RoleIsLastGiven(s: State, ops: seq<Op>, user: UserId, org: OrgId)
    ensures Some(RoleOf(Run(s, ops), user, org)) ==
            LastGiven(About(s, ops, user, org), RoleIn, Some(RoleOf(s, user, org)))
    decreases |ops|
  {
    if ops != [] {
      var op, next := ops[0], Step(s, ops[0]).0;
      OneOperation(s, op, user, org);
      RoleIsLastGiven(next, ops[1..], user, org);
      if IsAbout(s, op, user, org) && ErrorOf(s, op).None? {
        LastGivenOfFirst(Accepted(s, op), About(next, ops[1..], user, org), RoleIn, Some(RoleOf(s, user, org)));
      }
    }
  }

  /** No operation of the run succeeds that is about the membership. */
  ghost predicate LeftAlone(s: State, ops: seq<Op>, user: UserId, org: OrgId) {
    About(s, ops, user, org) == []
  }

  /** The operation makes the user a member: as creator, by being added, or by accepting an invite. */
  ghost predicate Admits(s: State, op: Op, user: UserId, org: OrgId) {
    (op.CreateOrg? || op.AddMember? || op.AcceptInvite?) && IsAbout(s, op, user, org) && ErrorOf(s, op).None?
  }

  ghost predicate NoneAdmits(s: State, ops: seq<Op>, user: UserId, org: OrgId)
    decreases |ops|
  {
    ops == [] || (!Admits(s, ops[0], user, org) && NoneAdmits(Step(s, ops[0]).0, ops[1..], user, org))
  }

  lemma {:induction false} StrangersStayOut(s: State, ops: seq<Op>, user: UserId, org: OrgId)
    requires RoleOf(s, user, org) == None && NoneAdmits(s, ops, user, org)
    ensures RoleOf(Run(s, ops), user, org) == None
    decreases |ops|
  {
    if ops != [] {
      OneOperation(s, ops[0], user, org);
      StrangersStayOut(Step(s, ops[0]).0, ops[1..], user, org);
    }
  }

  /** Who is removed is no member until they are admitted anew. */
  lemma RemovedIsOut(s: State, org: OrgId, user: UserId, later: seq<Op>)
    requires Step(s, RemoveMember(org, user)).1.None?
    requires NoneAdmits(Step(s, RemoveMember(org, user)).0, later, user, org)
    ensures RoleOf(Run(Step(s, RemoveMember(org, user)).0, later), user, org) == None
  {
    OneOperation(s, RemoveMember(org, user), user, org);
    RefusedAsTold(s, RemoveMember(org, user));
    StrangersStayOut(Step(s, RemoveMember(org, user)).0, later, user, org);
  }

  /** A role that is asked for, of a member or of somebody with an account, is the role from then on. */
  lemma RoleIsAsAsked(s: State, op: Op, user: UserId, later: seq<Op>)
    requires op.UpdateRole? || op.AddMember?
    requires IsAbout(s, op, user, op.org) && ErrorOf(s, op).None? && LeftAlone(Step(s, op).0, later, user, op.org)
    ensures RoleOf(Run(Step(s, op).0, later), user, op.org) == Some(op.role)
  {
    OneOperation(s, op, user, op.org);
    RoleIsLastGiven(Step(s, op).0, later, user, op.org);
  }

  /** Whoever creates an organisation owns it from then on. */
  lemma CreatorOwns(s: State, user: UserId, org: OrgId, slug: string, later: seq<Op>)
    requires ErrorOf(s, CreateOrg(user, org, slug)).None?
    requires LeftAlone(Step(s, CreateOrg(user, org, slug)).0, later, user, org)
    ensures RoleOf(Run(Step(s, CreateOrg(user, org, slug)).0, later), user, org) == Some(Owner)
  {
    OneOperation(s, CreateOrg(user, org, slug), user, org);
    RoleIsLastGiven(Step(s, CreateOrg(user, org, slug)).0, later, user, org);
  }

  // ---- accounts and slugs ------------------------------------------------------

  /** Addresses and slugs that are taken stay with whom they have, and are refused to others. */
  lemma {:induction false} TakenStaysTaken(s: State, ops: seq<Op>)
    ensures forall email | email in s.users :: email in Run(s, ops).users && Run(s, ops).users[email] == s.users[email]
    ensures forall slug | slug in s.slugs :: slug in Run(s, ops).slugs && Run(s, ops).slugs[slug] == s.slugs[slug]
    decreases |ops|
  {
    if ops != [] {
      TakenStaysTaken(Step(s, ops[0]).0, ops[1..]);
    }
  }

  /** A registration that succeeds takes its address, a creation its slug. */
  lemma SuccessTakes(s: State, op: Op, later: seq<Op>)
    requires ErrorOf(s, op).None?
    ensures op.Register? ==>
              var users := Run(Step(s, op).0, later).users; op.email in users && users[op.email] == op.user
    ensures op.CreateOrg? ==>
              var slugs := Run(Step(s, op).0, later).slugs; op.slug in slugs && slugs[op.slug] == op.org
  {
    TakenStaysTaken(Step(s, op).0, later);
  }

  // ---- invites -----------------------------------------------------------------

  /** The operation invites the address anew, or redeems the token. */
  ghost predicate Ends(s: State, op: Op, org: OrgId, address: string, token: Token) {
    match op
    case AddMember(o, email, _, _, _) => o == org && Lower(email) == address && Lower(email) !in s.users
    case AcceptInvite(_, _, t, _) => t == token && ErrorOf(s, op).None?
    case _ => false
  }

  ghost predicate NoneEnds(s: State, ops: seq<Op>, org: OrgId, address: string, token: Token)
    decreases |ops|
  {
    ops == [] || (!Ends(s, ops[0], org, address, token) && NoneEnds(Step(s, ops[0]).0, ops[1..], org, address, token))
  }

  ghost predicate IsOpen(s: State, k: InviteKey, invite: Invite) {
    k in s.invites && s.invites[k] == invite && !invite.accepted
  }

  lemma {:induction false} StaysOpen(s: State, ops: seq<Op>, k: InviteKey, invite: Invite)
    requires Inv(s) && AllGranted(s, ops) && IsOpen(s, k, invite) && NoneEnds(s, ops, k.org, k.email, invite.token)
    ensures IsOpen(Run(s, ops), k, invite) && Inv(Run(s, ops))
    decreases |ops|
  {
    if ops != [] {
      OneOpenStep(s, ops[0], k, invite);
      StepKeepsInv(s, ops[0]);
      StaysOpen(Step(s, ops[0]).0, ops[1..], k, invite);
    }
  }

  lemma OneOpenStep(s: State, op: Op, k: InviteKey, invite: Invite)
    requires Inv(s) && Granted(s, op) && IsOpen(s, k, invite) && !Ends(s, op, k.org, k.email, invite.token)
    ensures IsOpen(Step(s, op).0, k, invite)
  {
    if op.AcceptInvite? && ErrorOf(s, op).None? {
      assert InviteWith(s.invites, op.token).value != k;
    }
  }

  /**
   An address without an account is invited: until it is invited again or the token redeemed,
   the token is refused to other addresses, accepted from that one up to seven days after the
   invitation and not later, and gives the role that was asked for.
   */
  lemma InviteIsAsAsked(s: State, op: Op, later: seq<Op>, user: UserId, email: string, now: Instant)
    requires Inv(s) && Granted(s, op) && op.AddMember? && Lower(op.email) !in s.users
    requires AllGranted(Step(s, op).0, later) && NoneEnds(Step(s, op).0, later, op.org, Lower(op.email), op.token)
    ensures var after := Run(Step(s, op).0, later);
            var error := if op.now + 604800000 < now then Some(BadRequest)
                         else if Lower(email) != Lower(op.email) then Some(Forbidden) else None;
            && ErrorOf(after, AcceptInvite(user, email, op.token, now)) == error
            && (error.None? ==>
                  RoleOf(Step(after, AcceptInvite(user, email, op.token, now)).0, user, op.org) == Some(op.role))
  {
    var k := InviteKey(op.org, Lower(op.email));
    var invite := Invite(op.role, op.token, op.now + 604800000, false);
    var after := Run(Step(s, op).0, later);
    StepKeepsInv(s, op);
    assert IsOpen(Step(s, op).0, k, invite);
    StaysOpen(Step(s, op).0, later, k, invite);
    assert InviteWith(after.invites, op.token) == Some(k);
    LowerTwice(op.email);
    OneOperation(after, AcceptInvite(user, email, op.token, now), user, op.org);
  }
}
