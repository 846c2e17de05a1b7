/** Whole runs of membership and invite operations. */
module OrgsRuns {
  import opened Orgs

  const EMPTY := State(map[], map[], map[], map[], map[], {})

  ghost predicate AllGranted(s: State, ops: seq<Op>)
    decreases |ops|
  {
    ops == [] || (Granted(s, ops[0]) && AllGranted(Step(s, ops[0]).0, ops[1..]))
  }

  ghost function Run(s: State, ops: seq<Op>): State
    decreases |ops|
  {
    if ops == [] then s else Run(Step(s, ops[0]).0, ops[1..])
  }

  ghost predicate Inv(s: State) {
    // nobody but the creator is an owner
    && (forall k | k in s.members && s.members[k] == Owner :: k.org in s.creators && s.creators[k.org] == k.user)
    && (forall k | k in s.invites :: s.invites[k].role != Owner && s.invites[k].token in s.issued)
    && UniqueTokens(s.invites)
  }

  lemma StepKeepsInv(s: State, op: Op)
    requires Inv(s) && Granted(s, op)
    ensures Inv(Step(s, op).0)
  {
    if op.AcceptInvite? && Refusal(s, op.email, op.token, op.now).None? {
      AcceptKeepsInv(s, op.user, InviteWith(s.invites, op.token).value);
    }
  }

  lemma AcceptKeepsInv(s: State, user: UserId, k: InviteKey)
    requires Inv(s) && k in s.invites
    ensures Inv(s.(members := s.members[MemberKey(user, k.org) := s.invites[k].role],
                   invites := s.invites[k := s.invites[k].(accepted := true)]))
  {
  }

  /** In every run only an organisation's creator is ever its owner, and tokens stay unique. */
  lemma {:induction false} RunKeepsInv(s: State, ops: seq<Op>)
    requires Inv(s) && AllGranted(s, ops)
    ensures Inv(Run(s, ops))
    decreases |ops|
  {
    if ops != [] {
      StepKeepsInv(s, ops[0]);
      RunKeepsInv(Step(s, ops[0]).0, ops[1..]);
    }
  }

  predicate IsOwner(s: State, user: UserId, org: OrgId) {
    MemberKey(user, org) in s.members && s.members[MemberKey(user, org)] == Owner
  }

  /** The operation writes the user's membership without looking at the role it has. */
  ghost predicate Overwrites(s: State, op: Op, user: UserId, org: OrgId) {
    match op
    case AddMember(o, email, _, _, _) => o == org && Lower(email) in s.users && s.users[Lower(email)] == user
    case AcceptInvite(u, email, token, now) =>
      u == user && Refusal(s, email, token, now).None? && InviteWith(s.invites, token).value.org == org
    case _ => false
  }

  /** An owner stays owner through one operation exactly if that does not overwrite it. */
  lemma OwnerStaysIff(s: State, op: Op, user: UserId, org: OrgId)
    requires Inv(s) && Granted(s, op) && IsOwner(s, user, org)
    ensures IsOwner(Step(s, op).0, user, org) <==> !Overwrites(s, op, user, org)
  {
  }

  ghost predicate NeverOverwritten(s: State, ops: seq<Op>, user: UserId, org: OrgId)
    decreases |ops|
  {
    ops == [] || (!Overwrites(s, ops[0], user, org) && NeverOverwritten(Step(s, ops[0]).0, ops[1..], user, org))
  }

  /** The creator stays owner in every run in which no invitation is made to, or accepted by, them. */
  lemma {:induction false} CreatorStaysOwner(s: State, ops: seq<Op>, user: UserId, org: OrgId)
    requires Inv(s) && AllGranted(s, ops) && IsOwner(s, user, org) && NeverOverwritten(s, ops, user, org)
    ensures IsOwner(Run(s, ops), user, org)
    decreases |ops|
  {
    if ops != [] {
      StepKeepsInv(s, ops[0]);
      OwnerStaysIff(s, ops[0], user, org);
      CreatorStaysOwner(Step(s, ops[0]).0, ops[1..], user, org);
    }
  }

  /** An organisation that exists and has lost its owner never gets one again. */
  lemma {:induction false} OwnerlessForEver(s: State, ops: seq<Op>, org: OrgId)
    requires Inv(s) && AllGranted(s, ops) && org in s.creators
    requires forall user :: !IsOwner(s, user, org)
    ensures forall user :: !IsOwner(Run(s, ops), user, org)
    decreases |ops|
  {
    if ops != [] {
      StepKeepsInv(s, ops[0]);
      StaysOwnerless(s, ops[0], org);
      OwnerlessForEver(Step(s, ops[0]).0, ops[1..], org);
    }
  }

  lemma StaysOwnerless(s: State, op: Op, org: OrgId)
    requires Inv(s) && Granted(s, op) && org in s.creators && forall user :: !IsOwner(s, user, org)
    ensures forall user :: !IsOwner(Step(s, op).0, user, org)
    ensures org in Step(s, op).0.creators
  {
    forall user ensures !IsOwner(Step(s, op).0, user, org) {
      assert !IsOwner(s, user, org);
    }
  }

  /** Inviting the owner by their own address does that. */
  lemma AddingTheOwnerDemotes(s: State, op: Op, user: UserId)
    requires Inv(s) && Granted(s, op) && op.AddMember? && IsOwner(s, user, op.org)
    requires Lower(op.email) in s.users && s.users[Lower(op.email)] == user
    ensures Step(s, op).0.members[MemberKey(user, op.org)] == op.role
    ensures forall u :: !IsOwner(Step(s, op).0, u, op.org)
  {
  }

  // ---- invites -----------------------------------------------------------------

  /** The token lets somebody with that address into the organisation. */
  ghost predicate Redeemable(s: State, token: Token, org: OrgId, email: string, now: Instant) {
    Refusal(s, email, token, now).None? && InviteWith(s.invites, token).value.org == org
  }

  /** The token has been issued, and no open invite carries it. */
  ghost predicate Burnt(s: State, token: Token) {
    token in s.issued && forall k | k in s.invites && s.invites[k].token == token :: s.invites[k].accepted
  }

  lemma {:induction false} BurntForEver(s: State, ops: seq<Op>, token: Token)
    requires AllGranted(s, ops) && Burnt(s, token)
    ensures Burnt(Run(s, ops), token)
    ensures forall email, now :: Refusal(Run(s, ops), email, token, now).Some?
    decreases |ops|
  {
    if ops != [] {
      BurntForEver(Step(s, ops[0]).0, ops[1..], token);
    }
  }

  /** Accepting gives the invite's role, and the token is good for nothing from then on. */
  lemma RedeemedOnce(s: State, op: Op, later: seq<Op>)
    requires Inv(s) && op.AcceptInvite? && Step(s, op).1.None? && AllGranted(Step(s, op).0, later)
    ensures var k := InviteWith(s.invites, op.token).value;
            && Step(s, op).0.members[MemberKey(op.user, k.org)] == s.invites[k].role
            && Lower(k.email) == Lower(op.email)
    ensures forall email, now :: Refusal(Run(Step(s, op).0, later), email, op.token, now).Some?
  {
    BurntForEver(Step(s, op).0, later, op.token);
  }

  /** Inviting an address again makes its earlier token worthless for ever. */
  lemma ReinvitingKillsTheOldToken(s: State, op: Op, later: seq<Op>)
    requires Inv(s) && op.AddMember? && Granted(s, op) && Lower(op.email) !in s.users
    requires InviteKey(op.org, Lower(op.email)) in s.invites && AllGranted(Step(s, op).0, later)
    ensures var before := s.invites[InviteKey(op.org, Lower(op.email))].token;
            forall email, now :: Refusal(Run(Step(s, op).0, later), email, before, now).Some?
  {
    BurntForEver(Step(s, op).0, later, s.invites[InviteKey(op.org, Lower(op.email))].token);
  }

  lemma LowerTwice(s: string)
    ensures Lower(Lower(s)) == Lower(s)
  {
  }

  /** The addresses of invites are stored in lower case. */
  ghost predicate Normalized(s: State) {
    forall k | k in s.invites :: Lower(k.email) == k.email
  }

  lemma {:induction false} RunKeepsNormalized(s: State, ops: seq<Op>)
    requires Normalized(s)
    ensures Normalized(Run(s, ops))
    decreases |ops|
  {
    if ops != [] {
      if ops[0].AddMember? {
        LowerTwice(ops[0].email);
      }
      RunKeepsNormalized(Step(s, ops[0]).0, ops[1..]);
    }
  }

  /** In every run an address has at most one redeemable token per organisation. */
  lemma OneRedeemableToken(ops: seq<Op>, t: Token, u: Token, org: OrgId, email: string, now: Instant)
    requires AllGranted(EMPTY, ops)
    requires Redeemable(Run(EMPTY, ops), t, org, email, now) && Redeemable(Run(EMPTY, ops), u, org, email, now)
    ensures t == u
  {
    RunKeepsNormalized(EMPTY, ops);
    var invites := Run(EMPTY, ops).invites;
    var k, l := InviteWith(invites, t).value, InviteWith(invites, u).value;
    assert k in invites && l in invites;
    assert k == l;
  }
}
