/** Organisations, memberships and invites: apps/api/src/modules/orgs/orgs.service.ts. */
module Orgs {
  import opened Wrappers

  type UserId = nat
  type OrgId = nat
  type Token = nat
  type Instant = int

  datatype Role = Owner | Admin | Member | Guest

  datatype MemberKey = MemberKey(user: UserId, org: OrgId)
  datatype InviteKey = InviteKey(org: OrgId, email: string)
  datatype Invite = Invite(role: Role, token: Token, expiresAt: Instant, accepted: bool)

  const INVITE_TTL := 7 * 24 * 60 * 60 * 1000

  /** email.toLowerCase(), on ASCII letters. */
  function Lower(s: string): (l: string)
    ensures |l| == |s|
  {
    seq(|s|, i requires 0 <= i < |s| => if 'A' <= s[i] <= 'Z' then s[i] - 'A' + 'a' else s[i])
  }

  /**
   The tables, by their unique keys. Kept for the statements: who created each
   organisation, and every token ever issued.
   */
  datatype State = State(
    users: map<string, UserId>, slugs: map<string, OrgId>, members: map<MemberKey, Role>,
    invites: map<InviteKey, Invite>, creators: map<OrgId, UserId>, issued: set<Token>)

  datatype OrgError = BadRequest | Forbidden | NotFound | UniqueViolation

  datatype Op =
    | Register(user: UserId, email: string)
    | CreateOrg(user: UserId, org: OrgId, slug: string)
    | AddMember(org: OrgId, email: string, role: Role, token: Token, now: Instant)
    | AcceptInvite(user: UserId, email: string, token: Token, now: Instant)
    | UpdateRole(org: OrgId, target: UserId, role: Role)
    | RemoveMember(org: OrgId, target: UserId)

  /** The row with the token, by the unique index on its hash. */
  ghost function InviteWith(invites: map<InviteKey, Invite>, token: Token): Option<InviteKey> {
    if exists k :: k in invites && invites[k].token == token
    then var k :| k in invites && invites[k].token == token; Some(k)
    else None
  }

  ghost predicate UniqueTokens(invites: map<InviteKey, Invite>) {
    forall k, l | k in invites && l in invites && invites[k].token == invites[l].token :: k == l
  }

  /** What acceptInvite answers for the invite it finds. */
  ghost function Refusal(s: State, email: string, token: Token, now: Instant): Option<OrgError> {
    var k := InviteWith(s.invites, token);
    if k.None? || s.invites[k.value].accepted || s.invites[k.value].expiresAt < now then Some(BadRequest)
    else if Lower(k.value.email) != Lower(email) then Some(Forbidden)
    else None
  }

  ghost function Step(s: State, op: Op): (State, Option<OrgError>) {
    match op
    case Register(user, email) =>
      if email in s.users then (s, Some(UniqueViolation)) else (s.(users := s.users[email := user]), None)
    case CreateOrg(user, org, slug) =>
      if slug in s.slugs then (s, Some(BadRequest))
      else
        (s.(slugs := s.slugs[slug := org], members := s.members[MemberKey(user, org) := Owner],
            creators := s.creators[org := user]),
         None)
    case AddMember(org, email, role, token, now) =>
      var address := Lower(email);
      if address in s.users then (s.(members := s.members[MemberKey(s.users[address], org) := role]), None)
      else
        (s.(invites := s.invites[InviteKey(org, address) := Invite(role, token, now + INVITE_TTL, false)],
            issued := s.issued + {token}),
         None)
    case AcceptInvite(user, email, token, now) =>
      var refusal := Refusal(s, email, token, now);
      if refusal.Some? then (s, refusal)
      else
        var k := InviteWith(s.invites, token).value;
        var invite := s.invites[k];
        (s.(members := s.members[MemberKey(user, k.org) := invite.role],
            invites := s.invites[k := invite.(accepted := true)]),
         None)
    case UpdateRole(org, target, role) =>
      var k := MemberKey(target, org);
      if k !in s.members then (s, Some(NotFound))
      else if s.members[k] == Owner then (s, Some(Forbidden))
      else (s.(members := s.members[k := role]), None)
    case RemoveMember(org, target) =>
      var k := MemberKey(target, org);
      if k !in s.members then (s, Some(NotFound))
      else if s.members[k] == Owner then (s, Some(Forbidden))
      else (s.(members := s.members - {k}), None)
  }

  /** What the request schemas and the id generators grant: no OWNER role, new ids and tokens. */
  predicate Granted(s: State, op: Op) {
    match op
    case AddMember(_, _, role, token, _) => role != Owner && token !in s.issued
    case UpdateRole(_, _, role) => role != Owner
    case CreateOrg(_, org, _) => org !in s.creators
    case _ => true
  }

  class OrgsService {
    var users: map<string, UserId>
    var slugs: map<string, OrgId>
    var members: map<MemberKey, Role>
    var invites: map<InviteKey, Invite>
    ghost var creators: map<OrgId, UserId>
    ghost var issued: set<Token>

    ghost function Tables(): State
      reads this
    {
      State(users, slugs, members, invites, creators, issued)
    }

    method Create(user: UserId, org: OrgId, slug: string) returns (error: Option<OrgError>)
      modifies this
      ensures (Tables(), error) == Step(old(Tables()), CreateOrg(user, org, slug))
    {
      if slug in slugs {
        return Some(BadRequest);
      }
      slugs := slugs[slug := org];
      members := members[MemberKey(user, org) := Owner];
      creators := creators[org := user];
      error := None;
    }

    method Add(org: OrgId, email: string, role: Role, token: Token, now: Instant) returns (error: Option<OrgError>)
      modifies this
      ensures (Tables(), error) == Step(old(Tables()), AddMember(org, email, role, token, now))
    {
      var normalized := Lower(email);
      error := None;
      if normalized in users {
        members := members[MemberKey(users[normalized], org) := role];
        return;
      }
      invites := invites[InviteKey(org, normalized) := Invite(role, token, now + INVITE_TTL, false)];
      issued := issued + {token};
    }

    method FindInvite(token: Token) returns (found: Option<InviteKey>)
      requires UniqueTokens(invites)
      ensures found == InviteWith(invites, token)
    {
      found := None;
      var rest := invites.Keys;
      while rest != {}
        invariant rest <= invites.Keys
        invariant forall k | k in invites && k !in rest :: invites[k].token != token
        decreases rest
      {
        var k :| k in rest;
        if invites[k].token == token {
          return Some(k);
        }
        rest := rest - {k};
      }
    }

    method Accept(user: UserId, email: string, token: Token, now: Instant) returns (error: Option<OrgError>)
      requires UniqueTokens(invites)
      modifies this
      ensures (Tables(), error) == Step(old(Tables()), AcceptInvite(user, email, token, now))
    {
      var found := FindInvite(token);
      if found.None? {
        return Some(BadRequest);
      }
      var key := found.value;
      var invite := invites[key];
      if invite.accepted || invite.expiresAt < now {
        return Some(BadRequest);
      }
      if Lower(key.email) != Lower(email) {
        return Some(Forbidden);
      }
      members := members[MemberKey(user, key.org) := invite.role];
      invites := invites[key := invite.(accepted := true)];
      error := None;
    }

    method UpdateMemberRole(org: OrgId, target: UserId, role: Role) returns (error: Option<OrgError>)
      modifies this
      ensures (Tables(), error) == Step(old(Tables()), UpdateRole(org, target, role))
    {
      var key := MemberKey(target, org);
      if key !in members {
        return Some(NotFound);
      }
      if members[key] == Owner {
        return Some(Forbidden);
      }
      members := members[key := role];
      error := None;
    }

    method Remove(org: OrgId, target: UserId) returns (error: Option<OrgError>)
      modifies this
      ensures (Tables(), error) == Step(old(Tables()), RemoveMember(org, target))
    {
      var key := MemberKey(target, org);
      if key !in members {
        return Some(NotFound);
      }
      if members[key] == Owner {
        return Some(Forbidden);
      }
      members := members - {key};
      error := None;
    }
  }
}
