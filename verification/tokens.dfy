/**
 Rotating refresh tokens: apps/api/src/modules/auth/token.service.ts, one request at a time.
 Tokens stand for their hashes (hashing is taken as injective); new tokens and family ids
 come from outside and are new.
 */
module Tokens {
  import opened Wrappers

  type Token = nat
  type FamilyId = nat
  type UserId = nat
  type Instant = int

  datatype Row = Row(user: UserId, family: FamilyId, revoked: bool, expiresAt: Instant)
  type Rows = map<Token, Row>

  datatype AuthError = InvalidToken | ExpiredOrReused

  /** The guard of `rotate`: the row is neither revoked nor expired. */
  predicate Usable(row: Row, now: Instant) {
    !row.revoked && !(row.expiresAt < now)
  }

  /** `rotate` accepts the token. */
  predicate Accepts(rows: Rows, token: Token, now: Instant) {
    token in rows && Usable(rows[token], now)
  }

  /** updateMany({ familyId, revokedAt: null }, revokedAt := now). */
  function RevokedFamily(rows: Rows, family: FamilyId): Rows {
    map t | t in rows :: if rows[t].family == family then rows[t].(revoked := true) else rows[t]
  }

  function Issued(rows: Rows, user: UserId, family: FamilyId, token: Token, expiresAt: Instant): Rows {
    rows[token := Row(user, family, false, expiresAt)]
  }

  function Rotated(rows: Rows, presented: Token, minted: Token, now: Instant, ttl: Instant): Rows {
    if presented !in rows then rows
    else
      var row := rows[presented];
      if !Usable(row, now) then RevokedFamily(rows, row.family)
      else Issued(rows[presented := row.(revoked := true)], row.user, row.family, minted, now + ttl)
  }

  function LoggedOut(rows: Rows, presented: Token): Rows {
    if presented in rows then RevokedFamily(rows, rows[presented].family) else rows
  }

  class TokenService {
    const ttl: Instant
    var rows: Rows

    constructor (ttl: Instant)
      ensures rows == map[] && this.ttl == ttl
    {
      this.ttl := ttl;
      rows := map[];
    }

    method CreateRefresh(user: UserId, family: FamilyId, minted: Token, now: Instant)
      modifies this`rows
      ensures rows == Issued(old(rows), user, family, minted, now + ttl)
    {
      rows := rows[minted := Row(user, family, false, now + ttl)];
    }

    method IssueForUser(user: UserId, family: FamilyId, minted: Token, now: Instant)
      modifies this`rows
      ensures rows == Issued(old(rows), user, family, minted, now + ttl)
    {
      CreateRefresh(user, family, minted, now);
    }

    method Rotate(presented: Token, minted: Token, now: Instant) returns (r: Result<Token, AuthError>)
      modifies this`rows
      ensures rows == Rotated(old(rows), presented, minted, now, ttl)
      ensures r.Success? <==> Accepts(old(rows), presented, now)
      ensures r.Success? ==> r.value == minted
      ensures r == Failure(InvalidToken) <==> presented !in old(rows)
    {
      if presented !in rows {
        return Failure(InvalidToken);
      }
      var existing := rows[presented];
      if existing.revoked || existing.expiresAt < now {
        rows := RevokedFamily(rows, existing.family);
        return Failure(ExpiredOrReused);
      }
      rows := rows[presented := existing.(revoked := true)];
      CreateRefresh(existing.user, existing.family, minted, now);
      r := Success(minted);
    }

    method Revoke(presented: Token)
      modifies this`rows
      ensures rows == LoggedOut(old(rows), presented)
    {
      if presented in rows {
        rows := RevokedFamily(rows, rows[presented].family);
      }
    }
  }

  // ---- runs --------------------------------------------------------------------

  datatype Op =
    | Issue(user: UserId, family: FamilyId, token: Token, expiresAt: Instant)
    | Rotate(presented: Token, minted: Token, now: Instant, ttl: Instant)
    | Logout(presented: Token)

  function Step(rows: Rows, op: Op): Rows {
    match op
    case Issue(user, family, token, expiresAt) => Issued(rows, user, family, token, expiresAt)
    case Rotate(presented, minted, now, ttl) => Rotated(rows, presented, minted, now, ttl)
    case Logout(presented) => LoggedOut(rows, presented)
  }

  /** New tokens and families have not been used before. */
  ghost predicate Fresh(rows: Rows, op: Op) {
    match op
    case Issue(_, family, token, _) => token !in rows && forall t | t in rows :: rows[t].family != family
    case Rotate(_, minted, _, _) => minted !in rows
    case Logout(_) => true
  }

  ghost predicate AllFresh(rows: Rows, ops: seq<Op>)
    decreases |ops|
  {
    ops == [] || (Fresh(rows, ops[0]) && AllFresh(Step(rows, ops[0]), ops[1..]))
  }

  function Run(rows: Rows, ops: seq<Op>): Rows
    decreases |ops|
  {
    if ops == [] then rows else Run(Step(rows, ops[0]), ops[1..])
  }

  ghost predicate OneLivePerFamily(rows: Rows) {
    forall t, u | t in rows && u in rows && rows[t].family == rows[u].family
                  && !rows[t].revoked && !rows[u].revoked :: t == u
  }

  lemma StepKeepsOneLive(rows: Rows, op: Op)
    requires OneLivePerFamily(rows) && Fresh(rows, op)
    ensures OneLivePerFamily(Step(rows, op))
  {
  }

  /** In every run each family has at most one token that is not revoked. */
  lemma {:induction false} RunKeepsOneLive(rows: Rows, ops: seq<Op>)
    requires OneLivePerFamily(rows) && AllFresh(rows, ops)
    ensures OneLivePerFamily(Run(rows, ops))
    decreases |ops|
  {
    if ops != [] {
      StepKeepsOneLive(rows, ops[0]);
      RunKeepsOneLive(Step(rows, ops[0]), ops[1..]);
    }
  }

  predicate Spent(rows: Rows, token: Token) {
    token in rows && rows[token].revoked
  }

  lemma StepKeepsSpent(rows: Rows, op: Op, token: Token)
    requires Spent(rows, token) && Fresh(rows, op)
    ensures Spent(Step(rows, op), token)
  {
  }

  /** The family has been issued and every token of it is revoked. */
  ghost predicate Dead(rows: Rows, family: FamilyId) {
    && (exists t :: t in rows && rows[t].family == family)
    && (forall t | t in rows && rows[t].family == family :: rows[t].revoked)
  }

  lemma StepKeepsDead(rows: Rows, op: Op, family: FamilyId)
    requires Dead(rows, family) && Fresh(rows, op)
    ensures Dead(Step(rows, op), family)
  {
    var t :| t in rows && rows[t].family == family;
    assert t in Step(rows, op) && Step(rows, op)[t].family == family;
  }

  lemma {:induction false} RunKeepsSpentAndDead(rows: Rows, ops: seq<Op>, token: Token, family: FamilyId)
    requires AllFresh(rows, ops)
    ensures Spent(rows, token) ==> Spent(Run(rows, ops), token)
    ensures Dead(rows, family) ==> Dead(Run(rows, ops), family)
    decreases |ops|
  {
    if ops != [] {
      if Spent(rows, token) {
        StepKeepsSpent(rows, ops[0], token);
      }
      if Dead(rows, family) {
        StepKeepsDead(rows, ops[0], family);
      }
      RunKeepsSpentAndDead(Step(rows, ops[0]), ops[1..], token, family);
    }
  }

  /** Single use: once `rotate` has accepted a token it never accepts it again. */
  lemma AcceptedAtMostOnce(rows: Rows, token: Token, minted: Token, now: Instant, ttl: Instant,
                           between: seq<Op>, later: Instant)
    requires Accepts(rows, token, now)
    requires AllFresh(rows, [Rotate(token, minted, now, ttl)] + between)
    ensures !Accepts(Run(rows, [Rotate(token, minted, now, ttl)] + between), token, later)
  {
    var ops := [Rotate(token, minted, now, ttl)] + between;
    assert ops[1..] == between;
    RunKeepsSpentAndDead(Step(rows, ops[0]), between, token, 0);
  }

  /** The presentation that closes a family: a revoked or expired token of it, or a logout. */
  predicate Closes(rows: Rows, op: Op, family: FamilyId) {
    match op
    case Issue(_, _, _, _) => false
    case Rotate(presented, _, now, _) =>
      presented in rows && rows[presented].family == family && !Usable(rows[presented], now)
    case Logout(presented) => presented in rows && rows[presented].family == family
  }

  /** Reuse detection: after that no token of the family, old or new, is ever accepted. */
  lemma ClosedFamilyStaysClosed(rows: Rows, op: Op, family: FamilyId, between: seq<Op>, token: Token, later: Instant)
    requires Closes(rows, op, family) && AllFresh(rows, [op] + between)
    ensures var after := Run(rows, [op] + between);
            token in after && after[token].family == family ==> !Accepts(after, token, later)
  {
    var ops := [op] + between;
    var next := Step(rows, op);
    assert ops[1..] == between;
    assert Dead(next, family) by {
      var presented := op.presented;
      assert presented in next && next[presented].family == family;
    }
    RunKeepsSpentAndDead(next, between, token, family);
  }

  /** A rotation that is accepted hands the family, and its user, on to the new token. */
  lemma AcceptedRotationHandsOn(rows: Rows, presented: Token, minted: Token, now: Instant, ttl: Instant)
    requires OneLivePerFamily(rows) && Accepts(rows, presented, now) && minted !in rows && 0 <= ttl
    ensures var after := Rotated(rows, presented, minted, now, ttl);
            && Accepts(after, minted, now)
            && after[minted].user == rows[presented].user && after[minted].family == rows[presented].family
            && (forall t | t in after && after[t].family == after[minted].family && !after[t].revoked :: t == minted)
            && (forall t | t in rows && rows[t].family != rows[presented].family :: after[t] == rows[t])
  {
  }
}
