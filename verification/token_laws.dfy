/** What runs of the token service promise of one family, and of one token. */
module TokenLaws {
  import opened Tokens

  predicate InFamily(rows: Rows, t: Token, family: FamilyId) {
    t in rows && rows[t].family == family
  }

  /** The request presents a token of the family. */
  predicate Presents(rows: Rows, op: Op, family: FamilyId) {
    match op
    case Issue(_, _, _, _) => false
    case Rotate(presented, _, _, _) => InFamily(rows, presented, family)
    case Logout(presented) => InFamily(rows, presented, family)
  }

  predicate NonePresents(rows: Rows, ops: seq<Op>, family: FamilyId)
    decreases |ops|
  {
    ops == [] || (!Presents(rows, ops[0], family) && NonePresents(Step(rows, ops[0]), ops[1..], family))
  }

  /** The family has the same rows in both. */
  ghost predicate SameFamily(before: Rows, after: Rows, family: FamilyId) {
    forall t ::
      && (InFamily(after, t, family) <==> InFamily(before, t, family))
      && (InFamily(before, t, family) ==> after[t] == before[t])
  }

  lemma StepLeavesFamily(rows: Rows, op: Op, family: FamilyId, member: Token)
    requires Fresh(rows, op) && InFamily(rows, member, family) && !Presents(rows, op, family)
    ensures SameFamily(rows, Step(rows, op), family)
  {
  }

  /**
   Requests with tokens of other families, logins and logouts included, leave a family's rows
   alone: each of its tokens is accepted when it was before, and no others appear.
   */
  lemma {:induction false} OthersLeaveFamily(rows: Rows, ops: seq<Op>, family: FamilyId, member: Token)
    requires AllFresh(rows, ops) && InFamily(rows, member, family) && NonePresents(rows, ops, family)
    ensures SameFamily(rows, Run(rows, ops), family)
    ensures forall t, now | InFamily(rows, t, family) :: Accepts(Run(rows, ops), t, now) <==> Accepts(rows, t, now)
    decreases |ops|
  {
    if ops != [] {
      StepLeavesFamily(rows, ops[0], family, member);
      OthersLeaveFamily(Step(rows, ops[0]), ops[1..], family, member);
      assert SameFamily(rows, Step(rows, ops[0]), family);
    }
  }

  /** A row keeps its user, family and expiry for ever. */
  lemma {:induction false} RowKeepsOrigin(rows: Rows, ops: seq<Op>, t: Token)
    requires AllFresh(rows, ops) && t in rows
    ensures var after := Run(rows, ops);
            && t in after && after[t].user == rows[t].user && after[t].family == rows[t].family
            && after[t].expiresAt == rows[t].expiresAt
    decreases |ops|
  {
    if ops != [] {
      RowKeepsOrigin(Step(rows, ops[0]), ops[1..], t);
    }
  }

  /**
   The token belongs to the user and family, is never accepted after its expiry, and as long
   as nobody has presented a token of its family is accepted at every instant up to it.
   */
  ghost predicate GoodUntil(rows: Rows, between: seq<Op>, token: Token, user: UserId, family: FamilyId,
                            expiresAt: Instant)
  {
    var after := Run(rows, between);
    && token in after && after[token].user == user && after[token].family == family
    && (forall later :: Accepts(after, token, later) ==> later <= expiresAt)
    && (NonePresents(rows, between, family) ==> forall later :: Accepts(after, token, later) <==> later <= expiresAt)
  }

  lemma LiveIsGoodUntil(rows: Rows, between: seq<Op>, token: Token)
    requires AllFresh(rows, between) && token in rows && !rows[token].revoked
    ensures GoodUntil(rows, between, token, rows[token].user, rows[token].family, rows[token].expiresAt)
  {
    RowKeepsOrigin(rows, between, token);
    if NonePresents(rows, between, rows[token].family) {
      OthersLeaveFamily(rows, between, rows[token].family, token);
    }
  }

  /** A login's token is good until the expiry it was created with. */
  lemma IssuedIsGood(rows: Rows, user: UserId, family: FamilyId, token: Token, expiresAt: Instant, between: seq<Op>)
    requires var op := Issue(user, family, token, expiresAt);
             Fresh(rows, op) && AllFresh(Step(rows, op), between)
    ensures GoodUntil(Step(rows, Issue(user, family, token, expiresAt)), between, token, user, family, expiresAt)
  {
    LiveIsGoodUntil(Step(rows, Issue(user, family, token, expiresAt)), between, token);
  }

  /** The successor of an accepted rotation is good until the rotation's instant plus the lifetime. */
  lemma MintedIsGood(rows: Rows, presented: Token, minted: Token, now: Instant, ttl: Instant, between: seq<Op>)
    requires var op := Op.Rotate(presented, minted, now, ttl);
             Accepts(rows, presented, now) && Fresh(rows, op) && AllFresh(Step(rows, op), between)
    ensures GoodUntil(Step(rows, Op.Rotate(presented, minted, now, ttl)), between, minted,
                      rows[presented].user, rows[presented].family, now + ttl)
  {
    LiveIsGoodUntil(Step(rows, Op.Rotate(presented, minted, now, ttl)), between, minted);
  }

  /** A logout signs its own family out, and no other. */
  lemma LogoutIsForOneFamily(rows: Rows, presented: Token, t: Token, now: Instant)
    requires presented in rows && t in rows
    ensures Accepts(Step(rows, Logout(presented)), t, now) <==>
            Accepts(rows, t, now) && rows[t].family != rows[presented].family
  {
  }
}
