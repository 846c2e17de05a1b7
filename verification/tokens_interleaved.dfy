/**
 The token service as it runs: `rotate` and `revoke` are not transactions, so any number of
 sessions interleave their reads, revocations and creations.
 */
module TokensInterleaved {
  import opened Arithmetic
  import opened Wrappers
  import opened Tokens

  type SessionId = nat

  /** Where a call stands between two database steps. */
  datatype Phase =
    /** rotate has read a usable row and will revoke it */
    | SawUsable(token: Token, family: FamilyId, user: UserId)
    /** rotate has revoked the row and will create the successor */
    | Consumed(token: Token, family: FamilyId, user: UserId)
    /** rotate or revoke will revoke the whole family and stop */
    | Condemning(family: FamilyId)
    | Finished

  /**
   The rows and the calls under way. Kept for the statements: each token's parent, the
   tokens in order of creation, and the completed rotations of each family.
   */
  datatype State = State(
    rows: Rows, sessions: map<SessionId, Phase>,
    parent: map<Token, Option<Token>>, order: seq<Token>, rotations: map<FamilyId, nat>)

  const INITIAL := State(map[], map[], map[], [], map[])

  datatype Action =
    | IssueFirst(user: UserId, family: FamilyId, token: Token, expiresAt: Instant)
    | ReadForRotate(session: SessionId, presented: Token, now: Instant)
    | ReadForRevoke(session: SessionId, presented: Token)
    | Consume(session: SessionId)
    | Create(session: SessionId, minted: Token, expiresAt: Instant)
    | Condemn(session: SessionId)

  /** The call whose step an action is. */
  function SessionOf(a: Action): Option<SessionId> {
    match a
    case IssueFirst(_, _, _, _) => None
    case ReadForRotate(session, _, _) => Some(session)
    case ReadForRevoke(session, _) => Some(session)
    case Consume(session) => Some(session)
    case Create(session, _, _) => Some(session)
    case Condemn(session) => Some(session)
  }

  predicate At(s: State, session: SessionId, consumed: bool) {
    session in s.sessions && (if consumed then s.sessions[session].Consumed? else s.sessions[session].SawUsable?)
  }

  ghost predicate Enabled(s: State, a: Action) {
    match a
    case IssueFirst(_, family, token, _) =>
      token !in s.rows && family !in s.rotations && forall t | t in s.rows :: s.rows[t].family != family
    case ReadForRotate(session, _, _) => session !in s.sessions
    case ReadForRevoke(session, _) => session !in s.sessions
    case Consume(session) => At(s, session, false) && s.sessions[session].token in s.rows
    case Create(session, minted, _) => At(s, session, true) && minted !in s.rows
    case Condemn(session) => session in s.sessions && s.sessions[session].Condemning?
  }

  /** What findUnique tells `rotate` to do next. */
  function Verdict(rows: Rows, presented: Token, now: Instant): Phase {
    if presented !in rows then Finished
    else if !Usable(rows[presented], now) then Condemning(rows[presented].family)
    else SawUsable(presented, rows[presented].family, rows[presented].user)
  }

  /** The completed rotations of a family, none when it has just been issued. */
  function CountAfter(rotations: map<FamilyId, nat>, family: FamilyId): nat {
    if family in rotations then rotations[family] + 1 else 0
  }

  ghost function Next(s: State, a: Action): State
    requires Enabled(s, a)
  {
    match a
    case IssueFirst(user, family, token, expiresAt) =>
      s.(rows := Issued(s.rows, user, family, token, expiresAt),
         parent := s.parent[token := None], order := s.order + [token],
         rotations := s.rotations[family := CountAfter(s.rotations, family)])
    case ReadForRotate(session, presented, now) =>
      s.(sessions := s.sessions[session := Verdict(s.rows, presented, now)])
    case ReadForRevoke(session, presented) =>
      s.(sessions := s.sessions[session :=
           if presented in s.rows then Condemning(s.rows[presented].family) else Finished])
    case Consume(session) =>
      var p := s.sessions[session];
      s.(rows := s.rows[p.token := s.rows[p.token].(revoked := true)],
         sessions := s.sessions[session := Consumed(p.token, p.family, p.user)])
    case Create(session, minted, expiresAt) =>
      var p := s.sessions[session];
      s.(rows := Issued(s.rows, p.user, p.family, minted, expiresAt),
         sessions := s.sessions[session := Finished],
         parent := s.parent[minted := Some(p.token)], order := s.order + [minted],
         rotations := s.rotations[p.family := CountAfter(s.rotations, p.family)])
    case Condemn(session) =>
      s.(rows := RevokedFamily(s.rows, s.sessions[session].family),
         sessions := s.sessions[session := Finished])
  }

  ghost predicate AllEnabled(s: State, actions: seq<Action>)
    decreases |actions|
  {
    actions == [] || (Enabled(s, actions[0]) && AllEnabled(Next(s, actions[0]), actions[1..]))
  }

  ghost function After(s: State, actions: seq<Action>): State
    requires AllEnabled(s, actions)
    decreases |actions|
  {
    if actions == [] then s else After(Next(s, actions[0]), actions[1..])
  }

  // ---- the tree ----------------------------------------------------------------

  function Family(rows: Rows, family: FamilyId): set<Token> {
    set t | t in rows && rows[t].family == family
  }

  /** Rows are created one by one, each after its parent. */
  ghost predicate Ordered(s: State) {
    && s.rows.Keys == s.parent.Keys
    && (forall t :: t in s.order <==> t in s.rows)
    && (forall i, j | 0 <= i < j < |s.order| :: s.order[i] != s.order[j])
    && (forall j | 0 <= j < |s.order| && s.parent[s.order[j]].Some? ::
          s.parent[s.order[j]].value in s.order[..j])
  }

  /** A child has its parent's family and user, and its parent is revoked. */
  ghost predicate Descends(s: State) {
    forall t | t in s.parent && t in s.rows && s.parent[t].Some? ::
      var p := s.parent[t].value;
      p in s.rows && s.rows[p].revoked && s.rows[p].family == s.rows[t].family && s.rows[p].user == s.rows[t].user
  }

  /** Each family has at most one issued token. */
  ghost predicate OneRoot(s: State) {
    forall t, u | t in s.rows && u in s.rows && t in s.parent && u in s.parent
                  && s.rows[t].family == s.rows[u].family && s.parent[t].None? && s.parent[u].None? :: t == u
  }

  /** A family has one row more than completed rotations. */
  ghost predicate Counted(s: State) {
    && (forall t | t in s.rows :: s.rows[t].family in s.rotations)
    && (forall f | f in s.rotations :: |Family(s.rows, f)| == 1 + s.rotations[f])
  }

  /** What a session remembers of a row is still so. */
  ghost predicate Remembers(s: State) {
    forall i | i in s.sessions ::
      match s.sessions[i]
      case SawUsable(t, f, u) => t in s.rows && s.rows[t].family == f && s.rows[t].user == u
      case Consumed(t, f, u) => t in s.rows && s.rows[t].family == f && s.rows[t].user == u && s.rows[t].revoked
      case Condemning(_) => true
      case Finished => true
  }

  ghost predicate Inv(s: State) {
    Ordered(s) && Descends(s) && OneRoot(s) && Counted(s) && Remembers(s)
  }

  // ---- rows that only get revoked ----------------------------------------------

  /** No row disappears, changes family or user, or gets its revocation undone. */
  ghost predicate Grows(before: Rows, after: Rows) {
    forall t | t in before ::
      && t in after && after[t].family == before[t].family && after[t].user == before[t].user
      && (before[t].revoked ==> after[t].revoked)
  }

  lemma NextGrows(s: State, a: Action)
    requires Enabled(s, a)
    ensures Grows(s.rows, Next(s, a).rows)
  {
  }

  lemma RevokingKeepsDescends(s: State, rows: Rows)
    requires Descends(s) && Grows(s.rows, rows) && rows.Keys == s.rows.Keys
    ensures Descends(s.(rows := rows))
  {
  }

  lemma RevokingKeepsCounted(s: State, rows: Rows)
    requires Counted(s) && Grows(s.rows, rows) && rows.Keys == s.rows.Keys
    ensures Counted(s.(rows := rows))
  {
    forall f ensures Family(rows, f) == Family(s.rows, f) {
    }
  }

  lemma RevokingKeepsOneRoot(s: State, rows: Rows)
    requires OneRoot(s) && Grows(s.rows, rows) && rows.Keys == s.rows.Keys
    ensures OneRoot(s.(rows := rows))
  {
  }

  lemma RevokingKeepsRemembers(s: State, rows: Rows)
    requires Remembers(s) && Grows(s.rows, rows)
    ensures Remembers(s.(rows := rows))
  {
  }

  lemma RevokingKeepsInv(s: State, rows: Rows)
    requires Inv(s) && Grows(s.rows, rows) && rows.Keys == s.rows.Keys
    ensures Inv(s.(rows := rows))
  {
    RevokingKeepsDescends(s, rows);
    RevokingKeepsOneRoot(s, rows);
    RevokingKeepsCounted(s, rows);
    RevokingKeepsRemembers(s, rows);
  }

  // ---- rows that are created ---------------------------------------------------

  lemma OrderGrows(s: State, next: State, token: Token)
    requires Ordered(s) && token !in s.rows
    requires next.order == s.order + [token] && next.parent.Keys == next.rows.Keys == s.rows.Keys + {token}
    requires forall t | t in s.parent :: next.parent[t] == s.parent[t]
    requires next.parent[token].Some? ==> next.parent[token].value in s.rows
    ensures Ordered(next)
  {
    SnocIsDistinct(s.order, token);
    forall j | 0 <= j < |next.order|
      ensures next.order[j] in next.parent
      ensures next.parent[next.order[j]].Some? ==> next.parent[next.order[j]].value in next.order[..j]
    {
      ParentComesBefore(s, next, token, j);
    }
  }

  lemma SnocIsDistinct(order: seq<Token>, token: Token)
    requires token !in order && forall i, j | 0 <= i < j < |order| :: order[i] != order[j]
    ensures forall i, j | 0 <= i < j < |order + [token]| :: (order + [token])[i] != (order + [token])[j]
    ensures forall t :: t in order + [token] <==> t in order || t == token
  {
  }

  lemma ParentComesBefore(s: State, next: State, token: Token, j: nat)
    requires Ordered(s) && next.order == s.order + [token] && token in next.parent
    requires forall t | t in s.parent :: t in next.parent && next.parent[t] == s.parent[t]
    requires next.parent[token].Some? ==> next.parent[token].value in s.rows
    requires j < |next.order|
    ensures next.order[j] in next.parent
    ensures next.parent[next.order[j]].Some? ==> next.parent[next.order[j]].value in next.order[..j]
  {
    SnocPrefix(s.order, token, j);
    if j < |s.order| {
      assert s.order[j] in s.order;
    }
  }

  lemma SnocPrefix(order: seq<Token>, token: Token, j: nat)
    requires j <= |order|
    ensures (order + [token])[..j] == order[..j]
    ensures (order + [token])[j] == if j < |order| then order[j] else token
    ensures order[..|order|] == order
  {
  }

  /** The parts of a state after a row has been created. */
  ghost predicate Created(s: State, next: State, token: Token, parent: Option<Token>) {
    && token !in s.rows && token in next.rows
    && next.rows == s.rows[token := next.rows[token]]
    && next.parent == s.parent[token := parent]
    && next.order == s.order + [token]
  }

  lemma CreatedCounted(s: State, next: State, token: Token, parent: Option<Token>, family: FamilyId)
    requires Counted(s) && Created(s, next, token, parent) && next.rows[token].family == family
    requires next.rotations == s.rotations[family := CountAfter(s.rotations, family)]
    ensures Counted(next)
  {
    forall f | f in next.rotations ensures |Family(next.rows, f)| == 1 + next.rotations[f] {
      FamilyOfCreated(s.rows, token, next.rows[token], f);
      if f !in s.rotations {
        assert Family(s.rows, f) == {};
      }
    }
  }

  lemma FamilyOfCreated(rows: Rows, token: Token, row: Row, family: FamilyId)
    requires token !in rows
    ensures |Family(rows[token := row], family)| == |Family(rows, family)| + if row.family == family then 1 else 0
  {
    assert Family(rows[token := row], family) == Family(rows, family) + if row.family == family then {token} else {};
  }

  lemma CreatedOneRoot(s: State, next: State, token: Token, parent: Option<Token>)
    requires OneRoot(s) && Created(s, next, token, parent)
    requires parent.None? ==> forall t | t in s.rows :: s.rows[t].family != next.rows[token].family
    ensures OneRoot(next)
  {
  }

  lemma CreatedDescends(s: State, next: State, token: Token, parent: Option<Token>)
    requires Descends(s) && s.rows.Keys == s.parent.Keys && Created(s, next, token, parent)
    requires parent.Some? ==>
               && parent.value in s.rows && s.rows[parent.value].revoked
               && s.rows[parent.value].family == next.rows[token].family
               && s.rows[parent.value].user == next.rows[token].user
    ensures Descends(next)
  {
  }

  lemma CreatedRemembers(s: State, next: State, token: Token, parent: Option<Token>)
    requires Remembers(s) && Created(s, next, token, parent)
    requires forall i | i in next.sessions ::
               next.sessions[i].Finished? || (i in s.sessions && next.sessions[i] == s.sessions[i])
    ensures Remembers(next)
  {
  }

  lemma IssueKeepsInv(s: State, a: Action)
    requires Inv(s) && Enabled(s, a) && a.IssueFirst?
    ensures Inv(Next(s, a))
  {
    var next := Next(s, a);
    OrderGrows(s, next, a.token);
    CreatedCounted(s, next, a.token, None, a.family);
    CreatedOneRoot(s, next, a.token, None);
    CreatedDescends(s, next, a.token, None);
    CreatedRemembers(s, next, a.token, None);
  }

  /** What a session about to create a successor knows. */
  ghost predicate Succeeds(s: State, a: Action) {
    && a.Create? && Enabled(s, a)
    && var p := s.sessions[a.session];
       && p.token in s.rows && s.rows[p.token].revoked
       && s.rows[p.token].family == p.family && s.rows[p.token].user == p.user
       && Created(s, Next(s, a), a.minted, Some(p.token))
  }

  lemma CreateSucceeds(s: State, a: Action)
    requires Remembers(s) && a.Create? && Enabled(s, a)
    ensures Succeeds(s, a)
  {
  }

  lemma CreateOrdered(s: State, a: Action)
    requires Ordered(s) && Succeeds(s, a)
    ensures Ordered(Next(s, a))
  {
    OrderGrows(s, Next(s, a), a.minted);
  }

  lemma CreateCounted(s: State, a: Action)
    requires Counted(s) && Succeeds(s, a)
    ensures Counted(Next(s, a))
  {
    CreatedCounted(s, Next(s, a), a.minted, Some(s.sessions[a.session].token), s.sessions[a.session].family);
  }

  lemma CreateDescends(s: State, a: Action)
    requires Descends(s) && s.rows.Keys == s.parent.Keys && Succeeds(s, a)
    ensures Descends(Next(s, a))
  {
    CreatedDescends(s, Next(s, a), a.minted, Some(s.sessions[a.session].token));
  }

  lemma CreateRest(s: State, a: Action)
    requires OneRoot(s) && Remembers(s) && Succeeds(s, a)
    ensures OneRoot(Next(s, a)) && Remembers(Next(s, a))
  {
    CreatedOneRoot(s, Next(s, a), a.minted, Some(s.sessions[a.session].token));
    CreatedRemembers(s, Next(s, a), a.minted, Some(s.sessions[a.session].token));
  }

  lemma CreateKeepsInv(s: State, a: Action)
    requires Inv(s) && Enabled(s, a) && a.Create?
    ensures Inv(Next(s, a))
  {
    CreateSucceeds(s, a);
    CreateOrdered(s, a);
    CreateCounted(s, a);
    CreateDescends(s, a);
    CreateRest(s, a);
  }

  lemma SessionsRemember(s: State, a: Action)
    requires Remembers(s) && Enabled(s, a) && !a.IssueFirst? && !a.Create?
    ensures Remembers(Next(s, a))
  {
  }

  lemma NoRowKeepsInv(s: State, a: Action)
    requires Inv(s) && Enabled(s, a) && !a.IssueFirst? && !a.Create?
    ensures Inv(Next(s, a))
  {
    var next := Next(s, a);
    NextGrows(s, a);
    SessionsRemember(s, a);
    NoRowKeepsTree(s, a);
    RevokingKeepsInv(s, next.rows);
    InvOfTree(s.(rows := next.rows), next);
  }

  lemma NoRowKeepsTree(s: State, a: Action)
    requires Enabled(s, a) && !a.IssueFirst? && !a.Create?
    ensures var next := Next(s, a);
            && next.rows.Keys == s.rows.Keys
            && next.parent == s.parent && next.order == s.order && next.rotations == s.rotations
  {
  }

  lemma InvOfTree(s: State, next: State)
    requires Inv(s) && Remembers(next)
    requires next.rows == s.rows && next.parent == s.parent && next.order == s.order && next.rotations == s.rotations
    ensures Inv(next)
  {
  }

  lemma ActionKeepsInv(s: State, a: Action)
    requires Inv(s) && Enabled(s, a)
    ensures Inv(Next(s, a))
  {
    match a
    case IssueFirst(_, _, _, _) => IssueKeepsInv(s, a);
    case Create(_, _, _) => CreateKeepsInv(s, a);
    case Consume(_) => NoRowKeepsInv(s, a);
    case Condemn(_) => NoRowKeepsInv(s, a);
    case ReadForRotate(_, _, _) => NoRowKeepsInv(s, a);
    case ReadForRevoke(_, _) => NoRowKeepsInv(s, a);
  }

  lemma {:induction false} RunKeepsInv(s: State, actions: seq<Action>)
    requires Inv(s) && AllEnabled(s, actions)
    ensures Inv(After(s, actions))
    decreases |actions|
  {
    if actions != [] {
      ActionKeepsInv(s, actions[0]);
      RunKeepsInv(Next(s, actions[0]), actions[1..]);
    }
  }

  /** Revocation is for ever, and a row keeps its family and user. */
  lemma {:induction false} RevokedForEver(s: State, actions: seq<Action>)
    requires AllEnabled(s, actions)
    ensures Grows(s.rows, After(s, actions).rows)
    decreases |actions|
  {
    if actions != [] {
      NextGrows(s, actions[0]);
      RevokedForEver(Next(s, actions[0]), actions[1..]);
    }
  }

  // ---- the tree theorem --------------------------------------------------------

  /** The place of a token's parent in the order of creation. */
  ghost function ParentIndex(s: State, k: nat): (j: nat)
    requires Ordered(s) && k < |s.order| && s.parent[s.order[k]].Some?
    ensures j < k && s.order[j] == s.parent[s.order[k]].value
  {
    assert s.parent[s.order[k]].value in s.order[..k];
    var j: nat :| j < k && s.order[j] == s.parent[s.order[k]].value;
    j
  }

  /** The ancestor of a token that has no parent. */
  ghost function Root(s: State, k: nat): Token
    requires Ordered(s) && k < |s.order|
    decreases k
  {
    if s.parent[s.order[k]].None? then s.order[k] else Root(s, ParentIndex(s, k))
  }

  lemma ParentHasSameOrigin(s: State, k: nat)
    requires Ordered(s) && Descends(s) && k < |s.order| && s.parent[s.order[k]].Some?
    ensures var t, p := s.order[k], s.order[ParentIndex(s, k)];
            t in s.rows && p in s.rows && s.rows[p].family == s.rows[t].family && s.rows[p].user == s.rows[t].user
  {
    assert s.order[k] in s.order;
  }

  lemma {:induction false} RootFacts(s: State, k: nat)
    requires Ordered(s) && Descends(s) && k < |s.order|
    ensures var r, t := Root(s, k), s.order[k];
            && r in s.rows && t in s.rows && r in s.parent && s.parent[r].None?
            && s.rows[r].family == s.rows[t].family && s.rows[r].user == s.rows[t].user
    decreases k
  {
    if s.parent[s.order[k]].Some? {
      ParentHasSameOrigin(s, k);
      RootFacts(s, ParentIndex(s, k));
    } else {
      assert s.order[k] in s.order;
    }
  }

  lemma TreeFacts(s: State, k: nat, m: nat)
    requires Inv(s) && k < |s.order| && m < |s.order|
    ensures var t, u := s.order[k], s.order[m];
            && t in s.rows && u in s.rows && s.rows[t].family in s.rotations
            && |Family(s.rows, s.rows[t].family)| == 1 + s.rotations[s.rows[t].family]
            && (s.rows[t].family == s.rows[u].family ==>
                  Root(s, k) == Root(s, m) && s.rows[t].user == s.rows[u].user)
            && (!s.rows[t].revoked ==> s.parent[u] != Some(t))
  {
    assert s.order[k] in s.rows && s.order[m] in s.rows;
    RootFacts(s, k);
    RootFacts(s, m);
  }

  /**
   In every interleaving each family is a tree: following parents from any of its tokens
   ends at one and the same token, the issued one; all its rows have one user; it has one
   row more than completed rotations; and no token that is not revoked has a successor.
   */
  lemma FamiliesAreTrees(actions: seq<Action>, k: nat, m: nat)
    requires AllEnabled(INITIAL, actions)
    requires k < |After(INITIAL, actions).order| && m < |After(INITIAL, actions).order|
    ensures Inv(After(INITIAL, actions))
    ensures var s := After(INITIAL, actions);
            var t, u := s.order[k], s.order[m];
            && s.rows[t].family in s.rotations
            && |Family(s.rows, s.rows[t].family)| == 1 + s.rotations[s.rows[t].family]
            && (s.rows[t].family == s.rows[u].family ==>
                  Root(s, k) == Root(s, m) && s.rows[t].user == s.rows[u].user)
            && (!s.rows[t].revoked ==> s.parent[u] != Some(t))
  {
    assert Family(INITIAL.rows, 0) == {};
    RunKeepsInv(INITIAL, actions);
    TreeFacts(After(INITIAL, actions), k, m);
  }

  predicate Live(rows: Rows, family: FamilyId, t: Token) {
    t in rows && rows[t].family == family && !rows[t].revoked
  }

  /** t is the one live token of the family. */
  ghost predicate OnlyLive(rows: Rows, family: FamilyId, t: Token) {
    Live(rows, family, t) && forall u :: Live(rows, family, u) ==> u == t
  }

  /** The phase of a session concerns the family. */
  predicate Concerns(phase: Phase, family: FamilyId) {
    match phase
    case SawUsable(_, f, _) => f == family
    case Consumed(_, f, _) => f == family
    case Condemning(f) => f == family
    case Finished => false
  }

  // ---- when a closed family stays closed ---------------------------------------

  /** No call is under way that will create a token in the family. */
  ghost predicate NobodyRotates(s: State, family: FamilyId) {
    forall i | i in s.sessions :: !s.sessions[i].Condemning? ==> !Concerns(s.sessions[i], family)
  }

  lemma StaysDead(s: State, a: Action, family: FamilyId)
    requires Remembers(s) && Enabled(s, a) && Dead(s.rows, family) && NobodyRotates(s, family)
    ensures Dead(Next(s, a).rows, family) && NobodyRotates(Next(s, a), family)
  {
    var t :| t in s.rows && s.rows[t].family == family;
    assert t in Next(s, a).rows && Next(s, a).rows[t].family == family;
  }

  lemma {:induction false} DeadForEver(s: State, actions: seq<Action>, family: FamilyId)
    requires Inv(s) && AllEnabled(s, actions) && Dead(s.rows, family) && NobodyRotates(s, family)
    ensures Dead(After(s, actions).rows, family)
    decreases |actions|
  {
    if actions != [] {
      StaysDead(s, actions[0], family);
      ActionKeepsInv(s, actions[0]);
      DeadForEver(Next(s, actions[0]), actions[1..], family);
    }
  }

  /** The rest of a rotation under way brings its family back. */
  lemma RotationRevives(s: State, i: SessionId, family: FamilyId) returns (actions: seq<Action>)
    requires Remembers(s) && i in s.sessions && !s.sessions[i].Condemning? && Concerns(s.sessions[i], family)
    ensures AllEnabled(s, actions) && !Dead(After(s, actions).rows, family)
  {
    var x := AboveAll(s.rows.Keys);
    var create := Create(i, x, 0);
    if s.sessions[i].Consumed? {
      AfterStep(s, create, []);
      actions := [create];
      assert !After(s, actions).rows[x].revoked;
    } else {
      var s1 := Next(s, Consume(i));
      AfterStep(s1, create, []);
      AfterStep(s, Consume(i), [create]);
      actions := [Consume(i), create];
      assert !After(s, actions).rows[x].revoked;
    }
  }

  /**
   A family all of whose tokens are revoked stays so in every continuation if and only if no
   call is in the middle of rotating one of them.
   */
  lemma DeadForEverIff(s: State, family: FamilyId)
    requires Inv(s) && Dead(s.rows, family)
    ensures (forall actions | AllEnabled(s, actions) :: Dead(After(s, actions).rows, family)) <==>
            NobodyRotates(s, family)
  {
    if NobodyRotates(s, family) {
      forall actions | AllEnabled(s, actions) ensures Dead(After(s, actions).rows, family) {
        DeadForEver(s, actions, family);
      }
    } else {
      var i :| i in s.sessions && !s.sessions[i].Condemning? && Concerns(s.sessions[i], family);
      var actions := RotationRevives(s, i, family);
    }
  }

  // ---- when a family keeps one live token --------------------------------------

  /** The action creates a successor in a family that has a live token already. */
  ghost predicate Doubles(s: State, a: Action) {
    a.Create? && At(s, a.session, true) && exists t :: Live(s.rows, s.sessions[a.session].family, t)
  }

  /** An action keeps one live token per family exactly unless it is such a creation. */
  lemma OneLiveStaysIff(s: State, a: Action)
    requires Remembers(s) && Enabled(s, a) && OneLivePerFamily(s.rows)
    ensures OneLivePerFamily(Next(s, a).rows) <==> !Doubles(s, a)
  {
    var next := Next(s, a).rows;
    if Doubles(s, a) {
      var t :| Live(s.rows, s.sessions[a.session].family, t);
      assert Live(next, s.sessions[a.session].family, t);
      assert Live(next, s.sessions[a.session].family, a.minted);
    } else if a.Create? {
      forall t, u | t in next && u in next && next[t].family == next[u].family && !next[t].revoked && !next[u].revoked
        ensures t == u
      {
        assert t != a.minted ==> Live(s.rows, next[t].family, t);
        assert u != a.minted ==> Live(s.rows, next[u].family, u);
      }
    }
  }

  /** A call reads a row only while no other call is under way for the row's family. */
  ghost predicate Alone(s: State, a: Action) {
    a.ReadForRotate? || a.ReadForRevoke? ==>
      a.presented in s.rows ==>
        forall i | i in s.sessions :: !Concerns(s.sessions[i], s.rows[a.presented].family)
  }

  ghost predicate AllAlone(s: State, actions: seq<Action>)
    requires AllEnabled(s, actions)
    decreases |actions|
  {
    actions == [] || (Alone(s, actions[0]) && AllAlone(Next(s, actions[0]), actions[1..]))
  }

  /** What a call in a phase may count on when no other call is under way for its family. */
  ghost predicate Undisturbed(rows: Rows, phase: Phase) {
    match phase
    case SawUsable(t, f, _) => Live(rows, f, t)
    case Consumed(_, f, _) => forall t :: !Live(rows, f, t)
    case Condemning(f) => exists t :: t in rows && rows[t].family == f
    case Finished => true
  }

  /** Calls for one family come one after the other. */
  ghost predicate InTurn(s: State) {
    && (forall i, j, f | i in s.sessions && j in s.sessions
                         && Concerns(s.sessions[i], f) && Concerns(s.sessions[j], f) :: i == j)
    && (forall i | i in s.sessions :: Undisturbed(s.rows, s.sessions[i]))
  }

  lemma OneAtATimeStays(s: State, a: Action, i: SessionId, j: SessionId, family: FamilyId)
    requires InTurn(s) && Enabled(s, a) && Alone(s, a)
    requires i in Next(s, a).sessions && j in Next(s, a).sessions
    requires Concerns(Next(s, a).sessions[i], family) && Concerns(Next(s, a).sessions[j], family)
    ensures i == j
  {
  }

  /** The step of another call is about another family. */
  lemma OtherFamily(s: State, a: Action, i: SessionId, family: FamilyId)
    requires InTurn(s) && Enabled(s, a) && i in s.sessions && SessionOf(a) != Some(i)
    requires Concerns(s.sessions[i], family)
    ensures a.Consume? || a.Create? || a.Condemn? ==> !Concerns(s.sessions[a.session], family)
  {
  }

  /** What a call counts on survives the steps of the others. */
  lemma UntouchedStays(s: State, a: Action, i: SessionId)
    requires Remembers(s) && InTurn(s) && Enabled(s, a) && i in s.sessions && SessionOf(a) != Some(i)
    ensures i in Next(s, a).sessions && Next(s, a).sessions[i] == s.sessions[i]
    ensures Undisturbed(Next(s, a).rows, s.sessions[i])
  {
    var rows, next := s.rows, Next(s, a).rows;
    match s.sessions[i]
    case SawUsable(t, f, _) => OtherFamily(s, a, i, f);
    case Consumed(t, f, _) =>
      OtherFamily(s, a, i, f);
      forall u ensures !Live(next, f, u) {
        assert !Live(rows, f, u);
      }
    case Condemning(f) =>
      var t :| t in rows && rows[t].family == f;
      assert t in next && next[t].family == f;
    case Finished =>
  }

  lemma OwnStepStays(s: State, a: Action)
    requires InTurn(s) && Enabled(s, a) && SessionOf(a).Some? && OneLivePerFamily(s.rows)
    ensures SessionOf(a).value in Next(s, a).sessions
    ensures Undisturbed(Next(s, a).rows, Next(s, a).sessions[SessionOf(a).value])
  {
    if a.Consume? {
      var p := s.sessions[a.session];
      forall u ensures !Live(Next(s, a).rows, p.family, u) {
        assert u != p.token ==> !Live(s.rows, p.family, u);
      }
    }
  }

  lemma InTurnStays(s: State, a: Action)
    requires Remembers(s) && InTurn(s) && OneLivePerFamily(s.rows) && Enabled(s, a) && Alone(s, a)
    ensures InTurn(Next(s, a)) && OneLivePerFamily(Next(s, a).rows)
  {
    var next := Next(s, a);
    OneLiveStaysIff(s, a);
    forall i, j, f | i in next.sessions && j in next.sessions
                     && Concerns(next.sessions[i], f) && Concerns(next.sessions[j], f)
      ensures i == j
    {
      OneAtATimeStays(s, a, i, j, f);
    }
    forall i | i in next.sessions ensures Undisturbed(next.rows, next.sessions[i]) {
      if SessionOf(a) == Some(i) {
        OwnStepStays(s, a);
      } else {
        UntouchedStays(s, a, i);
      }
    }
  }

  lemma {:induction false} RunStaysInTurn(s: State, actions: seq<Action>)
    requires Inv(s) && InTurn(s) && OneLivePerFamily(s.rows) && AllEnabled(s, actions) && AllAlone(s, actions)
    ensures Inv(After(s, actions)) && InTurn(After(s, actions)) && OneLivePerFamily(After(s, actions).rows)
    decreases |actions|
  {
    if actions != [] {
      InTurnStays(s, actions[0]);
      ActionKeepsInv(s, actions[0]);
      RunStaysInTurn(Next(s, actions[0]), actions[1..]);
    }
  }

  /**
   When a call reads only while no other call is under way for its family, each family has at
   most one live token throughout, and a family that is closed has none ever after, however
   calls interleave from then on.
   */
  lemma CallsInTurnAreSafe(actions: seq<Action>, close: SessionId, later: seq<Action>)
    requires AllEnabled(INITIAL, actions) && AllAlone(INITIAL, actions)
    ensures OneLivePerFamily(After(INITIAL, actions).rows)
    ensures var s := After(INITIAL, actions);
            Enabled(s, Condemn(close)) && AllEnabled(Next(s, Condemn(close)), later) ==>
              Dead(After(Next(s, Condemn(close)), later).rows, s.sessions[close].family)
  {
    assert Family(INITIAL.rows, 0) == {};
    RunStaysInTurn(INITIAL, actions);
    var s := After(INITIAL, actions);
    if Enabled(s, Condemn(close)) && AllEnabled(Next(s, Condemn(close)), later) {
      ActionKeepsInv(s, Condemn(close));
      CondemnedInTurn(s, close);
      DeadForEver(Next(s, Condemn(close)), later, s.sessions[close].family);
    }
  }

  lemma CondemnedInTurn(s: State, close: SessionId)
    requires InTurn(s) && Enabled(s, Condemn(close))
    ensures var family, next := s.sessions[close].family, Next(s, Condemn(close));
            Dead(next.rows, family) && NobodyRotates(next, family)
  {
    var family := s.sessions[close].family;
    var t :| t in s.rows && s.rows[t].family == family;
    assert t in Next(s, Condemn(close)).rows;
  }

  // ---- what the interleaving loses ---------------------------------------------

  lemma AfterStep(s: State, a: Action, rest: seq<Action>)
    requires Enabled(s, a) && AllEnabled(Next(s, a), rest)
    ensures AllEnabled(s, [a] + rest) && After(s, [a] + rest) == After(Next(s, a), rest)
  {
    assert ([a] + rest)[1..] == rest;
  }

  /** Two sessions that have both read a usable token leave its family with two live tokens. */
  lemma TwoReadersTwoLiveTokens(s: State, i: SessionId, j: SessionId, x: Token, y: Token, expiresAt: Instant)
    requires Remembers(s) && i != j && At(s, i, false) && At(s, j, false)
    requires s.sessions[i].token == s.sessions[j].token
    requires x !in s.rows && y !in s.rows && x != y
    ensures var actions := [Consume(i), Consume(j), Create(i, x, expiresAt), Create(j, y, expiresAt)];
            AllEnabled(s, actions) && !OneLivePerFamily(After(s, actions).rows)
  {
    var s1 := Next(s, Consume(i));
    var s2 := Next(s1, Consume(j));
    var s3 := Next(s2, Create(i, x, expiresAt));
    var s4 := Next(s3, Create(j, y, expiresAt));
    AfterStep(s3, Create(j, y, expiresAt), []);
    AfterStep(s2, Create(i, x, expiresAt), [Create(j, y, expiresAt)]);
    AfterStep(s1, Consume(j), [Create(i, x, expiresAt), Create(j, y, expiresAt)]);
    AfterStep(s, Consume(i), [Consume(j), Create(i, x, expiresAt), Create(j, y, expiresAt)]);
    assert s4.rows[x].family == s4.rows[y].family && !s4.rows[x].revoked && !s4.rows[y].revoked;
  }

  /** That happens: one token, two calls of rotate that read before either revokes. */
  lemma TwoLiveTokensAreReachable()
    ensures var actions := [IssueFirst(0, 0, 1, 9), ReadForRotate(1, 1, 0), ReadForRotate(2, 1, 0)];
            && AllEnabled(INITIAL, actions)
            && var s := After(INITIAL, actions);
               Remembers(s) && At(s, 1, false) && At(s, 2, false) && s.sessions[1].token == s.sessions[2].token
  {
    var s1 := Next(INITIAL, IssueFirst(0, 0, 1, 9));
    var s2 := Next(s1, ReadForRotate(1, 1, 0));
    AfterStep(s2, ReadForRotate(2, 1, 0), []);
    AfterStep(s1, ReadForRotate(1, 1, 0), [ReadForRotate(2, 1, 0)]);
    AfterStep(INITIAL, IssueFirst(0, 0, 1, 9), [ReadForRotate(1, 1, 0), ReadForRotate(2, 1, 0)]);
  }

  /**
   A session that has revoked its token and not yet created the successor brings a family
   back that reuse detection has closed in between.
   */
  lemma ClosedFamilyCanComeBack(s: State, i: SessionId, j: SessionId, x: Token, expiresAt: Instant)
    requires Remembers(s) && i != j && At(s, i, true) && x !in s.rows
    requires j in s.sessions && s.sessions[j] == Condemning(s.sessions[i].family)
    ensures var family := s.sessions[i].family;
            && AllEnabled(s, [Condemn(j), Create(i, x, expiresAt)])
            && Dead(Next(s, Condemn(j)).rows, family)
            && !Dead(After(s, [Condemn(j), Create(i, x, expiresAt)]).rows, family)
  {
    var s1 := Next(s, Condemn(j));
    AfterStep(s1, Create(i, x, expiresAt), []);
    AfterStep(s, Condemn(j), [Create(i, x, expiresAt)]);
    assert s.sessions[i].token in s1.rows;
    assert Next(s1, Create(i, x, expiresAt)).rows[x] == Row(s.sessions[i].user, s.sessions[i].family, false, expiresAt);
  }

  /** That happens too: one call presents the token another has revoked and not yet replaced. */
  lemma RevivalIsReachable()
    ensures var actions := [IssueFirst(0, 0, 1, 9), ReadForRotate(1, 1, 0), Consume(1), ReadForRotate(2, 1, 0)];
            && AllEnabled(INITIAL, actions)
            && var s := After(INITIAL, actions);
               && Remembers(s) && At(s, 1, true)
               && 2 in s.sessions && s.sessions[2] == Condemning(s.sessions[1].family)
  {
    var s1 := Next(INITIAL, IssueFirst(0, 0, 1, 9));
    var s2 := Next(s1, ReadForRotate(1, 1, 0));
    var s3 := Next(s2, Consume(1));
    AfterStep(s3, ReadForRotate(2, 1, 0), []);
    AfterStep(s2, Consume(1), [ReadForRotate(2, 1, 0)]);
    AfterStep(s1, ReadForRotate(1, 1, 0), [Consume(1), ReadForRotate(2, 1, 0)]);
    AfterStep(INITIAL, IssueFirst(0, 0, 1, 9), [ReadForRotate(1, 1, 0), Consume(1), ReadForRotate(2, 1, 0)]);
  }

  // ---- undisturbed calls -------------------------------------------------------

  /** A login is one step. */
  lemma LoginIsOneStep(s: State, user: UserId, family: FamilyId, token: Token, expiresAt: Instant)
    requires Enabled(s, IssueFirst(user, family, token, expiresAt))
    ensures Next(s, IssueFirst(user, family, token, expiresAt)).rows == Issued(s.rows, user, family, token, expiresAt)
  {
  }

  /** A call of rotate whose steps nothing interrupts does what the atomic one does. */
  lemma UndisturbedRotate(s: State, i: SessionId, presented: Token, minted: Token, now: Instant, ttl: Instant)
    requires i !in s.sessions && minted !in s.rows
    ensures var read := ReadForRotate(i, presented, now);
            var actions := if presented !in s.rows then [read]
                           else if Accepts(s.rows, presented, now) then [read, Consume(i), Create(i, minted, now + ttl)]
                           else [read, Condemn(i)];
            AllEnabled(s, actions) && After(s, actions).rows == Rotated(s.rows, presented, minted, now, ttl)
  {
    var read := ReadForRotate(i, presented, now);
    var s1 := Next(s, read);
    if presented !in s.rows {
      AfterStep(s, read, []);
    } else if Accepts(s.rows, presented, now) {
      var s2 := Next(s1, Consume(i));
      AfterStep(s2, Create(i, minted, now + ttl), []);
      AfterStep(s1, Consume(i), [Create(i, minted, now + ttl)]);
      AfterStep(s, read, [Consume(i), Create(i, minted, now + ttl)]);
    } else {
      AfterStep(s1, Condemn(i), []);
      AfterStep(s, read, [Condemn(i)]);
    }
  }

  /** So does a call of revoke. */
  lemma UndisturbedRevoke(s: State, i: SessionId, presented: Token)
    requires i !in s.sessions
    ensures var read := ReadForRevoke(i, presented);
            var actions := if presented in s.rows then [read, Condemn(i)] else [read];
            AllEnabled(s, actions) && After(s, actions).rows == LoggedOut(s.rows, presented)
  {
    var read := ReadForRevoke(i, presented);
    if presented in s.rows {
      AfterStep(Next(s, read), Condemn(i), []);
      AfterStep(s, read, [Condemn(i)]);
    } else {
      AfterStep(s, read, []);
    }
  }
}
