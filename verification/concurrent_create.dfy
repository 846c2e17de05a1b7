/**
 Creating issues concurrently. The transaction of `create` first increments the project's
 counter; that row update is a lock the database holds until the transaction commits or
 rolls back. Other requests, and creations in other projects, run in between as they please.
 */
module ConcurrentCreate {
  import opened Wrappers
  import opened StringOrder
  import opened Rank
  import opened RankLaws
  import opened Issues
  import opened BoardRun

  type TxId = nat

  /** Where a create transaction stands; `request` is a Create operation. */
  datatype Tx =
    | Waiting(request: Op)
    | Counted(request: Op, number: nat)
    | Looked(request: Op, number: nat, last: Option<string>)
    | Ended

  /**
   The committed tables, the transactions on one project, and who holds its row. Kept for
   the statements: the requests that took effect, each where the tables it looked at had got
   to; how many had taken effect when the holder looked; and the numbers given out, in commit
   order.
   */
  datatype State = State(
    db: Db, txs: map<TxId, Tx>, holder: Option<TxId>,
    effects: seq<Op>, lookedAt: nat, numbers: seq<nat>)

  datatype Action =
    | Begin(tx: TxId, request: Op)
    | Count(tx: TxId)
    | Look(tx: TxId)
    | Commit(tx: TxId)
    | Abort(tx: TxId)
    | Other(op: Op)

  function Counter(s: State, p: ProjectId): nat {
    if p in s.db.projects then s.db.projects[p].counter else 0
  }

  predicate HoldsRow(s: State, tx: TxId) {
    s.holder == Some(tx) && tx in s.txs
  }

  predicate Enabled(s: State, p: ProjectId, a: Action) {
    match a
    case Begin(tx, request) => tx !in s.txs && request.Create? && request.project == p
    case Count(tx) =>
      && tx in s.txs && s.txs[tx].Waiting? && s.holder.None?
      && p in s.db.projects && s.db.projects[p].org == s.txs[tx].request.org
    case Look(tx) => HoldsRow(s, tx) && s.txs[tx].Counted?
    case Commit(tx) => HoldsRow(s, tx) && s.txs[tx].Looked? && s.txs[tx].request.id !in s.db.issues
    case Abort(tx) => HoldsRow(s, tx)
    case Other(op) => op.Create? ==> op.project != p
  }

  /** The tables after the transaction's two writes. */
  function Committed(db: Db, request: Op, number: nat, last: Option<string>): Db
    requires request.Create?
  {
    var card := NewCard(request.id, request.actor, request.project, request.input,
                        number, RankAfter(last), request.now);
    Db(db.projects[request.project := Project(request.org, number)],
       db.issues[request.id := Row(request.org, card)])
  }

  ghost predicate WellTyped(s: State, p: ProjectId) {
    && (forall tx | tx in s.txs && !s.txs[tx].Ended? :: s.txs[tx].request.Create? && s.txs[tx].request.project == p)
    && s.lookedAt <= |s.effects|
  }

  ghost function Next(s: State, p: ProjectId, a: Action): State
    requires Enabled(s, p, a) && WellTyped(s, p)
  {
    match a
    case Begin(tx, request) => s.(txs := s.txs[tx := Waiting(request)])
    case Count(tx) =>
      s.(txs := s.txs[tx := Counted(s.txs[tx].request, Counter(s, p) + 1)], holder := Some(tx))
    case Look(tx) =>
      var t := s.txs[tx];
      s.(txs := s.txs[tx := Looked(t.request, t.number, LastRank(s.db, p, t.request.input.status))],
         lookedAt := |s.effects|)
    case Commit(tx) =>
      var t := s.txs[tx];
      s.(db := Committed(s.db, t.request, t.number, t.last),
         txs := s.txs[tx := Ended], holder := None,
         effects := s.effects[..s.lookedAt] + [t.request] + s.effects[s.lookedAt..],
         numbers := s.numbers + [t.number])
    case Abort(tx) => s.(txs := s.txs[tx := Ended], holder := None)
    case Other(op) => s.(db := Step(s.db, op).db, effects := s.effects + [op])
  }

  /** Numbers of the project's cards are different, and none is above the counter. */
  ghost predicate Numbered(db: Db, p: ProjectId) {
    && (forall i | i in db.issues && db.issues[i].card.project == p ::
          p in db.projects && db.issues[i].card.number <= db.projects[p].counter)
    && (forall i, j | i in db.issues && j in db.issues && i != j
                      && db.issues[i].card.project == db.issues[j].card.project == p ::
          db.issues[i].card.number != db.issues[j].card.number)
  }

  function CounterOf(db: Db, p: ProjectId): nat {
    if p in db.projects then db.projects[p].counter else 0
  }

  ghost predicate Inv(s: State, p: ProjectId, start: Db) {
    && WellTyped(s, p)
    && (Numbered(start, p) ==> Numbered(s.db, p))
    // only the holder of the project row is past waiting
    && (forall tx | tx in s.txs && (s.txs[tx].Counted? || s.txs[tx].Looked?) :: s.holder == Some(tx))
    && (s.holder.Some? ==>
          && s.holder.value in s.txs
          && (s.txs[s.holder.value].Counted? || s.txs[s.holder.value].Looked?))
    && (forall tx | tx in s.txs && (s.txs[tx].Counted? || s.txs[tx].Looked?) ::
          && s.txs[tx].number == Counter(s, p) + 1
          && p in s.db.projects && s.db.projects[p].org == s.txs[tx].request.org)
    // numbers are given out without gaps
    && Counter(s, p) == CounterOf(start, p) + |s.numbers|
    && (forall k | 0 <= k < |s.numbers| :: s.numbers[k] == CounterOf(start, p) + k + 1)
  }

  ghost function Initial(db: Db): State {
    State(db, map[], None, [], 0, [])
  }

  ghost predicate AllEnabled(s: State, p: ProjectId, actions: seq<Action>)
    decreases |actions|
  {
    actions == [] ||
    (WellTyped(s, p) && Enabled(s, p, actions[0]) && AllEnabled(Next(s, p, actions[0]), p, actions[1..]))
  }

  ghost function After(s: State, p: ProjectId, actions: seq<Action>): State
    requires AllEnabled(s, p, actions)
    decreases |actions|
  {
    if actions == [] then s else After(Next(s, p, actions[0]), p, actions[1..])
  }

  // ---- each action keeps the invariant -----------------------------------------

  /** Same project row, or none before and after. */
  predicate SameProject(before: Db, after: Db, p: ProjectId) {
    && (p in before.projects <==> p in after.projects)
    && (p in before.projects ==> after.projects[p] == before.projects[p])
  }

  /** What a request that is not a creation in the project leaves alone. */
  lemma OtherKeeps(db: Db, op: Op, p: ProjectId)
    requires op.Create? ==> op.project != p
    ensures SameProject(db, Step(db, op).db, p)
    ensures Numbered(db, p) ==> Numbered(Step(db, op).db, p)
  {
  }

  /** A row with the next number. */
  lemma CommittedIsNumbered(db: Db, p: ProjectId, request: Op, number: nat, last: Option<string>)
    requires request.Create? && request.project == p && Numbered(db, p) && request.id !in db.issues
    requires p in db.projects && number == db.projects[p].counter + 1
    ensures Numbered(Committed(db, request, number, last), p)
  {
  }

  lemma ActionKeepsInv(s: State, p: ProjectId, start: Db, a: Action)
    requires Inv(s, p, start) && Enabled(s, p, a)
    ensures Inv(Next(s, p, a), p, start)
  {
    match a
    case Begin(_, _) =>
    case Count(_) =>
    case Look(_) =>
    case Commit(tx) =>
      if Numbered(s.db, p) {
        CommittedIsNumbered(s.db, p, s.txs[tx].request, s.txs[tx].number, s.txs[tx].last);
      }
    case Abort(_) =>
    case Other(op) => OtherKeeps(s.db, op, p);
  }

  lemma {:induction false} RunKeepsInv(s: State, p: ProjectId, start: Db, actions: seq<Action>)
    requires Inv(s, p, start) && AllEnabled(s, p, actions)
    ensures Inv(After(s, p, actions), p, start)
    decreases |actions|
  {
    if actions != [] {
      ActionKeepsInv(s, p, start, actions[0]);
      RunKeepsInv(Next(s, p, actions[0]), p, start, actions[1..]);
    }
  }

  // ---- numbers -----------------------------------------------------------------

  /**
   Every interleaving gives out the numbers after the counter's, without gap or repetition, in
   commit order, whatever is removed or rolled back; the counter is always the last one given
   out, and cards that start with different numbers, none above the counter, keep doing so.
   */
  lemma NumbersAreConsecutive(db: Db, p: ProjectId, actions: seq<Action>)
    requires AllEnabled(Initial(db), p, actions)
    ensures var s := After(Initial(db), p, actions);
            && Counter(s, p) == CounterOf(db, p) + |s.numbers|
            && (forall k | 0 <= k < |s.numbers| :: s.numbers[k] == CounterOf(db, p) + k + 1)
            && (Numbered(db, p) ==> Numbered(s.db, p))
  {
    RunKeepsInv(Initial(db), p, db, actions);
  }

  /** From a project without cards whose counter is 0, they are 1, 2, 3, ... */
  lemma NumbersFromOne(db: Db, p: ProjectId, actions: seq<Action>)
    requires (forall i | i in db.issues :: db.issues[i].card.project != p) && CounterOf(db, p) == 0
    requires AllEnabled(Initial(db), p, actions)
    ensures var s := After(Initial(db), p, actions);
            && Counter(s, p) == |s.numbers| && (forall k | 0 <= k < |s.numbers| :: s.numbers[k] == k + 1)
            && Numbered(s.db, p)
  {
    NumbersAreConsecutive(db, p, actions);
  }

  // ---- appending ---------------------------------------------------------------

  ghost predicate AlphabetRanks(db: Db) {
    forall i | i in db.issues :: Alphabet(db.issues[i].card.rank)
  }

  /** Every card of the column ranks strictly below the rank. */
  ghost predicate AllBelow(db: Db, p: ProjectId, status: Status, rank: string) {
    forall i | i in Column(db, p, status) :: Less(db.issues[i].card.rank, rank)
  }

  lemma RankAfterIsAlphabet(last: Option<string>)
    ensures Alphabet(RankAfter(last))
  {
    if last.Some? {
      BetweenIsCanonical(last.value, "", true);
    }
  }

  /** A request of any kind keeps ranks over the alphabet. */
  lemma OtherKeepsAlphabet(db: Db, op: Op)
    requires AlphabetRanks(db)
    ensures AlphabetRanks(Step(db, op).db)
  {
    if op.Move? && Owns(db, op.org, op.id) {
      var (above, below) := MoveBounds(db, db.issues[op.id].card.project, op.move);
      BetweenIsCanonical(above.GetOr(""), below.GetOr(""), below.None?);
    }
    if op.Create? {
      RankAfterIsAlphabet(LastRank(db, op.project, op.input.status));
    }
  }

  lemma {:induction false} RunKeepsAlphabet(s: State, p: ProjectId, start: Db, actions: seq<Action>)
    requires AlphabetRanks(s.db) && Inv(s, p, start) && AllEnabled(s, p, actions)
    ensures AlphabetRanks(After(s, p, actions).db)
    decreases |actions|
  {
    if actions != [] {
      var a := actions[0];
      ActionKeepsInv(s, p, start, a);
      if a.Other? {
        OtherKeepsAlphabet(s.db, a.op);
      }
      if a.Commit? {
        RankAfterIsAlphabet(s.txs[a.tx].last);
      }
      RunKeepsAlphabet(Next(s, p, a), p, start, actions[1..]);
    }
  }

  /** When a transaction looks, the rank it will take is above all of its column. */
  lemma LookedIsAbove(db: Db, p: ProjectId, status: Status)
    requires AlphabetRanks(db)
    ensures AllBelow(db, p, status, RankAfter(LastRank(db, p, status)))
  {
    var last := LastRank(db, p, status);
    forall i | i in Column(db, p, status) ensures Less(db.issues[i].card.rank, RankAfter(last)) {
      BetweenIsAbove(last.value, "", true);
      NotLessTransitive(last.value, db.issues[i].card.rank, RankAfter(last));
    }
  }

  /** The request puts a card of the project into the column at, or above, the rank. */
  predicate PutsBeyond(db: Db, op: Op, p: ProjectId, status: Status, rank: string) {
    match op
    case Move(org, id, move, _) =>
      && Owns(db, org, id) && db.issues[id].card.project == p && move.status == status
      && var (above, below) := MoveBounds(db, p, move);
         Accepts(above, below) && !Less(Midpoint(above, below), rank)
    case Update(org, id, change, _) =>
      && Owns(db, org, id) && db.issues[id].card.project == p
      && change.status.GetOr(db.issues[id].card.status) == status && !Less(db.issues[id].card.rank, rank)
    case _ => false
  }

  /** A request keeps the column below the rank exactly unless it puts a card there. */
  lemma StaysBelowIff(db: Db, op: Op, p: ProjectId, status: Status, rank: string)
    requires (op.Create? ==> op.project != p) && AllBelow(db, p, status, rank)
    ensures AllBelow(Step(db, op).db, p, status, rank) <==> !PutsBeyond(db, op, p, status, rank)
  {
    var after := Step(db, op).db;
    if PutsBeyond(db, op, p, status, rank) {
      assert op.id in Column(after, p, status);
    } else {
      forall i | i in Column(after, p, status) ensures Less(after.issues[i].card.rank, rank) {
        if i in db.issues && after.issues[i] == db.issues[i] {
          assert i in Column(db, p, status);
        }
      }
    }
  }

  predicate Ends(a: Action, tx: TxId) {
    a == Commit(tx) || a == Abort(tx)
  }

  /** What happens while the transaction has looked and not ended puts no card beyond its rank. */
  ghost predicate NonePutsBeyond(s: State, p: ProjectId, actions: seq<Action>, status: Status, rank: string)
    requires AllEnabled(s, p, actions)
    decreases |actions|
  {
    actions == [] ||
    ((actions[0].Other? ==> !PutsBeyond(s.db, actions[0].op, p, status, rank))
     && NonePutsBeyond(Next(s, p, actions[0]), p, actions[1..], status, rank))
  }

  lemma {:induction false} ColumnStaysBelow(s: State, p: ProjectId, start: Db, tx: TxId, actions: seq<Action>)
    requires Inv(s, p, start) && HoldsRow(s, tx) && s.txs[tx].Looked? && AllEnabled(s, p, actions)
    requires forall a | a in actions :: !Ends(a, tx)
    requires var status, rank := s.txs[tx].request.input.status, RankAfter(s.txs[tx].last);
             AllBelow(s.db, p, status, rank) && NonePutsBeyond(s, p, actions, status, rank)
    ensures var end := After(s, p, actions);
            && Inv(end, p, start) && HoldsRow(end, tx) && end.txs[tx] == s.txs[tx]
            && AllBelow(end.db, p, s.txs[tx].request.input.status, RankAfter(s.txs[tx].last))
    decreases |actions|
  {
    if actions != [] {
      var a := actions[0];
      assert a in actions && !Ends(a, tx);
      ActionKeepsInv(s, p, start, a);
      if a.Other? {
        StaysBelowIff(s.db, a.op, p, s.txs[tx].request.input.status, RankAfter(s.txs[tx].last));
      }
      ColumnStaysBelow(Next(s, p, a), p, start, tx, actions[1..]);
    }
  }

  /**
   A transaction looks, other things happen, it commits: unless one of them has put a card of
   the project into its column beyond its rank, the new card ranks strictly above every card
   then in the column.
   */
  lemma CommitAppends(s: State, p: ProjectId, start: Db, tx: TxId, between: seq<Action>)
    requires Inv(s, p, start) && AlphabetRanks(s.db) && Enabled(s, p, Look(tx))
    requires AllEnabled(Next(s, p, Look(tx)), p, between) && forall a | a in between :: !Ends(a, tx)
    requires var t := Next(s, p, Look(tx)).txs[tx];
             NonePutsBeyond(Next(s, p, Look(tx)), p, between, t.request.input.status, RankAfter(t.last))
    requires Enabled(After(Next(s, p, Look(tx)), p, between), p, Commit(tx))
             && WellTyped(After(Next(s, p, Look(tx)), p, between), p)
    ensures var request := s.txs[tx].request;
            var before := After(Next(s, p, Look(tx)), p, between);
            var after := Next(before, p, Commit(tx)).db;
            && request.id in after.issues
            && AllBelow(before.db, p, request.input.status, after.issues[request.id].card.rank)
  {
    ActionKeepsInv(s, p, start, Look(tx));
    LookedIsAbove(s.db, p, s.txs[tx].request.input.status);
    ColumnStaysBelow(Next(s, p, Look(tx)), p, start, tx, between);
  }

  /** A move to the bottom of the column between look and commit gives two cards one rank. */
  lemma MoveToBottomCollides(s: State, p: ProjectId, start: Db, tx: TxId, op: Op)
    requires Inv(s, p, start) && Enabled(s, p, Commit(tx)) && s.txs[tx].last.Some?
    requires op.Move? && Owns(s.db, op.org, op.id) && s.db.issues[op.id].card.project == p
    requires op.move.status == s.txs[tx].request.input.status
    requires MoveBounds(s.db, p, op.move) == (s.txs[tx].last, None)
    ensures var mid := Next(s, p, Other(op));
            && PutsBeyond(s.db, op, p, op.move.status, RankAfter(s.txs[tx].last))
            && Enabled(mid, p, Commit(tx))
            && var after := Next(mid, p, Commit(tx)).db;
               var id := s.txs[tx].request.id;
               && id != op.id && SameColumn(after.issues[id].card, after.issues[op.id].card)
               && after.issues[id].card.rank == after.issues[op.id].card.rank
  {
    LessIrreflexive(RankAfter(s.txs[tx].last));
  }
}
