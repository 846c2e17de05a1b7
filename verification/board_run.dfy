/** Whole runs of the issue service: ranks stay distinct, ranks stay canonical. */
module BoardRun {
  import opened Wrappers
  import opened StringOrder
  import opened Rank
  import opened RankLaws
  import opened RankValue
  import opened Issues

  /** A rank the board can always insert above: over the alphabet and not just '0's. */
  predicate Proper(rank: string) {
    Alphabet(rank) && Val(rank) > 0.0
  }

  predicate SameColumn(a: Card, b: Card) {
    a.project == b.project && a.status == b.status
  }

  /** Ranks denote pairwise different, positive fractions in every column of every project. */
  ghost predicate Sound(db: Db) {
    && (forall i | i in db.issues :: Proper(db.issues[i].card.rank))
    && (forall i, j | i in db.issues && j in db.issues && i != j
                      && SameColumn(db.issues[i].card, db.issues[j].card) ::
          Val(db.issues[i].card.rank) != Val(db.issues[j].card.rank))
  }

  ghost predicate AllCanonical(db: Db) {
    forall i | i in db.issues :: Canonical(db.issues[i].card.rank)
  }

  ghost predicate DistinctRanks(db: Db) {
    forall i, j | i in db.issues && j in db.issues && i != j
                  && SameColumn(db.issues[i].card, db.issues[j].card) ::
      db.issues[i].card.rank != db.issues[j].card.rank
  }

  /** For canonical ranks soundness is just distinctness. */
  lemma SoundIffDistinct(db: Db)
    requires AllCanonical(db)
    ensures Sound(db) <==> DistinctRanks(db)
  {
    forall i | i in db.issues ensures Proper(db.issues[i].card.rank) {
      CanonicalOrderIsValueOrder(db.issues[i].card.rank, db.issues[i].card.rank);
    }
    forall i, j | i in db.issues && j in db.issues
      ensures Val(db.issues[i].card.rank) == Val(db.issues[j].card.rank)
              <==> db.issues[i].card.rank == db.issues[j].card.rank
    {
      CanonicalOrderIsValueOrder(db.issues[i].card.rank, db.issues[j].card.rank);
    }
  }

  lemma NotAboveInValue(top: string, rank: string)
    requires Alphabet(top) && Alphabet(rank) && !Less(top, rank)
    ensures Val(rank) <= Val(top)
  {
    OrderIsValueThenLength(top, rank);
  }

  lemma MidpointIsProper(a: Option<string>, b: Option<string>)
    requires LowValue(a) < HighValue(b)
    ensures Proper(Midpoint(a, b)) && Canonical(Midpoint(a, b))
  {
    BetweenIsCanonical(a.GetOr(""), b.GetOr(""), b.None?);
    MidpointValue(a, b);
  }

  // ---- one request -------------------------------------------------------------

  /** A created card's rank denotes a greater fraction than every rank in its column. */
  lemma AppendedIsAbove(db: Db, project: ProjectId, status: Status)
    requires Sound(db)
    ensures Proper(AppendedRank(db, project, status))
    ensures forall i | i in Column(db, project, status) ::
              Val(db.issues[i].card.rank) < Val(AppendedRank(db, project, status))
  {
    var last := LastRank(db, project, status);
    if last.Some? {
      MidpointIsProper(last, None);
      MidpointValue(last, None);
      forall i | i in Column(db, project, status)
        ensures Val(db.issues[i].card.rank) <= Val(last.value)
      {
        NotAboveInValue(last.value, db.issues[i].card.rank);
      }
    } else {
      assert FIRST_RANK == Midpoint(None, None);
      MidpointIsProper(None, None);
    }
  }

  lemma CreateKeepsSound(db: Db, org: OrgId, actor: UserId, project: ProjectId,
                         input: CreateInput, id: IssueId, now: Instant)
    requires Sound(db)
    ensures Sound(CreateStep(db, org, actor, project, input, id, now).db)
  {
    AppendedIsAbove(db, project, input.status);
    var after := CreateStep(db, org, actor, project, input, id, now).db;
    if after != db {
      forall j | j in db.issues && SameColumn(db.issues[j].card, after.issues[id].card)
        ensures Val(db.issues[j].card.rank) < Val(after.issues[id].card.rank)
      {
        assert j in Column(db, project, input.status);
      }
    }
  }

  /** Writing one card keeps the board sound exactly when no other card of its column has a rank of the same value. */
  lemma WriteKeepsSoundIff(db: Db, org: OrgId, id: IssueId, card: Card)
    requires Sound(db) && id in db.issues && Proper(card.rank)
    ensures Sound(db.(issues := db.issues[id := Row(org, card)])) <==>
            forall k | k in Column(db, card.project, card.status) && k != id ::
              Val(db.issues[k].card.rank) != Val(card.rank)
  {
    var after := db.(issues := db.issues[id := Row(org, card)]);
    forall k | k in db.issues && k != id
      ensures k in Column(db, card.project, card.status) <==> SameColumn(after.issues[k].card, after.issues[id].card)
    {
    }
  }

  /** No other card of the column the update leads to has a rank of the same value. */
  ghost predicate UpdateIsClear(db: Db, id: IssueId, change: UpdateInput)
    requires id in db.issues
  {
    var card := db.issues[id].card;
    forall j | j in Column(db, card.project, change.status.GetOr(card.status)) && j != id ::
      Val(db.issues[j].card.rank) != Val(card.rank)
  }

  /** An update keeps the board sound exactly when the target column has no equal rank. */
  lemma UpdateKeepsSoundIffClear(db: Db, org: OrgId, id: IssueId, change: UpdateInput, now: Instant)
    requires Sound(db) && Owns(db, org, id)
    ensures Sound(UpdateStep(db, org, id, change, now).db) <==> UpdateIsClear(db, id, change)
    ensures change.status.None? || change.status.value == db.issues[id].card.status ==> UpdateIsClear(db, id, change)
  {
    WriteKeepsSoundIff(db, org, id, Patched(db.issues[id].card, change, now));
  }

  /**
   The move goes between two cards with nothing in between, in the target column without
   the moved card; an absent neighbour means there is no card on that side.
   */
  ghost predicate Adjacent(db: Db, id: IssueId, input: MoveInput)
    requires id in db.issues
  {
    var project := db.issues[id].card.project;
    var (above, below) := MoveBounds(db, project, input);
    && (input.aboveId.Some? ==> above.Some? && input.aboveId.value != id)
    && (input.belowId.Some? ==> below.Some? && input.belowId.value != id)
    && Accepts(above, below)
    && forall k | k in Column(db, project, input.status) && k != id ::
         || (above.Some? && !Less(above.value, db.issues[k].card.rank))
         || (below.Some? && !Less(db.issues[k].card.rank, below.value))
  }

  /** Between adjacent neighbours there is an interval, and no other card's value lies in it. */
  lemma AdjacentLeavesInterval(db: Db, id: IssueId, input: MoveInput)
    requires Sound(db) && id in db.issues && Adjacent(db, id, input)
    ensures var (above, below) := MoveBounds(db, db.issues[id].card.project, input);
            && LowValue(above) < HighValue(below)
            && forall k | k in Column(db, db.issues[id].card.project, input.status) && k != id ::
                 Val(db.issues[k].card.rank) <= LowValue(above) || HighValue(below) <= Val(db.issues[k].card.rank)
  {
    var project := db.issues[id].card.project;
    var (above, below) := MoveBounds(db, project, input);
    if above.Some? && below.Some? {
      OrderIsValueThenLength(above.value, below.value);
      LessAsymmetric(above.value, below.value);
    }
    forall k | k in Column(db, project, input.status) && k != id
      ensures Val(db.issues[k].card.rank) <= LowValue(above) || HighValue(below) <= Val(db.issues[k].card.rank)
    {
      var rank := db.issues[k].card.rank;
      if above.Some? && !Less(above.value, rank) {
        NotAboveInValue(above.value, rank);
      } else {
        NotAboveInValue(rank, below.value);
      }
    }
  }

  /** The move is turned down, or no other card of the target column has a rank of the new rank's value. */
  ghost predicate MoveIsClear(db: Db, id: IssueId, input: MoveInput)
    requires id in db.issues
  {
    var project := db.issues[id].card.project;
    var (above, below) := MoveBounds(db, project, input);
    Accepts(above, below) ==>
      forall k | k in Column(db, project, input.status) && k != id ::
        Val(db.issues[k].card.rank) != Val(Midpoint(above, below))
  }

  /** A move keeps the board sound exactly when the new rank's value is free in the target column. */
  lemma MoveKeepsSoundIffClear(db: Db, org: OrgId, id: IssueId, input: MoveInput, now: Instant)
    requires Sound(db) && Owns(db, org, id)
    ensures Sound(MoveStep(db, org, id, input, now).db) <==> MoveIsClear(db, id, input)
  {
    var card := db.issues[id].card;
    var (above, below) := MoveBounds(db, card.project, input);
    if Accepts(above, below) {
      var rank := Midpoint(above, below);
      BetweenIsCanonical(above.GetOr(""), below.GetOr(""), below.None?);
      CanonicalOrderIsValueOrder(rank, rank);
      WriteKeepsSoundIff(db, org, id, card.(status := input.status, rank := rank, updatedAt := now));
    }
  }

  /** Between adjacent neighbours the new rank's value is free, and the move is accepted. */
  lemma AdjacentIsClear(db: Db, id: IssueId, input: MoveInput)
    requires Sound(db) && id in db.issues && Adjacent(db, id, input)
    ensures MoveIsClear(db, id, input)
    ensures var (above, below) := MoveBounds(db, db.issues[id].card.project, input); Accepts(above, below)
  {
    var (above, below) := MoveBounds(db, db.issues[id].card.project, input);
    AdjacentLeavesInterval(db, id, input);
    MidpointValue(above, below);
  }

  /** A move between adjacent neighbours is accepted and keeps the board sound. */
  lemma MoveKeepsSound(db: Db, org: OrgId, id: IssueId, input: MoveInput, now: Instant)
    requires Sound(db) && Owns(db, org, id) && Adjacent(db, id, input)
    ensures MoveStep(db, org, id, input, now).reply.Success?
    ensures Sound(MoveStep(db, org, id, input, now).db)
  {
    AdjacentIsClear(db, id, input);
    MoveKeepsSoundIffClear(db, org, id, input, now);
  }

  // ---- whole runs --------------------------------------------------------------

  /** Creations, removals, updates that leave the status alone, and moves between neighbours. */
  ghost predicate Allowed(db: Db, op: Op) {
    match op
    case Create(_, _, _, _, _, _) => true
    case Update(org, id, change, _) =>
      Owns(db, org, id) && change.status.Some? ==> change.status.value == db.issues[id].card.status
    case Move(org, id, move, _) => Owns(db, org, id) ==> Adjacent(db, id, move)
    case Remove(_, _) => true
  }

  ghost predicate AllAllowed(db: Db, ops: seq<Op>)
    decreases |ops|
  {
    ops == [] || (Allowed(db, ops[0]) && AllAllowed(Step(db, ops[0]).db, ops[1..]))
  }

  /** No request of the run is turned down for inconsistent neighbours. */
  ghost predicate NoneRejected(db: Db, ops: seq<Op>)
    decreases |ops|
  {
    ops == [] ||
    (Step(db, ops[0]).reply != Failure(BadRequest) && NoneRejected(Step(db, ops[0]).db, ops[1..]))
  }

  lemma OneRejected(db: Db, op: Op)
    ensures NoneRejected(db, [op]) <==> Step(db, op).reply != Failure(BadRequest)
  {
    assert [op][1..] == [];
  }

  lemma {:induction false} RejectedOfConcat(db: Db, a: seq<Op>, b: seq<Op>)
    ensures NoneRejected(db, a + b) <==> NoneRejected(db, a) && NoneRejected(Run(db, a), b)
    decreases |a|
  {
    if a == [] {
      assert a + b == b;
    } else {
      assert (a + b)[0] == a[0] && (a + b)[1..] == a[1..] + b;
      RejectedOfConcat(Step(db, a[0]).db, a[1..], b);
    }
  }

  lemma StepKeepsSound(db: Db, op: Op)
    requires Sound(db) && Allowed(db, op)
    ensures Sound(Step(db, op).db)
    ensures Step(db, op).reply != Failure(BadRequest)
  {
    match op
    case Create(org, actor, project, input, id, now) => CreateKeepsSound(db, org, actor, project, input, id, now);
    case Update(org, id, change, now) =>
      if Owns(db, org, id) {
        UpdateKeepsSoundIffClear(db, org, id, change, now);
      }
    case Move(org, id, move, now) =>
      if Owns(db, org, id) {
        MoveKeepsSound(db, org, id, move, now);
      }
    case Remove(_, _) =>
  }

  /** Every allowed run from a sound board, the empty one for a start, stays sound. */
  lemma {:induction false} RunKeepsSound(db: Db, ops: seq<Op>)
    requires Sound(db) && AllAllowed(db, ops)
    ensures Sound(Run(db, ops)) && NoneRejected(db, ops)
    decreases |ops|
  {
    if ops != [] {
      StepKeepsSound(db, ops[0]);
      RunKeepsSound(Step(db, ops[0]).db, ops[1..]);
    }
  }

  /** No request at all, allowed or not, ever writes a rank that is not canonical. */
  lemma {:induction false} RunKeepsCanonical(db: Db, ops: seq<Op>)
    requires AllCanonical(db)
    ensures AllCanonical(Run(db, ops))
    decreases |ops|
  {
    if ops != [] {
      StepKeepsCanonical(db, ops[0]);
      RunKeepsCanonical(Step(db, ops[0]).db, ops[1..]);
    }
  }

  lemma StepKeepsCanonical(db: Db, op: Op)
    requires AllCanonical(db)
    ensures AllCanonical(Step(db, op).db)
  {
    match op
    case Create(org, actor, project, input, id, now) =>
      var last := LastRank(db, project, input.status);
      assert FIRST_RANK == Midpoint(None, None);
      BetweenIsCanonical(last.GetOr(""), "", true);
    case Move(org, id, move, now) =>
      if Owns(db, org, id) {
        var (above, below) := MoveBounds(db, db.issues[id].card.project, move);
        BetweenIsCanonical(above.GetOr(""), below.GetOr(""), below.None?);
      }
    case Update(_, _, _, _) =>
    case Remove(_, _) =>
  }

  /**
   From an empty issue table, every allowed run keeps every rank canonical and every
   column's ranks pairwise distinct, and rejects no move.
   */
  lemma RunFromEmpty(projects: map<ProjectId, Project>, ops: seq<Op>)
    requires AllAllowed(Db(projects, map[]), ops)
    ensures AllCanonical(Run(Db(projects, map[]), ops)) && DistinctRanks(Run(Db(projects, map[]), ops))
    ensures NoneRejected(Db(projects, map[]), ops)
  {
    var db := Db(projects, map[]);
    RunKeepsSound(db, ops);
    RunKeepsCanonical(db, ops);
    SoundIffDistinct(Run(db, ops));
  }

  // ---- why the conditions are there --------------------------------------------

  function Plain(id: IssueId, status: Status, rank: string): Row {
    Row(0, Card(id, id, "", None, status, NoPriority, rank, None, 0, None, 0, 0, 0))
  }

  const KEEP := UpdateInput(None, None, None, None, None, None)

  /** The first cards of two different columns. */
  function TwoColumns(): Db {
    Db(map[0 := Project(0, 2)], map[1 := Plain(1, Todo, FIRST_RANK), 2 := Plain(2, Done, FIRST_RANK)])
  }

  lemma FirstRankIsProper()
    ensures Proper(FIRST_RANK)
  {
    assert FIRST_RANK == Midpoint(None, None);
    MidpointIsProper(None, None);
  }

  lemma TwoColumnsIsSound()
    ensures Sound(TwoColumns())
  {
    var rows := TwoColumns().issues;
    FirstRankIsProper();
    forall i | i in rows
      ensures rows[i].card.rank == FIRST_RANK && rows[i].card.status == if i == 1 then Todo else Done
    {
    }
    assert forall i | i in rows :: i == 1 || i == 2;
  }

  /** Changing the status of one of them gives equal ranks; then nothing fits between the two. */
  lemma StatusUpdateCanDuplicateRanks()
    ensures var after := UpdateStep(TwoColumns(), 0, 1, KEEP.(status := Some(Done)), 1).db;
            && Sound(TwoColumns()) && !DistinctRanks(after)
            && MoveStep(after, 0, 1, MoveInput(Done, Some(1), Some(2)), 2).reply == Failure(BadRequest)
  {
    TwoColumnsIsSound();
    var after := UpdateStep(TwoColumns(), 0, 1, KEEP.(status := Some(Done)), 1).db;
    assert SameColumn(after.issues[1].card, after.issues[2].card);
    LessIrreflexive(FIRST_RANK);
  }

  /** A move that names no neighbours although the target column has a card can collide with it. */
  lemma NonAdjacentMoveCanDuplicateRanks()
    ensures var input := MoveInput(Done, None, None);
            var out := MoveStep(TwoColumns(), 0, 1, input, 1);
            && Sound(TwoColumns()) && !Adjacent(TwoColumns(), 1, input)
            && out.reply.Success? && !DistinctRanks(out.db)
  {
    TwoColumnsIsSound();
    var after := MoveStep(TwoColumns(), 0, 1, MoveInput(Done, None, None), 1).db;
    assert FIRST_RANK == Midpoint(None, None);
    assert SameColumn(after.issues[1].card, after.issues[2].card);
    assert 2 in Column(TwoColumns(), 0, Done);
  }
}
