/**
 The browser's cache and the server's table under drags: they stay in agreement, and both
 do what a drag does to lists of cards.
 */
module BoardServer {
  import opened Wrappers
  import opened StringOrder
  import opened Rank
  import opened RankValue
  import opened Issues
  import opened BoardRun
  import opened Board
  import opened BoardLists
  import opened BoardRefinement

  /** `issue:moved` carries no updatedAt, so agreement leaves it out. */
  function Strip(card: Card): Card {
    card.(updatedAt := 0)
  }

  ghost predicate Keyed(db: Db) {
    forall i | i in db.issues :: db.issues[i].card.id == i
  }

  /** The cache holds exactly the project's cards. */
  ghost predicate Agrees(issues: seq<Card>, db: Db, project: ProjectId) {
    && UniqueIds(issues)
    && (forall c | c in issues :: c.id in db.issues && Strip(db.issues[c.id].card) == Strip(c) && c.project == project)
    && (forall i | i in db.issues && db.issues[i].card.project == project :: exists c :: c in issues && c.id == i)
  }

  lemma AgreesIsGood(issues: seq<Card>, db: Db, project: ProjectId)
    requires Agrees(issues, db, project) && Sound(db)
    ensures Good(issues)
  {
    forall c | c in issues ensures Proper(c.rank) {
      assert db.issues[c.id].card.rank == Strip(c).rank;
    }
    forall i, j | 0 <= i < j < |issues| && issues[i].status == issues[j].status
      ensures Val(issues[i].rank) != Val(issues[j].rank)
    {
      var a, b := issues[i], issues[j];
      assert a in issues && b in issues;
      assert Strip(db.issues[a.id].card) == Strip(a) && Strip(db.issues[b.id].card) == Strip(b);
      assert SameColumn(db.issues[a.id].card, db.issues[b.id].card);
    }
  }

  /** The server finds the neighbour the cache names, with the same rank. */
  lemma NeighbourIsFound(issues: seq<Card>, db: Db, project: ProjectId, card: Option<Card>, status: Status)
    requires Agrees(issues, db, project)
    requires card.Some? ==> card.value in issues && card.value.status == status
    ensures NeighbourRank(db, IdOf(card), project, status) == RankOf(card)
  {
    if card.Some? {
      assert Strip(db.issues[card.value.id].card) == Strip(card.value);
    }
  }

  /** Every other card the server has in the column lies at or beyond one of the neighbours. */
  lemma OthersOutsideTheGap(issues: seq<Card>, db: Db, project: ProjectId, active: IssueId, status: Status,
                            rest: seq<Card>, at: nat, k: IssueId)
    requires Agrees(issues, db, project) && Keyed(db) && Sorted(rest) && at <= |rest|
    requires forall c | c in issues && c.status == status && c.id != active :: c in rest
    requires k in Column(db, project, status) && k != active
    ensures var above, below := Above(rest, at), Below(rest, at);
            || (above.Some? && !Less(above.value.rank, db.issues[k].card.rank))
            || (below.Some? && !Less(db.issues[k].card.rank, below.value.rank))
  {
    var c :| c in issues && c.id == k;
    assert Strip(db.issues[k].card) == Strip(c);
    assert c in rest;
    var i :| 0 <= i < |rest| && rest[i] == c;
    OutsideTheGap(rest, at, i);
  }

  /** The neighbours a drop names are adjacent on the server too. */
  lemma DropIsAdjacent(issues: seq<Card>, db: Db, project: ProjectId, card: Card, over: Over)
    requires Agrees(issues, db, project) && Sound(db) && Good(issues) && Keyed(db)
    requires card in issues && DragEnd(issues, card.id, over).Dispatched?
    ensures var drop := DragEnd(issues, card.id, over);
            && Adjacent(db, card.id, drop.input)
            && var (above, below) := MoveBounds(db, project, drop.input);
               Ranked(above, below) == Success(drop.optimisticRank)
  {
    var status := DragEnd(issues, card.id, over).input.status;
    var rest := Rest(issues, card.id, status);
    var at := InsertAt(rest, over);
    DropFacts(issues, card.id, over);
    RestFacts(issues, card.id, status);
    RisingIsSorted(rest);
    NeighboursAreFound(issues, db, project, card.id, status, rest, at);
    assert db.issues[card.id].card.project == project by { assert Strip(db.issues[card.id].card) == Strip(card); }
    forall k | k in Column(db, project, status) && k != card.id
      ensures var above, below := Above(rest, at), Below(rest, at);
              || (above.Some? && !Less(above.value.rank, db.issues[k].card.rank))
              || (below.Some? && !Less(db.issues[k].card.rank, below.value.rank))
    {
      OthersOutsideTheGap(issues, db, project, card.id, status, rest, at, k);
    }
  }

  lemma NeighboursAreFound(issues: seq<Card>, db: Db, project: ProjectId, active: IssueId, status: Status,
                           rest: seq<Card>, at: nat)
    requires Agrees(issues, db, project) && at <= |rest|
    requires forall c | c in rest :: c in issues && c.status == status && c.id != active
    ensures var above, below := Above(rest, at), Below(rest, at);
            && NeighbourRank(db, IdOf(above), project, status) == RankOf(above)
            && NeighbourRank(db, IdOf(below), project, status) == RankOf(below)
            && IdOf(above) != Some(active) && IdOf(below) != Some(active)
  {
    NeighbourIsFound(issues, db, project, Above(rest, at), status);
    NeighbourIsFound(issues, db, project, Below(rest, at), status);
  }

  lemma OutsideTheGap(rest: seq<Card>, at: nat, i: nat)
    requires Sorted(rest) && at <= |rest| && i < |rest|
    ensures if i < at then at > 0 && !Less(rest[at - 1].rank, rest[i].rank)
            else at < |rest| && !Less(rest[i].rank, rest[at].rank)
  {
    LessIrreflexive(rest[i].rank);
    if i < at - 1 {
      LessAsymmetric(rest[i].rank, rest[at - 1].rank);
    } else if i > at {
      LessAsymmetric(rest[at].rank, rest[i].rank);
    }
  }

  lemma AgreementAfterMove(issues: seq<Card>, db: Db, project: ProjectId, org: OrgId, card: Card,
                           status: Status, rank: string, now: Instant)
    requires Agrees(issues, db, project) && Keyed(db) && card in issues
    ensures var moved := db.issues[card.id].card.(status := status, rank := rank, updatedAt := now);
            Agrees(Placed(issues, card.id, status, rank), db.(issues := db.issues[card.id := Row(org, moved)]), project)
  {
    var after := Placed(issues, card.id, status, rank);
    var moved := db.issues[card.id].card.(status := status, rank := rank, updatedAt := now);
    var db' := db.(issues := db.issues[card.id := Row(org, moved)]);
    PlacedMembers(issues, card, status, rank);
    assert Strip(db.issues[card.id].card) == Strip(card);
    forall c | c in after
      ensures c.id in db'.issues && Strip(db'.issues[c.id].card) == Strip(c) && c.project == project
    {
      if c.id == card.id {
        assert Strip(moved) == Strip(card).(status := status, rank := rank);
      }
    }
    forall i | i in db'.issues && db'.issues[i].card.project == project ensures exists c :: c in after && c.id == i {
      if i == card.id {
        assert card.(status := status, rank := rank) in after;
      } else {
        var c :| c in issues && c.id == i;
        assert c in after;
      }
    }
  }

  lemma MoveKeepsKeyed(db: Db, org: OrgId, id: IssueId, input: MoveInput, now: Instant)
    requires Keyed(db)
    ensures Keyed(MoveStep(db, org, id, input, now).db)
  {
  }

  /**
   A drop from a cache that agrees with the server is accepted, is stored with the
   optimistic rank, and leaves cache and server in agreement; the echo of the move that
   comes back over the socket changes nothing more.
   */
  lemma ServerStoresTheDrop(issues: seq<Card>, db: Db, project: ProjectId, org: OrgId, card: Card, over: Over,
                            now: Instant)
    requires Agrees(issues, db, project) && Sound(db) && Keyed(db)
    requires card in issues && Owns(db, org, card.id) && DragEnd(issues, card.id, over).Dispatched?
    ensures var drop := DragEnd(issues, card.id, over);
            var out := MoveStep(db, org, card.id, drop.input, now);
            var after := AfterDrop(issues, drop);
            && out.reply == Success(Position(card.id, drop.input.status, drop.optimisticRank))
            && Agrees(after, out.db, project) && Sound(out.db) && Keyed(out.db)
            && Placed(after, card.id, drop.input.status, drop.optimisticRank) == after
  {
    var drop := DragEnd(issues, card.id, over);
    var status, rank := drop.input.status, drop.optimisticRank;
    AgreesIsGood(issues, db, project);
    DropFacts(issues, card.id, over);
    DropIsAdjacent(issues, db, project, card, over);
    MoveKeepsSound(db, org, card.id, drop.input, now);
    MoveKeepsKeyed(db, org, card.id, drop.input, now);
    assert db.issues[card.id].card.project == project by { assert Strip(db.issues[card.id].card) == Strip(card); }
    AgreementAfterMove(issues, db, project, org, card, status, rank, now);
    PlacedTwice(issues, card.id, status, rank);
  }

  lemma PlacedTwice(issues: seq<Card>, id: IssueId, status: Status, rank: string)
    ensures Placed(Placed(issues, id, status, rank), id, status, rank) == Placed(issues, id, status, rank)
  {
    var once := Placed(issues, id, status, rank);
    PlacedAt(issues, id, status, rank);
    PlacedAt(once, id, status, rank);
  }
}
