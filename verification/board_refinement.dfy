/**
 Rank strings are the fast form of "each column is a list of cards": a drag that changes
 one rank, in the cache and on the server, is a list removal and a list insertion.
 */
module BoardRefinement {
  import opened Wrappers
  import opened StringOrder
  import opened Rank
  import opened RankValue
  import opened Issues
  import opened BoardRun
  import opened Board
  import opened BoardLists

  /** What the board needs of its cache: unique ids, and ranks apart as `Sound` says. */
  ghost predicate Good(issues: seq<Card>) {
    && UniqueIds(issues)
    && (forall c | c in issues :: Proper(c.rank))
    && (forall i, j | 0 <= i < j < |issues| && issues[i].status == issues[j].status ::
          Val(issues[i].rank) != Val(issues[j].rank))
  }

  lemma GoodApart(issues: seq<Card>, a: Card, b: Card)
    requires Good(issues) && a in issues && b in issues && a != b && a.status == b.status
    ensures Val(a.rank) != Val(b.rank)
  {
  }

  lemma ShownFacts(issues: seq<Card>, status: Status)
    requires Good(issues) && status in BOARD_COLUMNS
    ensures Sorted(Shown(issues, status))
    ensures forall c :: c in Shown(issues, status) <==> c in issues && c.status == status
  {
    WithStatusApart(issues, status);
    WithStatusMembers(issues, status);
    SortSorts(WithStatus(issues, status));
  }

  /** Every cached card is shown in its column, except canceled ones, which have none. */
  lemma AllButCanceledAreShown(issues: seq<Card>, card: Card)
    requires Good(issues) && card in issues
    ensures card in Shown(issues, card.status) <==> card.status != Canceled
    ensures forall status | status != card.status :: card !in Shown(issues, status)
  {
    forall status | status in BOARD_COLUMNS ensures card in Shown(issues, status) <==> status == card.status {
      ShownFacts(issues, status);
    }
  }

  /** The ranks denote greater and greater fractions. */
  ghost predicate Rising(cards: seq<Card>) {
    && (forall i | 0 <= i < |cards| :: Proper(cards[i].rank))
    && (forall i, j | 0 <= i < j < |cards| :: Val(cards[i].rank) < Val(cards[j].rank))
  }

  lemma RisingIsSorted(cards: seq<Card>)
    requires Rising(cards)
    ensures Sorted(cards)
  {
    forall i, j | 0 <= i < j < |cards| ensures Less(cards[i].rank, cards[j].rank) {
      OrderIsValueThenLength(cards[i].rank, cards[j].rank);
    }
  }

  /** The target column without the dragged card. */
  ghost function Rest(issues: seq<Card>, active: IssueId, status: Status): seq<Card> {
    Without(Shown(issues, status), active)
  }

  lemma RestFacts(issues: seq<Card>, active: IssueId, status: Status)
    requires Good(issues)
    ensures var rest := Rest(issues, active, status);
            && Sorted(rest)
            && (forall c :: c in rest <==>
                  c in issues && c.status == status && c.id != active && status in BOARD_COLUMNS)
            && Rising(rest)
  {
    var rest := Rest(issues, active, status);
    if status in BOARD_COLUMNS {
      ShownFacts(issues, status);
      WithoutSorted(Shown(issues, status), active);
      WithoutMembers(Shown(issues, status), active);
      forall i | 0 <= i < |rest| ensures Proper(rest[i].rank) {
        assert rest[i] in rest;
      }
      forall i, j | 0 <= i < j < |rest| ensures Val(rest[i].rank) < Val(rest[j].rank) {
        assert rest[i] in rest && rest[j] in rest;
        LessIrreflexive(rest[i].rank);
        GoodApart(issues, rest[i], rest[j]);
        OrderIsValueThenLength(rest[i].rank, rest[j].rank);
      }
    }
  }

  /** Every place in a sorted column has an interval to divide. */
  lemma PlaceHasInterval(rest: seq<Card>, at: nat)
    requires at <= |rest|
    requires Rising(rest)
    ensures LowValue(RankOf(Above(rest, at))) < HighValue(RankOf(Below(rest, at)))
    ensures Accepts(RankOf(Above(rest, at)), RankOf(Below(rest, at)))
  {
    if 0 < at < |rest| {
      OrderIsValueThenLength(rest[at - 1].rank, rest[at].rank);
    }
  }

  /** A drop dispatches exactly when it has a target column with another card in it. */
  lemma DispatchedIff(issues: seq<Card>, active: IssueId, over: Over)
    requires Good(issues)
    ensures DragEnd(issues, active, over).Dispatched? <==>
            Target(issues, over).Some? && Rest(issues, active, Target(issues, over).value) != []
  {
    var target := Target(issues, over);
    if target.Some? {
      var rest := Rest(issues, active, target.value);
      RestFacts(issues, active, target.value);
      PlaceHasInterval(rest, InsertAt(rest, over));
    }
  }

  function Inserted(rest: seq<Card>, at: nat, card: Card): seq<Card>
    requires at <= |rest|
  {
    rest[..at] + [card] + rest[at..]
  }

  lemma InsertedIsRising(rest: seq<Card>, at: nat, card: Card)
    requires at <= |rest| && Rising(rest) && Proper(card.rank)
    requires LowValue(RankOf(Above(rest, at))) < Val(card.rank) < HighValue(RankOf(Below(rest, at)))
    ensures Rising(Inserted(rest, at, card))
    ensures forall c | c in rest :: Val(c.rank) != Val(card.rank)
  {
    forall i | 0 <= i < |rest| ensures if i < at then Val(rest[i].rank) < Val(card.rank)
                                       else Val(card.rank) < Val(rest[i].rank)
    {
      assert i < at - 1 ==> Val(rest[i].rank) < Val(rest[at - 1].rank);
    }
  }

  /** The rank a dispatched drop carries, and the place it is for. */
  lemma DropFacts(issues: seq<Card>, active: IssueId, over: Over)
    requires Good(issues) && DragEnd(issues, active, over).Dispatched?
    ensures var drop := DragEnd(issues, active, over);
            var status := drop.input.status;
            var rest := Rest(issues, active, status);
            var at := InsertAt(rest, over);
            var above, below := RankOf(Above(rest, at)), RankOf(Below(rest, at));
            && drop.id == active && Target(issues, over) == Some(status) && status in BOARD_COLUMNS
            && drop.input == MoveInput(status, IdOf(Above(rest, at)), IdOf(Below(rest, at)))
            && Ranked(above, below) == Success(drop.optimisticRank)
            && Proper(drop.optimisticRank)
            && LowValue(above) < Val(drop.optimisticRank) < HighValue(below)
  {
    var status := DragEnd(issues, active, over).input.status;
    var rest := Rest(issues, active, status);
    var at := InsertAt(rest, over);
    RestFacts(issues, active, status);
    PlaceHasInterval(rest, at);
    MidpointIsProper(RankOf(Above(rest, at)), RankOf(Below(rest, at)));
    MidpointValue(RankOf(Above(rest, at)), RankOf(Below(rest, at)));
  }

  lemma PlacedMembers(issues: seq<Card>, card: Card, status: Status, rank: string)
    requires UniqueIds(issues) && card in issues
    ensures forall c :: c in Placed(issues, card.id, status, rank) <==>
              (c in issues && c.id != card.id) || c == card.(status := status, rank := rank)
    ensures UniqueIds(Placed(issues, card.id, status, rank))
  {
    var after := Placed(issues, card.id, status, rank);
    PlacedAt(issues, card.id, status, rank);
    forall c ensures c in after <==> (c in issues && c.id != card.id) || c == card.(status := status, rank := rank) {
      if c in after {
        var i :| 0 <= i < |after| && after[i] == c;
        assert c == Place(issues[i], card.id, status, rank);
        assert issues[i] in issues;
      }
      if c in issues && c.id != card.id {
        var i :| 0 <= i < |issues| && issues[i] == c;
        assert after[i] == c;
      }
      if c == card.(status := status, rank := rank) {
        var i :| 0 <= i < |issues| && issues[i] == card;
        assert after[i] == c;
      }
    }
  }

  /** A patch to a rank apart from the rest of the target column keeps the cache good. */
  lemma PlacedIsGood(issues: seq<Card>, card: Card, status: Status, rank: string)
    requires Good(issues) && card in issues && Proper(rank)
    requires forall c | c in issues && c.id != card.id && c.status == status :: Val(c.rank) != Val(rank)
    ensures Good(Placed(issues, card.id, status, rank))
  {
    var after := Placed(issues, card.id, status, rank);
    PlacedAt(issues, card.id, status, rank);
    PlacedMembers(issues, card, status, rank);
    forall i, j | 0 <= i < j < |after| && after[i].status == after[j].status
      ensures Val(after[i].rank) != Val(after[j].rank)
    {
      assert issues[i] in issues && issues[j] in issues;
      assert after[i] == Place(issues[i], card.id, status, rank);
      assert after[j] == Place(issues[j], card.id, status, rank);
    }
  }

  lemma AfterDropIsGood(issues: seq<Card>, card: Card, over: Over)
    requires Good(issues) && card in issues && DragEnd(issues, card.id, over).Dispatched?
    ensures Good(AfterDrop(issues, DragEnd(issues, card.id, over)))
  {
    var drop := DragEnd(issues, card.id, over);
    var status := drop.input.status;
    var rest := Rest(issues, card.id, status);
    DropFacts(issues, card.id, over);
    RestFacts(issues, card.id, status);
    InsertedIsRising(rest, InsertAt(rest, over), card.(status := status, rank := drop.optimisticRank));
    forall c | c in issues && c.id != card.id && c.status == status
      ensures Val(c.rank) != Val(drop.optimisticRank)
    {
      assert c in rest;
    }
    PlacedIsGood(issues, card, status, drop.optimisticRank);
  }

  lemma TargetColumn(issues: seq<Card>, card: Card, over: Over)
    requires Good(issues) && card in issues && DragEnd(issues, card.id, over).Dispatched?
    ensures var drop := DragEnd(issues, card.id, over);
            var status := drop.input.status;
            var rest := Rest(issues, card.id, status);
            Shown(AfterDrop(issues, drop), status) ==
            Inserted(rest, InsertAt(rest, over), card.(status := status, rank := drop.optimisticRank))
  {
    var drop := DragEnd(issues, card.id, over);
    var status := drop.input.status;
    var rest := Rest(issues, card.id, status);
    var moved := card.(status := status, rank := drop.optimisticRank);
    var column := Inserted(rest, InsertAt(rest, over), moved);
    DropFacts(issues, card.id, over);
    RestFacts(issues, card.id, status);
    AfterDropIsGood(issues, card, over);
    InsertedIsRising(rest, InsertAt(rest, over), moved);
    RisingIsSorted(column);
    PlacedMembers(issues, card, status, drop.optimisticRank);
    ShownFacts(AfterDrop(issues, drop), status);
    InsertedMembers(rest, InsertAt(rest, over), moved);
    SortedIsUnique(Shown(AfterDrop(issues, drop), status), column);
  }

  lemma InsertedMembers(rest: seq<Card>, at: nat, card: Card)
    requires at <= |rest|
    ensures forall c :: c in Inserted(rest, at, card) <==> c in rest || c == card
  {
    assert rest == rest[..at] + rest[at..];
  }

  /**
   The optimistic patch, seen through the board: the target column becomes the column
   without the card with the card inserted where it was dropped; every other column
   keeps its order minus the card.
   */
  lemma DropIsListInsertion(issues: seq<Card>, card: Card, over: Over)
    requires Good(issues) && card in issues && DragEnd(issues, card.id, over).Dispatched?
    ensures var drop := DragEnd(issues, card.id, over);
            var after := AfterDrop(issues, drop);
            var status := drop.input.status;
            var rest := Without(Shown(issues, status), card.id);
            var at := InsertAt(rest, over);
            && Target(issues, over) == Some(status)
            && Good(after)
            && Shown(after, status) ==
               rest[..at] + [card.(status := status, rank := drop.optimisticRank)] + rest[at..]
            && forall other | other != status :: Shown(after, other) == Without(Shown(issues, other), card.id)
  {
    var drop := DragEnd(issues, card.id, over);
    DropFacts(issues, card.id, over);
    AfterDropIsGood(issues, card, over);
    TargetColumn(issues, card, over);
    forall other | other != drop.input.status
      ensures Shown(AfterDrop(issues, drop), other) == Without(Shown(issues, other), card.id)
    {
      OtherColumn(issues, card, drop, other);
    }
  }

  lemma OtherColumn(issues: seq<Card>, card: Card, drop: Drop, other: Status)
    requires Good(issues) && card in issues && drop.Dispatched? && drop.id == card.id
    requires other != drop.input.status && Good(AfterDrop(issues, drop))
    ensures Shown(AfterDrop(issues, drop), other) == Without(Shown(issues, other), card.id)
  {
    if other in BOARD_COLUMNS {
      RestFacts(issues, card.id, other);
      PlacedMembers(issues, card, drop.input.status, drop.optimisticRank);
      ShownFacts(AfterDrop(issues, drop), other);
      SortedIsUnique(Shown(AfterDrop(issues, drop), other), Rest(issues, card.id, other));
    }
  }
}
