/** Facts about sorted columns: sorting by distinct ranks has one result. */
module BoardLists {
  import opened StringOrder
  import opened Issues
  import opened Board

  ghost predicate Sorted(cards: seq<Card>) {
    forall i, j | 0 <= i < j < |cards| :: Less(cards[i].rank, cards[j].rank)
  }

  ghost predicate UniqueIds(cards: seq<Card>) {
    forall i, j | 0 <= i < j < |cards| :: cards[i].id != cards[j].id
  }

  ghost predicate ApartRanks(cards: seq<Card>) {
    forall i, j | 0 <= i < j < |cards| :: cards[i].rank != cards[j].rank
  }

  lemma {:induction false} InsertSorts(card: Card, cards: seq<Card>)
    requires Sorted(cards) && forall c | c in cards :: c.rank != card.rank
    ensures Sorted(Insert(card, cards))
    ensures forall c :: c in Insert(card, cards) <==> c == card || c in cards
  {
    if cards == [] {
    } else if Less(card.rank, cards[0].rank) {
      forall j | 0 < j < |cards| ensures Less(card.rank, cards[j].rank) {
        LessTransitive(card.rank, cards[0].rank, cards[j].rank);
      }
    } else {
      InsertSorts(card, cards[1..]);
      LessTotal(card.rank, cards[0].rank);
      var rest := Insert(card, cards[1..]);
      forall j | 0 <= j < |rest| ensures Less(cards[0].rank, rest[j].rank) {
        assert rest[j] in rest;
        if rest[j] != card {
          var k :| 0 <= k < |cards[1..]| && cards[1..][k] == rest[j];
          assert cards[k + 1] == rest[j];
        }
      }
    }
  }

  lemma {:induction false} SortSorts(cards: seq<Card>)
    requires ApartRanks(cards)
    ensures Sorted(Sort(cards))
    ensures forall c :: c in Sort(cards) <==> c in cards
  {
    if cards != [] {
      SortSorts(cards[1..]);
      forall c | c in Sort(cards[1..]) ensures c.rank != cards[0].rank {
        var k :| 0 <= k < |cards[1..]| && cards[1..][k] == c;
        assert cards[k + 1] == c;
      }
      InsertSorts(cards[0], Sort(cards[1..]));
    }
  }

  /** Two sorted lists with the same cards are the same list. */
  lemma {:induction false} SortedIsUnique(a: seq<Card>, b: seq<Card>)
    requires Sorted(a) && Sorted(b) && forall c :: c in a <==> c in b
    ensures a == b
    decreases |a|
  {
    assert a != [] ==> a[0] in b;
    assert b != [] ==> b[0] in a;
    if a != [] && b != [] {
      var i :| 0 <= i < |b| && b[i] == a[0];
      var j :| 0 <= j < |a| && a[j] == b[0];
      if i > 0 && j > 0 {
        LessAsymmetric(a[0].rank, a[j].rank);
      }
      assert a[0] == b[0];
      forall c ensures c in a[1..] <==> c in b[1..] {
        LessIrreflexive(a[0].rank);
        assert c in a[1..] <==> c in a && c != a[0];
        assert c in b[1..] <==> c in b && c != b[0];
      }
      SortedIsUnique(a[1..], b[1..]);
    }
  }

  lemma {:induction false} WithStatusMembers(issues: seq<Card>, status: Status)
    ensures forall c :: c in WithStatus(issues, status) <==> c in issues && c.status == status
  {
    if issues != [] {
      WithStatusMembers(issues[1..], status);
    }
  }

  lemma {:induction false} WithStatusApart(issues: seq<Card>, status: Status)
    requires forall i, j | 0 <= i < j < |issues| && issues[i].status == issues[j].status == status ::
               issues[i].rank != issues[j].rank
    ensures ApartRanks(WithStatus(issues, status))
  {
    if issues != [] {
      var rest := WithStatus(issues[1..], status);
      WithStatusApart(issues[1..], status);
      WithStatusMembers(issues[1..], status);
      forall j | 0 <= j < |rest| && issues[0].status == status ensures rest[j].rank != issues[0].rank {
        assert rest[j] in rest;
        var k :| 0 <= k < |issues[1..]| && issues[1..][k] == rest[j];
        assert issues[k + 1] == rest[j];
      }
    }
  }

  lemma {:induction false} WithoutMembers(cards: seq<Card>, id: IssueId)
    ensures forall c :: c in Without(cards, id) <==> c in cards && c.id != id
  {
    if cards != [] {
      WithoutMembers(cards[1..], id);
    }
  }

  lemma {:induction false} WithoutSorted(cards: seq<Card>, id: IssueId)
    requires Sorted(cards)
    ensures Sorted(Without(cards, id))
  {
    if cards != [] {
      var rest := Without(cards[1..], id);
      WithoutSorted(cards[1..], id);
      WithoutMembers(cards[1..], id);
      forall j | 0 <= j < |rest| ensures Less(cards[0].rank, rest[j].rank) {
        assert rest[j] in rest;
        var k :| 0 <= k < |cards[1..]| && cards[1..][k] == rest[j];
        assert cards[k + 1] == rest[j];
      }
    }
  }

  lemma {:induction false} PlacedAt(issues: seq<Card>, id: IssueId, status: Status, rank: string)
    ensures |Placed(issues, id, status, rank)| == |issues|
    ensures forall i | 0 <= i < |issues| ::
              Placed(issues, id, status, rank)[i] == Place(issues[i], id, status, rank)
  {
    if issues != [] {
      PlacedAt(issues[1..], id, status, rank);
    }
  }

  /** Two cards of a list with unique ids that share an id are one card. */
  lemma OneCardPerId(issues: seq<Card>, a: Card, b: Card)
    requires UniqueIds(issues) && a in issues && b in issues && a.id == b.id
    ensures a == b
  {
  }
}
