/** The board the demo seed writes: the loop of packages/db/prisma/seed.ts. */
module SeedBoard {
  import opened Wrappers
  import opened RankValue
  import opened Issues
  import opened BoardRun
  import opened Seed

  function CountOf(statuses: seq<Status>, status: Status): (n: nat)
    ensures n <= |statuses|
  {
    if statuses == [] then 0
    else CountOf(statuses[..|statuses| - 1], status) + if statuses[|statuses| - 1] == status then 1 else 0
  }

  /** The index of the i-th seeded card within its column, from 1. */
  function IndexInColumn(statuses: seq<Status>, i: nat): nat
    requires i < |statuses|
  {
    CountOf(statuses[..i], statuses[i]) + 1
  }

  lemma {:induction false} CountGrows(statuses: seq<Status>, i: nat, j: nat, status: Status)
    requires i <= j <= |statuses|
    ensures CountOf(statuses[..i], status) <= CountOf(statuses[..j], status)
    ensures i < j && statuses[i] == status ==> CountOf(statuses[..i], status) < CountOf(statuses[..j], status)
  {
    if i < j {
      assert statuses[..j][..j - 1] == statuses[..j - 1];
      CountGrows(statuses, i, j - 1, status);
    }
  }

  /** Cards seeded into one column have rising ranks, above the bottom of the scale. */
  lemma SeededColumnsRise(statuses: seq<Status>, i: nat, j: nat)
    requires i < j < |statuses| <= LAST_INDEX && statuses[i] == statuses[j]
    ensures Proper(RankAt(IndexInColumn(statuses, i))) && Proper(RankAt(IndexInColumn(statuses, j)))
    ensures Val(RankAt(IndexInColumn(statuses, i))) < Val(RankAt(IndexInColumn(statuses, j)))
  {
    CountGrows(statuses, i, j, statuses[j]);
    SeedIsProper(IndexInColumn(statuses, i));
    SeedIsProper(IndexInColumn(statuses, j));
    SeedOrder(IndexInColumn(statuses, i), IndexInColumn(statuses, j));
  }

  lemma SeedIsProper(i: nat)
    requires 1 <= i <= LAST_INDEX
    ensures Proper(RankAt(i))
  {
    SeedTop(i);
    SeedOrder(0, i);
  }

  ghost predicate Seeded(db: Db, org: OrgId, project: ProjectId, statuses: seq<Status>, n: nat)
    requires n <= |statuses|
  {
    && (forall i :: i in db.issues <==> 1 <= i <= n)
    && (forall i | 1 <= i <= n ::
          var row := db.issues[i];
          && row.org == org && row.card.id == i && row.card.number == i && row.card.project == project
          && row.card.status == statuses[i - 1] && row.card.rank == RankAt(IndexInColumn(statuses, i - 1)))
  }

  function SeedCard(n: nat, status: Status, rank: string, project: ProjectId, reporter: UserId): Card {
    Card(n, n, "", None, status, NoPriority, rank, None, reporter, None, project, 0, 0)
  }

  lemma SeededNext(db: Db, org: OrgId, project: ProjectId, statuses: seq<Status>, n: nat, card: Card)
    requires n < |statuses| && Seeded(db, org, project, statuses, n)
    requires card.id == n + 1 && card.number == n + 1 && card.project == project
    requires card.status == statuses[n] && card.rank == RankAt(IndexInColumn(statuses, n))
    ensures Seeded(db.(issues := db.issues[n + 1 := Row(org, card)]), org, project, statuses, n + 1)
  {
  }

  lemma CountNext(statuses: seq<Status>, n: nat)
    requires n < |statuses|
    ensures forall s :: CountOf(statuses[..n + 1], s) == CountOf(statuses[..n], s) + if s == statuses[n] then 1 else 0
  {
    assert statuses[..n + 1][..n] == statuses[..n];
  }

  /**
   The seeding loop leaves a sound board, from which every allowed run stays sound although
   some of its ranks are not canonical.
   */
  method SeedIssues(org: OrgId, project: ProjectId, reporter: UserId, statuses: seq<Status>) returns (db: Db)
    requires |statuses| <= LAST_INDEX
    ensures Seeded(db, org, project, statuses, |statuses|)
    ensures db.projects == map[project := Project(org, |statuses|)]
    ensures Sound(db)
  {
    var issues: map<IssueId, Row> := map[];
    var perStatusIndex: map<Status, nat> := map[];
    for n := 0 to |statuses|
      invariant Seeded(Db(map[], issues), org, project, statuses, n)
      invariant forall s :: (if s in perStatusIndex then perStatusIndex[s] else 0) == CountOf(statuses[..n], s)
    {
      var s := statuses[n];
      var idx := (if s in perStatusIndex then perStatusIndex[s] else 0) + 1;
      var card := SeedCard(n + 1, s, RankAt(idx), project, reporter);
      assert idx == IndexInColumn(statuses, n);
      SeededNext(Db(map[], issues), org, project, statuses, n, card);
      CountNext(statuses, n);
      perStatusIndex := perStatusIndex[s := idx];
      issues := issues[n + 1 := Row(org, card)];
    }
    db := Db(map[project := Project(org, |statuses|)], issues);
    SeededIsSound(db, org, project, statuses);
  }

  lemma SeededApart(db: Db, org: OrgId, project: ProjectId, statuses: seq<Status>, i: IssueId, j: IssueId)
    requires |statuses| <= LAST_INDEX && Seeded(db, org, project, statuses, |statuses|)
    requires 1 <= i < j <= |statuses| && db.issues[i].card.status == db.issues[j].card.status
    ensures Val(db.issues[i].card.rank) < Val(db.issues[j].card.rank)
  {
    SeededColumnsRise(statuses, i - 1, j - 1);
  }

  lemma SeededIsSound(db: Db, org: OrgId, project: ProjectId, statuses: seq<Status>)
    requires |statuses| <= LAST_INDEX && Seeded(db, org, project, statuses, |statuses|)
    ensures Sound(db)
  {
    forall i | i in db.issues ensures Proper(db.issues[i].card.rank) {
      SeedIsProper(IndexInColumn(statuses, i - 1));
    }
    forall i, j | i in db.issues && j in db.issues && i != j && SameColumn(db.issues[i].card, db.issues[j].card)
      ensures Val(db.issues[i].card.rank) != Val(db.issues[j].card.rank)
    {
      if i < j {
        SeededApart(db, org, project, statuses, i, j);
      } else {
        SeededApart(db, org, project, statuses, j, i);
      }
    }
  }
}
