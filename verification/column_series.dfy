/** The ranks a column gets when issues are only ever created in it. */
module ColumnSeries {
  import opened Wrappers
  import opened StringOrder
  import opened Rank
  import opened RankLaws
  import opened RankSeries
  import opened Issues
  import opened Tenants

  /** The last rank of a column to which n issues have been appended. */
  function LastAfter(n: nat): Option<string> {
    if n == 0 then None else Some(Appended(n - 1))
  }

  lemma {:induction false} AppendedIsAlphabet(n: nat)
    ensures Alphabet(Appended(n))
  {
    if n == 0 {
      assert FIRST_RANK == Midpoint(None, None);
      BetweenIsCanonical("", "", true);
    } else {
      BetweenIsCanonical(Appended(n - 1), "", true);
    }
  }

  lemma AppendedRises(n: nat)
    requires n > 0
    ensures Less(Appended(n - 1), Appended(n))
  {
    AppendedIsAlphabet(n - 1);
    BetweenIsAbove(Appended(n - 1), "", true);
  }

  /** A creation for a column of one tenant's project. */
  predicate CreatesIn(op: Op, org: OrgId, project: ProjectId, status: Status) {
    op.Create? && op.org == org && op.project == project && op.input.status == status
  }

  predicate AllCreateIn(ops: seq<Op>, org: OrgId, project: ProjectId, status: Status) {
    forall i | 0 <= i < |ops| :: CreatesIn(ops[i], org, project, status)
  }

  lemma AllCreateInTail(ops: seq<Op>, org: OrgId, project: ProjectId, status: Status)
    requires AllCreateIn(ops, org, project, status) && ops != []
    ensures CreatesIn(ops[0], org, project, status) && AllCreateIn(ops[1..], org, project, status)
  {
  }

  lemma CreateExtends(db: Db, op: Op, org: OrgId, project: ProjectId, status: Status, n: nat)
    requires CreatesIn(op, org, project, status) && op.id !in db.issues
    requires project in db.projects && db.projects[project].org == org
    requires LastRank(db, project, status) == LastAfter(n)
    ensures var after := Step(db, op).db;
            && project in after.projects && after.projects[project].org == org
            && after.issues.Keys == db.issues.Keys + {op.id}
            && (forall i | i in db.issues :: after.issues[i] == db.issues[i])
            && after.issues[op.id].card.rank == Appended(n)
            && LastRank(after, project, status) == LastAfter(n + 1)
  {
    var after := Step(db, op).db;
    var column := Column(db, project, status);
    if n > 0 {
      AppendedRises(n);
    }
    assert after.issues[op.id].card.rank == Appended(n);
    assert Column(after, project, status) == column + {op.id};
    Raised(after.issues, column, op.id, LastAfter(n));
    LastIsUnique(after.issues, column + {op.id}, LastAfter(n + 1), LastRank(after, project, status));
  }

  function RankOfRow(db: Db, id: IssueId): Option<string> {
    if id in db.issues then Some(db.issues[id].card.rank) else None
  }

  lemma {:induction false} RowsStay(db: Db, ops: seq<Op>, org: OrgId, project: ProjectId, status: Status, id: IssueId)
    requires AllCreateIn(ops, org, project, status) && id in db.issues
    ensures RankOfRow(Run(db, ops), id) == RankOfRow(db, id)
    decreases |ops|
  {
    if ops != [] {
      AllCreateInTail(ops, org, project, status);
      RowsStay(Step(db, ops[0]).db, ops[1..], org, project, status, id);
    }
  }

  /** With n issues in the column, the m-th gets the m-th rank of the series. */
  lemma {:induction false} ColumnGrows(db: Db, ops: seq<Op>, org: OrgId, project: ProjectId, status: Status,
                                       n: nat, m: nat, rank: string)
    requires AllCreateIn(ops, org, project, status) && FreshIds(db.issues.Keys, ops) && n <= m < n + |ops|
    requires project in db.projects && db.projects[project].org == org
    requires LastRank(db, project, status) == LastAfter(n) && rank == Appended(m)
    ensures RankOfRow(Run(db, ops), ops[m - n].id) == Some(rank)
    decreases m - n, 1
  {
    AllCreateInTail(ops, org, project, status);
    CreateExtends(db, ops[0], org, project, status, n);
    RestGrows(Step(db, ops[0]).db, ops[0].id, ops[1..], org, project, status, n, m, rank);
    assert m > n ==> ops[1..][m - (n + 1)] == ops[m - n];
  }

  /** The same once the n-th issue, `first`, is there. */
  lemma {:induction false} RestGrows(db: Db, first: IssueId, rest: seq<Op>, org: OrgId, project: ProjectId,
                                     status: Status, n: nat, m: nat, rank: string)
    requires AllCreateIn(rest, org, project, status) && FreshIds(db.issues.Keys, rest) && n <= m <= n + |rest|
    requires project in db.projects && db.projects[project].org == org
    requires LastRank(db, project, status) == LastAfter(n + 1)
    requires if m == n then RankOfRow(db, first) == Some(rank) else rank == Appended(m)
    ensures m == n ==> RankOfRow(Run(db, rest), first) == Some(rank)
    ensures m > n ==> RankOfRow(Run(db, rest), rest[m - (n + 1)].id) == Some(rank)
    decreases m - n, 0
  {
    if m == n {
      RowsStay(db, rest, org, project, status, first);
    } else {
      ColumnGrows(db, rest, org, project, status, n + 1, m, rank);
    }
  }

  lemma ClosedForm(k: nat, rank: string)
    requires rank == Appended(k)
    ensures rank == Repeat('z', k / 6) + [APPEND_CYCLE[k % 6]] && |rank| == k / 6 + 1
  {
    AppendedClosedForm(k);
  }

  /**
   Issues created one after the other in an empty column: the k-th (from 0) has k / 6 times
   'z' and then one of six digits, so ranks gain a digit every six issues.
   */
  lemma CreatedRanks(db: Db, ops: seq<Op>, org: OrgId, project: ProjectId, status: Status, k: nat)
    requires AllCreateIn(ops, org, project, status) && FreshIds(db.issues.Keys, ops) && k < |ops|
    requires project in db.projects && db.projects[project].org == org && Column(db, project, status) == {}
    ensures var rank := Repeat('z', k / 6) + [APPEND_CYCLE[k % 6]];
            RankOfRow(Run(db, ops), ops[k].id) == Some(rank) && |rank| == k / 6 + 1
  {
    var rank := Appended(k);
    ColumnGrows(db, ops, org, project, status, 0, k, rank);
    assert ops[k - 0] == ops[k];
    ClosedForm(k, rank);
  }
}
