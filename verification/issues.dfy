/**
 The issues of all tenants and the service that changes them:
 apps/api/src/modules/issues/issues.service.ts. Ids, actors and instants are numbers;
 tables are maps by primary key.
 */
module Issues {
  import opened Wrappers
  import opened StringOrder
  import opened Rank

  type IssueId = nat
  type UserId = nat
  type OrgId = nat
  type ProjectId = nat
  type Instant = int

  datatype Status = Backlog | Todo | InProgress | InReview | Done | Canceled
  datatype Priority = NoPriority | Low | Medium | High | Urgent

  /** The columns of `issueSelect`: what replies and events carry. */
  datatype Card = Card(
    id: IssueId, number: nat, title: string, description: Option<string>, status: Status,
    priority: Priority, rank: string, assignee: Option<UserId>, reporter: UserId,
    dueDate: Option<Instant>, project: ProjectId, createdAt: Instant, updatedAt: Instant)

  /** A row of the issue table: the card and its denormalised tenant key. */
  datatype Row = Row(org: OrgId, card: Card)
  datatype Project = Project(org: OrgId, counter: nat)
  datatype Db = Db(projects: map<ProjectId, Project>, issues: map<IssueId, Row>)

  datatype Event =
    | Created(card: Card)
    | Updated(card: Card)
    | Moved(id: IssueId, status: Status, rank: string)
    | Deleted(id: IssueId)

  /** A message to the room of one project. */
  datatype Broadcast = Broadcast(org: OrgId, project: ProjectId, event: Event)

  datatype CreateInput = CreateInput(
    title: string, description: Option<string>, status: Status, priority: Priority,
    assignee: Option<UserId>, dueDate: Option<Instant>)

  /** A field that is None is left alone; Some(None) clears it. */
  datatype UpdateInput = UpdateInput(
    title: Option<string>, description: Option<string>, status: Option<Status>,
    priority: Option<Priority>, dueDate: Option<Option<Instant>>, assignee: Option<Option<UserId>>)

  datatype MoveInput = MoveInput(status: Status, aboveId: Option<IssueId>, belowId: Option<IssueId>)

  datatype HttpError = NotFound | BadRequest | UniqueViolation
  datatype Reply = Whole(card: Card) | Position(id: IssueId, status: Status, rank: string) | NoContent

  /** What one request does: the tables after it, the answer, and what it broadcasts. */
  datatype Outcome = Outcome(db: Db, reply: Result<Reply, HttpError>, sent: seq<Broadcast>)

  // ---- reading the tables ------------------------------------------------------

  predicate InColumn(row: Row, project: ProjectId, status: Status) {
    row.card.project == project && row.card.status == status
  }

  function Column(db: Db, project: ProjectId, status: Status): set<IssueId> {
    set i | i in db.issues && InColumn(db.issues[i], project, status)
  }

  /** `last` is the greatest rank among the rows ids, None when there are none. */
  ghost predicate IsLast(rows: map<IssueId, Row>, ids: set<IssueId>, last: Option<string>) {
    && ids <= rows.Keys
    && (last.None? <==> ids == {})
    && (last.Some? ==> exists i :: i in ids && rows[i].card.rank == last.value)
    && (last.Some? ==> forall i | i in ids :: !Less(last.value, rows[i].card.rank))
  }

  lemma {:induction false} LastExists(rows: map<IssueId, Row>, ids: set<IssueId>) returns (last: Option<string>)
    requires ids <= rows.Keys
    ensures IsLast(rows, ids, last)
  {
    last := None;
    if ids != {} {
      var i :| i in ids;
      var r := rows[i].card.rank;
      last := LastExists(rows, ids - {i});
      assert ids == (ids - {i}) + {i};
      if last.None? || Less(last.value, r) {
        Raised(rows, ids - {i}, i, last);
        last := Some(r);
      }
    }
  }

  /** A rank above the last one is the last one from then on. */
  lemma Raised(rows: map<IssueId, Row>, ids: set<IssueId>, i: IssueId, last: Option<string>)
    requires i in rows && i !in ids && IsLast(rows, ids, last)
    requires last.None? || Less(last.value, rows[i].card.rank)
    ensures IsLast(rows, ids + {i}, Some(rows[i].card.rank))
  {
    var r := rows[i].card.rank;
    LessIrreflexive(r);
    forall j | j in ids ensures !Less(r, rows[j].card.rank) {
      if Less(r, rows[j].card.rank) {
        LessTransitive(last.value, r, rows[j].card.rank);
      }
    }
  }

  /** findFirst ordered by rank, descending. */
  ghost function LastOf(rows: map<IssueId, Row>, ids: set<IssueId>): (last: Option<string>)
    requires ids <= rows.Keys
    ensures IsLast(rows, ids, last)
  {
    assert exists last :: IsLast(rows, ids, last) by {
      var last := LastExists(rows, ids);
    }
    var last :| IsLast(rows, ids, last);
    last
  }

  lemma LastIsUnique(rows: map<IssueId, Row>, ids: set<IssueId>, a: Option<string>, b: Option<string>)
    requires IsLast(rows, ids, a) && IsLast(rows, ids, b)
    ensures a == b
  {
    if a.Some? {
      LessTotal(a.value, b.value);
    }
  }

  ghost function LastRank(db: Db, project: ProjectId, status: Status): Option<string> {
    LastOf(db.issues, Column(db, project, status))
  }

  /** The rank of a neighbour, when it is a row of the same project and target column. */
  function NeighbourRank(db: Db, id: Option<IssueId>, project: ProjectId, status: Status): Option<string> {
    if id.Some? && id.value in db.issues && InColumn(db.issues[id.value], project, status)
    then Some(db.issues[id.value].card.rank)
    else None
  }

  predicate Owns(db: Db, org: OrgId, id: IssueId) {
    id in db.issues && db.issues[id].org == org
  }

  // ---- the requests ------------------------------------------------------------

  function Refused(db: Db, error: HttpError): Outcome {
    Outcome(db, Failure(error), [])
  }

  function NewCard(id: IssueId, actor: UserId, project: ProjectId, input: CreateInput,
                   number: nat, rank: string, now: Instant): Card
  {
    Card(id, number, input.title, input.description, input.status, input.priority, rank,
         input.assignee, actor, input.dueDate, project, now, now)
  }

  /** The rank below the last one, or the first rank of a column. */
  function RankAfter(last: Option<string>): string {
    if last.Some? then Midpoint(last, None) else FIRST_RANK
  }

  /** The rank with which a new card is appended. */
  ghost function AppendedRank(db: Db, project: ProjectId, status: Status): string {
    RankAfter(LastRank(db, project, status))
  }

  ghost function CreateStep(db: Db, org: OrgId, actor: UserId, project: ProjectId,
                            input: CreateInput, id: IssueId, now: Instant): Outcome
  {
    if project !in db.projects || db.projects[project].org != org then Refused(db, NotFound)
    else if id in db.issues then Refused(db, UniqueViolation)
    else
      var number := db.projects[project].counter + 1;
      var card := NewCard(id, actor, project, input, number, AppendedRank(db, project, input.status), now);
      Outcome(
        Db(db.projects[project := Project(org, number)], db.issues[id := Row(org, card)]),
        Success(Whole(card)),
        [Broadcast(org, project, Created(card))])
  }

  function Patched(card: Card, input: UpdateInput, now: Instant): Card {
    card.(title := input.title.GetOr(card.title),
          description := if input.description.Some? then input.description else card.description,
          status := input.status.GetOr(card.status),
          priority := input.priority.GetOr(card.priority),
          dueDate := input.dueDate.GetOr(card.dueDate),
          assignee := input.assignee.GetOr(card.assignee),
          updatedAt := now)
  }

  function UpdateStep(db: Db, org: OrgId, id: IssueId, input: UpdateInput, now: Instant): Outcome {
    if !Owns(db, org, id) then Refused(db, NotFound)
    else
      var card := Patched(db.issues[id].card, input, now);
      Outcome(
        db.(issues := db.issues[id := Row(org, card)]),
        Success(Whole(card)),
        [Broadcast(org, card.project, Updated(card))])
  }

  /** The neighbours' ranks a move asks for. */
  function MoveBounds(db: Db, project: ProjectId, input: MoveInput): (Option<string>, Option<string>) {
    (NeighbourRank(db, input.aboveId, project, input.status),
     NeighbourRank(db, input.belowId, project, input.status))
  }

  function MoveStep(db: Db, org: OrgId, id: IssueId, input: MoveInput, now: Instant): Outcome {
    if !Owns(db, org, id) then Refused(db, NotFound)
    else
      var current := db.issues[id].card;
      var (above, below) := MoveBounds(db, current.project, input);
      var rank := Ranked(above, below);
      if rank.Failure? then Refused(db, BadRequest)
      else
        var card := current.(status := input.status, rank := rank.value, updatedAt := now);
        Outcome(
          db.(issues := db.issues[id := Row(org, card)]),
          Success(Position(id, card.status, card.rank)),
          [Broadcast(org, card.project, Moved(id, card.status, card.rank))])
  }

  function RemoveStep(db: Db, org: OrgId, id: IssueId): Outcome {
    if !Owns(db, org, id) then Refused(db, NotFound)
    else
      Outcome(
        db.(issues := db.issues - {id}),
        Success(NoContent),
        [Broadcast(org, db.issues[id].card.project, Deleted(id))])
  }

  /** A request of one tenant. The id of a new issue and the instants come from outside. */
  datatype Op =
    | Create(org: OrgId, actor: UserId, project: ProjectId, input: CreateInput, id: IssueId, now: Instant)
    | Update(org: OrgId, id: IssueId, change: UpdateInput, now: Instant)
    | Move(org: OrgId, id: IssueId, move: MoveInput, now: Instant)
    | Remove(org: OrgId, id: IssueId)

  ghost function Step(db: Db, op: Op): Outcome {
    match op
    case Create(org, actor, project, input, id, now) => CreateStep(db, org, actor, project, input, id, now)
    case Update(org, id, change, now) => UpdateStep(db, org, id, change, now)
    case Move(org, id, move, now) => MoveStep(db, org, id, move, now)
    case Remove(org, id) => RemoveStep(db, org, id)
  }

  ghost function Run(db: Db, ops: seq<Op>): Db
    decreases |ops|
  {
    if ops == [] then db else Run(Step(db, ops[0]).db, ops[1..])
  }

  lemma OneRequest(db: Db, op: Op)
    ensures Run(db, [op]) == Step(db, op).db
  {
    assert [op][1..] == [];
  }

  lemma {:induction false} RunOfConcat(db: Db, a: seq<Op>, b: seq<Op>)
    ensures Run(db, a + b) == Run(Run(db, a), b)
    decreases |a|
  {
    if a == [] {
      assert a + b == b;
    } else {
      assert (a + b)[0] == a[0] && (a + b)[1..] == a[1..] + b;
      RunOfConcat(Step(db, a[0]).db, a[1..], b);
    }
  }

  // ---- the service -------------------------------------------------------------

  class IssuesService {
    var projects: map<ProjectId, Project>
    var issues: map<IssueId, Row>
    var sent: seq<Broadcast>

    function State(): Db
      reads this
    {
      Db(projects, issues)
    }

    /** The service is in the state, and has given the answer and broadcasts, of `out`. */
    ghost predicate Did(out: Outcome, before: seq<Broadcast>, reply: Result<Reply, HttpError>)
      reads this
    {
      State() == out.db && reply == out.reply && sent == before + out.sent
    }

    /** findFirst({ projectId, status }, orderBy rank desc). */
    method FindLast(project: ProjectId, status: Status) returns (last: Option<string>)
      ensures last == LastRank(State(), project, status)
    {
      last := None;
      var rest := issues.Keys;
      ghost var seen: set<IssueId> := {};
      while rest != {}
        invariant seen == set i | i in issues.Keys - rest && InColumn(issues[i], project, status)
        invariant rest <= issues.Keys
        invariant IsLast(issues, seen, last)
        decreases rest
      {
        var i :| i in rest;
        var row := issues[i];
        rest := rest - {i};
        if InColumn(row, project, status) {
          seen := seen + {i};
          if last.None? || Less(last.value, row.card.rank) {
            Raised(issues, seen - {i}, i, last);
            last := Some(row.card.rank);
          }
        }
      }
      assert seen == Column(State(), project, status);
      LastIsUnique(issues, seen, last, LastRank(State(), project, status));
    }

    method FindNeighbour(id: Option<IssueId>, project: ProjectId, status: Status) returns (rank: Option<string>)
      ensures rank == NeighbourRank(State(), id, project, status)
    {
      rank := None;
      if id.Some? && id.value in issues {
        var row := issues[id.value];
        if InColumn(row, project, status) {
          rank := Some(row.card.rank);
        }
      }
    }

    method Create(org: OrgId, actor: UserId, project: ProjectId, input: CreateInput, id: IssueId, now: Instant)
      returns (reply: Result<Reply, HttpError>)
      modifies this
      ensures Did(CreateStep(old(State()), org, actor, project, input, id, now), old(sent), reply)
    {
      if project !in projects || projects[project].org != org {
        return Failure(NotFound);
      }
      if id in issues {
        return Failure(UniqueViolation);
      }
      var number := projects[project].counter + 1;
      var last := FindLast(project, input.status);
      var rank := FIRST_RANK;
      if last.Some? {
        var answer := RankBetween(last, None);
        rank := answer.value;
      }
      var card := NewCard(id, actor, project, input, number, rank, now);
      projects := projects[project := Project(org, number)];
      issues := issues[id := Row(org, card)];
      sent := sent + [Broadcast(org, project, Created(card))];
      reply := Success(Whole(card));
    }

    method Update(org: OrgId, id: IssueId, input: UpdateInput, now: Instant)
      returns (reply: Result<Reply, HttpError>)
      modifies this
      ensures Did(UpdateStep(old(State()), org, id, input, now), old(sent), reply)
    {
      if id !in issues || issues[id].org != org {
        return Failure(NotFound);
      }
      var card := issues[id].card;
      if input.title.Some? { card := card.(title := input.title.value); }
      if input.description.Some? { card := card.(description := input.description); }
      if input.status.Some? { card := card.(status := input.status.value); }
      if input.priority.Some? { card := card.(priority := input.priority.value); }
      if input.dueDate.Some? { card := card.(dueDate := input.dueDate.value); }
      if input.assignee.Some? { card := card.(assignee := input.assignee.value); }
      card := card.(updatedAt := now);
      issues := issues[id := Row(org, card)];
      sent := sent + [Broadcast(org, card.project, Updated(card))];
      reply := Success(Whole(card));
    }

    method Move(org: OrgId, id: IssueId, input: MoveInput, now: Instant)
      returns (reply: Result<Reply, HttpError>)
      modifies this
      ensures Did(MoveStep(old(State()), org, id, input, now), old(sent), reply)
    {
      if id !in issues || issues[id].org != org {
        return Failure(NotFound);
      }
      var card := issues[id].card;
      var above := FindNeighbour(input.aboveId, card.project, input.status);
      var below := FindNeighbour(input.belowId, card.project, input.status);
      var rank := RankBetween(above, below);
      if rank.Failure? {
        return Failure(BadRequest);
      }
      card := card.(status := input.status, rank := rank.value, updatedAt := now);
      issues := issues[id := Row(org, card)];
      sent := sent + [Broadcast(org, card.project, Moved(id, card.status, card.rank))];
      reply := Success(Position(id, card.status, card.rank));
    }

    method Remove(org: OrgId, id: IssueId) returns (reply: Result<Reply, HttpError>)
      modifies this
      ensures Did(RemoveStep(old(State()), org, id), old(sent), reply)
    {
      if id !in issues || issues[id].org != org {
        return Failure(NotFound);
      }
      var project := issues[id].card.project;
      issues := issues - {id};
      sent := sent + [Broadcast(org, project, Deleted(id))];
      reply := Success(NoContent);
    }
  }
}
