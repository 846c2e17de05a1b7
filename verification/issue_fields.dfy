/**
 What is stored of an issue, told from the requests alone: each field is what the last accepted
 request that gave it gave.
 */
module IssueFields {
  import opened Wrappers
  import opened StringOrder
  import opened Issues
  import opened Tenants

  // ---- answers -----------------------------------------------------------------

  /** Why a request is turned down, if it is. */
  function ErrorOf(db: Db, op: Op): Option<HttpError> {
    if op.Create? then
      if op.project !in db.projects || db.projects[op.project].org != op.org then Some(NotFound)
      else if op.id in db.issues then Some(UniqueViolation)
      else None
    else if op.id !in db.issues || db.issues[op.id].org != op.org then Some(NotFound)
    else if op.Move? && Inconsistent(MoveBounds(db, db.issues[op.id].card.project, op.move)) then Some(BadRequest)
    else None
  }

  /** Two neighbours of which the upper does not sort before the lower. */
  predicate Inconsistent(bounds: (Option<string>, Option<string>)) {
    bounds.0.Some? && bounds.1.Some? && !Less(bounds.0.value, bounds.1.value)
  }

  /** An accepted request answers and broadcasts what is stored after it, to its own tenant's project. */
  ghost predicate SpeaksOf(after: Db, op: Op, reply: Reply, sent: seq<Broadcast>, project: ProjectId) {
    match op
    case Create(org, _, _, _, id, _) =>
      && id in after.issues && after.issues[id].card.project == project
      && reply == Whole(after.issues[id].card) && sent == [Broadcast(org, project, Created(after.issues[id].card))]
    case Update(org, id, _, _) =>
      && id in after.issues && after.issues[id].card.project == project
      && reply == Whole(after.issues[id].card) && sent == [Broadcast(org, project, Updated(after.issues[id].card))]
    case Move(org, id, _, _) =>
      && id in after.issues && after.issues[id].card.project == project
      && var c := after.issues[id].card;
         reply == Position(id, c.status, c.rank) && sent == [Broadcast(org, project, Moved(id, c.status, c.rank))]
    case Remove(org, id) => id !in after.issues && reply == NoContent && sent == [Broadcast(org, project, Deleted(id))]
  }

  /** A request that is turned down changes and sends nothing; an accepted one speaks of what it stored. */
  lemma RequestsAreAnswered(db: Db, op: Op)
    ensures var out, error := Step(db, op), ErrorOf(db, op);
            if error.Some? then out == Outcome(db, Failure(error.value), [])
            else
              && out.reply.Success?
              && SpeaksOf(out.db, op, out.reply.value, out.sent,
                          if op.Create? then op.project else db.issues[op.id].card.project)
  {
  }

  /** A broadcast goes to a project of the tenant whose request it is. */
  lemma BroadcastsStayInside(db: Db, op: Op, b: Broadcast)
    requires Consistent(db) && b in Step(db, op).sent
    ensures b.org == op.org && b.project in db.projects && db.projects[b.project].org == op.org
  {
  }

  // ---- the accepted requests ---------------------------------------------------

  /** An accepted request, and the tables it found. */
  datatype Accepted = Accepted(before: Db, op: Op)

  /** The accepted requests of a run that are about the issue, in order. */
  ghost function About(db: Db, ops: seq<Op>, id: IssueId): seq<Accepted>
    decreases |ops|
  {
    if ops == [] then []
    else
      var rest := About(Step(db, ops[0]).db, ops[1..], id);
      if ops[0].id == id && Step(db, ops[0]).reply.Success? then [Accepted(db, ops[0])] + rest else rest
  }

  // ---- what each request gives -------------------------------------------------

  function TitleIn(a: Accepted): Option<string> {
    if a.op.Create? then Some(a.op.input.title) else if a.op.Update? then a.op.change.title else None
  }

  function DescriptionIn(a: Accepted): Option<Option<string>> {
    if a.op.Create? then Some(a.op.input.description)
    else if a.op.Update? && a.op.change.description.Some? then Some(a.op.change.description)
    else None
  }

  function StatusIn(a: Accepted): Option<Status> {
    if a.op.Create? then Some(a.op.input.status)
    else if a.op.Update? then a.op.change.status
    else if a.op.Move? then Some(a.op.move.status)
    else None
  }

  function PriorityIn(a: Accepted): Option<Priority> {
    if a.op.Create? then Some(a.op.input.priority) else if a.op.Update? then a.op.change.priority else None
  }

  function DueDateIn(a: Accepted): Option<Option<Instant>> {
    if a.op.Create? then Some(a.op.input.dueDate) else if a.op.Update? then a.op.change.dueDate else None
  }

  function AssigneeIn(a: Accepted): Option<Option<UserId>> {
    if a.op.Create? then Some(a.op.input.assignee) else if a.op.Update? then a.op.change.assignee else None
  }

  function UpdatedAtIn(a: Accepted): Option<Instant> {
    if a.op.Remove? then None else Some(a.op.now)
  }

  /** What only the creation gives. */
  function OriginIn(a: Accepted): Option<(nat, UserId, OrgId, ProjectId, Instant)> {
    if a.op.Create? && a.op.project in a.before.projects
    then Some((a.before.projects[a.op.project].counter + 1, a.op.actor, a.op.org, a.op.project, a.op.now))
    else None
  }

  function ThereIn(a: Accepted): Option<bool> {
    if a.op.Create? then Some(true) else if a.op.Remove? then Some(false) else None
  }

  // ---- stored is last given ----------------------------------------------------

  /** One request leaves every other row alone, and its own if it is turned down. */
  lemma OtherRowsStay(db: Db, op: Op, id: IssueId)
    requires op.id != id || Step(db, op).reply.Failure?
    ensures id in Step(db, op).db.issues <==> id in db.issues
    ensures id in db.issues ==> Step(db, op).db.issues[id] == db.issues[id]
  {
  }

  /** An accepted request stores what it gives, and otherwise what was there. */
  ghost predicate StoresWhatIsGiven<T>(db: Db, op: Op, given: Accepted -> Option<T>, field: Row -> T) {
    var next, value := Step(db, op).db.issues, given(Accepted(db, op));
    Step(db, op).reply.Success? && op.id in next ==>
      if value.Some? then field(next[op.id]) == value.value
      else op.id in db.issues && field(next[op.id]) == field(db.issues[op.id])
  }

  ghost predicate Follows<T(!new)>(given: Accepted -> Option<T>, field: Row -> T) {
    forall db, op :: StoresWhatIsGiven(db, op, given, field)
  }

  lemma {:induction false} StoredIsLast<T(!new)>(db: Db, ops: seq<Op>, id: IssueId, given: Accepted -> Option<T>,
                                           field: Row -> T, initially: Option<T>)
    requires Follows(given, field)
    requires id in db.issues ==> initially == Some(field(db.issues[id]))
    ensures id in Run(db, ops).issues ==>
              Some(field(Run(db, ops).issues[id])) == LastGiven(About(db, ops, id), given, initially)
    decreases |ops|
  {
    if ops != [] {
      var op, next := ops[0], Step(db, ops[0]).db;
      var rest := About(next, ops[1..], id);
      if op.id == id && Step(db, op).reply.Success? {
        var first := Accepted(db, op);
        assert StoresWhatIsGiven(db, op, given, field);
        LastGivenOfFirst(first, rest, given, initially);
        StoredIsLast(next, ops[1..], id, given, field, if given(first).Some? then given(first) else initially);
      } else {
        OtherRowsStay(db, op, id);
        StoredIsLast(next, ops[1..], id, given, field, initially);
      }
    }
  }

  lemma {:induction false} ThereIsLast(db: Db, ops: seq<Op>, id: IssueId)
    ensures Some(id in Run(db, ops).issues) == LastGiven(About(db, ops, id), ThereIn, Some(id in db.issues))
    decreases |ops|
  {
    if ops != [] {
      var op, next := ops[0], Step(db, ops[0]).db;
      var rest := About(next, ops[1..], id);
      ThereIsLast(next, ops[1..], id);
      if op.id == id && Step(db, op).reply.Success? {
        LastGivenOfFirst(Accepted(db, op), rest, ThereIn, Some(id in db.issues));
      } else {
        OtherRowsStay(db, op, id);
      }
    }
  }

  // ---- the fields --------------------------------------------------------------

  function TitleOf(r: Row): string {
    r.card.title
  }

  function DescriptionOf(r: Row): Option<string> {
    r.card.description
  }

  function StatusOf(r: Row): Status {
    r.card.status
  }

  function PriorityOf(r: Row): Priority {
    r.card.priority
  }

  function DueDateOf(r: Row): Option<Instant> {
    r.card.dueDate
  }

  function AssigneeOf(r: Row): Option<UserId> {
    r.card.assignee
  }

  function UpdatedAtOf(r: Row): Instant {
    r.card.updatedAt
  }

  function OriginOf(r: Row): (nat, UserId, OrgId, ProjectId, Instant) {
    (r.card.number, r.card.reporter, r.org, r.card.project, r.card.createdAt)
  }

  lemma TitleFollows()
    ensures Follows(TitleIn, TitleOf)
  {
    forall db, op ensures StoresWhatIsGiven(db, op, TitleIn, TitleOf) {
    }
  }

  lemma DescriptionFollows()
    ensures Follows(DescriptionIn, DescriptionOf)
  {
    forall db, op ensures StoresWhatIsGiven(db, op, DescriptionIn, DescriptionOf) {
    }
  }

  lemma StatusFollows()
    ensures Follows(StatusIn, StatusOf)
  {
    forall db, op ensures StoresWhatIsGiven(db, op, StatusIn, StatusOf) {
    }
  }

  lemma PriorityFollows()
    ensures Follows(PriorityIn, PriorityOf)
  {
    forall db, op ensures StoresWhatIsGiven(db, op, PriorityIn, PriorityOf) {
    }
  }

  lemma DueDateFollows()
    ensures Follows(DueDateIn, DueDateOf)
  {
    forall db, op ensures StoresWhatIsGiven(db, op, DueDateIn, DueDateOf) {
    }
  }

  lemma AssigneeFollows()
    ensures Follows(AssigneeIn, AssigneeOf)
  {
    forall db, op ensures StoresWhatIsGiven(db, op, AssigneeIn, AssigneeOf) {
    }
  }

  lemma UpdatedAtFollows()
    ensures Follows(UpdatedAtIn, UpdatedAtOf)
  {
    forall db, op ensures StoresWhatIsGiven(db, op, UpdatedAtIn, UpdatedAtOf) {
    }
  }

  lemma OriginFollows()
    ensures Follows(OriginIn, OriginOf)
  {
    forall db, op ensures StoresWhatIsGiven(db, op, OriginIn, OriginOf) {
    }
  }

  /** The field is what the last request that gave it gave. */
  ghost predicate IsLastGiven<T>(db: Db, ops: seq<Op>, id: IssueId, given: Accepted -> Option<T>, field: Row -> T) {
    id in Run(db, ops).issues ==>
      Some(field(Run(db, ops).issues[id])) ==
      LastGiven(About(db, ops, id), given, if id in db.issues then Some(field(db.issues[id])) else None)
  }

  lemma FieldIsLastGiven<T(!new)>(db: Db, ops: seq<Op>, id: IssueId, given: Accepted -> Option<T>, field: Row -> T)
    requires Follows(given, field)
    ensures IsLastGiven(db, ops, id, given, field)
  {
    StoredIsLast(db, ops, id, given, field, if id in db.issues then Some(field(db.issues[id])) else None);
  }

  /**
   In every run: an issue is there if and only if the last accepted request that created or
   removed it created it; and each of its fields is what the last accepted request that gave
   that field gave, the creation included. Number, reporter, tenant, project and time of
   creation are the creation's.
   */
  lemma StoredIsLastGiven(db: Db, ops: seq<Op>, id: IssueId)
    ensures Some(id in Run(db, ops).issues) == LastGiven(About(db, ops, id), ThereIn, Some(id in db.issues))
    ensures IsLastGiven(db, ops, id, TitleIn, TitleOf)
    ensures IsLastGiven(db, ops, id, DescriptionIn, DescriptionOf)
    ensures IsLastGiven(db, ops, id, StatusIn, StatusOf)
    ensures IsLastGiven(db, ops, id, PriorityIn, PriorityOf)
    ensures IsLastGiven(db, ops, id, DueDateIn, DueDateOf)
    ensures IsLastGiven(db, ops, id, AssigneeIn, AssigneeOf)
    ensures IsLastGiven(db, ops, id, UpdatedAtIn, UpdatedAtOf)
    ensures IsLastGiven(db, ops, id, OriginIn, OriginOf)
  {
    ThereIsLast(db, ops, id);
    TitleFollows();
    FieldIsLastGiven(db, ops, id, TitleIn, TitleOf);
    DescriptionFollows();
    FieldIsLastGiven(db, ops, id, DescriptionIn, DescriptionOf);
    StatusFollows();
    FieldIsLastGiven(db, ops, id, StatusIn, StatusOf);
    PriorityFollows();
    FieldIsLastGiven(db, ops, id, PriorityIn, PriorityOf);
    DueDateFollows();
    FieldIsLastGiven(db, ops, id, DueDateIn, DueDateOf);
    AssigneeFollows();
    FieldIsLastGiven(db, ops, id, AssigneeIn, AssigneeOf);
    UpdatedAtFollows();
    FieldIsLastGiven(db, ops, id, UpdatedAtIn, UpdatedAtOf);
    OriginFollows();
    FieldIsLastGiven(db, ops, id, OriginIn, OriginOf);
  }
}
