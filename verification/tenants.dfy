/**
 Tenant isolation of the issue service: every query is scoped by the organisation, so what
 one tenant sees is what it would have seen alone.
 */
module Tenants {
  import opened Issues

  /** What belongs to one tenant. */
  function View(db: Db, org: OrgId): Db {
    Db(map p | p in db.projects && db.projects[p].org == org :: db.projects[p],
       map i | i in db.issues && db.issues[i].org == org :: db.issues[i])
  }

  /** The denormalised tenant key of a row is its project's tenant. */
  ghost predicate Consistent(db: Db) {
    forall i | i in db.issues ::
      db.issues[i].card.project in db.projects && db.projects[db.issues[i].card.project].org == db.issues[i].org
  }

  /** The ids of created issues are new: not in `used`, and each used once. */
  ghost predicate FreshIds(used: set<IssueId>, ops: seq<Op>)
    decreases |ops|
  {
    ops == [] ||
    (if ops[0].Create? then ops[0].id !in used && FreshIds(used + {ops[0].id}, ops[1..])
     else FreshIds(used, ops[1..]))
  }

  lemma StepKeepsConsistent(db: Db, op: Op)
    requires Consistent(db)
    ensures Consistent(Step(db, op).db)
  {
  }

  lemma ViewOfPut(db: Db, org: OrgId, id: IssueId, row: Row)
    ensures row.org == org ==>
              View(db.(issues := db.issues[id := row]), org) ==
              View(db, org).(issues := View(db, org).issues[id := row])
    ensures row.org != org && (id in db.issues ==> db.issues[id].org != org) ==>
              View(db.(issues := db.issues[id := row]), org) == View(db, org)
  {
    var v, w := View(db, org), View(db.(issues := db.issues[id := row]), org);
    assert row.org == org ==> w.issues == v.issues[id := row];
    assert row.org != org && (id in db.issues ==> db.issues[id].org != org) ==> w.issues == v.issues;
  }

  lemma ViewOfDelete(db: Db, org: OrgId, id: IssueId)
    requires id in db.issues
    ensures View(db.(issues := db.issues - {id}), org) ==
            if db.issues[id].org == org then View(db, org).(issues := View(db, org).issues - {id}) else View(db, org)
  {
    var v, w := View(db, org), View(db.(issues := db.issues - {id}), org);
    assert w.issues == if db.issues[id].org == org then v.issues - {id} else v.issues;
  }

  lemma ViewOfProject(db: Db, org: OrgId, id: ProjectId, project: Project)
    requires id in db.projects && db.projects[id].org == project.org
    ensures View(db.(projects := db.projects[id := project]), org) ==
            if project.org == org then View(db, org).(projects := View(db, org).projects[id := project])
            else View(db, org)
  {
    var v, w := View(db, org), View(db.(projects := db.projects[id := project]), org);
    assert w.projects == if project.org == org then v.projects[id := project] else v.projects;
  }

  /** Another tenant's request changes nothing of ours. */
  lemma OthersUnchanged(db: Db, op: Op, org: OrgId)
    requires op.org != org
    ensures View(Step(db, op).db, org) == View(db, org)
  {
    match op
    case Create(o, _, project, _, id, _) =>
      if Step(db, op).db != db {
        var mid := db.(projects := Step(db, op).db.projects);
        ViewOfProject(db, org, project, mid.projects[project]);
        ViewOfPut(mid, org, id, Step(db, op).db.issues[id]);
      }
    case Remove(o, id) =>
      if Owns(db, o, id) {
        ViewOfDelete(db, org, id);
      }
    case Update(o, id, _, _) =>
      if Owns(db, o, id) {
        ViewOfPut(db, org, id, Step(db, op).db.issues[id]);
      }
    case Move(o, id, _, _) =>
      if Owns(db, o, id) && Step(db, op).reply.Success? {
        ViewOfPut(db, org, id, Step(db, op).db.issues[id]);
      }
  }

  /** The columns of a tenant's project hold rows of that tenant only. */
  lemma OwnColumns(db: Db, org: OrgId, project: ProjectId, status: Status)
    requires Consistent(db) && project in db.projects && db.projects[project].org == org
    ensures Column(View(db, org), project, status) == Column(db, project, status)
    ensures LastRank(View(db, org), project, status) == LastRank(db, project, status)
  {
    var v := View(db, org);
    assert Column(v, project, status) == Column(db, project, status);
    LastIsUnique(v.issues, Column(v, project, status), LastRank(v, project, status), LastRank(db, project, status));
  }

  lemma MoveSeesOwnRows(db: Db, op: Op)
    requires Consistent(db) && op.Move?
    ensures Step(View(db, op.org), op) == Step(db, op).(db := View(Step(db, op).db, op.org))
  {
    var org, v := op.org, View(db, op.org);
    if Owns(db, org, op.id) {
      var project := db.issues[op.id].card.project;
      assert MoveBounds(v, project, op.move) == MoveBounds(db, project, op.move);
      if Step(db, op).reply.Success? {
        ViewOfPut(db, org, op.id, Step(db, op).db.issues[op.id]);
      }
    }
  }

  lemma CreateSeesOwnRows(db: Db, op: Op)
    requires Consistent(db) && op.Create? && op.id !in db.issues
    ensures Step(View(db, op.org), op) == Step(db, op).(db := View(Step(db, op).db, op.org))
  {
    if Step(db, op).db != db {
      OwnColumns(db, op.org, op.project, op.input.status);
      var mid := db.(projects := Step(db, op).db.projects);
      ViewOfProject(db, op.org, op.project, mid.projects[op.project]);
      ViewOfPut(mid, op.org, op.id, Step(db, op).db.issues[op.id]);
    }
  }

  /** A tenant's request does, answers and broadcasts the same whatever the others have. */
  lemma RequestSeesOwnRows(db: Db, op: Op)
    requires Consistent(db)
    requires op.Create? ==> op.id !in db.issues
    ensures Step(View(db, op.org), op) == Step(db, op).(db := View(Step(db, op).db, op.org))
  {
    match op
    case Create(_, _, _, _, _, _) => CreateSeesOwnRows(db, op);
    case Move(_, _, _, _) => MoveSeesOwnRows(db, op);
    case Remove(org, id) =>
      if Owns(db, org, id) {
        ViewOfDelete(db, org, id);
      }
    case Update(org, id, _, _) =>
      if Owns(db, org, id) {
        ViewOfPut(db, org, id, Step(db, op).db.issues[id]);
      }
  }

  function Own(ops: seq<Op>, org: OrgId): seq<Op> {
    if ops == [] then []
    else if ops[0].org == org then [ops[0]] + Own(ops[1..], org)
    else Own(ops[1..], org)
  }

  /**
   The requests of all tenants in any order leave a tenant with exactly what its own
   requests, run on its own rows alone, would have left it with.
   */
  lemma {:induction false} TenantsDoNotInterfere(db: Db, ops: seq<Op>, org: OrgId, used: set<IssueId>)
    requires Consistent(db) && db.issues.Keys <= used && FreshIds(used, ops)
    ensures View(Run(db, ops), org) == Run(View(db, org), Own(ops, org))
    decreases |ops|
  {
    if ops != [] {
      var op := ops[0];
      var next := Step(db, op).db;
      StepKeepsConsistent(db, op);
      TenantsDoNotInterfere(next, ops[1..], org, if op.Create? then used + {op.id} else used);
      if op.org == org {
        assert Own(ops, org)[1..] == Own(ops[1..], org);
        RequestSeesOwnRows(db, op);
      } else {
        OthersUnchanged(db, op, org);
      }
    }
  }
}
