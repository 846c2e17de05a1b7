/** Every server history, and every snapshot of it, under replay of its events. */
module ReplayRuns {
  import opened Wrappers
  import opened Issues
  import opened Tenants
  import opened Board
  import opened BoardLists
  import opened BoardServer
  import opened Replay

  /** The event, if any, that one request sends to the project's room. */
  ghost function RoomEvents(db: Db, op: Op, project: ProjectId): seq<Event> {
    ToRoom(Step(db, op).sent, project)
  }

  lemma RoomEventsFacts(db: Db, op: Op, project: ProjectId)
    ensures |RoomEvents(db, op, project)| <= 1
    ensures RoomEvents(db, op, project) ==
            if Step(db, op).sent != [] && Step(db, op).sent[0].project == project
            then [Step(db, op).sent[0].event] else []
  {
    var sent := Step(db, op).sent;
    assert |sent| <= 1;
    if sent != [] {
      assert sent[1..] == [] && ToRoom(sent[1..], project) == [];
    }
  }

  ghost function UsedAfter(used: set<IssueId>, op: Op): set<IssueId> {
    if op.Create? then used + {op.id} else used
  }

  lemma OneEvent(card: Option<Card>, e: Event, id: IssueId)
    ensures OnAll(card, [e], id) == On(card, e, id)
  {
    assert [e][1..] == [];
  }

  /** One request: its event takes the card to what the server has after it, but for updatedAt. */
  lemma RequestOnCard(db: Db, op: Op, project: ProjectId, id: IssueId)
    requires Keyed(db) && (op.Create? ==> op.id !in db.issues)
    ensures Keyed(Step(db, op).db)
    ensures Same(OnAll(Get(db, project, id), RoomEvents(db, op, project), id), Get(Step(db, op).db, project, id))
    ensures forall e | e in RoomEvents(db, op, project) && IdIn(e) == id ::
              && e.Created? == op.Create? && e.Deleted? == op.Remove?
              && Get(db, project, id).Some? == !e.Created?
              && Get(Step(db, op).db, project, id).Some? == !e.Deleted?
              && op.id == id
    ensures (forall e | e in RoomEvents(db, op, project) :: IdIn(e) != id) ==>
              Get(Step(db, op).db, project, id) == Get(db, project, id)
  {
    RoomEventsFacts(db, op, project);
    if RoomEvents(db, op, project) != [] {
      OneEvent(Get(db, project, id), RoomEvents(db, op, project)[0], id);
    }
  }

  lemma {:induction false} UsedIsNotCreated(db: Db, ops: seq<Op>, project: ProjectId, id: IssueId, used: set<IssueId>)
    requires Keyed(db) && db.issues.Keys <= used && FreshIds(used, ops) && id in used
    ensures NotCreated(EventsOf(db, ops, project), id)
    decreases |ops|
  {
    if ops != [] {
      var op, next := ops[0], Step(db, ops[0]).db;
      var now, later := RoomEvents(db, op, project), EventsOf(next, ops[1..], project);
      RequestOnCard(db, op, project, id);
      RoomEventsFacts(db, op, project);
      UsedIsNotCreated(next, ops[1..], project, id, UsedAfter(used, op));
      assert EventsOf(db, ops, project) == now + later;
      assert forall i | 0 <= i < |now| :: now[i] in now;
    }
  }

  /** The events of any history are a history of each id, and lead to the server's state. */
  lemma {:induction false} RunOnCard(db: Db, ops: seq<Op>, project: ProjectId, id: IssueId, used: set<IssueId>)
    requires Keyed(db) && db.issues.Keys <= used && FreshIds(used, ops)
    ensures History(Get(db, project, id).Some?, EventsOf(db, ops, project), id)
    ensures Same(OnAll(Get(db, project, id), EventsOf(db, ops, project), id), Get(Run(db, ops), project, id))
    ensures Keyed(Run(db, ops))
    decreases |ops|
  {
    if ops != [] {
      var op, next := ops[0], Step(db, ops[0]).db;
      var now, later := RoomEvents(db, op, project), EventsOf(next, ops[1..], project);
      RoomEventsFacts(db, op, project);
      RequestOnCard(db, op, project, id);
      RunOnCard(next, ops[1..], project, id, UsedAfter(used, op));
      if now != [] && now[0].Deleted? && IdIn(now[0]) == id {
        UsedIsNotCreated(next, ops[1..], project, id, UsedAfter(used, op));
      }
      OnConcat(Get(db, project, id), now, later, id);
      SameStays(OnAll(Get(db, project, id), now, id), Get(next, project, id), later, id);
      HistoryOfConcat(Get(db, project, id).Some?, now, later, id, Get(next, project, id).Some?);
    }
  }

  lemma HistoryOfConcat(there: bool, now: seq<Event>, later: seq<Event>, id: IssueId, remains: bool)
    requires |now| <= 1 && History(remains, later, id)
    requires now == [] || IdIn(now[0]) != id ==> remains == there
    requires now != [] && IdIn(now[0]) == id ==>
               && there == !now[0].Created? && remains == !now[0].Deleted?
               && (now[0].Deleted? ==> NotCreated(later, id))
    ensures History(there, now + later, id)
  {
    if now == [] {
      assert now + later == later;
    } else {
      assert (now + later)[1..] == later;
    }
  }

  // ---- lists -------------------------------------------------------------------

  /** Agreement of list and table is agreement card by card. */
  lemma AgreesCardByCard(issues: seq<Card>, db: Db, project: ProjectId)
    requires Keyed(db) && UniqueIds(issues)
    ensures Agrees(issues, db, project) <==> forall id :: Same(Find(issues, id), Get(db, project, id))
  {
    if Agrees(issues, db, project) {
      forall id ensures Same(Find(issues, id), Get(db, project, id)) {
        AgreesOnCard(issues, db, project, id);
      }
    }
    if forall id :: Same(Find(issues, id), Get(db, project, id)) {
      forall c | c in issues
        ensures c.id in db.issues && Strip(db.issues[c.id].card) == Strip(c) && c.project == project
      {
        FindMember(issues, c);
        assert Same(Find(issues, c.id), Get(db, project, c.id));
        assert Strip(c).project == Strip(db.issues[c.id].card).project;
      }
      forall i | i in db.issues && db.issues[i].card.project == project ensures exists c :: c in issues && c.id == i {
        assert Same(Find(issues, i), Get(db, project, i));
        FindFacts(issues, i);
      }
    }
  }

  lemma AgreesOnCard(issues: seq<Card>, db: Db, project: ProjectId, id: IssueId)
    requires Agrees(issues, db, project)
    ensures Same(Find(issues, id), Get(db, project, id))
  {
    FindFacts(issues, id);
    if Get(db, project, id).Some? {
      var c :| c in issues && c.id == id;
      FindMember(issues, c);
    }
    if Find(issues, id).Some? {
      var c := Find(issues, id).value;
      assert Strip(db.issues[id].card) == Strip(c);
      assert Strip(c).project == project;
    }
  }

  lemma {:induction false} FindMember(issues: seq<Card>, card: Card)
    requires UniqueIds(issues) && card in issues
    ensures Find(issues, card.id) == Some(card)
  {
    if issues[0] != card {
      FindMember(issues[1..], card);
    }
  }

  lemma {:induction false} AppliedKeepsUnique(issues: seq<Card>, events: seq<Event>)
    requires UniqueIds(issues)
    ensures UniqueIds(ApplyAll(issues, events))
    decreases |events|
  {
    if events != [] {
      match events[0] {
        case Created(card) =>
        case Updated(card) => ReplacedAt(issues, card);
        case Moved(id, status, rank) => PlacedAt(issues, id, status, rank);
        case Deleted(id) => WithoutUnique(issues, id);
      }
      AppliedKeepsUnique(Apply(issues, events[0]), events[1..]);
    }
  }

  lemma {:induction false} ReplacedAt(issues: seq<Card>, card: Card)
    ensures |Replaced(issues, card)| == |issues|
    ensures forall i | 0 <= i < |issues| :: Replaced(issues, card)[i].id == issues[i].id
  {
    if issues != [] {
      ReplacedAt(issues[1..], card);
    }
  }

  lemma {:induction false} WithoutUnique(issues: seq<Card>, id: IssueId)
    requires UniqueIds(issues)
    ensures UniqueIds(Without(issues, id))
  {
    if issues != [] {
      var rest := Without(issues[1..], id);
      WithoutUnique(issues[1..], id);
      WithoutMembers(issues[1..], id);
      forall j | 0 <= j < |rest| ensures rest[j].id != issues[0].id {
        assert rest[j] in rest;
        var k :| 0 <= k < |issues[1..]| && issues[1..][k] == rest[j];
        assert issues[k + 1] == rest[j];
      }
    }
  }

  /**
   Take a snapshot of the project after the requests `early`, and then deliver every event
   from the start of `early` on: those it already contains again, and those of the requests
   `late` after it. The cache ends in agreement with the server.
   */
  lemma ReplayConverges(start: Db, early: seq<Op>, late: seq<Op>, project: ProjectId, used: set<IssueId>,
                        snapshot: seq<Card>)
    requires Keyed(start) && start.issues.Keys <= used && FreshIds(used, early + late)
    requires Agrees(snapshot, Run(start, early), project)
    ensures var events := EventsOf(start, early, project) + EventsOf(Run(start, early), late, project);
            Agrees(ApplyAll(snapshot, events), Run(start, early + late), project)
  {
    var mid := Run(start, early);
    var seenEvents, lateEvents := EventsOf(start, early, project), EventsOf(mid, late, project);
    var events := seenEvents + lateEvents;
    RunOfConcat(start, early, late);
    EventsOfConcat(start, early, late, project);
    RunOnCard(start, early + late, project, 0, used);
    FreshPrefix(used, early, late);
    RunOnCard(start, early, project, 0, used);
    AppliedKeepsUnique(snapshot, events);
    forall id ensures Same(Find(ApplyAll(snapshot, events), id), Get(Run(mid, late), project, id)) {
      ReplayOnCard(start, early, late, project, used, snapshot, id);
    }
    AgreesCardByCard(ApplyAll(snapshot, events), Run(mid, late), project);
  }

  lemma ReplayOnCard(start: Db, early: seq<Op>, late: seq<Op>, project: ProjectId, used: set<IssueId>,
                     snapshot: seq<Card>, id: IssueId)
    requires Keyed(start) && start.issues.Keys <= used && FreshIds(used, early + late)
    requires Agrees(snapshot, Run(start, early), project)
    ensures var events := EventsOf(start, early, project) + EventsOf(Run(start, early), late, project);
            Same(Find(ApplyAll(snapshot, events), id), Get(Run(Run(start, early), late), project, id))
  {
    var mid := Run(start, early);
    var seenEvents, lateEvents := EventsOf(start, early, project), EventsOf(mid, late, project);
    var first := Get(start, project, id);
    var seen := OnAll(first, seenEvents, id);
    EventsOfConcat(start, early, late, project);
    RunOfConcat(start, early, late);
    FreshPrefix(used, early, late);
    RunOnCard(start, early, project, id, used);
    RunOnCard(start, early + late, project, id, used);
    AgreesOnCard(snapshot, mid, project, id);
    // the snapshot's card, put through the early events again, is still what it was
    ReplayAbsorbed(first, seenEvents, id);
    SameStays(Find(snapshot, id), seen, seenEvents, id);
    // ... and then the late events do what they did on the server
    SameStays(OnAll(Find(snapshot, id), seenEvents, id), seen, lateEvents, id);
    OnConcat(first, seenEvents, lateEvents, id);
    OnConcat(Find(snapshot, id), seenEvents, lateEvents, id);
    FindInAllApplied(snapshot, seenEvents + lateEvents, id);
  }

  lemma {:induction false} EventsOfConcat(db: Db, a: seq<Op>, b: seq<Op>, project: ProjectId)
    ensures EventsOf(db, a + b, project) == EventsOf(db, a, project) + EventsOf(Run(db, a), b, project)
    decreases |a|
  {
    if a == [] {
      assert a + b == b;
    } else {
      assert (a + b)[1..] == a[1..] + b;
      EventsOfConcat(Step(db, a[0]).db, a[1..], b, project);
    }
  }

  lemma {:induction false} FreshPrefix(used: set<IssueId>, a: seq<Op>, b: seq<Op>)
    requires FreshIds(used, a + b)
    ensures FreshIds(used, a)
    decreases |a|
  {
    if a != [] {
      assert (a + b)[0] == a[0] && (a + b)[1..] == a[1..] + b;
      FreshPrefix(UsedAfter(used, a[0]), a[1..], b);
    }
  }

  // ---- the limits of agreement -------------------------------------------------

  /** `issue:moved` carries no updatedAt: after a move cache and server differ in that field. */
  lemma MoveLeavesUpdatedAtBehind(issues: seq<Card>, db: Db, project: ProjectId, org: OrgId, id: IssueId,
                                  input: MoveInput, now: Instant)
    requires Agrees(issues, db, project) && Keyed(db) && Get(db, project, id).Some? && Owns(db, org, id)
    requires MoveStep(db, org, id, input, now).reply.Success?
    ensures var out := MoveStep(db, org, id, input, now);
            var after := ApplyAll(issues, ToRoom(out.sent, project));
            && Find(after, id).Some? && Find(issues, id).Some?
            && Find(after, id).value.updatedAt == Find(issues, id).value.updatedAt
            && out.db.issues[id].card.updatedAt == now
  {
    var out := MoveStep(db, org, id, input, now);
    AgreesOnCard(issues, db, project, id);
    var op := Op.Move(org, id, input, now);
    var e := out.sent[0].event;
    RoomEventsFacts(db, op, project);
    assert ToRoom(out.sent, project) == RoomEvents(db, op, project) == [e];
    FindInAllApplied(issues, [e], id);
    OneEvent(Find(issues, id), e, id);
  }

  function ProjectIds(db: Db, project: ProjectId): set<IssueId> {
    set i | i in db.issues && db.issues[i].card.project == project
  }

  /** What the list endpoint answers: cards of the project, all of them up to the limit. */
  ghost predicate IsListing(issues: seq<Card>, db: Db, project: ProjectId, limit: nat) {
    && UniqueIds(issues)
    && (forall c | c in issues :: Get(db, project, c.id) == Some(c))
    && |issues| == if |ProjectIds(db, project)| <= limit then |ProjectIds(db, project)| else limit
  }

  /** A listing is a snapshot of the project exactly when the project fits the limit. */
  lemma ListingAgreesIffItFits(issues: seq<Card>, db: Db, project: ProjectId, limit: nat)
    requires IsListing(issues, db, project, limit) && Keyed(db)
    ensures Agrees(issues, db, project) <==> |ProjectIds(db, project)| <= limit
  {
    var ids := IdsOf(issues);
    IdsCount(issues);
    forall c | c in issues
      ensures c.id in db.issues && Strip(db.issues[c.id].card) == Strip(c) && c.project == project
    {
      assert Get(db, project, c.id) == Some(c);
    }
    assert ids <= ProjectIds(db, project);
    if |ProjectIds(db, project)| <= limit {
      SubsetOfSameSize(ids, ProjectIds(db, project));
      forall i | i in db.issues && db.issues[i].card.project == project ensures exists c :: c in issues && c.id == i {
        assert i in ids;
      }
    }
    if Agrees(issues, db, project) {
      forall i | i in ProjectIds(db, project) ensures i in ids {
        var c :| c in issues && c.id == i;
      }
      assert ids == ProjectIds(db, project);
    }
  }

  function IdsOf(issues: seq<Card>): set<IssueId> {
    set c | c in issues :: c.id
  }

  lemma {:induction false} IdsCount(issues: seq<Card>)
    requires UniqueIds(issues)
    ensures |IdsOf(issues)| == |issues|
  {
    if issues == [] {
      assert IdsOf(issues) == {};
    } else {
      IdsCount(issues[1..]);
      IdsOfHead(issues);
      HeadIsNew(issues);
    }
  }

  lemma IdsOfHead(issues: seq<Card>)
    requires issues != []
    ensures IdsOf(issues) == IdsOf(issues[1..]) + {issues[0].id}
  {
    assert issues == [issues[0]] + issues[1..];
  }

  lemma HeadIsNew(issues: seq<Card>)
    requires issues != [] && UniqueIds(issues)
    ensures issues[0].id !in IdsOf(issues[1..])
  {
    forall c | c in issues[1..] ensures c.id != issues[0].id {
      var k :| 0 <= k < |issues[1..]| && issues[1..][k] == c;
      assert issues[k + 1] == c;
    }
  }

  lemma SubsetOfSameSize<T>(a: set<T>, b: set<T>)
    requires a <= b && |a| == |b|
    ensures a == b
  {
    assert b == a + (b - a);
    assert |b| == |a| + |b - a|;
  }
}
