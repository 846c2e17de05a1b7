/**
 What the event stream carries and what it does not: when a cached card is the server's in
 every field, and what becomes of an optimistic patch under other events.
 */
module ReplayExact {
  import opened Wrappers
  import opened Issues
  import opened Tenants
  import opened Board
  import opened BoardLists
  import opened BoardServer
  import opened DragRuns
  import opened Replay
  import opened ReplayRuns

  // ---- updatedAt ---------------------------------------------------------------

  /** The last of the events that is about the id. */
  function LastOn(events: seq<Event>, id: IssueId): Option<Event> {
    if events == [] then None
    else
      var later := LastOn(events[1..], id);
      if later.Some? then later else if IdIn(events[0]) == id then Some(events[0]) else None
  }

  lemma {:induction false} LastOnConcat(a: seq<Event>, b: seq<Event>, id: IssueId)
    ensures LastOn(a + b, id) == if LastOn(b, id).Some? then LastOn(b, id) else LastOn(a, id)
  {
    if a == [] {
      assert a + b == b;
    } else {
      assert (a + b)[1..] == a[1..] + b;
      LastOnConcat(a[1..], b, id);
    }
  }

  lemma LastOfOne(e: Event, id: IssueId)
    ensures LastOn([e], id) == if IdIn(e) == id then Some(e) else None
  {
    assert [e][1..] == [];
  }

  /**
   A cached card that has the server's fields but perhaps not its updatedAt, through one
   request and its event: it is then the server's card in every field if and only if the event
   moved it and it had the move's instant, or the event was another about it, or there was none
   about it and it was the server's card before.
   */
  lemma ExactAfterRequestIff(db: Db, op: Op, project: ProjectId, id: IssueId, card: Option<Card>)
    requires Keyed(db) && (op.Create? ==> op.id !in db.issues) && Same(card, Get(db, project, id))
    ensures var last := LastOn(RoomEvents(db, op, project), id);
            OnAll(card, RoomEvents(db, op, project), id) == Get(Step(db, op).db, project, id) <==>
            if last.None? then card == Get(db, project, id)
            else last.value.Moved? ==> op.Move? && card.Some? && card.value.updatedAt == op.now
    ensures LastOn(RoomEvents(db, op, project), id).Some? && LastOn(RoomEvents(db, op, project), id).value.Moved? ==>
              op.Move?
  {
    RequestOnCard(db, op, project, id);
    RoomEventsFacts(db, op, project);
    var events := RoomEvents(db, op, project);
    if events != [] {
      OneEvent(card, events[0], id);
      LastOfOne(events[0], id);
      assert events[0] in events;
      if events[0].Moved? && IdIn(events[0]) == id {
        MovedIsExactIff(db, op, project, id, card);
      }
    }
  }

  lemma MovedIsExactIff(db: Db, op: Op, project: ProjectId, id: IssueId, card: Option<Card>)
    requires Keyed(db) && Same(card, Get(db, project, id)) && op.Move? && op.id == id
    requires Step(db, op).reply.Success? && Get(db, project, id).Some?
    ensures Step(db, op).sent != []
    ensures On(card, Step(db, op).sent[0].event, id) == Get(Step(db, op).db, project, id) <==>
            card.Some? && card.value.updatedAt == op.now
  {
    var server := Get(db, project, id).value;
    assert Strip(card.value) == Strip(server);
    assert card.value == server.(updatedAt := card.value.updatedAt);
  }

  /** The requests' instants rise, from one after `since`. */
  predicate Rising(since: Instant, ops: seq<Op>)
    decreases |ops|
  {
    ops == [] ||
    if ops[0].Remove? then Rising(since, ops[1..]) else since < ops[0].now && Rising(ops[0].now, ops[1..])
  }

  lemma {:induction false} RisesFromBefore(since: Instant, earlier: Instant, ops: seq<Op>)
    requires Rising(since, ops) && earlier <= since
    ensures Rising(earlier, ops)
    decreases |ops|
  {
    if ops != [] && ops[0].Remove? {
      RisesFromBefore(since, earlier, ops[1..]);
    }
  }

  /** A card's updatedAt after a request is not after the request's instant. */
  lemma NotAfter(db: Db, op: Op, project: ProjectId, id: IssueId, card: Option<Card>, since: Instant)
    requires Keyed(db) && (op.Create? ==> op.id !in db.issues) && Same(card, Get(db, project, id))
    requires card.Some? ==> card.value.updatedAt <= since
    requires op.Remove? || since < op.now
    ensures var after := OnAll(card, RoomEvents(db, op, project), id);
            after.Some? ==> after.value.updatedAt <= if op.Remove? then since else op.now
  {
    RoomEventsFacts(db, op, project);
    if RoomEvents(db, op, project) != [] {
      OneEvent(card, RoomEvents(db, op, project)[0], id);
    }
  }

  /**
   Over any run whose instants rise: the cached card ends as the server's in every field if
   and only if the last event about it is not a move, or there is none and it started so.
   */
  lemma {:induction false} ExactAfterRunIff(db: Db, ops: seq<Op>, project: ProjectId, id: IssueId,
                                            used: set<IssueId>, card: Option<Card>, since: Instant)
    requires Keyed(db) && db.issues.Keys <= used && FreshIds(used, ops) && Same(card, Get(db, project, id))
    requires Rising(since, ops) && (card.Some? ==> card.value.updatedAt <= since)
    ensures var last := LastOn(EventsOf(db, ops, project), id);
            OnAll(card, EventsOf(db, ops, project), id) == Get(Run(db, ops), project, id) <==>
            if last.None? then card == Get(db, project, id) else !last.value.Moved?
    decreases |ops|
  {
    if ops != [] {
      var op, next := ops[0], Step(db, ops[0]).db;
      var now, later := RoomEvents(db, op, project), EventsOf(next, ops[1..], project);
      var card' := OnAll(card, now, id);
      var since' := if op.Remove? then since else op.now;
      RequestOnCard(db, op, project, id);
      SameStays(card, Get(db, project, id), now, id);
      ExactAfterRequestIff(db, op, project, id, card);
      NotAfter(db, op, project, id, card, since);
      ExactAfterRunIff(next, ops[1..], project, id, UsedAfter(used, op), card', since');
      OnConcat(card, now, later, id);
      LastOnConcat(now, later, id);
      assert EventsOf(db, ops, project) == now + later;
    }
  }

  // ---- order -------------------------------------------------------------------

  /** New cards go to the end of the cached list; nothing else moves a card in it. */
  lemma IdsAfterEvent(issues: seq<Card>, e: Event)
    ensures Ids(Apply(issues, e)) ==
            match e
            case Created(card) => if card.id in Ids(issues) then Ids(issues) else Ids(issues) + [card.id]
            case Deleted(id) => Removed(Ids(issues), id)
            case _ => Ids(issues)
  {
    match e
    case Created(card) =>
      if Holds(issues, card.id) {
        var c :| c in issues && c.id == card.id;
        var i :| 0 <= i < |issues| && issues[i] == c;
        assert Ids(issues)[i] == card.id;
      }
    case Updated(card) => ReplacedAt(issues, card);
    case Moved(id, status, rank) => PlacedAt(issues, id, status, rank);
    case Deleted(id) => IdsOfWithout(issues, id);
  }

  // ---- an optimistic patch under other events ----------------------------------

  /** An event that overwrites what the patch of a drop has set, its own echo for one. */
  predicate Absorbs(e: Event, id: IssueId) {
    IdIn(e) == id && !e.Created?
  }

  lemma {:induction false} ReplacedAndPlaced(issues: seq<Card>, card: Card, id: IssueId, status: Status, rank: string)
    ensures Replaced(Placed(issues, id, status, rank), card) ==
            if card.id == id then Replaced(issues, card) else Placed(Replaced(issues, card), id, status, rank)
  {
    if issues != [] {
      ReplacedAndPlaced(issues[1..], card, id, status, rank);
    }
  }

  lemma {:induction false} PlacedAndPlaced(issues: seq<Card>, at: IssueId, s: Status, r: string,
                                           id: IssueId, status: Status, rank: string)
    ensures Placed(Placed(issues, id, status, rank), at, s, r) ==
            if at == id then Placed(issues, at, s, r) else Placed(Placed(issues, at, s, r), id, status, rank)
  {
    if issues != [] {
      PlacedAndPlaced(issues[1..], at, s, r, id, status, rank);
    }
  }

  lemma {:induction false} WithoutAndPlaced(issues: seq<Card>, gone: IssueId, id: IssueId, status: Status, rank: string)
    ensures Without(Placed(issues, id, status, rank), gone) ==
            if gone == id then Without(issues, gone) else Placed(Without(issues, gone), id, status, rank)
  {
    if issues != [] {
      WithoutAndPlaced(issues[1..], gone, id, status, rank);
    }
  }

  lemma {:induction false} AppendedAndPlaced(issues: seq<Card>, card: Card, id: IssueId, status: Status, rank: string)
    requires card.id != id
    ensures Placed(issues, id, status, rank) + [card] == Placed(issues + [card], id, status, rank)
  {
    if issues == [] {
      assert issues + [card] == [card] && Placed([], id, status, rank) + [card] == [card];
      assert [card][1..] == [];
    } else {
      AppendedAndPlaced(issues[1..], card, id, status, rank);
      assert (issues + [card])[1..] == issues[1..] + [card];
    }
  }

  lemma {:induction false} HoldsPlaced(issues: seq<Card>, at: IssueId, id: IssueId, status: Status, rank: string)
    ensures Holds(Placed(issues, id, status, rank), at) <==> Holds(issues, at)
  {
    FindFacts(issues, at);
    FindFacts(Placed(issues, id, status, rank), at);
    FindInPlaced(issues, id, status, rank, at);
  }

  /** One event on the patched list and on the list without the patch. */
  lemma ApplyAndPlaced(issues: seq<Card>, e: Event, id: IssueId, status: Status, rank: string)
    requires Holds(issues, id)
    ensures Apply(Placed(issues, id, status, rank), e) ==
            if Absorbs(e, id) then Apply(issues, e) else Placed(Apply(issues, e), id, status, rank)
  {
    match e
    case Created(card) =>
      HoldsPlaced(issues, card.id, id, status, rank);
      if !Holds(issues, card.id) {
        AppendedAndPlaced(issues, card, id, status, rank);
      }
    case Updated(card) => ReplacedAndPlaced(issues, card, id, status, rank);
    case Moved(at, s, r) => PlacedAndPlaced(issues, at, s, r, id, status, rank);
    case Deleted(gone) => WithoutAndPlaced(issues, gone, id, status, rank);
  }

  lemma HoldsApplied(issues: seq<Card>, e: Event, id: IssueId)
    requires Holds(issues, id) && !Absorbs(e, id)
    ensures Holds(Apply(issues, e), id)
  {
    FindFacts(issues, id);
    FindInApplied(issues, e, id);
    FindFacts(Apply(issues, e), id);
  }

  /**
   The optimistic patch of a pending move under any further events: as long as none of them
   changes or deletes the card, the cache is the unpatched one with the patch on top; from the
   first that does, such as the move's own echo, it is the unpatched one.
   */
  lemma {:induction false} PatchIsAbsorbed(issues: seq<Card>, events: seq<Event>, id: IssueId,
                                           status: Status, rank: string)
    requires Holds(issues, id)
    ensures ApplyAll(Placed(issues, id, status, rank), events) ==
            if exists e :: e in events && Absorbs(e, id) then ApplyAll(issues, events)
            else Placed(ApplyAll(issues, events), id, status, rank)
    decreases |events|
  {
    if events != [] {
      ApplyAndPlaced(issues, events[0], id, status, rank);
      assert forall e :: e in events <==> e == events[0] || e in events[1..];
      if !Absorbs(events[0], id) {
        HoldsApplied(issues, events[0], id);
        PatchIsAbsorbed(Apply(issues, events[0]), events[1..], id, status, rank);
      }
    }
  }
}
