/**
 The event stream into the browser's cache: apps/web/lib/use-board-realtime.ts against the
 broadcasts of the issue service. Late and duplicate deliveries are harmless.
 */
module Replay {
  import opened Wrappers
  import opened Issues
  import opened Board
  import opened BoardServer

  // ---- the handlers ------------------------------------------------------------

  function Replaced(issues: seq<Card>, card: Card): seq<Card> {
    if issues == [] then []
    else [if issues[0].id == card.id then card else issues[0]] + Replaced(issues[1..], card)
  }

  /** The patch each handler applies to the cached list. */
  function Apply(issues: seq<Card>, event: Event): seq<Card> {
    match event
    case Created(card) => if Holds(issues, card.id) then issues else issues + [card]
    case Updated(card) => Replaced(issues, card)
    case Moved(id, status, rank) => Placed(issues, id, status, rank)
    case Deleted(id) => Without(issues, id)
  }

  function ApplyAll(issues: seq<Card>, events: seq<Event>): seq<Card>
    decreases |events|
  {
    if events == [] then issues else ApplyAll(Apply(issues, events[0]), events[1..])
  }

  /** The events the requests broadcast to one project's room. */
  function ToRoom(sent: seq<Broadcast>, project: ProjectId): seq<Event> {
    if sent == [] then []
    else (if sent[0].project == project then [sent[0].event] else []) + ToRoom(sent[1..], project)
  }

  ghost function EventsOf(db: Db, ops: seq<Op>, project: ProjectId): seq<Event>
    decreases |ops|
  {
    if ops == [] then []
    else
      var out := Step(db, ops[0]);
      ToRoom(out.sent, project) + EventsOf(out.db, ops[1..], project)
  }

  // ---- one card at a time ------------------------------------------------------

  function Find(issues: seq<Card>, id: IssueId): Option<Card> {
    if issues == [] then None
    else if issues[0].id == id then Some(issues[0])
    else Find(issues[1..], id)
  }

  /** The project's card with that id on the server. */
  function Get(db: Db, project: ProjectId, id: IssueId): Option<Card> {
    if id in db.issues && db.issues[id].card.project == project then Some(db.issues[id].card) else None
  }

  function IdIn(event: Event): IssueId {
    match event
    case Created(card) => card.id
    case Updated(card) => card.id
    case Moved(id, _, _) => id
    case Deleted(id) => id
  }

  /** What an event does to the card of one id. */
  function On(card: Option<Card>, event: Event, id: IssueId): Option<Card> {
    if IdIn(event) != id then card
    else
      match event
      case Created(c) => if card.Some? then card else Some(c)
      case Updated(c) => if card.Some? then Some(c) else None
      case Moved(_, status, rank) =>
        if card.Some? then Some(card.value.(status := status, rank := rank)) else None
      case Deleted(_) => None
  }

  function OnAll(card: Option<Card>, events: seq<Event>, id: IssueId): Option<Card>
    decreases |events|
  {
    if events == [] then card else OnAll(On(card, events[0], id), events[1..], id)
  }

  lemma {:induction false} FindInReplaced(issues: seq<Card>, card: Card, id: IssueId)
    ensures Find(Replaced(issues, card), id) == On(Find(issues, id), Updated(card), id)
  {
    if issues != [] {
      FindInReplaced(issues[1..], card, id);
      assert Replaced(issues, card)[1..] == Replaced(issues[1..], card);
    }
  }

  lemma {:induction false} FindInPlaced(issues: seq<Card>, at: IssueId, status: Status, rank: string, id: IssueId)
    ensures Find(Placed(issues, at, status, rank), id) == On(Find(issues, id), Moved(at, status, rank), id)
  {
    if issues != [] {
      FindInPlaced(issues[1..], at, status, rank, id);
      assert Placed(issues, at, status, rank)[1..] == Placed(issues[1..], at, status, rank);
    }
  }

  lemma {:induction false} FindInWithout(issues: seq<Card>, gone: IssueId, id: IssueId)
    ensures Find(Without(issues, gone), id) == On(Find(issues, id), Deleted(gone), id)
  {
    if issues != [] {
      FindInWithout(issues[1..], gone, id);
      if issues[0].id != gone {
        assert Without(issues, gone)[1..] == Without(issues[1..], gone);
      }
    }
  }

  lemma {:induction false} FindInAppended(issues: seq<Card>, card: Card, id: IssueId)
    ensures Find(issues + [card], id) ==
            if Find(issues, id).Some? then Find(issues, id) else if card.id == id then Some(card) else None
  {
    if issues == [] {
      assert issues + [card] == [card];
    } else {
      FindInAppended(issues[1..], card, id);
      assert (issues + [card])[1..] == issues[1..] + [card];
    }
  }

  lemma {:induction false} FindFacts(issues: seq<Card>, id: IssueId)
    ensures Holds(issues, id) <==> Find(issues, id).Some?
    ensures Find(issues, id).Some? ==> Find(issues, id).value in issues && Find(issues, id).value.id == id
  {
    if issues != [] {
      FindFacts(issues[1..], id);
      assert forall c :: c in issues <==> c == issues[0] || c in issues[1..];
    }
  }

  lemma FindInApplied(issues: seq<Card>, event: Event, id: IssueId)
    ensures Find(Apply(issues, event), id) == On(Find(issues, id), event, id)
  {
    match event
    case Created(card) =>
      FindFacts(issues, card.id);
      FindInAppended(issues, card, id);
    case Updated(card) => FindInReplaced(issues, card, id);
    case Moved(at, status, rank) => FindInPlaced(issues, at, status, rank, id);
    case Deleted(gone) => FindInWithout(issues, gone, id);
  }

  lemma {:induction false} FindInAllApplied(issues: seq<Card>, events: seq<Event>, id: IssueId)
    ensures Find(ApplyAll(issues, events), id) == OnAll(Find(issues, id), events, id)
    decreases |events|
  {
    if events != [] {
      FindInApplied(issues, events[0], id);
      FindInAllApplied(Apply(issues, events[0]), events[1..], id);
    }
  }

  // ---- replaying what is already there -----------------------------------------

  /** Equal cards, leaving out updatedAt. */
  predicate Same(a: Option<Card>, b: Option<Card>) {
    a.Some? == b.Some? && (a.Some? ==> Strip(a.value) == Strip(b.value))
  }

  lemma {:induction false} SameStays(a: Option<Card>, b: Option<Card>, events: seq<Event>, id: IssueId)
    requires Same(a, b)
    ensures Same(OnAll(a, events, id), OnAll(b, events, id))
    decreases |events|
  {
    if events != [] {
      if a.Some? {
        assert Strip(a.value) == Strip(b.value);
        assert a.value == b.value.(updatedAt := a.value.updatedAt);
      }
      SameStays(On(a, events[0], id), On(b, events[0], id), events[1..], id);
    }
  }

  predicate NotCreated(events: seq<Event>, id: IssueId) {
    forall i | 0 <= i < |events| :: !(events[i].Created? && events[i].card.id == id)
  }

  /** A history of one id: it is created at most once, changed while it is there, and never comes back. */
  predicate History(there: bool, events: seq<Event>, id: IssueId)
    decreases |events|
  {
    events == [] ||
    var e, rest := events[0], events[1..];
    if IdIn(e) != id then History(there, rest, id)
    else
      match e
      case Created(_) => !there && History(true, rest, id)
      case Updated(_) => there && History(true, rest, id)
      case Moved(_, _, _) => there && History(true, rest, id)
      case Deleted(_) => there && NotCreated(rest, id) && History(false, rest, id)
  }

  lemma {:induction false} ThereIsNotCreated(events: seq<Event>, id: IssueId)
    requires History(true, events, id)
    ensures NotCreated(events, id)
    decreases |events|
  {
    if events != [] {
      if IdIn(events[0]) == id && events[0].Deleted? {
      } else {
        ThereIsNotCreated(events[1..], id);
      }
      forall i | 0 <= i < |events| ensures !(events[i].Created? && events[i].card.id == id) {
        if i > 0 {
          assert events[i] == events[1..][i - 1];
        }
      }
    }
  }

  lemma {:induction false} AbsentStaysAbsent(events: seq<Event>, id: IssueId)
    requires NotCreated(events, id)
    ensures OnAll(None, events, id) == None
    decreases |events|
  {
    if events != [] {
      assert forall i | 0 <= i < |events[1..]| :: events[1..][i] == events[i + 1];
      AbsentStaysAbsent(events[1..], id);
    }
  }

  predicate SamePlace(a: Card, b: Card) {
    a.status == b.status && a.rank == b.rank
  }

  predicate SameRest(a: Card, b: Card) {
    Strip(a).(status := Todo, rank := "") == Strip(b).(status := Todo, rank := "")
  }

  /** Position and the other fields of a card evolve independently. */
  lemma {:induction false} FieldsAreIndependent(a: Card, b: Card, events: seq<Event>, id: IssueId)
    requires NotCreated(events, id)
    ensures var x, y := OnAll(Some(a), events, id), OnAll(Some(b), events, id);
            && x.Some? == y.Some?
            && (x.Some? && SamePlace(a, b) ==> SamePlace(x.value, y.value))
            && (x.Some? && SameRest(a, b) ==> SameRest(x.value, y.value))
    decreases |events|
  {
    if events != [] {
      assert forall i | 0 <= i < |events[1..]| :: events[1..][i] == events[i + 1];
      var x, y := On(Some(a), events[0], id), On(Some(b), events[0], id);
      if x.Some? {
        FieldsAreIndependent(x.value, y.value, events[1..], id);
      } else {
        AbsentStaysAbsent(events[1..], id);
      }
    }
  }

  lemma SameFromParts(a: Card, b: Card)
    requires SamePlace(a, b) && SameRest(a, b)
    ensures Strip(a) == Strip(b)
  {
    var x, y := Strip(a).(status := Todo, rank := ""), Strip(b).(status := Todo, rank := "");
    assert Strip(a) == x.(status := a.status, rank := a.rank);
    assert Strip(b) == y.(status := b.status, rank := b.rank);
  }

  /** Replaying a history on the state it leads to changes nothing. */
  lemma {:induction false} ReplayAbsorbed(card: Option<Card>, events: seq<Event>, id: IssueId)
    requires History(card.Some?, events, id)
    ensures Same(OnAll(OnAll(card, events, id), events, id), OnAll(card, events, id))
    decreases |events|
  {
    if events != [] {
      var e, rest := events[0], events[1..];
      var next := On(card, e, id);
      var final := OnAll(next, rest, id);
      ReplayAbsorbed(next, rest, id);
      if IdIn(e) == id {
        match e
        case Deleted(_) => AbsentStaysAbsent(rest, id);
        case Created(_) => ThereIsNotCreated(rest, id);
        case Updated(_) =>
          ThereIsNotCreated(rest, id);
          AbsentStaysAbsent(rest, id);
        case Moved(_, status, rank) =>
          ThereIsNotCreated(rest, id);
          AbsentStaysAbsent(rest, id);
          if final.Some? {
            var back := final.value.(status := status, rank := rank);
            FieldsAreIndependent(back, next.value, rest, id);
            FieldsAreIndependent(back, final.value, rest, id);
            var again := OnAll(Some(back), rest, id);
            var twice := OnAll(final, rest, id);
            assert SameRest(again.value, final.value) by { assert SameRest(twice.value, final.value); }
            SameFromParts(again.value, final.value);
          }
      }
    }
  }

  lemma {:induction false} OnConcat(card: Option<Card>, a: seq<Event>, b: seq<Event>, id: IssueId)
    ensures OnAll(card, a + b, id) == OnAll(OnAll(card, a, id), b, id)
    decreases |a|
  {
    if a == [] {
      assert a + b == b;
    } else {
      assert (a + b)[1..] == a[1..] + b;
      OnConcat(On(card, a[0], id), a[1..], b, id);
    }
  }
}
