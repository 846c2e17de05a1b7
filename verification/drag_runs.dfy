/** The board as plain lists of ids, and whole runs of drags against them. */
module DragRuns {
  import opened Wrappers
  import opened Issues
  import opened BoardRun
  import opened Board
  import opened BoardLists
  import opened BoardRefinement
  import opened BoardServer

  /** The ids of a column's cards, top to bottom. */
  type Lists = map<Status, seq<IssueId>>

  function Ids(cards: seq<Card>): (ids: seq<IssueId>)
    ensures |ids| == |cards|
    ensures forall i | 0 <= i < |cards| :: ids[i] == cards[i].id
  {
    seq(|cards|, i requires 0 <= i < |cards| => cards[i].id)
  }

  function ListsOf(issues: seq<Card>): Lists {
    map status | status in BOARD_COLUMNS :: Ids(Shown(issues, status))
  }

  function Removed(ids: seq<IssueId>, id: IssueId): seq<IssueId> {
    if ids == [] then []
    else if ids[0] == id then Removed(ids[1..], id)
    else [ids[0]] + Removed(ids[1..], id)
  }

  function PositionOf(ids: seq<IssueId>, id: IssueId): (at: nat)
    ensures at <= |ids|
  {
    if ids == [] || ids[0] == id then 0 else 1 + PositionOf(ids[1..], id)
  }

  /** The list the pointer is over: the column itself, or the one that has the card. */
  ghost function ListTarget(lists: Lists, over: Over): Option<Status> {
    match over
    case Nowhere => None
    case OverColumn(status) => if status in lists then Some(status) else None
    case OverCard(id) =>
      if exists status :: status in lists && id in lists[status] then
        var status :| status in lists && id in lists[status]; Some(status)
      else None
  }

  /**
   A drag on lists: nothing when the target list has no other card, else the card leaves
   the list it is in and enters the target list where the pointer is.
   */
  ghost function ListDrag(lists: Lists, active: IssueId, over: Over): Lists {
    var target := ListTarget(lists, over);
    if target.None? || Removed(lists[target.value], active) == [] then lists
    else
      var rest := Removed(lists[target.value], active);
      var at := if over.OverCard? then PositionOf(rest, over.id) else |rest|;
      map status | status in lists ::
        if status == target.value then rest[..at] + [active] + rest[at..] else Removed(lists[status], active)
  }

  lemma {:induction false} IdsOfWithout(cards: seq<Card>, id: IssueId)
    ensures Ids(Without(cards, id)) == Removed(Ids(cards), id)
  {
    if cards != [] {
      IdsOfWithout(cards[1..], id);
      assert Ids(cards)[1..] == Ids(cards[1..]);
      if cards[0].id != id {
        var rest := Without(cards[1..], id);
        assert Without(cards, id)[1..] == rest;
      }
    }
  }

  lemma {:induction false} PositionIsIndex(cards: seq<Card>, id: IssueId)
    ensures PositionOf(Ids(cards), id) == IndexOf(cards, id)
  {
    if cards != [] {
      PositionIsIndex(cards[1..], id);
      assert Ids(cards)[1..] == Ids(cards[1..]);
    }
  }

  lemma IdsOfInserted(rest: seq<Card>, at: nat, card: Card)
    requires at <= |rest|
    ensures Ids(Inserted(rest, at, card)) == Ids(rest)[..at] + [card.id] + Ids(rest)[at..]
  {
    assert rest[..at] + [card] + rest[at..] == Inserted(rest, at, card);
  }

  lemma {:induction false} StatusOfMember(issues: seq<Card>, card: Card)
    requires UniqueIds(issues) && card in issues
    ensures StatusOf(issues, card.id) == Some(card.status)
  {
    if issues[0] != card {
      assert UniqueIds(issues[1..]);
      assert card in issues[1..];
      StatusOfMember(issues[1..], card);
    }
  }

  lemma {:induction false} StatusOfNobody(issues: seq<Card>, id: IssueId)
    requires forall c | c in issues :: c.id != id
    ensures StatusOf(issues, id) == None
  {
    if issues != [] {
      StatusOfNobody(issues[1..], id);
    }
  }

  lemma InList(issues: seq<Card>, status: Status, id: IssueId)
    requires Good(issues) && status in BOARD_COLUMNS
    ensures id in ListsOf(issues)[status] <==> exists c :: c in issues && c.id == id && c.status == status
  {
    var shown := Shown(issues, status);
    ShownFacts(issues, status);
    if id in Ids(shown) {
      var i :| 0 <= i < |shown| && Ids(shown)[i] == id;
      assert shown[i] in shown;
    }
    if exists c :: c in issues && c.id == id && c.status == status {
      var c :| c in issues && c.id == id && c.status == status;
      assert c in shown;
      var i :| 0 <= i < |shown| && shown[i] == c;
      assert Ids(shown)[i] == id;
    }
  }

  lemma CardIsInOneList(issues: seq<Card>, card: Card)
    requires Good(issues) && card in issues
    ensures forall status | status in ListsOf(issues) ::
              card.id in ListsOf(issues)[status] <==> status == card.status
  {
    forall status | status in ListsOf(issues)
      ensures card.id in ListsOf(issues)[status] <==> status == card.status
    {
      InList(issues, status, card.id);
      if card.id in ListsOf(issues)[status] {
        var c :| c in issues && c.id == card.id && c.status == status;
        OneCardPerId(issues, c, card);
      }
    }
  }

  /** Both boards agree on what the pointer is over. */
  lemma TargetIsListTarget(issues: seq<Card>, over: Over)
    requires Good(issues)
    ensures var target := Target(issues, over);
            ListTarget(ListsOf(issues), over) ==
            if target.Some? && target.value in BOARD_COLUMNS then target else None
  {
    if over.OverCard? {
      if Holds(issues, over.id) {
        var card :| card in issues && card.id == over.id;
        StatusOfMember(issues, card);
        CardIsInOneList(issues, card);
        assert card.status in BOARD_COLUMNS ==> over.id in ListsOf(issues)[card.status];
        assert forall status ::
                 status in ListsOf(issues) && over.id in ListsOf(issues)[status] ==> status == card.status;
      } else {
        StatusOfNobody(issues, over.id);
        forall status | status in ListsOf(issues) ensures over.id !in ListsOf(issues)[status] {
          InList(issues, status, over.id);
        }
      }
    }
  }

  /** What the drag handler and the optimistic patch do to the board is a drag on lists. */
  lemma DragRefinesLists(issues: seq<Card>, card: Card, over: Over)
    requires Good(issues) && card in issues
    ensures ListsOf(AfterDrop(issues, DragEnd(issues, card.id, over))) == ListDrag(ListsOf(issues), card.id, over)
  {
    var drop := DragEnd(issues, card.id, over);
    var lists := ListsOf(issues);
    TargetIsListTarget(issues, over);
    DispatchedIff(issues, card.id, over);
    var target := Target(issues, over);
    if target.Some? && target.value in BOARD_COLUMNS {
      IdsOfWithout(Shown(issues, target.value), card.id);
      if drop.Dispatched? {
        DropOnLists(issues, card, over);
      }
    }
  }

  /** The columns after a drop, as lists. */
  lemma ColumnsAfterDrop(issues: seq<Card>, card: Card, over: Over)
    requires Good(issues) && card in issues && DragEnd(issues, card.id, over).Dispatched?
    ensures var drop := DragEnd(issues, card.id, over);
            var status := drop.input.status;
            && Target(issues, over) == Some(status) && status in BOARD_COLUMNS
            && var rest := Removed(Ids(Shown(issues, status)), card.id);
               var at := if over.OverCard? then PositionOf(rest, over.id) else |rest|;
               && Ids(Shown(AfterDrop(issues, drop), status)) == rest[..at] + [card.id] + rest[at..]
               && forall other | other != status ::
                    Ids(Shown(AfterDrop(issues, drop), other)) == Removed(Ids(Shown(issues, other)), card.id)
  {
    var drop := DragEnd(issues, card.id, over);
    var status := drop.input.status;
    var rest := Rest(issues, card.id, status);
    DropFacts(issues, card.id, over);
    TargetColumn(issues, card, over);
    DropIsListInsertion(issues, card, over);
    IdsOfInserted(rest, InsertAt(rest, over), card.(status := status, rank := drop.optimisticRank));
    IdsOfWithout(Shown(issues, status), card.id);
    if over.OverCard? {
      PositionIsIndex(rest, over.id);
    }
    forall other | other != status
      ensures Ids(Shown(AfterDrop(issues, drop), other)) == Removed(Ids(Shown(issues, other)), card.id)
    {
      IdsOfWithout(Shown(issues, other), card.id);
    }
  }

  lemma ListDragAt(lists: Lists, active: IssueId, over: Over, status: Status)
    requires ListTarget(lists, over).Some? && ListTarget(lists, over).value in lists && status in lists
    requires Removed(lists[ListTarget(lists, over).value], active) != []
    ensures ListDrag(lists, active, over).Keys == lists.Keys
    ensures var target := ListTarget(lists, over).value;
            var rest := Removed(lists[target], active);
            var at := if over.OverCard? then PositionOf(rest, over.id) else |rest|;
            ListDrag(lists, active, over)[status] ==
            if status == target then rest[..at] + [active] + rest[at..] else Removed(lists[status], active)
  {
  }

  lemma DropOnLists(issues: seq<Card>, card: Card, over: Over)
    requires Good(issues) && card in issues && DragEnd(issues, card.id, over).Dispatched?
    requires ListTarget(ListsOf(issues), over) == Target(issues, over)
    requires Removed(ListsOf(issues)[Target(issues, over).value], card.id) != []
    ensures ListsOf(AfterDrop(issues, DragEnd(issues, card.id, over))) == ListDrag(ListsOf(issues), card.id, over)
  {
    ColumnsAfterDrop(issues, card, over);
    var lists, after := ListsOf(issues), ListsOf(AfterDrop(issues, DragEnd(issues, card.id, over)));
    forall status | status in lists ensures after[status] == ListDrag(lists, card.id, over)[status] {
      ListDragAt(lists, card.id, over, status);
    }
    ListDragAt(lists, card.id, over, Backlog);
    SameLists(after, ListDrag(lists, card.id, over));
  }

  lemma SameLists(a: Lists, b: Lists)
    requires a.Keys == b.Keys && forall status | status in a :: a[status] == b[status]
    ensures a == b
  {
  }

  // ---- whole runs --------------------------------------------------------------

  datatype Gesture = Gesture(active: IssueId, over: Over, now: Instant)

  /** The cache after a user has made the gestures one after the other. */
  function DragAll(issues: seq<Card>, gestures: seq<Gesture>): seq<Card>
    decreases |gestures|
  {
    if gestures == [] then issues
    else DragAll(AfterDrop(issues, DragEnd(issues, gestures[0].active, gestures[0].over)), gestures[1..])
  }

  /** The request a gesture sends, if it sends one. */
  function Sent(issues: seq<Card>, org: OrgId, g: Gesture): seq<Op> {
    var drop := DragEnd(issues, g.active, g.over);
    if drop.Ignored? then [] else [Op.Move(org, drop.id, drop.input, g.now)]
  }

  /** The requests the gestures send. */
  function Requests(issues: seq<Card>, org: OrgId, gestures: seq<Gesture>): seq<Op>
    decreases |gestures|
  {
    if gestures == [] then []
    else
      var g := gestures[0];
      Sent(issues, org, g) + Requests(AfterDrop(issues, DragEnd(issues, g.active, g.over)), org, gestures[1..])
  }

  ghost function ListDragAll(lists: Lists, gestures: seq<Gesture>): Lists
    decreases |gestures|
  {
    if gestures == [] then lists
    else ListDragAll(ListDrag(lists, gestures[0].active, gestures[0].over), gestures[1..])
  }

  lemma SameIdsAfterDrop(issues: seq<Card>, drop: Drop, id: IssueId)
    requires Holds(issues, id)
    ensures Holds(AfterDrop(issues, drop), id)
  {
    if drop.Dispatched? {
      var c :| c in issues && c.id == id;
      var i :| 0 <= i < |issues| && issues[i] == c;
      PlacedAt(issues, drop.id, drop.input.status, drop.optimisticRank);
      assert AfterDrop(issues, drop)[i].id == id;
      assert AfterDrop(issues, drop)[i] in AfterDrop(issues, drop);
    }
  }

  /** Cache and server agree, on a sound table in which the project's rows are the tenant's. */
  ghost predicate InStep(issues: seq<Card>, db: Db, project: ProjectId, org: OrgId) {
    && Agrees(issues, db, project) && Sound(db) && Keyed(db)
    && forall i | i in db.issues && db.issues[i].card.project == project :: db.issues[i].org == org
  }

  /** A move leaves every row with its tenant and project. */
  lemma MoveKeepsOwners(db: Db, project: ProjectId, org: OrgId, id: IssueId, input: MoveInput, now: Instant)
    requires forall i | i in db.issues && db.issues[i].card.project == project :: db.issues[i].org == org
    ensures var after := MoveStep(db, org, id, input, now).db;
            forall i | i in after.issues && after.issues[i].card.project == project :: after.issues[i].org == org
  {
  }

  /** A dispatched drop: the one request it sends keeps cache and server in step. */
  lemma DropKeepsStep(issues: seq<Card>, db: Db, project: ProjectId, org: OrgId, card: Card, over: Over, now: Instant)
    requires InStep(issues, db, project, org) && card in issues
    requires DragEnd(issues, card.id, over).Dispatched?
    ensures var drop := DragEnd(issues, card.id, over);
            var out := MoveStep(db, org, card.id, drop.input, now);
            drop.id == card.id && out.reply.Success? && InStep(AfterDrop(issues, drop), out.db, project, org)
  {
    AgreesIsGood(issues, db, project);
    assert db.issues[card.id].card.project == project by { assert Strip(db.issues[card.id].card) == Strip(card); }
    DropFacts(issues, card.id, over);
    MoveKeepsOwners(db, project, org, card.id, DragEnd(issues, card.id, over).input, now);
    ServerStoresTheDrop(issues, db, project, org, card, over, now);
  }

  /** What a gesture sends, as a run. */
  lemma SentRun(issues: seq<Card>, db: Db, org: OrgId, g: Gesture)
    ensures var drop, sent := DragEnd(issues, g.active, g.over), Sent(issues, org, g);
            && (drop.Ignored? ==> Run(db, sent) == db && NoneRejected(db, sent))
            && (drop.Dispatched? ==>
                  var out := MoveStep(db, org, drop.id, drop.input, g.now);
                  Run(db, sent) == out.db && (NoneRejected(db, sent) <==> out.reply != Failure(BadRequest)))
  {
    var drop := DragEnd(issues, g.active, g.over);
    if drop.Dispatched? {
      OneRequest(db, Op.Move(org, drop.id, drop.input, g.now));
      OneRejected(db, Op.Move(org, drop.id, drop.input, g.now));
    }
  }

  lemma GestureKeepsStep(issues: seq<Card>, db: Db, project: ProjectId, org: OrgId, g: Gesture)
    requires InStep(issues, db, project, org) && Holds(issues, g.active)
    ensures var after := AfterDrop(issues, DragEnd(issues, g.active, g.over));
            && InStep(after, Run(db, Sent(issues, org, g)), project, org)
            && NoneRejected(db, Sent(issues, org, g))
  {
    SentRun(issues, db, org, g);
    if DragEnd(issues, g.active, g.over).Dispatched? {
      var card :| card in issues && card.id == g.active;
      DropKeepsStep(issues, db, project, org, card, g.over, g.now);
    }
  }

  lemma GestureDragsLists(issues: seq<Card>, db: Db, project: ProjectId, org: OrgId, g: Gesture)
    requires InStep(issues, db, project, org) && Holds(issues, g.active)
    ensures ListsOf(AfterDrop(issues, DragEnd(issues, g.active, g.over))) ==
            ListDrag(ListsOf(issues), g.active, g.over)
  {
    var card :| card in issues && card.id == g.active;
    AgreesIsGood(issues, db, project);
    DragRefinesLists(issues, card, g.over);
  }

  /**
   Any sequence of drags: the board shows what the same drags on plain lists of ids give,
   every request is accepted, and cache and server agree at the end.
   */
  lemma {:induction false} DragRunRefinesLists(issues: seq<Card>, db: Db, project: ProjectId, org: OrgId,
                                               gestures: seq<Gesture>)
    requires InStep(issues, db, project, org)
    requires forall g | g in gestures :: Holds(issues, g.active)
    ensures ListsOf(DragAll(issues, gestures)) == ListDragAll(ListsOf(issues), gestures)
    ensures InStep(DragAll(issues, gestures), Run(db, Requests(issues, org, gestures)), project, org)
    ensures NoneRejected(db, Requests(issues, org, gestures))
    decreases |gestures|
  {
    if gestures != [] {
      var g := gestures[0];
      var drop := DragEnd(issues, g.active, g.over);
      var after := AfterDrop(issues, drop);
      assert g in gestures;
      GestureKeepsStep(issues, db, project, org, g);
      GestureDragsLists(issues, db, project, org, g);
      forall h | h in gestures[1..] ensures Holds(after, h.active) {
        SameIdsAfterDrop(issues, drop, h.active);
      }
      RunOfConcat(db, Sent(issues, org, g), Requests(after, org, gestures[1..]));
      RejectedOfConcat(db, Sent(issues, org, g), Requests(after, org, gestures[1..]));
      DragRunRefinesLists(after, Run(db, Sent(issues, org, g)), project, org, gestures[1..]);
    }
  }

  // ---- corners -----------------------------------------------------------------

  /** A card let go over itself goes to the bottom of its column. */
  lemma DropOnItselfGoesToTheBottom(issues: seq<Card>, card: Card)
    requires Good(issues) && card in issues && Rest(issues, card.id, card.status) != []
    ensures var after := AfterDrop(issues, DragEnd(issues, card.id, OverCard(card.id)));
            Ids(Shown(after, card.status)) == Removed(Ids(Shown(issues, card.status)), card.id) + [card.id]
  {
    StatusOfMember(issues, card);
    DispatchedIff(issues, card.id, OverCard(card.id));
    ColumnsAfterDrop(issues, card, OverCard(card.id));
    RemovedIsGone(Ids(Shown(issues, card.status)), card.id);
    var rest := Removed(Ids(Shown(issues, card.status)), card.id);
    NotThere(rest, card.id);
    assert rest[..|rest|] == rest && rest[|rest|..] == [];
  }

  lemma {:induction false} RemovedIsGone(ids: seq<IssueId>, id: IssueId)
    ensures id !in Removed(ids, id)
  {
    if ids != [] {
      RemovedIsGone(ids[1..], id);
    }
  }

  lemma {:induction false} NotThere(ids: seq<IssueId>, id: IssueId)
    requires id !in ids
    ensures PositionOf(ids, id) == |ids|
  {
    if ids != [] {
      NotThere(ids[1..], id);
    }
  }

  /** A card let go over an empty column stays where it is. */
  lemma DropOnEmptyColumnIsIgnored(issues: seq<Card>, card: Card, status: Status)
    requires Good(issues) && card in issues && Rest(issues, card.id, status) == []
    ensures DragEnd(issues, card.id, OverColumn(status)).Ignored?
  {
    DispatchedIff(issues, card.id, OverColumn(status));
  }
}
