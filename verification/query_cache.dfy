/**
 The browser's mutable side of the board: the query cache, its realtime handlers, the
 optimistic move with rollback, and the drag handler that drives them
 (apps/web/lib/hooks.ts, apps/web/lib/use-board-realtime.ts, apps/web/components/board.tsx).
 */
module QueryCache {
  import opened Rank
  import opened Issues
  import opened Board
  import opened BoardServer
  import opened DragRuns
  import opened Replay

  class BoardClient {
    var list: seq<Card>

    constructor (snapshot: seq<Card>)
      ensures list == snapshot
    {
      list := snapshot;
    }

    // ---- use-board-realtime.ts -------------------------------------------------

    method OnCreated(card: Card)
      modifies this
      ensures list == Apply(old(list), Created(card))
    {
      if !Holds(list, card.id) {
        list := list + [card];
      }
    }

    method OnUpdated(card: Card)
      modifies this
      ensures list == Apply(old(list), Updated(card))
    {
      list := Replaced(list, card);
    }

    method OnMoved(id: IssueId, status: Status, rank: string)
      modifies this
      ensures list == Apply(old(list), Moved(id, status, rank))
    {
      list := Placed(list, id, status, rank);
    }

    method OnDeleted(id: IssueId)
      modifies this
      ensures list == Apply(old(list), Deleted(id))
    {
      list := Without(list, id);
    }

    // ---- hooks.ts --------------------------------------------------------------

    /** onMutate: patch the cache, remember what it was. */
    method OnMutate(id: IssueId, input: MoveInput, optimisticRank: string) returns (previous: seq<Card>)
      modifies this
      ensures previous == old(list)
      ensures list == AfterDrop(old(list), Dispatched(id, optimisticRank, input))
    {
      previous := list;
      list := Placed(list, id, input.status, optimisticRank);
    }

    /** onError: put back what it was. */
    method OnError(previous: seq<Card>)
      modifies this
      ensures list == previous
    {
      list := previous;
    }

    // ---- board.tsx -------------------------------------------------------------

    /** onDragEnd, up to the mutation it dispatches. */
    method DropOf(active: IssueId, over: Over) returns (drop: Drop)
      ensures drop == DragEnd(list, active, over)
    {
      var target := Target(list, over);
      if target.None? {
        return Ignored;
      }
      var byStatus := ByStatus(list);
      var column: seq<Card> := [];
      if target.value in byStatus {
        column := byStatus[target.value];
      }
      column := Without(column, active);
      var insertAt := InsertAt(column, over);
      var above, below := Above(column, insertAt), Below(column, insertAt);
      if RankOf(above) == RankOf(below) {
        return Ignored;
      }
      var rank := RankBetween(RankOf(above), RankOf(below));
      if rank.Failure? {
        return Ignored;
      }
      drop := Dispatched(active, rank.value, MoveInput(target.value, IdOf(above), IdOf(below)));
    }

    /**
     A whole gesture: the handler, the optimistic patch, the request, and the rollback when
     the server turns it down. Cache and server that were in step are in step again, and
     the board shows the drag on lists.
     */
    method Drag(active: IssueId, over: Over, server: IssuesService, org: OrgId, now: Instant, ghost project: ProjectId)
      modifies this, server
      ensures var drop := DragEnd(old(list), active, over);
              if drop.Ignored? then list == old(list) && server.State() == old(server.State())
              else
                var out := MoveStep(old(server.State()), org, active, drop.input, now);
                && server.State() == out.db
                && list == if out.reply.Success? then AfterDrop(old(list), drop) else old(list)
      ensures old(InStep(list, server.State(), project, org)) && old(Holds(list, active)) ==>
                && InStep(list, server.State(), project, org)
                && ListsOf(list) == ListDrag(ListsOf(old(list)), active, over)
    {
      ghost var before, table := list, server.State();
      var drop := DropOf(active, over);
      if drop.Dispatched? {
        var previous := OnMutate(drop.id, drop.input, drop.optimisticRank);
        var reply := server.Move(org, drop.id, drop.input, now);
        if reply.Failure? {
          OnError(previous);
        }
      }
      if InStep(before, table, project, org) && Holds(before, active) {
        GestureOnServer(before, table, project, org, active, over, now);
      }
    }
  }

  lemma GestureOnServer(issues: seq<Card>, db: Db, project: ProjectId, org: OrgId, active: IssueId, over: Over,
                        now: Instant)
    requires InStep(issues, db, project, org) && Holds(issues, active)
    ensures var drop := DragEnd(issues, active, over);
            && ListsOf(AfterDrop(issues, drop)) == ListDrag(ListsOf(issues), active, over)
            && (drop.Dispatched? ==>
                  var out := MoveStep(db, org, active, drop.input, now);
                  out.reply.Success? && InStep(AfterDrop(issues, drop), out.db, project, org))
  {
    var card :| card in issues && card.id == active;
    AgreesIsGood(issues, db, project);
    DragRefinesLists(issues, card, over);
    if DragEnd(issues, active, over).Dispatched? {
      DropKeepsStep(issues, db, project, org, card, over, now);
    }
  }
}
