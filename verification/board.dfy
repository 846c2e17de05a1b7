/**
 The board in the browser: grouping, sorting and the drag handler of
 apps/web/components/board.tsx, and the optimistic patch of apps/web/lib/hooks.ts.
 */
module Board {
  import opened Wrappers
  import opened StringOrder
  import opened Rank
  import opened Issues

  /** The columns the board shows; canceled cards have none. */
  const BOARD_COLUMNS: set<Status> := {Backlog, Todo, InProgress, InReview, Done}

  /** list.some((i) => i.id === id) */
  predicate Holds(issues: seq<Card>, id: IssueId) {
    exists c :: c in issues && c.id == id
  }

  function WithStatus(issues: seq<Card>, status: Status): seq<Card> {
    if issues == [] then []
    else if issues[0].status == status then [issues[0]] + WithStatus(issues[1..], status)
    else WithStatus(issues[1..], status)
  }

  function Without(issues: seq<Card>, id: IssueId): seq<Card> {
    if issues == [] then []
    else if issues[0].id == id then Without(issues[1..], id)
    else [issues[0]] + Without(issues[1..], id)
  }

  function Insert(card: Card, sorted: seq<Card>): seq<Card> {
    if sorted == [] || Less(card.rank, sorted[0].rank) then [card] + sorted
    else [sorted[0]] + Insert(card, sorted[1..])
  }

  /** list.sort by rank; the source's comparator never answers "equal". */
  function Sort(issues: seq<Card>): seq<Card> {
    if issues == [] then [] else Insert(issues[0], Sort(issues[1..]))
  }

  /** What the board shows in a column: `byStatus.get(status) ?? []`. */
  function Shown(issues: seq<Card>, status: Status): seq<Card> {
    if status in BOARD_COLUMNS then Sort(WithStatus(issues, status)) else []
  }

  lemma WithStatusSnoc(issues: seq<Card>, card: Card, status: Status)
    ensures WithStatus(issues + [card], status) ==
            WithStatus(issues, status) + (if card.status == status then [card] else [])
  {
    if issues == [] {
      assert issues + [card] == [card];
    } else {
      assert (issues + [card])[1..] == issues[1..] + [card];
      WithStatusSnoc(issues[1..], card, status);
    }
  }

  /** The memo of board.tsx: every card is pushed to its column, then each column is sorted. */
  method ByStatus(issues: seq<Card>) returns (columns: map<Status, seq<Card>>)
    ensures columns.Keys == BOARD_COLUMNS
    ensures forall status :: Shown(issues, status) == if status in columns then columns[status] else []
  {
    columns := map status | status in BOARD_COLUMNS :: [];
    for n := 0 to |issues|
      invariant columns.Keys == BOARD_COLUMNS
      invariant forall status | status in columns :: columns[status] == WithStatus(issues[..n], status)
    {
      var card := issues[n];
      assert issues[..n + 1] == issues[..n] + [card];
      forall status { WithStatusSnoc(issues[..n], card, status); }
      if card.status in columns {
        columns := columns[card.status := columns[card.status] + [card]];
      }
    }
    assert issues[..|issues|] == issues;
    var rest := columns.Keys;
    while rest != {}
      invariant columns.Keys == BOARD_COLUMNS && rest <= BOARD_COLUMNS
      invariant forall status | status in columns ::
                  columns[status] == if status in rest then WithStatus(issues, status)
                                     else Sort(WithStatus(issues, status))
      decreases rest
    {
      var status :| status in rest;
      columns := columns[status := Sort(columns[status])];
      rest := rest - {status};
    }
  }

  // ---- the drag handler --------------------------------------------------------

  /** What the pointer is over when a card is let go. */
  datatype Over = Nowhere | OverColumn(status: Status) | OverCard(id: IssueId)

  datatype Drop = Ignored | Dispatched(id: IssueId, optimisticRank: string, input: MoveInput)

  function StatusOf(issues: seq<Card>, id: IssueId): Option<Status> {
    if issues == [] then None
    else if issues[0].id == id then Some(issues[0].status)
    else StatusOf(issues[1..], id)
  }

  function Target(issues: seq<Card>, over: Over): Option<Status> {
    match over
    case Nowhere => None
    case OverColumn(status) => Some(status)
    case OverCard(id) => StatusOf(issues, id)
  }

  /** The index of a card, the length when it is not there. */
  function IndexOf(column: seq<Card>, id: IssueId): (at: nat)
    ensures at <= |column|
  {
    if column == [] || column[0].id == id then 0 else 1 + IndexOf(column[1..], id)
  }

  /** Where in the column without the dragged card it lands. */
  function InsertAt(column: seq<Card>, over: Over): (at: nat)
    ensures at <= |column|
  {
    if over.OverCard? then IndexOf(column, over.id) else |column|
  }

  function Above(column: seq<Card>, at: nat): Option<Card>
    requires at <= |column|
  {
    if at > 0 then Some(column[at - 1]) else None
  }

  function Below(column: seq<Card>, at: nat): Option<Card>
    requires at <= |column|
  {
    if at < |column| then Some(column[at]) else None
  }

  function RankOf(card: Option<Card>): Option<string> {
    if card.Some? then Some(card.value.rank) else None
  }

  function IdOf(card: Option<Card>): Option<IssueId> {
    if card.Some? then Some(card.value.id) else None
  }

  function DropAt(column: seq<Card>, at: nat, active: IssueId, status: Status): Drop
    requires at <= |column|
  {
    var above, below := Above(column, at), Below(column, at);
    if RankOf(above) == RankOf(below) then Ignored
    else
      var rank := Ranked(RankOf(above), RankOf(below));
      if rank.Failure? then Ignored
      else Dispatched(active, rank.value, MoveInput(status, IdOf(above), IdOf(below)))
  }

  /** onDragEnd: the mutation the handler dispatches, if any. */
  function DragEnd(issues: seq<Card>, active: IssueId, over: Over): Drop {
    var target := Target(issues, over);
    if target.None? then Ignored
    else
      var column := Without(Shown(issues, target.value), active);
      DropAt(column, InsertAt(column, over), active, target.value)
  }

  // ---- patches of the query cache ----------------------------------------------

  function Place(card: Card, id: IssueId, status: Status, rank: string): Card {
    if card.id == id then card.(status := status, rank := rank) else card
  }

  /** The optimistic patch, and the patch for `issue:moved`: status and rank of one card. */
  function Placed(issues: seq<Card>, id: IssueId, status: Status, rank: string): seq<Card> {
    if issues == [] then []
    else [Place(issues[0], id, status, rank)] + Placed(issues[1..], id, status, rank)
  }

  /** The cache after the optimistic patch of a drop. */
  function AfterDrop(issues: seq<Card>, drop: Drop): seq<Card> {
    if drop.Ignored? then issues
    else Placed(issues, drop.id, drop.input.status, drop.optimisticRank)
  }
}
