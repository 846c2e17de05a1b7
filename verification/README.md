# Board, ranks, sessions and presence: a Dafny model

The system is a multi-tenant project tracker: a REST API over Postgres, a Socket.io gateway,
and a browser client with a drag-and-drop board. This project models the parts whose
correctness spans several functions or several processes, and proves what the code and its
documentation promise of them. Where a promise does not hold of the code, the model keeps the
code, shows a concrete situation in which it fails, and proves when it holds.

`dafny verify dfyconfig.toml` checks the whole project.

## How it is laid out

| files | subject |
|---|---|
| `rank`, `rank_laws`, `rank_value`, `rank_series`, `column_series` | fractional ranking: the digit loop, its exact order law, ranks as base-62 fractions, growth of ranks |
| `numerals`, `seed`, `seed_board` | the demo seed's fixed-width base-36 ranks and the board it writes |
| `issues`, `board_run`, `tenants`, `issue_fields`, `concurrent_create`, `create_serial` | the issue service as steps on tables; runs of requests; tenants; what is stored as what was last given; interleaved create transactions and their serializability |
| `board`, `board_lists`, `board_refinement`, `board_server`, `drag_runs`, `query_cache` | the board in the browser, and drags as operations on plain lists, in cache and on the server |
| `replay`, `replay_runs`, `replay_exact` | the event stream into the cache: replay, the field it leaves behind, optimistic patches under it |
| `tokens`, `token_laws`, `tokens_interleaved`, `single_flight`, `request_outcomes` | refresh-token rotation, atomic and interleaved, the client's shared refresh, and how its requests end |
| `presence`, `presence_runs`, `roster` | presence counts with asynchronous joins, and what clients show |
| `orgs`, `orgs_runs`, `orgs_laws`, `slug` | memberships and invites; slugs of new organisations |
| `wrappers`, `string_order`, `arithmetic` | what the others share |

Code that changes fields in place is a class whose methods are proved against a function of
the old state (`IssuesService`, `BoardClient`, `TokenService`, `ApiClient`, `RealtimeGateway`,
`OrgsService`); loops are loops with invariants (`Rank.RankBetween`, `Board.ByStatus`,
`Slug.AllocateSlug`, `SeedBoard.SeedIssues`). The theorems about whole runs are lemmas over
those functions. Anything concurrent is a state machine over its steps, and its theorems
quantify over all sequences of enabled steps.

"Sound" below means: every rank denotes a positive fraction, and the ranks of one column denote
pairwise different fractions. On canonical ranks (non-empty, over the alphabet, no '0' at the
end) that is just "pairwise different" (`BoardRun.SoundIffDistinct`); the wider notion is there
because the seed's ranks are not all canonical.

## Where the code and its documentation differ

The model follows the code in each case.

- The header of `rank.ts` promises a rank strictly between the bounds and the shortest
  midpoint. The first fails exactly when the upper bound is the lower one followed by '0's.
  The second holds for every open upper bound; for a closed one it fails exactly when the bounds
  are one digit apart where they first differ and the upper one goes on after that digit.
- `update` can change the status without a new rank, and `move` does not check that its
  neighbours are adjacent: either can give two cards of a column one rank, exactly when the
  target column has another card whose rank denotes the same fraction.
- A drop on an empty column is ignored, and a card let go over itself goes to the bottom.
- `issue:moved` carries no `updatedAt`: a cached card is the server's in every field exactly when
  the last event about it is not a move. The board reads at most 100 issues: what it reads is the
  project exactly when the project has no more.
- `rotate` is three database steps without a transaction, so two readers of one token can leave
  two live tokens, and a family that reuse detection has closed can come back. A creation
  breaks "one live token" exactly when its family has a live token already; a family whose
  tokens are all revoked stays so exactly when no call is in the middle of rotating one of them;
  and neither goes wrong when a call reads only while no other call is under way for its family.
- Re-joining a room counts a socket twice; a join that completes after its socket has
  disconnected is never undone, and is the only thing that leaves a disconnected client in a
  room. Presence events do not say which room they are about, and a client that switches rooms
  before its first request is answered ends up in both; every request for a room made while
  another is held or pending can end that way, and no other can.
- `addMember` and `acceptInvite` overwrite the role of an existing member, the owner included.

## Model

| member | source | states |
|---|---|---|
| `Rank.RankBetween` | packages/types/src/rank.ts:26-51 | the digit loop returns or throws what the recursive definition says, for all strings without surrogate pairs, and ends: `max(len a, len b) + 1 - i` decreases |
| `Rank.TableIsDigitChar` | packages/types/src/rank.ts:10-11 | the digit table has 62 entries, in the order of their characters' values |
| `Rank.DigitsAreOrdered` | packages/types/src/rank.ts:13-16 | on digits, `digit` preserves and reflects the order of characters |
| `RankLaws.StrictlyBetweenIffRoom` | packages/types/src/rank.ts:18-51 | for bounds over the alphabet with a < b the answer is strictly between them if and only if b is open or is not a followed by zero or more '0's; otherwise it is exactly b + "V" |
| `RankLaws.BetweenIsAbove` | packages/types/src/rank.ts:26-51 | whatever b, the answer sorts strictly above a |
| `RankLaws.BetweenIsBelow` | packages/types/src/rank.ts:35-50 | the answer sorts below b exactly when b is not a zero extension of a |
| `RankLaws.StrangersCountAsZero` | packages/types/src/rank.ts:13-16 | characters outside the table count as '0', in either bound |
| `RankLaws.BetweenIsCanonical` | packages/types/src/rank.ts:39-41 | every answer is canonical: non-empty, over the alphabet, not ending in '0' |
| `RankLaws.CanonicalRanksAreClosed` | packages/types/src/rank.ts:4-8 | between canonical neighbours (or none) the answer is strictly between them and canonical again |
| `RankLaws.BetweenLength` | packages/types/src/rank.ts:31-50 | the answer has between 1 and max(len a, len b) + 1 digits |
| `RankLaws.OpenAnswerIsShortest` | packages/types/src/rank.ts:7-8 | with an open upper bound no string over the alphabet above a is shorter than the answer |
| `RankLaws.ClosedAnswerIsShortestIff` | packages/types/src/rank.ts:7-8 | between bounds over the alphabet with room, no canonical rank strictly between them is shorter than the answer if and only if they are not squeezed: not one digit apart at the first difference with the upper bound going on after it |
| `RankLaws.SqueezedHasShorter` | packages/types/src/rank.ts:7-8 | between squeezed bounds the upper one, cut after the difference, is a shorter canonical rank |
| `RankLaws.ClosedAnswerIsNotShortest` | packages/types/src/rank.ts:7-8 | ("A5", "BV") is squeezed and gives "AX"; ("A", "C") is not and gives "B" |
| `RankValue.TrailingZerosKeepValue` | packages/types/src/rank.ts:6-7 | zero extension does not change the fraction a rank denotes |
| `RankValue.OrderIsValueThenLength` | packages/types/src/rank.ts:6-7 | over the alphabet, string order is order of base-62 fractions, then of lengths; equal fractions are zero extensions |
| `RankValue.CanonicalOrderIsValueOrder` | packages/types/src/rank.ts:6-7 | on canonical ranks string order and fraction order coincide and equal fractions are equal ranks |
| `RankValue.MidpointValue` | packages/types/src/rank.ts:26-51 | whenever the bounds' fractions leave an interval, the answer's fraction lies strictly inside it |
| `RankValue.RoomIffValuesDiffer` | packages/types/src/rank.ts:26-51 | the bounds on which the order law fails are exactly those that denote one fraction |
| `RankSeries.AppendedClosedForm` | packages/types/src/rank.ts:26-56 | n appends give 'z' n/6 times and then digit n%6 of "Vkswyz" |
| `RankSeries.PrependedClosedForm` | packages/types/src/rank.ts:26-56 | n inserts at the top give '0' n/5 times and then digit n%5 of "VF731" |
| `ColumnSeries.CreatedRanks` | apps/api/src/modules/issues/issues.service.ts:112-126 | the k-th issue created in an empty column, by requests one after the other, has the k-th rank of that closed form and k/6 + 1 digits |
| `Seed.SeedRankSpells` | packages/db/prisma/seed.ts:8-11 | a seed rank spells 1000 times its index in base 36, in six digits up to index 2176782 |
| `Seed.SeedOrder` | packages/db/prisma/seed.ts:6-11 | for i < j up to 2176782 the seed's ranks sort, and differ as fractions, in index order |
| `Seed.SeedGap` | packages/db/prisma/seed.ts:8-11 | between any two of them `rankBetween` finds a rank strictly between |
| `Seed.SeedTop` | packages/db/prisma/seed.ts:87 | above one of them there is room if and only if its index is at least 1, as the seed counts |
| `Seed.SeedRankEndsInZero` | packages/db/prisma/seed.ts:10 | a seed rank ends in '0', so is not canonical, exactly when 9 divides its index |
| `SeedBoard.SeedIssues` | packages/db/prisma/seed.ts:84-108 | the seeding loop numbers the cards from 1, ranks each column by its own index, sets the counter, and leaves a sound board |
| `SeedBoard.SeededColumnsRise` | packages/db/prisma/seed.ts:84-103 | two cards seeded into one column have rising ranks |
| `Issues.LastIsUnique` | apps/api/src/modules/issues/issues.service.ts:121-125 | the greatest rank of a column does not depend on the order in which rows are read |
| `Issues.IssuesService.FindLast` | apps/api/src/modules/issues/issues.service.ts:121-125 | reading the rows in any order finds the greatest rank of project and column, none when there is no row |
| `Issues.IssuesService.FindNeighbour` | apps/api/src/modules/issues/issues.service.ts:247-261 | a neighbour's rank, only from the moved issue's project and the target column |
| `Issues.IssuesService.Create` | apps/api/src/modules/issues/issues.service.ts:104-162 | tables, answer and broadcast of a creation: next number, rank below the column's last, or not found |
| `Issues.IssuesService.Update` | apps/api/src/modules/issues/issues.service.ts:176-218 | tables, answer and broadcast of an update: the given fields and `updatedAt`, never the rank |
| `Issues.IssuesService.Move` | apps/api/src/modules/issues/issues.service.ts:235-289 | tables, answer and broadcast of a move: status and midpoint rank, bad request when the neighbours are inconsistent |
| `Issues.IssuesService.Remove` | apps/api/src/modules/issues/issues.service.ts:294-312 | tables, answer and broadcast of a removal |
| `IssueFields.RequestsAreAnswered` | apps/api/src/modules/issues/issues.service.ts:104-312 | exactly when each request is turned down, and with which error; then nothing changes and nothing is sent; an accepted one answers and broadcasts what is stored after it, to its own tenant and project |
| `IssueFields.StoredIsLastGiven` | apps/api/src/modules/issues/issues.service.ts:129-204 | in every run an issue is there if and only if the last accepted request that created or removed it created it, and title, description, status, priority, due date, assignee and `updatedAt` are each what the last accepted request that gave it gave (a given null clears); number, reporter, tenant, project and `createdAt` are the creation's |
| `BoardRun.SoundIffDistinct` | packages/types/src/rank.ts:4-8 | on canonical ranks soundness of the board is pairwise different ranks per column |
| `BoardRun.AppendedIsAbove` | apps/api/src/modules/issues/issues.service.ts:120-126 | a created card's rank denotes a greater fraction than every rank in its column |
| `BoardRun.UpdateKeepsSoundIffClear` | apps/api/src/modules/issues/issues.service.ts:188-204 | an update keeps the board sound if and only if no other card of the column it leads to has a rank of the same value; one that leaves the status alone always does |
| `BoardRun.MoveKeepsSoundIffClear` | apps/api/src/modules/issues/issues.service.ts:247-274 | a move keeps the board sound if and only if it is turned down or no other card of the target column has a rank of the new rank's value |
| `BoardRun.AdjacentLeavesInterval` | apps/api/src/modules/issues/issues.service.ts:247-268 | neighbours with no other card between them bound an interval that no other card's value enters |
| `BoardRun.MoveKeepsSound` | apps/api/src/modules/issues/issues.service.ts:235-274 | a move between adjacent neighbours is accepted and keeps the board sound |
| `BoardRun.RunKeepsSound` | apps/api/src/modules/issues/issues.service.ts:104-312 | every run of creations, removals, updates without status change and moves between adjacent neighbours keeps a sound board sound and has no move rejected |
| `BoardRun.RunKeepsCanonical` | apps/api/src/modules/issues/issues.service.ts:104-312 | no request of any kind ever makes a canonical board non-canonical |
| `BoardRun.RunFromEmpty` | apps/api/src/modules/issues/issues.service.ts:104-312 | from empty tables such runs keep all ranks canonical and each column's ranks pairwise distinct |
| `BoardRun.StatusUpdateCanDuplicateRanks` | apps/api/src/modules/issues/issues.service.ts:191 | a sound board on which a status update gives one column two equal ranks, between which nothing can then be dropped |
| `BoardRun.NonAdjacentMoveCanDuplicateRanks` | apps/api/src/modules/issues/issues.service.ts:247-266 | a sound board on which an accepted move that is not between adjacent neighbours gives equal ranks |
| `Tenants.OthersUnchanged` | ARCHITECTURE.md:42-51 | a request of one organisation changes nothing of another's rows |
| `Tenants.RequestSeesOwnRows` | ARCHITECTURE.md:42-51 | a request does, answers and broadcasts what it would with its own organisation's rows alone |
| `IssueFields.BroadcastsStayInside` | apps/api/src/modules/realtime/realtime.gateway.ts:151-159 | a request's broadcasts go to a project of the tenant whose request it is |
| `Tenants.TenantsDoNotInterfere` | ARCHITECTURE.md:42-51 | any interleaving of all tenants' requests leaves a tenant with what its own requests alone would have left |
| `ConcurrentCreate.RunKeepsInv` | apps/api/src/modules/issues/issues.service.ts:112-147 | in every interleaving only the holder of the project row is past its first step, and what it has counted and seen is still so |
| `ConcurrentCreate.NumbersAreConsecutive` | apps/api/src/modules/issues/issues.service.ts:113-118 | every interleaving gives out the numbers after the counter's in commit order, without gap or repetition and up to the new counter, whatever is removed or rolled back; cards with distinct numbers up to the counter stay so |
| `ConcurrentCreate.NumbersFromOne` | apps/api/src/modules/issues/issues.service.ts:113-118 | in a project without cards and with counter 0 they are 1, 2, 3, ... |
| `ConcurrentCreate.StaysBelowIff` | apps/api/src/modules/issues/issues.service.ts:120-126 | while a column is strictly below a rank, a request keeps it so if and only if it does not put a card of the project into the column at or above that rank |
| `ConcurrentCreate.CommitAppends` | apps/api/src/modules/issues/issues.service.ts:120-147 | whatever happens between look and commit, unless some request puts a card of the project into the column at or above the pending rank, the new card is strictly above all of its column |
| `ConcurrentCreate.MoveToBottomCollides` | apps/api/src/modules/issues/issues.service.ts:120-147 | a move to the bottom between look and commit ends in two equal ranks |
| `CreateSerial.CommutesWithPending` | apps/api/src/modules/issues/issues.service.ts:112-147 | a request that does not mention the pending issue has the same answer, broadcasts and effect before the creation's writes as after them |
| `CreateSerial.CreatesAreSerializable` | apps/api/src/modules/issues/issues.service.ts:112-147 | every interleaving of create transactions with each other and all other requests leaves the tables of the same requests run one at a time, each creation where its transaction looked, if nobody mentions an issue before it is committed |
| `CreateSerial.EffectsAreWhatTookEffect` | apps/api/src/modules/issues/issues.service.ts:112-147 | that sequential run is of exactly the committed creations and the other requests, each as often as it took effect |
| `Board.ByStatus` | apps/web/components/board.tsx:46-52 | pushing every card to its column and sorting each column gives, per board column, its cards in rank order |
| `BoardRefinement.ShownFacts` | apps/web/components/board.tsx:46-52 | a shown column is sorted by rank and holds exactly the cards of that status |
| `BoardRefinement.AllButCanceledAreShown` | apps/web/components/board.tsx:25-50 | every cached card is shown in the column of its status and nowhere else, canceled ones nowhere |
| `BoardRefinement.DispatchedIff` | apps/web/components/board.tsx:56-84 | a drop sends a move if and only if it has a target column with some other card in it |
| `BoardRefinement.DropFacts` | apps/web/components/board.tsx:68-94 | the move names the cards around the insertion index, and its optimistic rank lies strictly between theirs in value |
| `BoardRefinement.DropIsListInsertion` | apps/web/components/board.tsx:68-94 | after the optimistic patch the target column is the old one minus the card with the card at the insertion index, and every other column is the old one minus the card |
| `BoardServer.NeighbourIsFound` | apps/api/src/modules/issues/issues.service.ts:247-261 | the server finds the neighbour a client in agreement names, with the same rank |
| `BoardServer.DropIsAdjacent` | apps/web/components/board.tsx:68-94 | the neighbours a drop names are adjacent on the server, which computes the optimistic rank |
| `BoardServer.AgreementAfterMove` | apps/web/lib/hooks.ts:137-141 | patching cache and table alike keeps them in agreement |
| `BoardServer.ServerStoresTheDrop` | apps/api/src/modules/issues/issues.service.ts:235-274 | a drop from an agreeing cache is accepted, is stored with the optimistic rank, leaves both in agreement and the board sound, and its echo changes nothing |
| `DragRuns.TargetIsListTarget` | apps/web/components/board.tsx:62-66 | the column a drop is aimed at is the list that holds the card under the pointer |
| `DragRuns.DragRefinesLists` | apps/web/components/board.tsx:56-95 | seen as lists of ids, handler and optimistic patch are removal from one list and insertion into another, or nothing |
| `DragRuns.DragRunRefinesLists` | apps/web/components/board.tsx:56-95 | any sequence of drags shows what the same drags on plain lists give, has every request accepted, and ends with cache and server in agreement |
| `DragRuns.DropOnItselfGoesToTheBottom` | apps/web/components/board.tsx:70-73 | a card let go over itself becomes the last of its column |
| `DragRuns.DropOnEmptyColumnIsIgnored` | apps/web/components/board.tsx:75-77 | a drop on a column without other cards sends nothing |
| `QueryCache.BoardClient.OnCreated` | apps/web/lib/use-board-realtime.ts:31 | appends the card unless its id is cached |
| `QueryCache.BoardClient.OnUpdated` | apps/web/lib/use-board-realtime.ts:32-34 | replaces the card of that id |
| `QueryCache.BoardClient.OnMoved` | apps/web/lib/use-board-realtime.ts:35-37 | sets status and rank of the card of that id |
| `QueryCache.BoardClient.OnDeleted` | apps/web/lib/use-board-realtime.ts:38 | drops the card of that id |
| `QueryCache.BoardClient.OnMutate` | apps/web/lib/hooks.ts:134-143 | patches the cache and hands back what it was |
| `QueryCache.BoardClient.OnError` | apps/web/lib/hooks.ts:145-147 | restores the cache handed back |
| `QueryCache.BoardClient.DropOf` | apps/web/components/board.tsx:56-95 | the imperative handler decides what the drag function says |
| `QueryCache.BoardClient.Drag` | apps/web/lib/hooks.ts:126-151 | a whole gesture against the service object: patch, request, rollback on refusal; if cache and server were in step they are again, and the board shows the drag on lists |
| `Replay.FindInAllApplied` | apps/web/lib/use-board-realtime.ts:28-38 | patching a list is, id by id, what the events do to one card |
| `Replay.FieldsAreIndependent` | apps/web/lib/use-board-realtime.ts:32-37 | under any events place and remaining fields of a card evolve independently of each other |
| `Replay.ReplayAbsorbed` | apps/web/lib/use-board-realtime.ts:31-38 | replaying a card's whole history on the state it leads to changes nothing but `updatedAt` |
| `ReplayRuns.RequestOnCard` | apps/api/src/modules/issues/issues.service.ts:104-312 | what a request broadcasts takes a card to what the table has after it, but for `updatedAt`; no broadcast means no change |
| `ReplayRuns.RunOnCard` | apps/api/src/modules/issues/issues.service.ts:104-312 | the broadcasts of any run are a proper history of each id and lead to the table's state |
| `ReplayRuns.AgreesCardByCard` | apps/web/lib/use-board-realtime.ts:28-38 | list and table agree if and only if they agree on every id |
| `ReplayRuns.ReplayConverges` | apps/web/lib/use-board-realtime.ts:28-38 | replaying all events from any earlier point on a snapshot taken at any later point ends in agreement with the server: late and duplicate deliveries are harmless |
| `ReplayRuns.MoveLeavesUpdatedAtBehind` | apps/api/src/modules/issues/issues.service.ts:282-286 | after a move's event the cache still has the old `updatedAt` |
| `ReplayExact.ExactAfterRequestIff` | apps/web/lib/use-board-realtime.ts:31-38 | after one request and its event a cached card is the server's in every field if and only if the event moved it and it had the move's instant, or was another about it, or there was none and it was so before |
| `ReplayExact.ExactAfterRunIff` | apps/web/lib/use-board-realtime.ts:31-38 | over any run with rising instants it is so if and only if the last event about it is not a move, or there is none and it started so |
| `ReplayExact.PatchIsAbsorbed` | apps/web/lib/hooks.ts:134-143 | under any further events the optimistically patched cache is the unpatched one with the patch on top, until an event changes or deletes the card, its echo for one; from then on it is the unpatched one |
| `ReplayExact.IdsAfterEvent` | apps/web/lib/use-board-realtime.ts:31-38 | a new card goes to the end of the cached list, a deleted one leaves it, and nothing else changes the order |
| `ReplayRuns.ListingAgreesIffItFits` | apps/web/lib/hooks.ts:105-111 | a listing is a snapshot of the project if and only if the project has no more issues than the limit |
| `Tokens.TokenService.IssueForUser` | apps/api/src/modules/auth/token.service.ts:51-54 | adds one live row in the given family |
| `Tokens.TokenService.CreateRefresh` | apps/api/src/modules/auth/token.service.ts:101-119 | adds one live row that expires after the configured time |
| `Tokens.TokenService.Rotate` | apps/api/src/modules/auth/token.service.ts:56-88 | accepts exactly the usable tokens, revoking the token and adding a successor; revokes the family of a revoked or expired one; answers invalid exactly for unknown ones |
| `Tokens.TokenService.Revoke` | apps/api/src/modules/auth/token.service.ts:90-99 | revokes the family of a known token, else nothing |
| `Tokens.RunKeepsOneLive` | apps/api/src/modules/auth/token.service.ts:56-99 | in every run of atomic calls each family has at most one token that is not revoked |
| `Tokens.AcceptedAtMostOnce` | apps/api/src/modules/auth/token.service.ts:77-81 | a token once accepted is never accepted again, whatever comes between |
| `Tokens.ClosedFamilyStaysClosed` | apps/api/src/modules/auth/token.service.ts:68-75 | after a revoked or expired token of a family is presented, or a logout, no token of it, old or new, is ever accepted |
| `Tokens.AcceptedRotationHandsOn` | apps/api/src/modules/auth/token.service.ts:77-87 | an accepted rotation leaves the new token as the family's only live one, usable, with the old one's user, and other families alone |
| `TokenLaws.OthersLeaveFamily` | apps/api/src/modules/auth/token.service.ts:56-99 | in every run in which nobody presents a token of a family its rows are unchanged, no others appear, and each is accepted when it was before |
| `TokenLaws.LogoutIsForOneFamily` | apps/api/src/modules/auth/token.service.ts:91-99 | after a logout a token is accepted if and only if it was before and is of another family |
| `TokenLaws.IssuedIsGood` | apps/api/src/modules/auth/token.service.ts:52-75 | a login's token keeps its user and family, is never accepted after the expiry it was created with, and until somebody presents a token of its family is accepted at every instant up to it |
| `TokenLaws.MintedIsGood` | apps/api/src/modules/auth/token.service.ts:77-119 | the same of an accepted rotation's successor, with the presented token's user and family, up to the rotation's instant plus the lifetime |
| `TokensInterleaved.RunKeepsInv` | apps/api/src/modules/auth/token.service.ts:57-127 | the tree invariant holds in every interleaving of reads, revocations and creations of any number of calls |
| `TokensInterleaved.RevokedForEver` | apps/api/src/modules/auth/token.service.ts:57-127 | in every interleaving rows stay, keep family and user, and stay revoked |
| `TokensInterleaved.LoginIsOneStep` | apps/api/src/modules/auth/token.service.ts:52-54 | the step of a login does what the atomic login does |
| `TokensInterleaved.UndisturbedRotate` | apps/api/src/modules/auth/token.service.ts:57-88 | the steps of a call of `rotate` that nothing interrupts do what the atomic call does |
| `TokensInterleaved.UndisturbedRevoke` | apps/api/src/modules/auth/token.service.ts:91-99 | so do those of `revoke` |
| `TokensInterleaved.FamiliesAreTrees` | apps/api/src/modules/auth/token.service.ts:57-127 | in every interleaving a family is a tree rooted at its issued token, has one user, has one row more than completed rotations, and its live tokens are leaves |
| `TokensInterleaved.TwoReadersTwoLiveTokens` | apps/api/src/modules/auth/token.service.ts:57-88 | two calls that have both read a usable token go on to leave two live tokens in its family |
| `TokensInterleaved.TwoLiveTokensAreReachable` | apps/api/src/modules/auth/token.service.ts:57-88 | that situation is reached from the start |
| `TokensInterleaved.ClosedFamilyCanComeBack` | apps/api/src/modules/auth/token.service.ts:68-87 | a family closed between another call's revocation and creation has a live token again |
| `TokensInterleaved.RevivalIsReachable` | apps/api/src/modules/auth/token.service.ts:57-88 | that situation too is reached from the start |
| `TokensInterleaved.DeadForEverIff` | apps/api/src/modules/auth/token.service.ts:68-87 | a family whose tokens are all revoked stays so in every continuation if and only if no call is in the middle of rotating one of them |
| `TokensInterleaved.OneLiveStaysIff` | apps/api/src/modules/auth/token.service.ts:57-119 | a database step keeps one live token per family if and only if it is not a creation in a family that has a live token |
| `TokensInterleaved.CallsInTurnAreSafe` | apps/api/src/modules/auth/token.service.ts:57-99 | in every run in which a call reads only while no other call is under way for its family, each family has at most one live token, and a closed family has none ever after, however calls interleave from then on |
| `SingleFlight.ApiClient.RefreshAccessToken` | apps/web/lib/api.ts:22-41 | joins the refresh under way, or starts one with the present cookie |
| `SingleFlight.ApiClient.HandleUnauthorized` | apps/web/lib/api.ts:59-62 | a 401 waits for a refresh on the first try and gives up on the second |
| `SingleFlight.ApiClient.HandleAnswer` | apps/web/lib/api.ts:30-38 | an answer sets the cookie if it brings one, clears the shared refresh and wakes its waiters |
| `SingleFlight.ReadFindsUsable` | apps/api/src/modules/auth/token.service.ts:59-69 | the server finds the tab's token usable whenever it reads it |
| `SingleFlight.MoveKeeps` | apps/web/lib/api.ts:20-62 | each step of tab, network and server keeps the invariant, and a refusal is impossible |
| `SingleFlight.SingleFlightRefresh` | apps/web/lib/api.ts:20-62 | any number of 401s in any interleaving: at most one refresh in flight, at most one live token in the family, which is the cookie until the server revokes it, none between that and its replacement, and then the token in the answer; reuse detection never fires, and whoever waits waits for a refresh that exists |
| `SingleFlight.NothingSetsItBack` | apps/web/lib/api.ts:20-62 | while a request waits, every step of its refresh takes it one of at most four steps on, and no other step sets it back |
| `SingleFlight.NobodyIsStuck` | apps/web/lib/api.ts:20-62 | in every reachable world a waiting request is at most four possible steps of its own refresh away from being sent once more |
| `RequestOutcomes.AtMostTwoRefusals` | apps/web/lib/api.ts:59-62 | over any moves a request meets at most two 401s, at most one once it has met one, and none once it is settled |
| `RequestOutcomes.SecondRefusalIsFinal` | apps/web/lib/api.ts:59-67 | a 401 on a request that has been sent once more settles it as unauthorized for good |
| `RequestOutcomes.RequestsEndAsAnswered` | apps/web/lib/api.ts:43-71 | after a restored session a request has failed as unauthorized if and only if it has met two 401s, has succeeded if and only if it has had another response, and waits or has been sent once more if and only if it has met one 401 and nothing else |
| `Presence.RealtimeGateway.AddPresence` | apps/api/src/modules/realtime/realtime.gateway.ts:166-172 | adds one to the user's count, from 0 |
| `Presence.RealtimeGateway.RoomPresence` | apps/api/src/modules/realtime/realtime.gateway.ts:188-190 | lists the room's users, each once |
| `Presence.RealtimeGateway.FinishJoin` | apps/api/src/modules/realtime/realtime.gateway.ts:113-125 | after the database's answer: room, count, sync to the client, join to the others |
| `Presence.RealtimeGateway.LeaveRoom` | apps/api/src/modules/realtime/realtime.gateway.ts:174-186 | takes one from the count, and at 0 the entry, with a leave to the room |
| `Presence.RealtimeGateway.OnLeave` | apps/api/src/modules/realtime/realtime.gateway.ts:128-133 | leaves the room if the client holds it |
| `Presence.RealtimeGateway.HandleDisconnect` | apps/api/src/modules/realtime/realtime.gateway.ts:90-94 | leaves each of the client's rooms once |
| `Presence.RealtimeGateway.OnCursor` | apps/api/src/modules/realtime/realtime.gateway.ts:135-149 | tells the others in the room, if the client holds it and its user is listed |
| `PresenceRuns.ActionCounts` | apps/api/src/modules/realtime/realtime.gateway.ts:90-186 | every action keeps counts at or above the number of holders; exact counts stay exact if and only if the action is not the completion of a re-join |
| `PresenceRuns.PresenceIsSafe` | apps/api/src/modules/realtime/realtime.gateway.ts:90-186 | in every interleaving of join requests, completions, leaves and disconnects no holder is missing from the roster, and without re-joins nobody else is on it |
| `PresenceRuns.NoneStuckIff` | apps/api/src/modules/realtime/realtime.gateway.ts:90-126 | with no disconnected client in any room, an action keeps it so if and only if it is not the completion of a join whose client has disconnected |
| `PresenceRuns.RosterIsConnectedHolders` | apps/api/src/modules/realtime/realtime.gateway.ts:90-186 | in every run without re-joins and such late completions a room's roster is exactly the users with a connected client in it |
| `PresenceRuns.RejoinLeavesGhost` | apps/api/src/modules/realtime/realtime.gateway.ts:113-122 | joining twice and leaving once keeps a user who holds nothing on the roster |
| `PresenceRuns.LateJoinIsNeverLeft` | apps/api/src/modules/realtime/realtime.gateway.ts:97-126 | a room held by a disconnected client keeps its user on the roster in every continuation |
| `PresenceRuns.LateJoinIsReachable` | apps/api/src/modules/realtime/realtime.gateway.ts:97-126 | connect, join request, disconnect, and then the database's answer leave a disconnected client holding the room |
| `Roster.JoinedLists` | apps/web/lib/use-board-realtime.ts:41-46 | the join and leave handlers add and remove one user of a list without repetitions |
| `Roster.CursorIsShown` | apps/api/src/modules/realtime/realtime.gateway.ts:135-149 | a cursor move puts its user last on the lists of the room's other clients, and changes no other list |
| `Roster.RostersConverge` | apps/web/lib/use-board-realtime.ts:40-46 | with in-order delivery, a client that asks for a room only while it has no request for another pending and holds no other, and that has taken in its events, shows exactly the room's users, each once, whatever other clients do |
| `Roster.AsksForOneIff` | apps/web/lib/use-board-realtime.ts:21-58 | a client's pending requests and its room stay one and the same if and only if its next request is of that kind; then it never takes up a room beside another |
| `Roster.DisorderlyCanHoldTwoRooms` | apps/api/src/modules/realtime/realtime.gateway.ts:97-126 | any other request has a continuation in which its client holds two rooms and the next user to join one is shown in the other |
| `Roster.TwoRoomsShareOneList` | apps/web/lib/use-board-realtime.ts:40-46 | a client that holds two rooms shows a user of one as present in the other |
| `Roster.QuickSwitchHoldsTwoRooms` | apps/api/src/modules/realtime/realtime.gateway.ts:97-133 | leaving one room and asking for another before the first request is answered leads to that situation from the start |
| `Orgs.OrgsService.Create` | apps/api/src/modules/orgs/orgs.service.ts:30-41 | refuses a taken slug, else makes the creator OWNER |
| `Orgs.OrgsService.Add` | apps/api/src/modules/orgs/orgs.service.ts:97-146 | sets a known user's role, or writes the address's one invite with a new token |
| `Orgs.OrgsService.Accept` | apps/api/src/modules/orgs/orgs.service.ts:184-216 | refuses unknown, used, expired or foreign invites, else sets the role and burns the invite |
| `Orgs.OrgsService.UpdateMemberRole` | apps/api/src/modules/orgs/orgs.service.ts:230-247 | refuses strangers and owners, else sets the role |
| `Orgs.OrgsService.Remove` | apps/api/src/modules/orgs/orgs.service.ts:261-270 | refuses strangers and owners, else deletes the membership |
| `Orgs.OrgsService.FindInvite` | apps/api/src/modules/orgs/orgs.service.ts:185-195 | finds the one row with the token, if there is one |
| `OrgsRuns.RunKeepsInv` | apps/api/src/modules/orgs/orgs.service.ts:97-270 | in every run only an organisation's creator is ever OWNER, no invite offers OWNER, and tokens are unique |
| `OrgsRuns.OwnerStaysIff` | apps/api/src/modules/orgs/orgs.service.ts:107-112 | an operation leaves an owner OWNER if and only if it does not upsert that owner's membership |
| `OrgsRuns.CreatorStaysOwner` | apps/api/src/modules/orgs/orgs.service.ts:97-270 | the creator stays OWNER in every run without such an upsert |
| `OrgsRuns.AddingTheOwnerDemotes` | apps/api/src/modules/orgs/orgs.service.ts:107-112 | inviting the owner by their own address leaves the organisation without an owner |
| `OrgsRuns.OwnerlessForEver` | apps/api/src/modules/orgs/orgs.service.ts:97-270 | an organisation that has lost its owner never gets one again |
| `OrgsRuns.BurntForEver` | apps/api/src/modules/orgs/orgs.service.ts:184-216 | a token that no open invite carries is refused in every later run |
| `OrgsRuns.RedeemedOnce` | apps/api/src/modules/orgs/orgs.service.ts:179-216 | redeeming gives the invite's role to the matching address, and the token is refused ever after |
| `OrgsRuns.ReinvitingKillsTheOldToken` | apps/api/src/modules/orgs/orgs.service.ts:128-136 | after re-inviting an address its earlier token is refused ever after |
| `OrgsRuns.OneRedeemableToken` | apps/api/src/modules/orgs/orgs.service.ts:128-146 | in every run an address has at most one redeemable token per organisation |
| `OrgsLaws.RefusedAsTold` | apps/api/src/modules/orgs/orgs.service.ts:30-270 | exactly when each operation is refused, and with which error; a refused one changes nothing |
| `OrgsLaws.RoleIsLastGiven` | apps/api/src/modules/orgs/orgs.service.ts:30-270 | in every run, whether and in which role somebody is a member is what the last successful operation about that membership left |
| `OrgsLaws.RemovedIsOut` | apps/api/src/modules/orgs/orgs.service.ts:261-270 | after a successful removal the user is no member in any later run that does not admit them anew |
| `OrgsLaws.RoleIsAsAsked` | apps/api/src/modules/orgs/orgs.service.ts:106-112 | a role asked for, of a member or of somebody with an account, is the role until another operation succeeds on that membership |
| `OrgsLaws.CreatorOwns` | apps/api/src/modules/orgs/orgs.service.ts:34-41 | so is OWNER for whoever creates an organisation |
| `OrgsLaws.SuccessTakes` | apps/api/src/modules/orgs/orgs.service.ts:31-41 | a registered address and a created slug stay with whom they have, in every later run |
| `OrgsLaws.InviteIsAsAsked` | apps/api/src/modules/orgs/orgs.service.ts:126-216 | until an invited address is invited again or its token redeemed, the token is accepted from that address exactly up to seven days after the invitation, refused to others, and gives the role asked for |
| `Slug.SlugifyJoinsWords` | apps/api/src/modules/auth/auth.service.ts:12-19 | for any lower-casing, the slug is the lower-cased name's maximal runs of [a-z0-9] joined by dashes, cut to 40 characters |
| `Slug.SlugShape` | apps/api/src/modules/auth/auth.service.ts:12-19 | only [a-z0-9-], no leading or double dash, at most 40 long, a trailing dash only from the cut, empty exactly without letter or digit |
| `Slug.CandidatesDiffer` | apps/api/src/modules/auth/auth.service.ts:97-99 | the candidates base, base-1, base-2, ... are pairwise different |
| `Slug.BaseSlugIs` | apps/api/src/modules/auth/auth.service.ts:96 | the base is the slugified name, or "org" exactly when the lower-cased name has no letter or digit |
| `Slug.CandidateIsNumbered` | apps/api/src/modules/auth/auth.service.ts:97-99 | candidate 0 is the base; candidate k is the base, a dash, and the usual decimal spelling of k |
| `Slug.AllocateSlug` | apps/api/src/modules/auth/auth.service.ts:94-100 | the slug is the base when that is free, else base-n for the least n from 1 on that is free, after at most one probe more than there are slugs in use |

## Left out

- Prisma, Postgres, Redis, BullMQ, S3, Stripe, SMTP and Sentry: tables are maps by their keys in `schema.prisma`; new ids, tokens and families are parameters taken to be new; clocks are parameters.
- Hashing of tokens: SHA-256 is taken as injective, so tokens stand for their hashes.
- String comparison in the database: taken to be by character code, which is JavaScript's order on strings without surrogate pairs.
- `resolveProject`: a project is named by its id instead of its key.
- Labels, audit records, notifications, cursor pagination, filters and text search of `list`: they do not touch ranks, columns or the event stream.
- The order of `Array.prototype.sort` on equal ranks: the comparator never answers "equal", and results are claimed for distinct ranks only; the sort itself is an insertion sort.
- `cancelQueries` and the refetch that `invalidateQueries` starts: a refetch is a new snapshot, which the replay theorem covers.
- Move requests that overtake each other, drags decided on a stale column, and a rollback under a later optimistic patch: in the drag runs the server takes one user's requests in the order of the gestures.
- The library's `toLowerCase` in `slugify`: a parameter of the model, any function on strings.
- Rank.RankBetween: strings with surrogate pairs, where a position here is two code units in JavaScript; no rank has one.
- `Orgs.Lower`: ASCII letters only.
- `acceptInvite` and `addMember` interleaved with each other: each operation is one step.
- Names, avatars and cursor positions in presence entries: entries are user ids and counts. Rooms are named by their project, which belongs to one organisation.
- Presence across API nodes, and socket authentication, which is taken as finished before the first join.
- Several tabs sharing one cookie, lost refresh responses, login or logout during a refresh, and expiry before the server reads the token: the shared-refresh theorem assumes none of these.
- JWT signing, bcrypt, cookies, throttling, guards, the role matrix, row-level security and the zod pipes, except that the request schemas never grant the OWNER role (`packages/types/src/schemas.ts`).
- The seed's upserts on a database that already has rows, and the titles, priorities and assignees it writes: the model seeds an empty database, and of its issues number, status and rank.
- React rendering and dnd-kit: only grouping, the drag handler and the cache patches are modelled.
