/** How a request of the browser ends: apps/web/lib/api.ts, over whole runs of the tab. */
module RequestOutcomes {
  import opened Wrappers
  import opened SingleFlight

  function StateOf(w: World, r: RequestId): Option<Request> {
    if r in w.client.requests then Some(w.client.requests[r]) else None
  }

  /** The 401s among the moves that answer the request. */
  function Refusals(moves: seq<Move>, r: RequestId): nat {
    if moves == [] then 0
    else (if moves[0].Unauthorized? && moves[0].request == r then 1 else 0) + Refusals(moves[1..], r)
  }

  /** The other responses to it. */
  function Successes(moves: seq<Move>, r: RequestId): nat {
    if moves == [] then 0
    else (if moves[0] == Ok(r) then 1 else 0) + Successes(moves[1..], r)
  }

  /** The 401s a request can still meet. */
  function RefusalsLeft(state: Option<Request>): nat {
    match state
    case None => 2
    case Some(Pending(true)) => 2
    case Some(Pending(false)) => 1
    case Some(Awaiting(_)) => 1
    case Some(Settled(_)) => 0
  }

  /** A request meets at most two 401s, one if it has met one, whatever happens in whatever order. */
  lemma {:induction false} AtMostTwoRefusals(w: World, moves: seq<Move>, r: RequestId)
    requires AllPossible(w, moves)
    ensures Refusals(moves, r) + RefusalsLeft(StateOf(RunOf(w, moves), r)) <= RefusalsLeft(StateOf(w, r))
    decreases |moves|
  {
    if moves != [] {
      AtMostTwoRefusals(Moved(w, moves[0]), moves[1..], r);
    }
  }

  lemma {:induction false} SettledStays(w: World, moves: seq<Move>, r: RequestId, unauthorized: bool)
    requires AllPossible(w, moves) && StateOf(w, r) == Some(Settled(unauthorized))
    ensures StateOf(RunOf(w, moves), r) == Some(Settled(unauthorized))
    decreases |moves|
  {
    if moves != [] {
      SettledStays(Moved(w, moves[0]), moves[1..], r, unauthorized);
    }
  }

  /** A 401 on a request that has been sent once more settles it, as unauthorized, for good. */
  lemma SecondRefusalIsFinal(w: World, r: RequestId, flight: FlightId, moves: seq<Move>)
    requires StateOf(w, r) == Some(Pending(false)) && Possible(w, Unauthorized(r, flight))
    requires AllPossible(Moved(w, Unauthorized(r, flight)), moves)
    ensures StateOf(RunOf(Moved(w, Unauthorized(r, flight)), moves), r) == Some(Settled(true))
  {
    SettledStays(Moved(w, Unauthorized(r, flight)), moves, r, true);
  }

  /** What the responses a request has had make of it. */
  predicate Accounts(state: Option<Request>, successes: nat, refusals: nat) {
    match state
    case None => successes == 0 && refusals == 0
    case Some(Pending(retry)) => successes == 0 && refusals == if retry then 0 else 1
    case Some(Awaiting(_)) => successes == 0 && refusals == 1
    case Some(Settled(unauthorized)) =>
      if unauthorized then successes == 0 && refusals == 2 else successes == 1 && refusals <= 1
  }

  lemma StepAccounts(w: World, m: Move, r: RequestId, successes: nat, refusals: nat)
    requires InFlight(w) && Possible(w, m) && Accounts(StateOf(w, r), successes, refusals)
    ensures Accounts(StateOf(Moved(w, m), r), successes + Successes([m], r), refusals + Refusals([m], r))
  {
    assert [m][1..] == [];
    if m.Receive? {
      assert w.client.refreshing == Some(m.flight);
    }
  }

  lemma CountsOfFirst(moves: seq<Move>, r: RequestId)
    requires moves != []
    ensures Successes(moves, r) == Successes([moves[0]], r) + Successes(moves[1..], r)
    ensures Refusals(moves, r) == Refusals([moves[0]], r) + Refusals(moves[1..], r)
  {
    assert [moves[0]][1..] == [];
  }

  lemma {:induction false} RunAccounts(w: World, moves: seq<Move>, r: RequestId, successes: nat, refusals: nat)
    requires InFlight(w) && AllPossible(w, moves) && Accounts(StateOf(w, r), successes, refusals)
    ensures Accounts(StateOf(RunOf(w, moves), r), successes + Successes(moves, r), refusals + Refusals(moves, r))
    decreases |moves|
  {
    if moves != [] {
      var m := moves[0];
      StepAccounts(w, m, r, successes, refusals);
      MoveKeeps(w, m);
      CountsOfFirst(moves, r);
      RunAccounts(Moved(w, m), moves[1..], r, successes + Successes([m], r), refusals + Refusals([m], r));
    }
  }

  /**
   After a restored session a request fails as unauthorized exactly when it has met two 401s,
   succeeds exactly when it has had another response, waits or has been sent once more exactly
   between its first 401 and its next response.
   */
  lemma RequestsEndAsAnswered(w: World, moves: seq<Move>, r: RequestId)
    requires Restored(w) && AllPossible(w, moves)
    ensures Accounts(StateOf(RunOf(w, moves), r), Successes(moves, r), Refusals(moves, r))
  {
    RunAccounts(w, moves, r, 0, 0);
  }
}
