/**
 One browser tab against the token service: apps/web/lib/api.ts composed with
 apps/api/src/modules/auth/token.service.ts. Requests that meet a 401 share one refresh; the
 server interleaves the tab's refresh with calls of other families.

 Assumed: the session has been restored, responses are not lost, nobody logs in or out
 during a refresh, and the token does not expire before the server reads it.
 */
module SingleFlight {
  import opened Arithmetic
  import opened Wrappers
  import opened Tokens
  import opened TokensInterleaved

  type RequestId = nat
  type FlightId = nat

  /** One call of fetch to the refresh endpoint. */
  datatype Flight =
    /** on its way, with the cookie it was sent with */
    | Sent(cookie: Token)
    /** being served by a session of the token service */
    | Serving(session: SessionId)
    /** the answer on its way back: the new cookie, or a refusal */
    | Answered(answer: Option<Token>)

  /** One call of `request`: `retry` is its last parameter. */
  datatype Request =
    | Pending(retry: bool)
    /** waiting for a refresh */
    | Awaiting(flight: FlightId)
    | Settled(unauthorized: bool)

  /** The module state of api.ts, and the browser's cookie jar. */
  datatype Client = Client(
    cookie: Token, refreshing: Option<FlightId>,
    flights: map<FlightId, Flight>, requests: map<RequestId, Request>)

  datatype World = World(server: State, client: Client, family: FamilyId)

  datatype Move =
    | Start(request: RequestId)
    /** a response to a request that is not a 401 */
    | Ok(request: RequestId)
    /** a 401; `flight` names the refresh, if the request starts one */
    | Unauthorized(request: RequestId, flight: FlightId)
    /** the server picks the refresh up, and takes one database step for it */
    | Read(flight: FlightId, session: SessionId, now: Instant)
    | Revoke(flight: FlightId)
    | Mint(flight: FlightId, minted: Token, expiresAt: Instant)
    | Refuse(flight: FlightId)
    /** the response arrives: cookie, token store, and `refreshing = null` */
    | Receive(flight: FlightId)
    /** a step of another call of the token service */
    | Elsewhere(action: Action)

  // ---- the client's own functions ----------------------------------------------

  /** A 401: `refreshing ??=` joins the refresh under way or starts one; the retry gives up. */
  function On401(c: Client, request: RequestId, flight: FlightId): Client
    requires request in c.requests && c.requests[request].Pending?
  {
    if !c.requests[request].retry then c.(requests := c.requests[request := Settled(true)])
    else if c.refreshing.Some? then c.(requests := c.requests[request := Awaiting(c.refreshing.value)])
    else c.(requests := c.requests[request := Awaiting(flight)],
            refreshing := Some(flight),
            flights := c.flights[flight := Sent(c.cookie)])
  }

  /** Those that waited for the refresh go on: once more with a fresh token, or not at all. */
  function Woken(requests: map<RequestId, Request>, flight: FlightId, refreshed: bool): map<RequestId, Request> {
    map r | r in requests ::
      if requests[r] == Awaiting(flight) then (if refreshed then Pending(false) else Settled(true)) else requests[r]
  }

  function OnAnswer(c: Client, flight: FlightId): Client
    requires flight in c.flights && c.flights[flight].Answered?
  {
    var answer := c.flights[flight].answer;
    c.(cookie := answer.GetOr(c.cookie), refreshing := None,
       flights := c.flights - {flight}, requests := Woken(c.requests, flight, answer.Some?))
  }

  /** The module variables of api.ts, changed in place. */
  class ApiClient {
    var cookie: Token
    var refreshing: Option<FlightId>
    var flights: map<FlightId, Flight>
    var requests: map<RequestId, Request>

    function State(): Client
      reads this
    {
      Client(cookie, refreshing, flights, requests)
    }

    /** refreshAccessToken, up to the await: answers which refresh to wait for. */
    method RefreshAccessToken(flight: FlightId) returns (joined: FlightId)
      modifies this
      ensures old(refreshing).Some? ==> joined == old(refreshing).value && State() == old(State())
      ensures old(refreshing).None? ==>
                && joined == flight
                && State() == old(State()).(refreshing := Some(flight),
                                            flights := old(flights)[flight := Sent(old(cookie))])
    {
      if refreshing.None? {
        flights := flights[flight := Sent(cookie)];
        refreshing := Some(flight);
      }
      joined := refreshing.value;
    }

    /** The 401 branch of `request`. */
    method HandleUnauthorized(request: RequestId, flight: FlightId)
      requires request in requests && requests[request].Pending?
      modifies this
      ensures State() == On401(old(State()), request, flight)
    {
      if requests[request].retry {
        var joined := RefreshAccessToken(flight);
        requests := requests[request := Awaiting(joined)];
      } else {
        requests := requests[request := Settled(true)];
      }
    }

    /** The rest of refreshAccessToken, `finally` included, and the callers it wakes. */
    method HandleAnswer(flight: FlightId)
      requires flight in flights && flights[flight].Answered?
      modifies this
      ensures State() == OnAnswer(old(State()), flight)
    {
      var answer := flights[flight].answer;
      if answer.Some? {
        cookie := answer.value;
      }
      refreshing := None;
      flights := flights - {flight};
      requests := Woken(requests, flight, answer.Some?);
    }
  }

  // ---- steps -------------------------------------------------------------------

  /** The step of the token service a move is. */
  function ServerAction(w: World, m: Move): Option<Action> {
    match m
    case Read(flight, session, now) =>
      if flight in w.client.flights && w.client.flights[flight].Sent?
      then Some(ReadForRotate(session, w.client.flights[flight].cookie, now)) else None
    case Revoke(flight) => if IsServing(w, flight) then Some(Consume(w.client.flights[flight].session)) else None
    case Mint(flight, minted, expiresAt) =>
      if IsServing(w, flight) then Some(Create(w.client.flights[flight].session, minted, expiresAt)) else None
    case Refuse(flight) => if IsServing(w, flight) then Some(Condemn(w.client.flights[flight].session)) else None
    case Elsewhere(action) => Some(action)
    case _ => None
  }

  predicate IsServing(w: World, flight: FlightId) {
    flight in w.client.flights && w.client.flights[flight].Serving?
  }

  /** Another call: not one of the tab's sessions, and not with a token of the tab's family. */
  ghost predicate IsElsewhere(w: World, a: Action) {
    && (forall f | f in w.client.flights && w.client.flights[f].Serving? ::
          SessionOf(a) != Some(w.client.flights[f].session))
    && (a.ReadForRotate? || a.ReadForRevoke? ==>
          a.presented in w.server.rows ==> w.server.rows[a.presented].family != w.family)
  }

  ghost predicate Possible(w: World, m: Move) {
    && (ServerAction(w, m).Some? ==> Enabled(w.server, ServerAction(w, m).value))
    && match m
       case Start(request) => request !in w.client.requests
       case Ok(request) => request in w.client.requests && w.client.requests[request].Pending?
       case Unauthorized(request, flight) =>
         request in w.client.requests && w.client.requests[request].Pending? && flight !in w.client.flights
       case Read(flight, _, now) =>
         && flight in w.client.flights && w.client.flights[flight].Sent?
         // no expiry before the server reads the token
         && var t := w.client.flights[flight].cookie;
            t in w.server.rows ==> now <= w.server.rows[t].expiresAt
       case Revoke(flight) => IsServing(w, flight)
       case Mint(flight, _, _) => IsServing(w, flight)
       case Refuse(flight) => IsServing(w, flight)
       case Receive(flight) => flight in w.client.flights && w.client.flights[flight].Answered?
       case Elsewhere(action) => IsElsewhere(w, action)
  }

  ghost function Moved(w: World, m: Move): World
    requires Possible(w, m)
  {
    var server := if ServerAction(w, m).Some? then Next(w.server, ServerAction(w, m).value) else w.server;
    var c := w.client;
    var client :=
      match m
      case Start(request) => c.(requests := c.requests[request := Pending(true)])
      case Ok(request) => c.(requests := c.requests[request := Settled(false)])
      case Unauthorized(request, flight) => On401(c, request, flight)
      case Read(flight, session, _) =>
        if server.sessions[session].Finished? then c.(flights := c.flights[flight := Answered(None)])
        else c.(flights := c.flights[flight := Serving(session)])
      case Revoke(_) => c
      case Mint(flight, minted, _) => c.(flights := c.flights[flight := Answered(Some(minted))])
      case Refuse(flight) => c.(flights := c.flights[flight := Answered(None)])
      case Receive(flight) => OnAnswer(c, flight)
      case Elsewhere(_) => c;
    World(server, client, w.family)
  }

  // ---- the invariant -----------------------------------------------------------

  /**
   What a flight says of the server: sent, the cookie it was sent with is the one live token
   of the family; being served, the cookie is the one live token until it is revoked, and
   from then on the family has none until the successor is created; answered, the token in
   the answer is the one live token.
   */
  ghost predicate FlightOk(w: World, flight: Flight) {
    match flight
    case Sent(cookie) => cookie == w.client.cookie && OnlyLive(w.server.rows, w.family, cookie)
    case Serving(session) =>
      && session in w.server.sessions
      && (match w.server.sessions[session]
          case SawUsable(t, f, _) => t == w.client.cookie && f == w.family && OnlyLive(w.server.rows, w.family, t)
          case Consumed(t, f, _) =>
            t == w.client.cookie && f == w.family && forall u :: !Live(w.server.rows, w.family, u)
          case _ => false)
    case Answered(answer) => answer.Some? && OnlyLive(w.server.rows, w.family, answer.value)
  }

  ghost predicate InFlight(w: World) {
    && w.client.flights.Keys == (if w.client.refreshing.Some? then {w.client.refreshing.value} else {})
    && (w.client.refreshing.Some? ==> FlightOk(w, w.client.flights[w.client.refreshing.value]))
    && (w.client.refreshing.None? ==> OnlyLive(w.server.rows, w.family, w.client.cookie))
    && w.family in w.server.rotations
    && Remembers(w.server)
    // no other session is about the tab's family
    && (forall i | i in w.server.sessions && Concerns(w.server.sessions[i], w.family) ::
          && w.client.refreshing.Some?
          && w.client.flights[w.client.refreshing.value] == Serving(i))
    // whoever waits, waits for the refresh under way
    && (forall r | r in w.client.requests && w.client.requests[r].Awaiting? ::
          w.client.refreshing == Some(w.client.requests[r].flight))
  }

  // ---- each move keeps it ------------------------------------------------------

  /** Another call's step leaves the tab's family, and the sessions about it, alone. */
  lemma ElsewhereLeavesFamily(w: World, a: Action)
    requires InFlight(w) && IsElsewhere(w, a) && Enabled(w.server, a)
    ensures var next := Next(w.server, a);
            && (forall t :: Live(next.rows, w.family, t) <==> Live(w.server.rows, w.family, t))
            && w.family in next.rotations
            && (forall i :: (i in next.sessions && Concerns(next.sessions[i], w.family)) <==>
                            (i in w.server.sessions && Concerns(w.server.sessions[i], w.family)))
            && (forall i | i in w.server.sessions && Some(i) != SessionOf(a) ::
                  i in next.sessions && next.sessions[i] == w.server.sessions[i])
  {
    if a.Consume? || a.Create? || a.Condemn? {
      assert !Concerns(w.server.sessions[a.session], w.family);
    }
  }

  lemma ElsewhereKeeps(w: World, a: Action)
    requires InFlight(w) && IsElsewhere(w, a) && Enabled(w.server, a)
    ensures InFlight(w.(server := Next(w.server, a)))
  {
    var next := w.(server := Next(w.server, a));
    ElsewhereLeavesFamily(w, a);
    ServerRemembers(w.server, a);
    if w.client.refreshing.Some? {
      var flight := w.client.flights[w.client.refreshing.value];
      if flight.Serving? {
        assert Some(flight.session) != SessionOf(a);
        assert next.server.sessions[flight.session] == w.server.sessions[flight.session];
      }
      assert FlightOk(next, flight);
    }
  }

  lemma ServerRemembers(s: State, a: Action)
    requires Remembers(s) && Enabled(s, a)
    ensures Remembers(Next(s, a))
  {
  }

  /** The server finds the tab's token usable: reuse detection does not fire on it. */
  lemma ReadFindsUsable(w: World, m: Move)
    requires InFlight(w) && m.Read? && Possible(w, m)
    ensures Verdict(w.server.rows, w.client.flights[m.flight].cookie, m.now).SawUsable?
  {
    assert w.client.refreshing == Some(m.flight);
  }

  lemma ReadKeeps(w: World, m: Move)
    requires InFlight(w) && m.Read? && Possible(w, m)
    ensures InFlight(Moved(w, m))
  {
    ReadFindsUsable(w, m);
    ServerRemembers(w.server, ServerAction(w, m).value);
    var next := Moved(w, m);
    assert w.client.refreshing == Some(m.flight);
    assert FlightOk(next, next.client.flights[m.flight]);
  }

  lemma RevokeKeeps(w: World, m: Move)
    requires InFlight(w) && m.Revoke? && Possible(w, m)
    ensures InFlight(Moved(w, m))
  {
    ServerRemembers(w.server, ServerAction(w, m).value);
    var next := Moved(w, m);
    assert w.client.refreshing == Some(m.flight);
    forall u ensures !Live(next.server.rows, w.family, u) {
      assert Live(next.server.rows, w.family, u) ==> Live(w.server.rows, w.family, u);
    }
    assert FlightOk(next, next.client.flights[m.flight]);
  }

  lemma MintKeeps(w: World, m: Move)
    requires InFlight(w) && m.Mint? && Possible(w, m)
    ensures InFlight(Moved(w, m))
  {
    ServerRemembers(w.server, ServerAction(w, m).value);
    var next := Moved(w, m);
    assert w.client.refreshing == Some(m.flight);
    forall u | Live(next.server.rows, w.family, u) ensures u == m.minted {
      assert u != m.minted ==> Live(w.server.rows, w.family, u);
    }
    assert FlightOk(next, next.client.flights[m.flight]);
  }

  lemma MoveKeeps(w: World, m: Move)
    requires InFlight(w) && Possible(w, m)
    ensures InFlight(Moved(w, m)) && !m.Refuse?
  {
    match m
    case Elsewhere(a) => ElsewhereKeeps(w, a);
    case Read(_, _, _) => ReadKeeps(w, m);
    case Revoke(_) => RevokeKeeps(w, m);
    case Mint(_, _, _) => MintKeeps(w, m);
    case Refuse(_) => assert false;
    case Start(_) =>
    case Ok(_) =>
    case Unauthorized(_, _) =>
    case Receive(flight) =>
      assert w.client.refreshing == Some(flight);
  }

  ghost predicate AllPossible(w: World, moves: seq<Move>)
    decreases |moves|
  {
    moves == [] || (Possible(w, moves[0]) && AllPossible(Moved(w, moves[0]), moves[1..]))
  }

  ghost function RunOf(w: World, moves: seq<Move>): World
    requires AllPossible(w, moves)
    decreases |moves|
  {
    if moves == [] then w else RunOf(Moved(w, moves[0]), moves[1..])
  }

  lemma {:induction false} RunKeeps(w: World, moves: seq<Move>)
    requires InFlight(w) && AllPossible(w, moves)
    ensures InFlight(RunOf(w, moves))
    ensures forall m | m in moves :: !m.Refuse?
    decreases |moves|
  {
    if moves != [] {
      MoveKeeps(w, moves[0]);
      RunKeeps(Moved(w, moves[0]), moves[1..]);
    }
  }

  /** A restored session: the cookie is the one live token of its family, and no call is about it. */
  ghost predicate Restored(w: World) {
    && w.client.refreshing.None? && w.client.flights == map[] && w.client.requests == map[]
    && OnlyLive(w.server.rows, w.family, w.client.cookie)
    && w.family in w.server.rotations && Remembers(w.server)
    && forall i | i in w.server.sessions :: !Concerns(w.server.sessions[i], w.family)
  }

  /**
   Any number of requests meeting 401s in any order, interleaved with the server's steps for
   them and for everyone else: at most one refresh is in flight; the family's one live token
   is the cookie, or the one in the answer on its way, or the cookie has just been revoked to
   be replaced; reuse detection never closes the family; and every waiting request waits for a
   refresh that is under way.
   */
  lemma SingleFlightRefresh(w: World, moves: seq<Move>)
    requires Restored(w) && AllPossible(w, moves)
    ensures var end := RunOf(w, moves);
            && |end.client.flights| <= 1
            && (forall m | m in moves :: !m.Refuse?)
            && (forall t, u :: Live(end.server.rows, w.family, t) && Live(end.server.rows, w.family, u) ==> t == u)
            && end.family == w.family
            && (forall f | f in end.client.flights :: FlightOk(end, end.client.flights[f]))
            && (end.client.flights == map[] ==> OnlyLive(end.server.rows, w.family, end.client.cookie))
            && (forall r | r in end.client.requests && end.client.requests[r].Awaiting? ::
                  end.client.requests[r].flight in end.client.flights)
  {
    RunKeeps(w, moves);
    SameFamily(w, moves);
    var end := RunOf(w, moves);
    if end.client.refreshing.Some? {
      assert end.client.flights.Keys == {end.client.refreshing.value};
    }
    assert |end.client.flights.Keys| <= 1;
  }

  lemma {:induction false} SameFamily(w: World, moves: seq<Move>)
    requires AllPossible(w, moves)
    ensures RunOf(w, moves).family == w.family
    decreases |moves|
  {
    if moves != [] {
      SameFamily(Moved(w, moves[0]), moves[1..]);
    }
  }

  // ---- progress ----------------------------------------------------------------

  /** The steps a refresh still has to go. */
  function StepsLeft(w: World, flight: FlightId): nat {
    if flight !in w.client.flights then 0
    else
      match w.client.flights[flight]
      case Sent(_) => 4
      case Serving(session) =>
        if session in w.server.sessions && w.server.sessions[session].SawUsable? then 3 else 2
      case Answered(_) => 1
  }

  /** A step of the refresh: the server's, or the arrival of the answer. */
  predicate IsStepOf(m: Move, flight: FlightId) {
    (m.Read? || m.Revoke? || m.Mint? || m.Receive?) && m.flight == flight
  }

  predicate Waits(w: World, r: RequestId, flight: FlightId) {
    r in w.client.requests && w.client.requests[r] == Awaiting(flight)
  }

  /** The next step of a refresh that a request waits for is possible, and takes it one step on. */
  lemma RefreshGoesOn(w: World, r: RequestId, flight: FlightId) returns (m: Move)
    requires InFlight(w) && Waits(w, r, flight)
    ensures IsStepOf(m, flight) && Possible(w, m) && InFlight(Moved(w, m))
    ensures StepsLeft(Moved(w, m), flight) == StepsLeft(w, flight) - 1
    ensures if StepsLeft(w, flight) == 1
            then r in Moved(w, m).client.requests && Moved(w, m).client.requests[r] == Pending(false)
            else Waits(Moved(w, m), r, flight)
  {
    assert w.client.refreshing == Some(flight) && flight in w.client.flights;
    match w.client.flights[flight] {
      case Sent(cookie) =>
        var session := AboveAll(w.server.sessions.Keys);
        m := Read(flight, session, w.server.rows[cookie].expiresAt);
        ReadFindsUsable(w, m);
      case Serving(session) =>
        if w.server.sessions[session].SawUsable? {
          m := Revoke(flight);
        } else {
          var minted := AboveAll(w.server.rows.Keys);
          m := Mint(flight, minted, 0);
        }
      case Answered(_) => m := Receive(flight);
    }
    MoveKeeps(w, m);
  }

  /** Every possible step of the refresh takes it one step on; no other step sets it back. */
  lemma NothingSetsItBack(w: World, m: Move, r: RequestId, flight: FlightId)
    requires InFlight(w) && Waits(w, r, flight) && Possible(w, m)
    ensures StepsLeft(Moved(w, m), flight) == StepsLeft(w, flight) - if IsStepOf(m, flight) then 1 else 0
    ensures m != Receive(flight) ==> Waits(Moved(w, m), r, flight)
  {
    assert w.client.refreshing == Some(flight) && w.client.flights.Keys == {flight};
    match m
    case Read(_, _, _) => ReadFindsUsable(w, m);
    case Refuse(_) => MoveKeeps(w, m);
    case Elsewhere(a) =>
      if w.client.flights[flight].Serving? {
        assert Some(w.client.flights[flight].session) != SessionOf(a);
      }
    case _ =>
  }

  /**
   In every reachable world, a request that waits for a refresh needs at most four further
   steps, all of that refresh and all possible, to be sent once more.
   */
  lemma {:induction false} WaitingIsWoken(w: World, r: RequestId, flight: FlightId) returns (moves: seq<Move>)
    requires InFlight(w) && Waits(w, r, flight)
    ensures AllPossible(w, moves) && |moves| == StepsLeft(w, flight) <= 4
    ensures forall m | m in moves :: IsStepOf(m, flight)
    ensures var end := RunOf(w, moves); r in end.client.requests && end.client.requests[r] == Pending(false)
    decreases StepsLeft(w, flight)
  {
    var m := RefreshGoesOn(w, r, flight);
    if StepsLeft(w, flight) == 1 {
      moves := [m];
      assert moves[1..] == [];
    } else {
      var rest := WaitingIsWoken(Moved(w, m), r, flight);
      moves := [m] + rest;
      assert moves[1..] == rest;
    }
  }

  /** Whatever has happened since the session was restored, no request is left waiting for good. */
  lemma NobodyIsStuck(w: World, moves: seq<Move>, r: RequestId, flight: FlightId) returns (further: seq<Move>)
    requires Restored(w) && AllPossible(w, moves) && Waits(RunOf(w, moves), r, flight)
    ensures |further| <= 4 && AllPossible(RunOf(w, moves), further) && forall m | m in further :: IsStepOf(m, flight)
    ensures var end := RunOf(RunOf(w, moves), further);
            r in end.client.requests && end.client.requests[r] == Pending(false)
  {
    RunKeeps(w, moves);
    further := WaitingIsWoken(RunOf(w, moves), r, flight);
  }
}
