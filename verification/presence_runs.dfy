/** Runs of the gateway: who is counted, who is listed, and what each client's roster shows. */
module PresenceRuns {
  import opened Presence

  datatype Action =
    | Connect(client: ClientId, user: UserId)
    | JoinRequest(join: JoinId, client: ClientId, room: Room)
    /** the database has answered; `users` is the roster the client is sent */
    | JoinDone(join: JoinId, allowed: bool, users: seq<UserId>)
    | Leave(client: ClientId, room: Room)
    | Cursor(client: ClientId, room: Room)
    /** `order` is the order in which the client's rooms are left */
    | Disconnect(client: ClientId, order: seq<Room>)

  predicate IsConnected(g: Gateway, client: ClientId) {
    client in g.clients && g.clients[client].connected
  }

  /** A completed join takes effect, connected or not. */
  predicate TakesEffect(g: Gateway, a: Action) {
    a.JoinDone? && a.join in g.joins && a.allowed && g.joins[a.join].client in g.clients
  }

  ghost predicate Enabled(g: Gateway, a: Action) {
    match a
    case Connect(client, _) => client !in g.clients
    case JoinRequest(join, client, _) => join !in g.joins && IsConnected(g, client)
    case JoinDone(join, allowed, users) =>
      && join in g.joins && g.joins[join].client in g.clients
      && (allowed ==>
            var j := g.joins[join];
            Lists(users, Present(Added(g.presence, j.room, g.clients[j.client].user), j.room)))
    case Leave(client, _) => IsConnected(g, client)
    case Cursor(client, room) => IsConnected(g, client) && room in g.clients[client].rooms
    case Disconnect(client, order) => IsConnected(g, client) && EnumeratesRooms(order, g.clients[client].rooms)
  }

  ghost function Next(g: Gateway, a: Action): Gateway
    requires Enabled(g, a)
  {
    match a
    case Connect(client, user) =>
      g.(clients := g.clients[client := Client(user, {}, true)], queues := g.queues[client := []])
    case JoinRequest(join, client, room) => g.(joins := g.joins[join := Join(client, room)])
    case JoinDone(join, allowed, users) =>
      var j := g.joins[join];
      var answered := g.(joins := g.joins - {join});
      if allowed then JoinedRoom(answered, j.client, j.room, users) else answered
    case Leave(client, room) => if room in g.clients[client].rooms then LeftRoom(g, client, room) else g
    case Cursor(client, room) => Cursored(g, client, room)
    case Disconnect(client, order) =>
      var left := LeftEach(g.(clients := g.clients[client := g.clients[client].(connected := false)]), client, order);
      left
  }

  ghost predicate AllEnabled(g: Gateway, actions: seq<Action>)
    decreases |actions|
  {
    actions == [] || (Enabled(g, actions[0]) && AllEnabled(Next(g, actions[0]), actions[1..]))
  }

  ghost function After(g: Gateway, actions: seq<Action>): Gateway
    requires AllEnabled(g, actions)
    decreases |actions|
  {
    if actions == [] then g else After(Next(g, actions[0]), actions[1..])
  }

  const EMPTY := Gateway(map[], map[], map[], map[])

  // ---- counts ------------------------------------------------------------------

  /** No count is below the number of the user's clients that hold the room. */
  ghost predicate Safe(g: Gateway) {
    && (forall room, user :: |Holders(g.clients, room, user)| <= SocketsOf(g.presence, room, user))
    && (forall room, user | room in g.presence && user in g.presence[room] :: g.presence[room][user] >= 1)
  }

  ghost predicate Exact(g: Gateway) {
    Safe(g) && forall room, user :: |Holders(g.clients, room, user)| == SocketsOf(g.presence, room, user)
  }

  /** The client joins a room it already holds. */
  predicate Rejoins(g: Gateway, a: Action) {
    TakesEffect(g, a) && g.joins[a.join].room in g.clients[g.joins[a.join].client].rooms
  }

  lemma HoldersAfterJoin(clients: map<ClientId, Client>, c: ClientId, room: Room, r: Room, u: UserId)
    requires c in clients
    ensures var after := clients[c := clients[c].(rooms := clients[c].rooms + {room})];
            |Holders(after, r, u)| == |Holders(clients, r, u)|
              + if r == room && u == clients[c].user && room !in clients[c].rooms then 1 else 0
  {
    var joined := clients[c].(rooms := clients[c].rooms + {room});
    HoldersOfChanged(clients, c, joined, r, u);
    var before, after := Holders(clients, r, u), Holders(clients[c := joined], r, u);
    if r == room && u == clients[c].user && room !in clients[c].rooms {
      assert c !in before && after == before + {c};
    } else {
      assert after == before;
    }
  }

  /** Changing one client adds it to the holders, or takes it from them. */
  lemma HoldersOfChanged(clients: map<ClientId, Client>, c: ClientId, changed: Client, r: Room, u: UserId)
    ensures Holders(clients[c := changed], r, u) ==
            if r in changed.rooms && changed.user == u then Holders(clients, r, u) + {c}
            else Holders(clients, r, u) - {c}
  {
  }

  lemma HoldersAfterLeave(clients: map<ClientId, Client>, c: ClientId, room: Room, r: Room, u: UserId)
    requires c in clients && room in clients[c].rooms
    ensures var after := clients[c := clients[c].(rooms := clients[c].rooms - {room})];
            |Holders(after, r, u)| == |Holders(clients, r, u)| - if r == room && u == clients[c].user then 1 else 0
  {
    var left := clients[c].(rooms := clients[c].rooms - {room});
    HoldersOfChanged(clients, c, left, r, u);
    if c in Holders(clients, r, u) && !(r in left.rooms && left.user == u) {
      assert |Holders(clients, r, u) - {c}| == |Holders(clients, r, u)| - 1;
    } else {
      assert Holders(clients[c := left], r, u) == Holders(clients, r, u);
    }
  }

  lemma SocketsAfterAdd(p: Sockets, room: Room, user: UserId, r: Room, u: UserId)
    ensures SocketsOf(Added(p, room, user), r, u) == SocketsOf(p, r, u) + if r == room && u == user then 1 else 0
  {
  }

  lemma JoinedCounts(g: Gateway, c: ClientId, room: Room, users: seq<UserId>)
    requires c in g.clients && Safe(g)
    ensures var after := JoinedRoom(g, c, room, users);
            && Safe(after)
            && (Exact(g) ==> (Exact(after) <==> room !in g.clients[c].rooms))
  {
    var after := JoinedRoom(g, c, room, users);
    var user := g.clients[c].user;
    forall r, u
      ensures |Holders(after.clients, r, u)| == |Holders(g.clients, r, u)|
                + if r == room && u == user && room !in g.clients[c].rooms then 1 else 0
      ensures SocketsOf(after.presence, r, u) == SocketsOf(g.presence, r, u) + if r == room && u == user then 1 else 0
    {
      HoldersAfterJoin(g.clients, c, room, r, u);
      SocketsAfterAdd(g.presence, room, user, r, u);
    }
    assert |Holders(after.clients, room, user)| == |Holders(g.clients, room, user)|
             + if room !in g.clients[c].rooms then 1 else 0;
  }

  lemma LeftCounts(g: Gateway, c: ClientId, room: Room)
    requires c in g.clients && room in g.clients[c].rooms && Safe(g)
    ensures var after := LeftRoom(g, c, room);
            && Safe(after)
            && (Exact(g) ==> Exact(after))
  {
    var after := LeftRoom(g, c, room);
    var user := g.clients[c].user;
    var holders := Holders(g.clients, room, user);
    assert c in holders;
    assert |holders| >= 1;
    forall r, u
      ensures |Holders(after.clients, r, u)| == |Holders(g.clients, r, u)| - if r == room && u == user then 1 else 0
      ensures SocketsOf(after.presence, r, u) == SocketsOf(g.presence, r, u) - if r == room && u == user then 1 else 0
    {
      HoldersAfterLeave(g.clients, c, room, r, u);
    }
  }

  lemma {:induction false} LeftEachCounts(g: Gateway, c: ClientId, order: seq<Room>)
    requires c in g.clients && EnumeratesRooms(order, g.clients[c].rooms) && Safe(g)
    ensures c in LeftEach(g, c, order).clients
    ensures Safe(LeftEach(g, c, order))
    ensures Exact(g) ==> Exact(LeftEach(g, c, order))
    ensures LeftEach(g, c, order).clients[c].rooms == {}
    decreases |order|
  {
    if order != [] {
      var next := LeftRoom(g, c, order[0]);
      assert order[0] in order;
      LeftCounts(g, c, order[0]);
      assert next.clients[c].rooms == g.clients[c].rooms - {order[0]};
      EnumeratedTail(order, g.clients[c].rooms);
      LeftEachCounts(next, c, order[1..]);
    }
  }

  lemma EnumeratedTail(order: seq<Room>, rooms: set<Room>)
    requires order != [] && EnumeratesRooms(order, rooms)
    ensures EnumeratesRooms(order[1..], rooms - {order[0]})
  {
    forall r ensures r in order[1..] <==> r in rooms - {order[0]} {
      if r in order[1..] {
        var i :| 0 <= i < |order[1..]| && order[1..][i] == r;
        assert order[i + 1] == r;
      }
    }
  }

  lemma SameHoldersSameCounts(g: Gateway, after: Gateway)
    requires Safe(g) && after.presence == g.presence
    requires forall r, u :: Holders(after.clients, r, u) == Holders(g.clients, r, u)
    ensures Safe(after) && (Exact(g) ==> Exact(after))
  {
  }

  /** One action: counts stay safe, and stay exact exactly unless it is a re-join. */
  lemma ActionCounts(g: Gateway, a: Action)
    requires Safe(g) && Enabled(g, a)
    ensures Safe(Next(g, a))
    ensures Exact(g) ==> (Exact(Next(g, a)) <==> !Rejoins(g, a))
  {
    match a
    case Connect(_, _) => SameHoldersSameCounts(g, Next(g, a));
    case JoinRequest(_, _, _) => SameHoldersSameCounts(g, Next(g, a));
    case JoinDone(join, allowed, users) =>
      var answered := g.(joins := g.joins - {join});
      SameHoldersSameCounts(g, answered);
      if allowed {
        JoinedCounts(answered, g.joins[join].client, g.joins[join].room, users);
      }
    case Leave(client, room) =>
      if room in g.clients[client].rooms {
        LeftCounts(g, client, room);
      }
    case Cursor(_, _) => SameHoldersSameCounts(g, Next(g, a));
    case Disconnect(client, order) =>
      var off := g.(clients := g.clients[client := g.clients[client].(connected := false)]);
      SameHoldersSameCounts(g, off);
      LeftEachCounts(off, client, order);
  }

  ghost predicate NoRejoin(g: Gateway, actions: seq<Action>)
    requires AllEnabled(g, actions)
    decreases |actions|
  {
    actions == [] || (!Rejoins(g, actions[0]) && NoRejoin(Next(g, actions[0]), actions[1..]))
  }

  lemma {:induction false} RunCounts(g: Gateway, actions: seq<Action>)
    requires Safe(g) && AllEnabled(g, actions)
    ensures Safe(After(g, actions))
    ensures Exact(g) && NoRejoin(g, actions) ==> Exact(After(g, actions))
    decreases |actions|
  {
    if actions != [] {
      ActionCounts(g, actions[0]);
      RunCounts(Next(g, actions[0]), actions[1..]);
    }
  }

  /**
   In every interleaving of join requests, their completions, leaves and disconnects, a
   user's count is at least the number of the user's clients that hold the room, so no
   holder is missing from the roster; without re-joins it is that number, so nobody else is
   on the roster.
   */
  lemma PresenceIsSafe(actions: seq<Action>)
    requires AllEnabled(EMPTY, actions)
    ensures var g := After(EMPTY, actions);
            && (forall room, user :: |Holders(g.clients, room, user)| <= SocketsOf(g.presence, room, user))
            && (forall c, room | c in g.clients && room in g.clients[c].rooms ::
                  g.clients[c].user in Present(g.presence, room))
            && (NoRejoin(EMPTY, actions) ==>
                  && (forall room, user :: |Holders(g.clients, room, user)| == SocketsOf(g.presence, room, user))
                  && (forall room, user | user in Present(g.presence, room) :: Holders(g.clients, room, user) != {}))
  {
    assert forall room, user :: Holders(EMPTY.clients, room, user) == {};
    RunCounts(EMPTY, actions);
    var g := After(EMPTY, actions);
    forall c, room | c in g.clients && room in g.clients[c].rooms
      ensures g.clients[c].user in Present(g.presence, room)
    {
      HolderIsPresent(g, c, room);
    }
  }

  lemma HolderIsPresent(g: Gateway, c: ClientId, room: Room)
    requires Safe(g) && c in g.clients && room in g.clients[c].rooms
    ensures g.clients[c].user in Present(g.presence, room)
  {
    var holders := Holders(g.clients, room, g.clients[c].user);
    assert c in holders;
    assert |holders| >= 1;
  }

  // ---- disconnecting -----------------------------------------------------------

  /** A disconnected client that holds a room. */
  predicate Stuck(g: Gateway, c: ClientId, room: Room) {
    c in g.clients && !g.clients[c].connected && room in g.clients[c].rooms
  }

  ghost predicate NoneStuck(g: Gateway) {
    forall c, room :: !Stuck(g, c, room)
  }

  /** A join is completed whose client has disconnected meanwhile. */
  predicate CompletesLate(g: Gateway, a: Action) {
    TakesEffect(g, a) && !g.clients[g.joins[a.join].client].connected
  }

  lemma {:induction false} LeavesOnlyOwnRooms(g: Gateway, c: ClientId, order: seq<Room>)
    requires c in g.clients
    ensures var after := LeftEach(g, c, order);
            && after.clients.Keys == g.clients.Keys
            && (forall d | d in g.clients && d != c :: after.clients[d] == g.clients[d])
            && after.clients[c].connected == g.clients[c].connected
    decreases |order|
  {
    if order != [] {
      LeavesOnlyOwnRooms(LeftRoom(g, c, order[0]), c, order[1..]);
    }
  }

  /** Disconnecting clears a client out of every room; only a join that completes late undoes that. */
  lemma NoneStuckIff(g: Gateway, a: Action)
    requires NoneStuck(g) && Safe(g) && Enabled(g, a)
    ensures NoneStuck(Next(g, a)) <==> !CompletesLate(g, a)
  {
    var next := Next(g, a);
    match a
    case Disconnect(c, order) =>
      var off := g.(clients := g.clients[c := g.clients[c].(connected := false)]);
      SameHoldersSameCounts(g, off);
      LeftEachCounts(off, c, order);
      LeavesOnlyOwnRooms(off, c, order);
      forall d, room ensures !Stuck(next, d, room) {
        assert d != c ==> !Stuck(g, d, room);
      }
    case JoinDone(join, allowed, users) =>
      if CompletesLate(g, a) {
        assert Stuck(next, g.joins[join].client, g.joins[join].room);
      } else {
        forall d, room ensures !Stuck(next, d, room) {
          assert !Stuck(g, d, room);
        }
      }
    case _ =>
      forall d, room ensures !Stuck(next, d, room) {
        assert !Stuck(g, d, room);
      }
  }

  ghost predicate NoneLate(g: Gateway, actions: seq<Action>)
    requires AllEnabled(g, actions)
    decreases |actions|
  {
    actions == [] || (!CompletesLate(g, actions[0]) && NoneLate(Next(g, actions[0]), actions[1..]))
  }

  lemma {:induction false} RunLeavesNoneStuck(g: Gateway, actions: seq<Action>)
    requires NoneStuck(g) && Safe(g) && AllEnabled(g, actions) && NoneLate(g, actions)
    ensures NoneStuck(After(g, actions))
    decreases |actions|
  {
    if actions != [] {
      NoneStuckIff(g, actions[0]);
      ActionCounts(g, actions[0]);
      RunLeavesNoneStuck(Next(g, actions[0]), actions[1..]);
    }
  }

  predicate IsInRoom(g: Gateway, c: ClientId, room: Room, user: UserId) {
    IsConnected(g, c) && g.clients[c].user == user && room in g.clients[c].rooms
  }

  /**
   In every run without re-joins and without joins that complete after a disconnect, a room's
   roster is exactly the users who have a connected client in it.
   */
  lemma RosterIsConnectedHolders(actions: seq<Action>, room: Room, user: UserId)
    requires AllEnabled(EMPTY, actions) && NoRejoin(EMPTY, actions) && NoneLate(EMPTY, actions)
    ensures var g := After(EMPTY, actions);
            user in Present(g.presence, room) <==>
            exists c :: IsInRoom(g, c, room, user)
  {
    var g := After(EMPTY, actions);
    RunCounts(EMPTY, actions);
    RunLeavesNoneStuck(EMPTY, actions);
    var holders := Holders(g.clients, room, user);
    assert |holders| == SocketsOf(g.presence, room, user);
    if user in Present(g.presence, room) {
      assert holders != {};
      var c :| c in holders;
      assert !Stuck(g, c, room);
      assert IsInRoom(g, c, room, user);
    }
    if exists c :: IsInRoom(g, c, room, user) {
      var c :| IsInRoom(g, c, room, user);
      HolderIsPresent(g, c, room);
    }
  }

  // ---- what goes wrong ---------------------------------------------------------

  /** Joining again and leaving once keeps a user on the roster who holds nothing. */
  lemma RejoinLeavesGhost(g: Gateway, c: ClientId, room: Room, users: seq<UserId>)
    requires Exact(g) && c in g.clients && Holders(g.clients, room, g.clients[c].user) == {c}
    ensures var after := LeftRoom(JoinedRoom(g, c, room, users), c, room);
            var user := g.clients[c].user;
            Holders(after.clients, room, user) == {} && user in Present(after.presence, room)
  {
    var user := g.clients[c].user;
    var mid := JoinedRoom(g, c, room, users);
    var after := LeftRoom(mid, c, room);
    assert c in Holders(g.clients, room, user);
    assert SocketsOf(g.presence, room, user) == 1;
    SocketsAfterAdd(g.presence, room, user, room, user);
    HoldersAfterJoin(g.clients, c, room, room, user);
    HoldersAfterLeave(mid.clients, c, room, room, user);
  }

  lemma {:induction false} LeavesKeepStuck(g: Gateway, other: ClientId, order: seq<Room>, c: ClientId, room: Room)
    requires other in g.clients && other != c && Stuck(g, c, room)
    ensures Stuck(LeftEach(g, other, order), c, room)
    decreases |order|
  {
    if order != [] {
      LeavesKeepStuck(LeftRoom(g, other, order[0]), other, order[1..], c, room);
    }
  }

  /** A join that completes after the disconnect lists the user for good. */
  lemma {:induction false} LateJoinIsNeverLeft(g: Gateway, actions: seq<Action>, c: ClientId, room: Room)
    requires Safe(g) && AllEnabled(g, actions) && Stuck(g, c, room)
    ensures var after := After(g, actions);
            Stuck(after, c, room) && after.clients[c].user in Present(after.presence, room)
    decreases |actions|
  {
    if actions == [] {
      HolderIsPresent(g, c, room);
    } else {
      var a := actions[0];
      ActionCounts(g, a);
      if a.Disconnect? {
        LeavesKeepStuck(g.(clients := g.clients[a.client := g.clients[a.client].(connected := false)]),
                        a.client, a.order, c, room);
      }
      LateJoinIsNeverLeft(Next(g, a), actions[1..], c, room);
    }
  }

  /** It happens: connect, ask to join, disconnect, and then the database answers. */
  lemma LateJoinIsReachable(c: ClientId, user: UserId, room: Room)
    ensures var actions := [Connect(c, user), JoinRequest(0, c, room), Disconnect(c, []), JoinDone(0, true, [user])];
            AllEnabled(EMPTY, actions) && Stuck(After(EMPTY, actions), c, room)
  {
    var ask, off, done := JoinRequest(0, c, room), Disconnect(c, []), JoinDone(0, true, [user]);
    var g1 := Next(EMPTY, Connect(c, user));
    var g2 := Next(g1, ask);
    var g3 := Next(g2, off);
    assert Present(Added(g3.presence, room, user), room) == {user};
    var g4 := Next(g3, done);
    assert Stuck(g4, c, room);
    AfterStep(g3, done, []);
    AfterStep(g2, off, [done]);
    AfterStep(g1, ask, [off, done]);
    AfterStep(EMPTY, Connect(c, user), [ask, off, done]);
  }

  lemma AfterStep(g: Gateway, a: Action, rest: seq<Action>)
    requires Enabled(g, a) && AllEnabled(Next(g, a), rest)
    ensures AllEnabled(g, [a] + rest) && After(g, [a] + rest) == After(Next(g, a), rest)
  {
    assert ([a] + rest)[1..] == rest;
  }
}
