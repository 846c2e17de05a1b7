/**
 What each client's presence list shows once it has taken in the events under way to it:
 exactly the users the server has in the room.
 */
module Roster {
  import opened Arithmetic
  import opened Presence
  import opened PresenceRuns

  // ---- the handlers ------------------------------------------------------------

  function Filtered(users: seq<UserId>, user: UserId): seq<UserId> {
    if users == [] then []
    else if users[0] == user then Filtered(users[1..], user)
    else [users[0]] + Filtered(users[1..], user)
  }

  /** setPresence, for each of the three events. */
  function On(roster: seq<UserId>, e: PresenceEvent): seq<UserId> {
    match e
    case Sync(users) => users
    case Joined(user) => Filtered(roster, user) + [user]
    case Left(user) => Filtered(roster, user)
  }

  function Drained(roster: seq<UserId>, events: seq<PresenceEvent>): seq<UserId>
    decreases |events|
  {
    if events == [] then roster else Drained(On(roster, events[0]), events[1..])
  }

  lemma {:induction false} FilteredFacts(users: seq<UserId>, user: UserId)
    ensures forall u :: u in Filtered(users, user) <==> u in users && u != user
  {
    if users != [] {
      FilteredFacts(users[1..], user);
    }
  }

  lemma {:induction false} FilteredDistinct(users: seq<UserId>, user: UserId)
    requires forall i, j | 0 <= i < j < |users| :: users[i] != users[j]
    ensures forall i, j | 0 <= i < j < |Filtered(users, user)| :: Filtered(users, user)[i] != Filtered(users, user)[j]
  {
    if users != [] {
      var rest := Filtered(users[1..], user);
      FilteredDistinct(users[1..], user);
      FilteredFacts(users[1..], user);
      forall j | 0 <= j < |rest| ensures rest[j] != users[0] {
        assert rest[j] in rest;
        var k :| 0 <= k < |users[1..]| && users[1..][k] == rest[j];
        assert users[k + 1] == rest[j];
      }
    }
  }

  lemma JoinedLists(roster: seq<UserId>, present: set<UserId>, user: UserId)
    requires Lists(roster, present)
    ensures Lists(On(roster, Joined(user)), present + {user})
    ensures Lists(On(roster, Left(user)), present - {user})
  {
    FilteredFacts(roster, user);
    FilteredDistinct(roster, user);
    var rest := Filtered(roster, user);
    forall j | 0 <= j < |rest| ensures rest[j] != user {
      assert rest[j] in rest;
    }
  }

  lemma {:induction false} DrainedSnoc(roster: seq<UserId>, events: seq<PresenceEvent>, e: PresenceEvent)
    ensures Drained(roster, events + [e]) == On(Drained(roster, events), e)
    decreases |events|
  {
    if events == [] {
      assert events + [e] == [e];
      assert [e][1..] == [];
    } else {
      assert (events + [e])[1..] == events[1..] + [e];
      DrainedSnoc(On(roster, events[0]), events[1..], e);
    }
  }

  // ---- gateway and clients together --------------------------------------------

  /** The gateway, and each client's presence state. */
  datatype World = World(gateway: Gateway, rosters: map<ClientId, seq<UserId>>)

  datatype Step =
    | Server(action: Action)
    /** the client's oldest event arrives */
    | Deliver(client: ClientId)

  ghost predicate Possible(w: World, s: Step) {
    match s
    case Server(a) => Enabled(w.gateway, a)
    case Deliver(c) => c in w.gateway.queues && w.gateway.queues[c] != [] && c in w.rosters
  }

  ghost function Stepped(w: World, s: Step): World
    requires Possible(w, s)
  {
    match s
    case Server(a) =>
      World(Next(w.gateway, a), if a.Connect? then w.rosters[a.client := []] else w.rosters)
    case Deliver(c) =>
      World(w.gateway.(queues := w.gateway.queues[c := w.gateway.queues[c][1..]]),
            w.rosters[c := On(w.rosters[c], w.gateway.queues[c][0])])
  }

  ghost predicate AllPossible(w: World, steps: seq<Step>)
    decreases |steps|
  {
    steps == [] || (Possible(w, steps[0]) && AllPossible(Stepped(w, steps[0]), steps[1..]))
  }

  ghost function RunOf(w: World, steps: seq<Step>): World
    requires AllPossible(w, steps)
    decreases |steps|
  {
    if steps == [] then w else RunOf(Stepped(w, steps[0]), steps[1..])
  }

  const NOBODY := World(EMPTY, map[])

  /** What client c will show when its queue has run dry. */
  function Shows(w: World, c: ClientId): seq<UserId>
    requires c in w.rosters && c in w.gateway.queues
  {
    Drained(w.rosters[c], w.gateway.queues[c])
  }

  ghost predicate Wired(w: World) {
    w.gateway.clients.Keys == w.gateway.queues.Keys == w.rosters.Keys
  }

  /** If client c holds a room it holds only that one, and will show the room's users. */
  ghost predicate Converging(w: World, c: ClientId) {
    && Wired(w)
    && (c in w.gateway.clients ==>
          forall room | room in w.gateway.clients[c].rooms ::
            && w.gateway.clients[c].rooms == {room}
            && Lists(Shows(w, c), Present(w.gateway.presence, room)))
  }

  lemma ShowsSnoc(roster: seq<UserId>, events: seq<PresenceEvent>, present: set<UserId>, user: UserId)
    requires Lists(Drained(roster, events), present)
    ensures Lists(Drained(roster, events + [Joined(user)]), present + {user})
    ensures Lists(Drained(roster, events + [Left(user)]), present - {user})
  {
    DrainedSnoc(roster, events, Joined(user));
    DrainedSnoc(roster, events, Left(user));
    JoinedLists(Drained(roster, events), present, user);
  }

  lemma JoinedQueue(g: Gateway, e: ClientId, room: Room, users: seq<UserId>, c: ClientId)
    requires e in g.clients && c in g.clients && c in g.queues
    ensures var after := JoinedRoom(g, e, room, users);
            && c in after.queues
            && after.queues[c] == if c == e then g.queues[c] + [Sync(users)]
                                  else if room in g.clients[c].rooms then g.queues[c] + [Joined(g.clients[e].user)]
                                  else g.queues[c]
  {
  }

  lemma JoinedPresent(g: Gateway, e: ClientId, room: Room, users: seq<UserId>, r: Room)
    requires e in g.clients
    ensures Present(JoinedRoom(g, e, room, users).presence, r) ==
            if r == room then Present(g.presence, r) + {g.clients[e].user} else Present(g.presence, r)
  {
  }

  /** Client e takes up a room; if e is c itself, it holds no other. */
  lemma JoinConverges(w: World, c: ClientId, e: ClientId, room: Room, users: seq<UserId>)
    requires Converging(w, c) && e in w.gateway.clients
    requires e == c ==> w.gateway.clients[c].rooms <= {room}
    requires Lists(users, Present(Added(w.gateway.presence, room, w.gateway.clients[e].user), room))
    ensures Converging(w.(gateway := JoinedRoom(w.gateway, e, room, users)), c)
  {
    var g, after := w.gateway, JoinedRoom(w.gateway, e, room, users);
    if c in g.clients {
      JoinedQueue(g, e, room, users, c);
      if e == c {
        DrainedSnoc(w.rosters[c], g.queues[c], Sync(users));
        assert after.clients[c].rooms == {room};
      } else {
        forall r | r in g.clients[c].rooms
          ensures Lists(Shows(w.(gateway := after), c), Present(after.presence, r))
        {
          JoinedPresent(g, e, room, users, r);
          if r == room {
            ShowsSnoc(w.rosters[c], g.queues[c], Present(g.presence, room), g.clients[e].user);
          }
        }
      }
    }
  }

  lemma LeftQueue(g: Gateway, e: ClientId, room: Room, c: ClientId)
    requires e in g.clients && c in g.clients && c in g.queues && c != e
    ensures var after := LeftRoom(g, e, room);
            var gone := Present(g.presence, room) != Present(after.presence, room);
            && c in after.queues && after.clients[c] == g.clients[c]
            && after.queues[c] == (if gone && room in g.clients[c].rooms
                                   then g.queues[c] + [Left(g.clients[e].user)] else g.queues[c])
            && (gone ==> Present(after.presence, room) == Present(g.presence, room) - {g.clients[e].user})
            && forall r | r != room :: Present(after.presence, r) == Present(g.presence, r)
  {
    var after := LeftRoom(g, e, room);
    if room in g.presence && g.clients[e].user in g.presence[room] {
      assert g.clients[e].user in Present(g.presence, room);
      if g.presence[room][g.clients[e].user] - 1 <= 0 {
        assert g.clients[e].user !in Present(after.presence, room);
      } else {
        assert Present(after.presence, room) == Present(g.presence, room);
      }
    }
  }

  lemma LeaveConverges(w: World, c: ClientId, e: ClientId, room: Room)
    requires Converging(w, c) && e in w.gateway.clients && room in w.gateway.clients[e].rooms
    ensures Converging(w.(gateway := LeftRoom(w.gateway, e, room)), c)
  {
    var g, after := w.gateway, LeftRoom(w.gateway, e, room);
    if c in g.clients {
      if e == c {
        assert after.clients[c].rooms == {};
      } else {
        LeftQueue(g, e, room, c);
        forall r | r in g.clients[c].rooms
          ensures Lists(Shows(w.(gateway := after), c), Present(after.presence, r))
        {
          if r == room {
            ShowsSnoc(w.rosters[c], g.queues[c], Present(g.presence, room), g.clients[e].user);
          }
        }
      }
    }
  }

  lemma CursorConverges(w: World, c: ClientId, e: ClientId, room: Room)
    requires Converging(w, c) && e in w.gateway.clients && room in w.gateway.clients[e].rooms
    ensures Converging(w.(gateway := Cursored(w.gateway, e, room)), c)
  {
    var g, after := w.gateway, Cursored(w.gateway, e, room);
    var user := g.clients[e].user;
    if c in g.clients && room in g.clients[c].rooms && c != e && user in Present(g.presence, room) {
      assert after.queues[c] == g.queues[c] + [Joined(user)];
      ShowsSnoc(w.rosters[c], g.queues[c], Present(g.presence, room), user);
      assert Present(g.presence, room) + {user} == Present(g.presence, room);
    } else if c in g.clients {
      assert after.queues[c] == g.queues[c];
    }
  }

  /** A cursor move shows its user last on the lists of the others in the room, and there only. */
  lemma CursorIsShown(w: World, c: ClientId, e: ClientId, room: Room)
    requires Wired(w) && c in w.gateway.clients && e in w.gateway.clients
    requires room in w.gateway.clients[e].rooms && w.gateway.clients[e].user in Present(w.gateway.presence, room)
    ensures var user, after := w.gateway.clients[e].user, w.(gateway := Cursored(w.gateway, e, room));
            Shows(after, c) ==
            if c != e && room in w.gateway.clients[c].rooms then Filtered(Shows(w, c), user) + [user] else Shows(w, c)
  {
    var g, after := w.gateway, Cursored(w.gateway, e, room);
    if c != e && room in g.clients[c].rooms {
      assert after.queues[c] == g.queues[c] + [Joined(g.clients[e].user)];
      DrainedSnoc(w.rosters[c], g.queues[c], Joined(g.clients[e].user));
    } else {
      assert after.queues[c] == g.queues[c];
    }
  }

  lemma {:induction false} LeaveEachConverges(w: World, c: ClientId, e: ClientId, order: seq<Room>)
    requires Converging(w, c) && e in w.gateway.clients && EnumeratesRooms(order, w.gateway.clients[e].rooms)
    ensures Converging(w.(gateway := LeftEach(w.gateway, e, order)), c)
    decreases |order|
  {
    if order != [] {
      var next := w.(gateway := LeftRoom(w.gateway, e, order[0]));
      assert order[0] in order;
      LeaveConverges(w, c, e, order[0]);
      EnumeratedTail(order, w.gateway.clients[e].rooms);
      assert next.gateway.clients[e].rooms == w.gateway.clients[e].rooms - {order[0]};
      LeaveEachConverges(next, c, e, order[1..]);
    }
  }

  // ---- runs --------------------------------------------------------------------

  /** Client c takes up a room only while it holds no other. */
  predicate OneRoom(g: Gateway, a: Action, c: ClientId) {
    TakesEffect(g, a) && g.joins[a.join].client == c && c in g.clients ==> g.clients[c].rooms <= {g.joins[a.join].room}
  }

  lemma ServerConverges(w: World, a: Action, c: ClientId)
    requires Converging(w, c) && Possible(w, Server(a)) && OneRoom(w.gateway, a, c)
    ensures Converging(Stepped(w, Server(a)), c)
  {
    var g := w.gateway;
    match a
    case Connect(_, _) =>
    case JoinRequest(_, _, _) =>
    case JoinDone(join, allowed, users) =>
      var answered := w.(gateway := g.(joins := g.joins - {join}));
      assert Converging(answered, c);
      if allowed {
        JoinConverges(answered, c, g.joins[join].client, g.joins[join].room, users);
      }
    case Leave(client, room) =>
      if room in g.clients[client].rooms {
        LeaveConverges(w, c, client, room);
      }
    case Cursor(client, room) => CursorConverges(w, c, client, room);
    case Disconnect(client, order) =>
      var off := w.(gateway := g.(clients := g.clients[client := g.clients[client].(connected := false)]));
      assert Converging(off, c);
      LeaveEachConverges(off, c, client, order);
  }

  /** A join request of client c, made while c has none pending for another room and holds no other room. */
  predicate Orderly(g: Gateway, a: Action, c: ClientId) {
    a.JoinRequest? && a.client == c ==>
      && (forall j | j in g.joins && g.joins[j].client == c :: g.joins[j].room == a.room)
      && (c in g.clients ==> g.clients[c].rooms <= {a.room})
  }

  ghost predicate AllOrderly(w: World, steps: seq<Step>, c: ClientId)
    requires AllPossible(w, steps)
    decreases |steps|
  {
    steps == [] ||
    ((steps[0].Server? ==> Orderly(w.gateway, steps[0].action, c)) && AllOrderly(Stepped(w, steps[0]), steps[1..], c))
  }

  /** The pending joins of client c are for one room, and c holds no other. */
  ghost predicate AsksForOne(g: Gateway, c: ClientId) {
    && (forall i, j | i in g.joins && j in g.joins && g.joins[i].client == c && g.joins[j].client == c ::
          g.joins[i].room == g.joins[j].room)
    && (forall j | j in g.joins && g.joins[j].client == c :: c in g.clients && g.clients[c].rooms <= {g.joins[j].room})
  }

  lemma {:induction false} LeavingShrinks(g: Gateway, e: ClientId, order: seq<Room>, c: ClientId)
    requires e in g.clients && c in g.clients
    ensures var after := LeftEach(g, e, order);
            c in after.clients && after.clients[c].rooms <= g.clients[c].rooms && after.joins == g.joins
    decreases |order|
  {
    if order != [] {
      LeavingShrinks(LeftRoom(g, e, order[0]), e, order[1..], c);
    }
  }

  /** A client goes on asking for one room exactly as long as its requests are orderly. */
  lemma AsksForOneIff(g: Gateway, a: Action, c: ClientId)
    requires AsksForOne(g, c) && Enabled(g, a)
    ensures OneRoom(g, a, c)
    ensures AsksForOne(Next(g, a), c) <==> Orderly(g, a, c)
  {
    var next := Next(g, a);
    if a.Disconnect? {
      var off := g.(clients := g.clients[a.client := g.clients[a.client].(connected := false)]);
      LeavingShrinks(off, a.client, a.order, if c in g.clients then c else a.client);
    } else if a.JoinRequest? && a.client == c {
      assert next.joins[a.join] == Join(c, a.room);
      if AsksForOne(next, c) {
        forall j | j in g.joins && g.joins[j].client == c ensures g.joins[j].room == a.room {
          assert next.joins[j] == g.joins[j];
        }
      }
    }
  }

  lemma {:induction false} RunConverges(w: World, steps: seq<Step>, c: ClientId)
    requires Converging(w, c) && AsksForOne(w.gateway, c) && AllPossible(w, steps) && AllOrderly(w, steps, c)
    ensures Converging(RunOf(w, steps), c)
    decreases |steps|
  {
    if steps != [] {
      if steps[0].Server? {
        AsksForOneIff(w.gateway, steps[0].action, c);
        ServerConverges(w, steps[0].action, c);
      }
      RunConverges(Stepped(w, steps[0]), steps[1..], c);
    }
  }

  /**
   With events delivered in order: a client that asks for a room only while no request of
   its own for another room is pending and it holds no other room, and that has taken in all
   its events, shows exactly the users the server has in its room, each once, whatever the
   other clients do.
   */
  lemma RostersConverge(steps: seq<Step>, c: ClientId, room: Room)
    requires AllPossible(NOBODY, steps) && AllOrderly(NOBODY, steps, c)
    ensures var w := RunOf(NOBODY, steps);
            && c in w.gateway.clients && room in w.gateway.clients[c].rooms
            && c in w.gateway.queues && w.gateway.queues[c] == [] ==>
              c in w.rosters && Lists(w.rosters[c], Present(w.gateway.presence, room))
  {
    RunConverges(NOBODY, steps, c);
  }

  // ---- two rooms at once -------------------------------------------------------

  /** Client c holds two rooms, and client d is a user not present in the first. */
  ghost predicate InTwoRooms(w: World, c: ClientId, one: Room, two: Room, d: ClientId) {
    && Wired(w) && c in w.gateway.clients && d in w.gateway.clients && c != d
    && one != two && {one, two} <= w.gateway.clients[c].rooms
    && w.gateway.clients[d].user !in Present(w.gateway.presence, one)
  }

  /** Events do not name their room: a client in two rooms lists the users of both together. */
  lemma TwoRoomsShareOneList(w: World, d: ClientId, one: Room, two: Room, c: ClientId, users: seq<UserId>)
    requires InTwoRooms(w, d, one, two, c)
    ensures var after := w.(gateway := JoinedRoom(w.gateway, c, two, users));
            !Lists(Shows(after, d), Present(after.gateway.presence, one))
  {
    var user := w.gateway.clients[c].user;
    var after := w.(gateway := JoinedRoom(w.gateway, c, two, users));
    assert after.gateway.queues[d] == w.gateway.queues[d] + [Joined(user)];
    DrainedSnoc(w.rosters[d], w.gateway.queues[d], Joined(user));
    assert user in Shows(after, d);
    assert Present(after.gateway.presence, one) == Present(w.gateway.presence, one);
  }

  lemma RunOfStep(w: World, s: Step, rest: seq<Step>)
    requires Possible(w, s) && AllPossible(Stepped(w, s), rest)
    ensures AllPossible(w, [s] + rest) && RunOf(w, [s] + rest) == RunOf(Stepped(w, s), rest)
  {
    assert ([s] + rest)[1..] == rest;
  }

  /** Clients d and c are connected, and d has asked for both rooms. */
  function Switching(d: ClientId, c: ClientId, one: Room, two: Room): World {
    World(Gateway(map[], map[d := Client(0, {}, true), c := Client(1, {}, true)],
                  map[0 := Join(d, one), 1 := Join(d, two)], map[d := [], c := []]),
          map[d := [], c := []])
  }

  function AskForBoth(d: ClientId, c: ClientId, one: Room, two: Room): seq<Step> {
    [Server(Connect(d, 0)), Server(Connect(c, 1)), Server(JoinRequest(0, d, one)),
     Server(Leave(d, one)), Server(JoinRequest(1, d, two))]
  }

  lemma AskingLeadsThere(d: ClientId, c: ClientId, one: Room, two: Room, rest: seq<Step>)
    requires c != d && AllPossible(Switching(d, c, one, two), rest)
    ensures AllPossible(NOBODY, AskForBoth(d, c, one, two) + rest)
    ensures RunOf(NOBODY, AskForBoth(d, c, one, two) + rest) == RunOf(Switching(d, c, one, two), rest)
  {
    var steps := AskForBoth(d, c, one, two);
    var w1 := Stepped(NOBODY, steps[0]);
    var w2 := Stepped(w1, steps[1]);
    var w3 := Stepped(w2, steps[2]);
    assert Stepped(w3, steps[3]) == w3 && Stepped(w3, steps[4]) == Switching(d, c, one, two);
    RunOfStep(w3, steps[4], rest);
    RunOfStep(w3, steps[3], [steps[4]] + rest);
    RunOfStep(w2, steps[2], [steps[3]] + ([steps[4]] + rest));
    RunOfStep(w1, steps[1], [steps[2]] + ([steps[3]] + ([steps[4]] + rest)));
    RunOfStep(NOBODY, steps[0], [steps[1]] + ([steps[2]] + ([steps[3]] + ([steps[4]] + rest))));
    assert steps + rest == [steps[0]] + ([steps[1]] + ([steps[2]] + ([steps[3]] + ([steps[4]] + rest))));
  }

  /** The first client of a room: its request is granted. */
  lemma FirstOfRoom(w: World, join: JoinId, user: UserId)
    requires Wired(w) && join in w.gateway.joins && w.gateway.joins[join].client in w.gateway.clients
    requires w.gateway.joins[join].room !in w.gateway.presence
    requires w.gateway.clients[w.gateway.joins[join].client].user == user
    ensures Possible(w, Server(JoinDone(join, true, [user])))
    ensures var after, j := Stepped(w, Server(JoinDone(join, true, [user]))), w.gateway.joins[join];
            && Wired(after) && after.gateway.joins == w.gateway.joins - {join}
            && after.gateway.presence == w.gateway.presence[j.room := WithSockets(map[], user, 1)]
            && after.gateway.clients == w.gateway.clients[j.client :=
                 w.gateway.clients[j.client].(rooms := w.gateway.clients[j.client].rooms + {j.room})]
  {
    var room := w.gateway.joins[join].room;
    assert Added(w.gateway.presence, room, user)[room] == WithSockets(map[], user, 1);
    assert Present(Added(w.gateway.presence, room, user), room) == {user};
  }

  /**
   A client gets there by switching quickly: it leaves the first room and asks for the second
   before its request for the first has been answered, so the leave finds nothing to leave.
   */
  lemma QuickSwitchHoldsTwoRooms(d: ClientId, c: ClientId, one: Room, two: Room)
    requires c != d && one != two
    ensures var steps := AskForBoth(d, c, one, two) + [Server(JoinDone(0, true, [0])), Server(JoinDone(1, true, [0]))];
            AllPossible(NOBODY, steps) && InTwoRooms(RunOf(NOBODY, steps), d, one, two, c)
  {
    var done1, done2 := Server(JoinDone(0, true, [0])), Server(JoinDone(1, true, [0]));
    var asked := Switching(d, c, one, two);
    FirstOfRoom(asked, 0, 0);
    FirstOfRoom(Stepped(asked, done1), 1, 0);
    BothAnswered(asked, done1, done2);
    AskingLeadsThere(d, c, one, two, [done1, done2]);
  }

  lemma BothAnswered(w: World, s: Step, t: Step)
    requires Possible(w, s) && Possible(Stepped(w, s), t)
    ensures AllPossible(w, [s, t]) && RunOf(w, [s, t]) == Stepped(Stepped(w, s), t)
  {
    RunOfStep(Stepped(w, s), t, []);
    RunOfStep(w, s, [t]);
    assert [s] + [t] == [s, t];
  }

  // ---- what a disorderly request can lead to -----------------------------------

  lemma {:induction false} SomeOrder(users: set<UserId>) returns (order: seq<UserId>)
    ensures Lists(order, users)
  {
    order := [];
    if users != {} {
      var u :| u in users;
      var rest := SomeOrder(users - {u});
      order := rest + [u];
    }
  }

  /** A pending join can be granted; the client then holds its room beside those it had. */
  lemma Grant(w: World, join: JoinId) returns (s: Step)
    requires Wired(w) && join in w.gateway.joins && w.gateway.joins[join].client in w.gateway.clients
    ensures s.Server? && s.action.JoinDone? && Possible(w, s)
    ensures var after, j := Stepped(w, s), w.gateway.joins[join];
            && Wired(after) && after.gateway.joins == w.gateway.joins - {join}
            && after.gateway.clients == w.gateway.clients[j.client :=
                 w.gateway.clients[j.client].(rooms := w.gateway.clients[j.client].rooms + {j.room})]
  {
    var j := w.gateway.joins[join];
    var users := SomeOrder(Present(Added(w.gateway.presence, j.room, w.gateway.clients[j.client].user), j.room));
    s := Server(JoinDone(join, true, users));
  }

  /** A stranger can connect. */
  lemma Stranger(w: World, room: Room) returns (d: ClientId, s: Step)
    requires Wired(w)
    ensures d !in w.gateway.clients && Possible(w, s)
    ensures var after := Stepped(w, s);
            && Wired(after) && after.gateway.joins == w.gateway.joins && after.gateway.presence == w.gateway.presence
            && d in after.gateway.clients && after.gateway.clients[d].user !in Present(w.gateway.presence, room)
            && forall c | c in w.gateway.clients :: after.gateway.clients[c] == w.gateway.clients[c]
  {
    d := AboveAll(w.gateway.clients.Keys);
    var user := AboveAll(Present(w.gateway.presence, room));
    s := Server(Connect(d, user));
  }

  /** A client that holds a room and waits for another can come to hold both, with a stranger about. */
  lemma HolderCanHoldTwo(w: World, c: ClientId, one: Room, join: JoinId)
    returns (steps: seq<Step>, d: ClientId)
    requires Wired(w) && c in w.gateway.clients && one in w.gateway.clients[c].rooms
    requires join in w.gateway.joins && w.gateway.joins[join].client == c && w.gateway.joins[join].room != one
    ensures AllPossible(w, steps) && InTwoRooms(RunOf(w, steps), c, one, w.gateway.joins[join].room, d)
  {
    var grant := Grant(w, join);
    var granted := Stepped(w, grant);
    var connect;
    d, connect := Stranger(granted, one);
    steps := [grant, connect];
    BothAnswered(w, grant, connect);
  }

  /**
   Every request that is not orderly, whenever it is made, has a continuation after which its
   client holds two rooms and the next user to join one of them is shown in the other.
   */
  lemma DisorderlyCanHoldTwoRooms(w: World, ask: Action)
    returns (steps: seq<Step>, one: Room, two: Room, d: ClientId)
    requires Wired(w) && ask.JoinRequest? && Possible(w, Server(ask)) && !Orderly(w.gateway, ask, ask.client)
    ensures AllPossible(w, [Server(ask)] + steps)
    ensures InTwoRooms(RunOf(w, [Server(ask)] + steps), ask.client, one, two, d)
  {
    var g, c := w.gateway, ask.client;
    var asked := Stepped(w, Server(ask));
    two := ask.room;
    if !(g.clients[c].rooms <= {ask.room}) {
      one :| one in g.clients[c].rooms && one != ask.room;
      steps, d := HolderCanHoldTwo(asked, c, one, ask.join);
    } else {
      var j :| j in g.joins && g.joins[j].client == c && g.joins[j].room != ask.room;
      one := g.joins[j].room;
      var grant := Grant(asked, j);
      var rest;
      rest, d := HolderCanHoldTwo(Stepped(asked, grant), c, one, ask.join);
      steps := [grant] + rest;
      RunOfStep(asked, grant, rest);
    }
    RunOfStep(w, Server(ask), steps);
  }
}
