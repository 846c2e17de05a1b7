/**
 Board presence on one node: apps/api/src/modules/realtime/realtime.gateway.ts, and the
 roster handlers of apps/web/lib/use-board-realtime.ts. A project has one room, so rooms
 are named by their project. Joining waits for the database before it takes effect.
 */
module Presence {

  type UserId = nat
  type ClientId = nat
  type Room = nat
  type JoinId = nat

  datatype PresenceEvent = Sync(users: seq<UserId>) | Joined(user: UserId) | Left(user: UserId)

  /** SocketData, and whether the socket is still connected. */
  datatype Client = Client(user: UserId, rooms: set<Room>, connected: bool)
  datatype Join = Join(client: ClientId, room: Room)

  /** room -> user -> number of sockets */
  type Sockets = map<Room, map<UserId, int>>

  /**
   The gateway's maps, the joins that wait for the database, and per client the presence
   events still under way to it.
   */
  datatype Gateway = Gateway(
    presence: Sockets, clients: map<ClientId, Client>, joins: map<JoinId, Join>,
    queues: map<ClientId, seq<PresenceEvent>>)

  function Present(presence: Sockets, room: Room): set<UserId> {
    if room in presence then presence[room].Keys else {}
  }

  function SocketsOf(presence: Sockets, room: Room, user: UserId): int {
    if room in presence && user in presence[room] then presence[room][user] else 0
  }

  function Members(clients: map<ClientId, Client>, room: Room): set<ClientId> {
    set c | c in clients && room in clients[c].rooms
  }

  /** The user's clients that hold the room. */
  function Holders(clients: map<ClientId, Client>, room: Room, user: UserId): set<ClientId> {
    set c | c in clients && room in clients[c].rooms && clients[c].user == user
  }

  /** The list names exactly the users, each once. */
  ghost predicate Lists(users: seq<UserId>, present: set<UserId>) {
    && (forall u :: u in users <==> u in present)
    && (forall i, j | 0 <= i < j < |users| :: users[i] != users[j])
  }

  function Emitted(queues: map<ClientId, seq<PresenceEvent>>, to: set<ClientId>, e: PresenceEvent)
    : map<ClientId, seq<PresenceEvent>>
  {
    map c | c in queues :: if c in to then queues[c] + [e] else queues[c]
  }

  function WithSockets(users: map<UserId, int>, user: UserId, sockets: int): map<UserId, int> {
    users[user := sockets]
  }

  function Added(presence: Sockets, room: Room, user: UserId): Sockets {
    var users := if room in presence then presence[room] else map[];
    presence[room := WithSockets(users, user, if user in users then users[user] + 1 else 1)]
  }

  /** The part of onJoin after the database has answered yes. */
  function JoinedRoom(g: Gateway, client: ClientId, room: Room, users: seq<UserId>): Gateway
    requires client in g.clients
  {
    var data := g.clients[client];
    var clients := g.clients[client := data.(rooms := data.rooms + {room})];
    Gateway(Added(g.presence, room, data.user), clients, g.joins,
            Emitted(Emitted(g.queues, {client}, Sync(users)), Members(clients, room) - {client}, Joined(data.user)))
  }

  function LeftRoom(g: Gateway, client: ClientId, room: Room): Gateway
    requires client in g.clients
  {
    var data := g.clients[client];
    var clients := g.clients[client := data.(rooms := data.rooms - {room})];
    if room !in g.presence || data.user !in g.presence[room] then g.(clients := clients)
    else
      var sockets := g.presence[room][data.user] - 1;
      if sockets <= 0 then
        Gateway(g.presence[room := g.presence[room] - {data.user}], clients, g.joins,
                Emitted(g.queues, Members(clients, room), Left(data.user)))
      else
        g.(presence := g.presence[room := WithSockets(g.presence[room], data.user, sockets)], clients := clients)
  }

  function LeftEach(g: Gateway, client: ClientId, rooms: seq<Room>): Gateway
    requires client in g.clients
    decreases |rooms|
  {
    if rooms == [] then g else LeftEach(LeftRoom(g, client, rooms[0]), client, rooms[1..])
  }

  function Cursored(g: Gateway, client: ClientId, room: Room): Gateway
    requires client in g.clients
  {
    var user := g.clients[client].user;
    if room !in g.presence || user !in g.presence[room] then g
    else g.(queues := Emitted(g.queues, Members(g.clients, room) - {client}, Joined(user)))
  }

  class RealtimeGateway {
    var presence: Sockets
    var clients: map<ClientId, Client>
    var joins: map<JoinId, Join>
    var queues: map<ClientId, seq<PresenceEvent>>

    function State(): Gateway
      reads this
    {
      Gateway(presence, clients, joins, queues)
    }

    method AddPresence(room: Room, user: UserId)
      modifies this`presence
      ensures presence == Added(old(presence), room, user)
    {
      var users: map<UserId, int> := map[];
      if room in presence {
        users := presence[room];
      }
      if user in users {
        users := users[user := users[user] + 1];
      } else {
        users := users[user := 1];
      }
      presence := presence[room := users];
    }

    method RoomPresence(room: Room) returns (users: seq<UserId>)
      ensures Lists(users, Present(presence, room))
    {
      users := [];
      if room in presence {
        var rest := presence[room].Keys;
        while rest != {}
          invariant rest <= presence[room].Keys
          invariant Lists(users, presence[room].Keys - rest)
          decreases rest
        {
          var u :| u in rest;
          users := users + [u];
          rest := rest - {u};
        }
      }
    }

    /** onJoin once the membership query has found the project. */
    method FinishJoin(client: ClientId, room: Room) returns (users: seq<UserId>)
      requires client in clients
      modifies this
      ensures State() == JoinedRoom(old(State()), client, room, users)
      ensures Lists(users, Present(presence, room))
    {
      var me := clients[client];
      clients := clients[client := me.(rooms := me.rooms + {room})];
      AddPresence(room, me.user);
      users := RoomPresence(room);
      queues := Emitted(queues, {client}, Sync(users));
      queues := Emitted(queues, Members(clients, room) - {client}, Joined(me.user));
    }

    method LeaveRoom(client: ClientId, room: Room)
      requires client in clients
      modifies this
      ensures State() == LeftRoom(old(State()), client, room)
    {
      var me := clients[client];
      clients := clients[client := me.(rooms := me.rooms - {room})];
      if room in presence && me.user in presence[room] {
        var sockets := presence[room][me.user] - 1;
        presence := presence[room := WithSockets(presence[room], me.user, sockets)];
        if sockets <= 0 {
          assert presence[room] - {me.user} == old(presence)[room] - {me.user};
          presence := presence[room := presence[room] - {me.user}];
          queues := Emitted(queues, Members(clients, room), Left(me.user));
        }
      }
    }

    method OnLeave(client: ClientId, room: Room)
      requires client in clients
      modifies this
      ensures State() == if room in old(clients)[client].rooms then LeftRoom(old(State()), client, room)
                         else old(State())
    {
      if room in clients[client].rooms {
        LeaveRoom(client, room);
      }
    }

    method OnCursor(client: ClientId, room: Room)
      requires client in clients
      modifies this`queues
      ensures State() == if room in clients[client].rooms then Cursored(old(State()), client, room) else old(State())
    {
      var user := clients[client].user;
      if room in clients[client].rooms && room in presence && user in presence[room] {
        queues := Emitted(queues, Members(clients, room) - {client}, Joined(user));
      }
    }

    /** Leaves the client's rooms one by one, in an order it reports. */
    method HandleDisconnect(client: ClientId) returns (ghost order: seq<Room>)
      requires client in clients
      modifies this
      ensures EnumeratesRooms(order, old(clients)[client].rooms)
      ensures State() == LeftEach(old(State()), client, order)
    {
      var rest := clients[client].rooms;
      ghost var all := rest;
      order := [];
      while rest != {}
        invariant client in clients && rest <= all
        invariant EnumeratesRooms(order, all - rest)
        invariant State() == LeftEach(old(State()), client, order)
        decreases rest
      {
        var room :| room in rest;
        LeftEachSnoc(old(State()), client, order, room);
        LeaveRoom(client, room);
        rest := rest - {room};
        order := order + [room];
      }
    }
  }

  ghost predicate EnumeratesRooms(order: seq<Room>, rooms: set<Room>) {
    && (forall r :: r in order <==> r in rooms)
    && (forall i, j | 0 <= i < j < |order| :: order[i] != order[j])
  }

  lemma {:induction false} LeftEachSnoc(g: Gateway, client: ClientId, rooms: seq<Room>, room: Room)
    requires client in g.clients
    ensures client in LeftEach(g, client, rooms).clients
    ensures LeftEach(g, client, rooms + [room]) == LeftRoom(LeftEach(g, client, rooms), client, room)
    decreases |rooms|
  {
    if rooms == [] {
      assert rooms + [room] == [room];
      assert [room][1..] == [];
    } else {
      assert (rooms + [room])[1..] == rooms[1..] + [room];
      LeftEachSnoc(LeftRoom(g, client, rooms[0]), client, rooms[1..], room);
    }
  }
}
