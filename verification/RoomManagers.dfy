// RoomManager of room.go, with its server's client table, as an object. Every handler is a run of atomic steps of
// RoomViews, so the views proved exact there are the views of its clients.
module RoomManagers {
  import opened Common
  import opened RoomViews
  import opened RoomObjects
  import opened RoomSpec

  // The server's client table.
  class Server {
    var clients: map<nat, Client>

    constructor ()
      ensures clients == map[]
    {
      clients := map[];
    }

    method AddClient(c: Client)
      modifies this
      ensures clients == old(clients)[c.id := c]
    {
      clients := clients[c.id := c];
    }

    method RemoveClient(c: Client)
      modifies this
      ensures clients == old(clients) - {c.id}
    {
      clients := clients - {c.id};
    }

    method GetClients(exclude: set<nat>) returns (cs: seq<Client>)
      requires ById(clients)
      ensures Distinct(cs) && Ids(cs) == clients.Keys - exclude
      ensures forall c :: c in cs <==> c.id in clients && clients[c.id] == c && c.id !in exclude
    {
      cs := Values(clients - exclude);
    }
  }

  // A run of atomic handlers from w to w'.
  ghost predicate IsPath(w: World, path: seq<World>, w': World) {
    && |path| > 0 && path[0] == w && path[|path| - 1] == w'
    && forall i :: 0 < i < |path| ==> Next(path[i - 1], path[i])
  }

  lemma PathStep(w: World, path: seq<World>, w': World, w'': World)
    requires IsPath(w, path, w') && Next(w', w'')
    ensures IsPath(w, path + [w''], w'')
  {
  }

  // ids are the rooms that hold c.
  ghost predicate Lists(members: map<string, set<Cid>>, c: Cid, ids: set<string>) {
    forall id :: id in ids <==> id in members && c in members[id]
  }

  ghost predicate Holds(members: map<string, set<Cid>>, id: string, c: Cid) {
    id in members && c in members[id]
  }

  lemma ListsMore(members: map<string, set<Cid>>, c: Cid, ids: set<string>, id: string)
    requires Lists(members, c, ids) && id in members
    ensures Lists(members[id := members[id] + {c}], c, ids + {id})
  {
  }

  lemma ListsLess(members: map<string, set<Cid>>, c: Cid, ids: set<string>, id: string)
    requires Lists(members, c, ids) && id in members
    ensures Lists(members[id := members[id] - {c}], c, ids - {id})
  {
  }

  // Nobody but c enters or leaves a room, and every room stays.
  ghost predicate OnlyOwn(w: World, w': World, c: Cid) {
    && w'.inbox.Keys == w.inbox.Keys && w'.shown == w.shown && w.members.Keys <= w'.members.Keys
    && (forall id, d :: id in w.members && d != c ==> (d in w'.members[id] <==> d in w.members[id]))
    && (forall id :: id in w'.members && id !in w.members ==> w'.members[id] <= {c})
  }

  lemma OnlyOwnNothing(w: World, c: Cid)
    ensures OnlyOwn(w, w, c)
  {
  }

  lemma OnlyOwnTwice(w: World, w': World, w'': World, c: Cid)
    requires OnlyOwn(w, w', c) && OnlyOwn(w', w'', c)
    ensures OnlyOwn(w, w'', c)
  {
  }

  lemma OnlyOwnJoined(w: World, w': World, c: Cid, room: string)
    requires Joined(w, w', c, room)
    ensures OnlyOwn(w, w', c)
  {
    hide IsMemberList;
  }

  lemma OnlyOwnLeft(w: World, w': World, c: Cid, room: string)
    requires Left(w, w', c, room)
    ensures OnlyOwn(w, w', c)
  {
  }

  lemma OnlyOwnCreated(w0: World, w1: World, w2: World, id: string, cs: set<Cid>, c: Cid)
    requires Created(w0, w1, id) && Noted(w1, w2, cs, RoomCreate(id))
    ensures OnlyOwn(w0, w2, c)
  {
  }

  lemma OnlyOwnFrame(w: World, w': World, c: Cid)
    requires OnlyOwn(w, w', c)
    ensures w'.shown == w.shown && w'.inbox.Keys == w.inbox.Keys
  {
  }

  // A handler that works for c leaves any other connection in the rooms it is in.
  lemma OthersStay(w: World, w': World, c: Cid, d: Cid)
    requires OnlyOwn(w, w', c) && d != c
    ensures forall id :: Holds(w'.members, id, d) <==> Holds(w.members, id, d)
  {
  }

  lemma RefusesCreate(w: World, c: Cid, held: nat, id: string, public: bool, multi: bool, limit: int)
    ensures Refuses(w.members, c, held, CreateRequest(id, public), multi, limit) <==> id in w.members
  {
  }

  // A successful create: the room appears, exactly cs are told, and the creator joins.
  ghost predicate Announced(path: seq<World>, cs: set<Cid>, id: string) {
    |path| == 4 && Created(path[0], path[1], id) && Noted(path[1], path[2], cs, RoomCreate(id))
  }

  // RoomCreate for every room of ids, once.
  ghost predicate IsRoomList(evs: seq<Event>, ids: set<string>) {
    && |evs| == |ids| && (forall i :: 0 <= i < |evs| ==> evs[i].RoomCreate?)
    && (forall id :: multiset(evs)[RoomCreate(id)] == if id in ids then 1 else 0)
  }

  lemma RoomListGrows(evs: seq<Event>, ids: set<string>, id: string)
    requires IsRoomList(evs, ids) && id !in ids
    ensures IsRoomList(evs + [RoomCreate(id)], ids + {id})
  {
  }

  // Every atomic handler keeps every view exact, so a run of them does.
  lemma {:induction false} PathExact(w: World, path: seq<World>, w': World)
    requires Inv(w) && IsPath(w, path, w')
    ensures Inv(w')
  {
    hide Inv, Next;
    var n := |path| - 1;
    if n > 0 {
      PathExact(w, path[..n], path[n - 1]);
      NextExact(path[n - 1], w');
    }
  }

  class RoomManager {
    const server: Server
    const net: Network
    const multiRoomMode: bool
    const multiRoomLimitPerUser: int
    var rooms: map<string, Room>

    constructor (server: Server, net: Network, multi: bool, limit: int)
      requires server.clients == map[] && net.Now() == NOBODY
      ensures this.server == server && this.net == net && multiRoomMode == multi && multiRoomLimitPerUser == limit
      ensures rooms == map[] && Valid()
    {
      this.server, this.net := server, net;
      multiRoomMode, multiRoomLimitPerUser := multi, limit;
      rooms := map[];
    }

    ghost function Rooms(): set<Room>
      reads this
    {
      set id | id in rooms :: rooms[id]
    }

    ghost predicate RoomOk(id: string)
      requires id in rooms
      reads this, net, rooms[id]
    {
      rooms[id].id == id && rooms[id].ch == net && Filled(net.Now(), id, rooms[id].clientsMap)
    }

    // The rooms are the rooms of the world.
    ghost predicate Valid()
      reads this, net, Rooms()
    {
      && Tidy(net.Now()) && net.members.Keys == rooms.Keys
      && forall id {:trigger RoomOk(id)} :: id in rooms ==> RoomOk(id)
    }

    // The server's clients can be sent to.
    ghost predicate Served()
      reads net, server
    {
      ById(server.clients) && server.clients.Keys <= net.inbox.Keys
    }

    // No room id changes its object.
    ghost predicate Kept(was: map<string, Room>)
      reads this
    {
      forall id :: id in was ==> id in rooms && rooms[id] == was[id]
    }

    // Rooms that appear are new objects.
    twostate predicate NewRooms()
      reads this
    {
      forall id :: id in rooms && id !in old(rooms) ==> fresh(rooms[id])
    }

    // The client's index lists exactly the rooms that hold it.
    ghost predicate Indexed(client: Client)
      reads this, net, client
    {
      && client.id in net.shown && net.shown[client.id] == client.Shown()
      && Lists(net.members, client.id, client.rooms.Keys)
      && (forall id :: id in client.rooms ==> id in rooms && client.rooms[id] == rooms[id])
    }

    // Nothing else matters to the room table.
    twostate lemma StillValid()
      requires old(Valid()) && rooms == old(rooms) && net.Now() == old(net.Now())
      requires forall id :: id in rooms ==> rooms[id].clientsMap == old(rooms[id].clientsMap)
      ensures Valid()
    {
      forall id | id in rooms
        ensures RoomOk(id)
      {
        assert old(RoomOk(id));
      }
    }

    // A client that neither enters nor leaves a room keeps a right index.
    twostate lemma StillIndexed(client: Client)
      requires old(Indexed(client)) && client.rooms == old(client.rooms) && Kept(old(rooms))
      requires forall d :: d in old(net.shown) ==> d in net.shown && net.shown[d] == old(net.shown)[d]
      requires forall id :: Holds(net.members, id, client.id) <==> Holds(old(net.members), id, client.id)
      ensures Indexed(client)
    {
      forall id
        ensures id in client.rooms <==> Holds(net.members, id, client.id)
      {
        assert Holds(net.members, id, client.id) <==> Holds(old(net.members), id, client.id);
      }
    }

    // A handler that works for c leaves the indexes of the other clients right.
    twostate lemma OthersStillIndexed(c: Cid)
      requires server.clients == old(server.clients) && ById(server.clients)
      requires Kept(old(rooms)) && OnlyOwn(old(net.Now()), net.Now(), c)
      requires forall k :: k in server.clients && k != c ==>
                 old(Indexed(server.clients[k])) && server.clients[k].rooms == old(server.clients[k].rooms)
      ensures forall k :: k in server.clients && k != c ==> Indexed(server.clients[k])
    {
      hide Indexed, Holds;
      OnlyOwnFrame(old(net.Now()), net.Now(), c);
      forall k | k in server.clients && k != c
        ensures Indexed(server.clients[k])
      {
        OthersStay(old(net.Now()), net.Now(), c, k);
        StillIndexed(server.clients[k]);
      }
    }

    // A connection nobody knows yet appears, in no room.
    method Welcome(client: Client)
      requires Valid() && client.id !in net.inbox && client.rooms == map[]
      modifies net
      ensures Valid() && Indexed(client) && Accepted(old(net.Now()), net.Now(), client.id, client.Shown())
    {
      ghost var w := net.Now();
      assert Tidy(w);
      hide Filled, Tidy;
      net.Connect(client);
      assert Tidy(net.Now()) && Lists(net.members, client.id, {}) by {
        AcceptedTidy(w, net.Now(), client.id, client.Shown());
      }
      forall x | x in rooms
        ensures RoomOk(x)
      {
        assert old(RoomOk(x));
        AcceptedFilled(w, net.Now(), client.id, client.Shown(), x, rooms[x].clientsMap);
      }
    }

    // A room of the table is one of the world, with the same members.
    lemma InTable(id: string)
      requires Valid() && id in rooms
      ensures RoomOk(id) && id in net.members && rooms[id].clientsMap.Keys == net.members[id]
    {
      assert RoomOk(id);
    }

    // Room.Left as one step of the world.
    method LeaveRoom(room: Room, client: Client) returns (err: bool)
      requires Valid() && Indexed(client) && room.id in rooms && rooms[room.id] == room
      modifies room`clientsMap, client`rooms, net
      ensures Valid() && Indexed(client)
      ensures err <==> client.id !in old(net.members)[room.id]
      ensures if err then net.Now() == old(net.Now()) else Left(old(net.Now()), net.Now(), client.id, room.id)
      ensures OnlyOwn(old(net.Now()), net.Now(), client.id)
      ensures client.rooms == if err then old(client.rooms) else old(client.rooms) - {room.id}
    {
      hide Left, Tidy, Lists, OnlyOwn, Filled;
      InTable(room.id);
      ghost var w := net.Now();
      OnlyOwnNothing(w, client.id);
      assert client.id in w.inbox by { TidyKnows(w, client.id); }
      err := room.Left(client);
      if !err {
        LeftTidy(w, net.Now(), client.id, room.id);
        OnlyOwnLeft(w, net.Now(), client.id, room.id);
        ListsLess(w.members, client.id, old(client.rooms.Keys), room.id);
      }
      assert Indexed(client);
      hide Indexed;
      forall id | id in rooms
        ensures RoomOk(id)
      {
        assert old(RoomOk(id));
        if id != room.id && !err {
          OtherFilled(w, net.Now(), client.id, room.id, id, rooms[id].clientsMap);
        }
      }
    }

    // Room.Join keeps the rooms in agreement with the world.
    method JoinTable(room: Room, client: Client) returns (err: bool)
      requires Valid() && room.id in rooms && rooms[room.id] == room
      requires client.id in net.shown && net.shown[client.id] == client.Shown()
      modifies room`clientsMap, client`rooms, net
      ensures Valid()
      ensures err <==> client.id in old(net.members)[room.id]
      ensures if err then net.Now() == old(net.Now()) else Joined(old(net.Now()), net.Now(), client.id, room.id)
      ensures client.rooms == if err then old(client.rooms) else old(client.rooms)[room.id := room]
    {
      hide Joined, Tidy, Filled;
      InTable(room.id);
      ghost var w := net.Now();
      assert client.id in w.inbox by { TidyKnows(w, client.id); }
      err := room.Join(client);
      if !err {
        JoinedTidy(w, net.Now(), client.id, room.id);
      }
      forall id | id in rooms
        ensures RoomOk(id)
      {
        assert old(RoomOk(id));
        if id != room.id && !err {
          OtherFilled(w, net.Now(), client.id, room.id, id, rooms[id].clientsMap);
        }
      }
    }

    // Room.Join as one step of the world.
    method JoinRoom(room: Room, client: Client) returns (err: bool)
      requires Valid() && Indexed(client) && room.id in rooms && rooms[room.id] == room
      modifies room`clientsMap, client`rooms, net
      ensures Valid() && Indexed(client)
      ensures err <==> client.id in old(net.members)[room.id]
      ensures if err then net.Now() == old(net.Now()) else Joined(old(net.Now()), net.Now(), client.id, room.id)
      ensures OnlyOwn(old(net.Now()), net.Now(), client.id)
      ensures client.rooms == if err then old(client.rooms) else old(client.rooms)[room.id := room]
    {
      hide Joined, Lists, OnlyOwn, Valid;
      OnlyOwnNothing(net.Now(), client.id);
      ghost var w := net.Now();
      err := JoinTable(room, client);
      if !err {
        OnlyOwnJoined(w, net.Now(), client.id, room.id);
        JoinedMembers(w, net.Now(), client.id, room.id);
        ListsMore(w.members, client.id, old(client.rooms.Keys), room.id);
        assert client.rooms.Keys == old(client.rooms).Keys + {room.id};
      }
    }

    // Registers a new empty room, or refuses an id that is taken.
    method Create(id: string, public: bool) returns (room: Option<Room>)
      requires Valid()
      modifies `rooms, net`members
      ensures Valid()
      ensures room.None? <==> id in old(rooms)
      ensures room.None? ==> rooms == old(rooms) && net.Now() == old(net.Now())
      ensures room.Some? ==>
                && fresh(room.value) && room.value.id == id && room.value.public == public
                && rooms == old(rooms)[id := room.value]
                && Created(old(net.Now()), net.Now(), id)
    {
      if id in rooms {
        return None;
      }
      hide Filled, Tidy;
      ghost var w := net.Now();
      var r := new Room(id, public, net);
      rooms := rooms[id := r];
      net.members := net.members[id := {}];
      CreatedFilled(w, net.Now(), id);
      forall x | x in rooms
        ensures RoomOk(x)
      {
        if x != id {
          assert old(RoomOk(x));
          CreatedOther(w, net.Now(), id, x, rooms[x].clientsMap);
        }
      }
      room := Some(r);
    }

    // The first room of GetRooms, in whatever order the index is iterated.
    method ActiveRoom(client: Client) returns (room: Room)
      requires Valid() && Indexed(client) && client.rooms != map[]
      ensures room.id in rooms && room.id in client.rooms && rooms[room.id] == room
    {
      var id :| id in client.rooms;
      room := client.rooms[id];
      assert RoomOk(id);
    }

    // In single mode a client leaves a room it is in before it joins another.
    method LeaveActive(client: Client) returns (ghost path: seq<World>)
      requires Valid() && Indexed(client)
      modifies Rooms()`clientsMap, client`rooms, net
      ensures Valid() && Indexed(client) && IsPath(old(net.Now()), path, net.Now())
      ensures OnlyOwn(old(net.Now()), net.Now(), client.id)
      ensures client.rooms.Keys <= old(client.rooms).Keys
      ensures |client.rooms| ==
              if multiRoomMode || old(client.rooms) == map[] then |old(client.rooms)| else |old(client.rooms)| - 1
      ensures net.members.Keys == old(net.members.Keys)
      ensures forall id :: id in net.members && client.id !in old(net.members)[id] ==> client.id !in net.members[id]
    {
      hide Joined, Left, Filled, Tidy, OnlyOwn;
      path := [net.Now()];
      OnlyOwnNothing(net.Now(), client.id);
      if !multiRoomMode && client.rooms != map[] {
        ghost var w, was := net.Now(), client.rooms;
        var active := ActiveRoom(client);
        var err := LeaveRoom(active, client);
        LeftNext(w, path, net.Now(), client.id, active.id);
        path := path + [net.Now()];
        assert client.rooms.Keys == was.Keys - {active.id};
      }
    }

    // A join request: refused for an unknown room, a room the client is in, or a client at the limit of multi
    // mode. In single mode the client first leaves a room it is in.
    method OnJoinRequest(client: Client, id: string) returns (err: bool, ghost path: seq<World>)
      requires Valid() && Indexed(client)
      modifies Rooms()`clientsMap, client`rooms, net
      ensures Valid() && Indexed(client) && IsPath(old(net.Now()), path, net.Now())
      ensures err <==> Refuses(old(net.members), client.id, |old(client.rooms)|, JoinRequest(id),
                               multiRoomMode, multiRoomLimitPerUser)
      ensures OnlyOwn(old(net.Now()), net.Now(), client.id)
      ensures err ==> net.Now() == old(net.Now()) && client.rooms == old(client.rooms)
      ensures !err ==>
                id !in old(client.rooms) && id in client.rooms && client.rooms.Keys <= old(client.rooms).Keys + {id}
      ensures !err ==>
                |client.rooms| ==
                if multiRoomMode || old(client.rooms) == map[] then |old(client.rooms)| + 1 else |old(client.rooms)|
    {
      path := [net.Now()];
      OnlyOwnNothing(net.Now(), client.id);
      hide OnlyOwn;
      if id !in rooms {
        return true, path;
      }
      var room := rooms[id];
      assert RoomOk(id) && room.clientsMap.Keys == net.members[id];
      var has := room.Has(client);
      if has {
        return true, path;
      }
      if multiRoomMode && multiRoomLimitPerUser > 0 && |client.rooms| >= multiRoomLimitPerUser {
        return true, path;
      }
      hide Valid, Indexed;
      path := Switch(room, client);
      err := false;
    }

    lemma NotListed(id: string, client: Client)
      requires Indexed(client) && id in net.members
      ensures id in client.rooms <==> client.id in net.members[id]
    {
    }

    lemma WorldTidy()
      requires Valid()
      ensures Tidy(net.Now())
    {
    }

    lemma RoomIds()
      requires Valid()
      ensures net.members.Keys == rooms.Keys
    {
    }

    // A right index lists the rooms the client is in.
    lemma IndexIsRooms(client: Client)
      requires Indexed(client)
      ensures client.rooms.Keys == RoomsOf(net.members, client.id)
    {
      forall id
        ensures id in client.rooms.Keys <==> id in RoomsOf(net.members, client.id)
      {
      }
    }

    lemma AllRooms(id: string)
      requires Valid()
      ensures id in net.members <==> id in rooms
    {
    }

    // The rest of a join request that passed the checks. Its Left and its Join cannot fail.
    method Switch(room: Room, client: Client) returns (ghost path: seq<World>)
      requires Valid() && Indexed(client) && room.id in rooms && rooms[room.id] == room
      requires client.id !in net.members[room.id]
      modifies Rooms()`clientsMap, client`rooms, net
      ensures OnlyOwn(old(net.Now()), net.Now(), client.id)
      ensures Valid() && Indexed(client) && IsPath(old(net.Now()), path, net.Now())
      ensures room.id in client.rooms && client.rooms.Keys <= old(client.rooms).Keys + {room.id}
      ensures |client.rooms| ==
              if multiRoomMode || old(client.rooms) == map[] then |old(client.rooms)| + 1 else |old(client.rooms)|
    {
      hide Joined, Left, Filled, Tidy, RoomOk, Valid, Indexed, OnlyOwn;
      assert room.id in net.members by { AllRooms(room.id); }
      path := LeaveActive(client);
      NotListed(room.id, client);
      ghost var w, was := net.Now(), client.rooms;
      var err := JoinRoom(room, client);
      JoinedNext(old(net.Now()), path, w, net.Now(), client.id, room.id);
      OnlyOwnTwice(old(net.Now()), w, net.Now(), client.id);
      path := path + [net.Now()];
      assert room.id !in was && client.rooms.Keys == was.Keys + {room.id};
    }

    // A leave request: refused for an unknown room or a room the client is not in.
    method OnLeftRequest(client: Client, id: string) returns (err: bool, ghost path: seq<World>)
      requires Valid() && Indexed(client)
      modifies Rooms()`clientsMap, client`rooms, net
      ensures Valid() && Indexed(client) && IsPath(old(net.Now()), path, net.Now())
      ensures err <==> Refuses(old(net.members), client.id, |old(client.rooms)|, LeftRequest(id),
                               multiRoomMode, multiRoomLimitPerUser)
      ensures OnlyOwn(old(net.Now()), net.Now(), client.id)
      ensures err ==> net.Now() == old(net.Now())
      ensures !err ==> id in old(client.rooms)
      ensures client.rooms == if err then old(client.rooms) else old(client.rooms) - {id}
    {
      path := [net.Now()];
      OnlyOwnNothing(net.Now(), client.id);
      hide OnlyOwn;
      if id !in rooms {
        return true, path;
      }
      assert RoomOk(id);
      hide Left, Filled, Tidy, RoomOk;
      ghost var w := net.Now();
      NotListed(id, client);
      err := LeaveRoom(rooms[id], client);
      if !err {
        LeftNext(w, path, net.Now(), client.id, id);
        path := path + [net.Now()];
      }
    }

    // A create request: refused for an id that is taken. Otherwise everybody on the server (for a private room only
    // the creator) is told, and the creator joins, whatever the mode and the limit.
    method OnCreateRequest(client: Client, id: string, public: bool) returns (err: bool, ghost path: seq<World>)
      requires Valid() && Served() && Indexed(client)
      modifies `rooms, client`rooms, net
      ensures Valid() && Served() && Indexed(client) && IsPath(old(net.Now()), path, net.Now())
      ensures err <==> Refuses(old(net.members), client.id, |old(client.rooms)|, CreateRequest(id, public),
                               multiRoomMode, multiRoomLimitPerUser)
      ensures OnlyOwn(old(net.Now()), net.Now(), client.id)
      ensures err ==> net.Now() == old(net.Now()) && client.rooms == old(client.rooms) && rooms == old(rooms)
      ensures !err ==> rooms.Keys == old(rooms).Keys + {id} && net.members[id] == {client.id}
      ensures Kept(old(rooms)) && NewRooms()
      ensures !err ==> Announced(path, if public then server.clients.Keys else {client.id}, id)
      ensures !err ==> client.rooms.Keys == old(client.rooms).Keys + {id} && id !in old(client.rooms)
    {
      hide Created, Valid, Indexed, Served, OnlyOwn, Announced, Kept, NewRooms, Refuses;
      ghost var w0 := net.Now();
      path := [w0];
      RefusesCreate(w0, client.id, |client.rooms|, id, public, multiRoomMode, multiRoomLimitPerUser);
      OnlyOwnNothing(w0, client.id);
      assert IsPath(w0, path, w0);
      hide IsPath;
      var made := Open(client, id, public);
      if made.None? {
        return true, path;
      }
      err := false;
      path := Inaugurate(made.value, client, public, w0);
    }

    // What follows the creation of a room.
    method Inaugurate(room: Room, client: Client, public: bool, ghost w0: World) returns (ghost path: seq<World>)
      requires Valid() && Served() && Indexed(client) && room.id in rooms && rooms[room.id] == room
      requires Created(w0, net.Now(), room.id) && net.members[room.id] == {} && room.id !in client.rooms
      modifies room`clientsMap, client`rooms, net
      ensures Valid() && Served() && Indexed(client) && IsPath(w0, path, net.Now())
      ensures OnlyOwn(w0, net.Now(), client.id) && net.members[room.id] == {client.id}
      ensures Announced(path, if public then server.clients.Keys else {client.id}, room.id)
      ensures client.rooms == old(client.rooms)[room.id := room]
    {
      hide Created, Noted, Joined, Tidy, Valid, Indexed, Served, Lists, ById, OnlyOwn, Announced;
      ghost var w1, served := net.Now(), server.clients;
      assert ById(served) && served.Keys <= w1.inbox.Keys by { WhoIsServed(); }
      ghost var cs := AnnounceRoom(client, room.id, public);
      ghost var w2 := net.Now();
      NotedMembers(w1, w2, cs, room.id);
      var _ := JoinRoom(room, client);
      path := CreatePath(w0, w1, w2, net.Now(), client.id, room.id, cs);
      OnlyOwnCreated(w0, w1, w2, room.id, cs, client.id);
      OnlyOwnTwice(w0, w2, net.Now(), client.id);
      assert net.inbox.Keys == w1.inbox.Keys by { CreatedInboxes(w0, w1, room.id); }
      assert Served() by { WhoIsServed(); }
    }

    lemma WhoIsServed()
      ensures Served() <==> ById(server.clients) && server.clients.Keys <= net.inbox.Keys
    {
    }

    // Create, as the creator sees it.
    method Open(client: Client, id: string, public: bool) returns (room: Option<Room>)
      requires Valid() && Served() && Indexed(client)
      modifies `rooms, net`members
      ensures Valid() && Served() && Indexed(client)
      ensures room.None? <==> id in old(net.members)
      ensures room.None? <==> id in old(rooms)
      ensures room.None? ==> rooms == old(rooms) && net.Now() == old(net.Now())
      ensures Kept(old(rooms)) && NewRooms()
      ensures room.Some? ==>
                && fresh(room.value) && room.value.id == id && room.value.public == public
                && rooms == old(rooms)[id := room.value] && id !in client.rooms
                && Created(old(net.Now()), net.Now(), id) && net.members[id] == {}
    {
      hide Created, Tidy, Filled, RoomOk;
      ghost var w := net.Now();
      room := Create(id, public);
      if room.Some? {
        CreatedLists(w, net.Now(), id, client.id, client.rooms.Keys);
      }
    }

    // Every room request. Its answer and its effect depend on nothing but the rooms, the client's index and the
    // settings of the manager.
    method OnRoomEvent(client: Client, req: Request) returns (err: bool, ghost path: seq<World>)
      requires Valid() && Served() && Indexed(client)
      modifies `rooms, Rooms()`clientsMap, client`rooms, net
      ensures Valid() && Served() && Indexed(client) && IsPath(old(net.Now()), path, net.Now())
      ensures OnlyOwn(old(net.Now()), net.Now(), client.id)
      ensures err <==> Refuses(old(net.members), client.id, |old(client.rooms)|, req,
                               multiRoomMode, multiRoomLimitPerUser)
      ensures err ==> net.Now() == old(net.Now()) && client.rooms == old(client.rooms) && rooms == old(rooms)
      ensures !err ==> Granted(old(client.rooms).Keys, client.rooms.Keys, req, multiRoomMode)
      ensures rooms.Keys == if err || !req.CreateRequest? then old(rooms).Keys else old(rooms).Keys + {req.room}
      ensures Kept(old(rooms)) && NewRooms()
      ensures !err && req.CreateRequest? ==>
                Announced(path, if req.public then server.clients.Keys else {client.id}, req.room)
    {
      hide Valid, Served, Indexed, IsPath, OnlyOwn, ById;
      ghost var w, served := net.Now(), server.clients;
      assert ById(served) && served.Keys <= w.inbox.Keys by { WhoIsServed(); }
      match req
      case JoinRequest(id) =>
        err, path := OnJoinRequest(client, id);
        assert net.inbox.Keys == w.inbox.Keys by { OnlyOwnFrame(w, net.Now(), client.id); }
        WhoIsServed();
      case LeftRequest(id) =>
        err, path := OnLeftRequest(client, id);
        assert !err ==> client.rooms.Keys == old(client.rooms).Keys - {id};
        assert net.inbox.Keys == w.inbox.Keys by { OnlyOwnFrame(w, net.Now(), client.id); }
        WhoIsServed();
      case CreateRequest(id, public) =>
        err, path := OnCreateRequest(client, id, public);
    }

    // The public rooms, sent to a newcomer in any order until a send fails.
    method SendPublicRooms(client: Client) returns (err: bool, ghost sent: set<string>, ghost list: seq<Event>)
      requires Valid() && Indexed(client)
      modifies net`inbox, net`lost
      ensures Valid() && Indexed(client)
      ensures IsRoomList(list, sent) && sent <= PublicRooms() && (!err ==> sent == PublicRooms())
      ensures net.lost == old(net.lost) + if err then 1 else 0
      ensures client.id in old(net.inbox)
      ensures net.inbox == old(net.inbox)[client.id := old(net.inbox)[client.id] + list]
    {
      hide Filled, IsRoomList, PublicRooms;
      ghost var w := net.Now();
      assert client.id in w.inbox by { TidyKnows(w, client.id); }
      err, sent, list := SendRoomList(client);
      forall x | x in rooms
        ensures RoomOk(x)
      {
        assert old(RoomOk(x));
        InboxFilled(w, net.Now(), x, rooms[x].clientsMap);
      }
    }

    // The loop over the room table.
    method SendRoomList(client: Client) returns (err: bool, ghost sent: set<string>, ghost list: seq<Event>)
      requires client.id in net.inbox
      modifies net`inbox, net`lost
      ensures IsRoomList(list, sent) && sent <= PublicRooms() && (!err ==> sent == PublicRooms())
      ensures net.lost == old(net.lost) + if err then 1 else 0
      ensures net.inbox == old(net.inbox)[client.id := old(net.inbox)[client.id] + list]
    {
      hide IsRoomList, PublicRooms;
      ghost var was, public := net.inbox, PublicRooms();
      err, sent, list := false, {}, [];
      NoRooms();
      assert was[client.id] + list == was[client.id];
      var todo := rooms.Keys;
      while todo != {} && !err
        invariant todo <= rooms.Keys && IsRoomList(list, sent) && sent <= public && sent !! todo
        invariant !err ==> forall id :: id in public ==> id in sent || id in todo
        invariant net.inbox == was[client.id := was[client.id] + list]
        invariant net.lost == old(net.lost) + if err then 1 else 0
        decreases |todo|
      {
        var id :| id in todo;
        todo := todo - {id};
        if rooms[id].public {
          RoomListGrows(list, sent, id);
          err, list := SendRoom(client, id, was, list);
          sent := sent + {id};
        }
      }
    }

    method SendRoom(client: Client, id: string, ghost was: map<Cid, seq<Event>>, ghost list: seq<Event>)
      returns (err: bool, ghost list': seq<Event>)
      requires client.id in was && net.inbox == was[client.id := was[client.id] + list]
      modifies net`inbox, net`lost
      ensures list' == list + [RoomCreate(id)] && net.inbox == was[client.id := was[client.id] + list']
      ensures net.lost == old(net.lost) + if err then 1 else 0
    {
      err := net.Send(client, RoomCreate(id));
      list' := list + [RoomCreate(id)];
      assert was[client.id] + list + [RoomCreate(id)] == was[client.id] + list';
    }

    ghost function PublicRooms(): (ids: set<string>)
      reads this
      ensures forall id :: id in ids <==> id in rooms && rooms[id].public
    {
      set id | id in rooms && rooms[id].public
    }

    // A client that quits leaves every room it is in.
    method RoomClientQuit(client: Client) returns (ghost path: seq<World>)
      requires Valid() && Indexed(client)
      modifies Rooms()`clientsMap, client`rooms, net
      ensures Valid() && Indexed(client) && IsPath(old(net.Now()), path, net.Now())
      ensures OnlyOwn(old(net.Now()), net.Now(), client.id)
      ensures client.rooms == map[] && forall id :: id in net.members ==> client.id !in net.members[id]
    {
      ghost var w := net.Now();
      path := [w];
      OnlyOwnNothing(w, client.id);
      assert IsPath(w, path, w);
      hide Valid, Indexed, OnlyOwn, IsPath;
      path := QuitRooms(client.rooms, client, Rooms(), w, path);
      forall id | id in net.members
        ensures client.id !in net.members[id]
      {
        NotListed(id, client);
      }
    }

    // The loop over the rooms the client was in when it started to quit.
    method QuitRooms(held: map<string, Room>, client: Client, ghost all: set<Room>, ghost w: World,
                     ghost path: seq<World>)
      returns (ghost path': seq<World>)
      requires all == Rooms() && Valid() && Indexed(client) && client.rooms == held
      requires IsPath(w, path, net.Now()) && OnlyOwn(w, net.Now(), client.id)
      modifies all`clientsMap, client`rooms, net
      ensures Valid() && Indexed(client) && IsPath(w, path', net.Now()) && OnlyOwn(w, net.Now(), client.id)
      ensures client.rooms == map[]
    {
      var todo := held.Keys;
      path' := path;
      hide Valid, OnlyOwn, IsPath, Rooms, Lists;
      while todo != {}
        invariant all == Rooms() && Valid() && Indexed(client)
        invariant IsPath(w, path', net.Now()) && OnlyOwn(w, net.Now(), client.id)
        invariant todo <= held.Keys && client.rooms == map id | id in todo :: held[id]
        decreases |todo|
      {
        var id :| id in todo;
        path' := QuitRoom(id, held[id], client, all, w, path');
        todo := todo - {id};
      }
    }

    method QuitRoom(id: string, room: Room, client: Client, ghost all: set<Room>, ghost w: World,
                    ghost path: seq<World>)
      returns (ghost path': seq<World>)
      requires all == Rooms() && Valid() && Indexed(client) && id in client.rooms && id in rooms && rooms[id] == room
      requires IsPath(w, path, net.Now()) && OnlyOwn(w, net.Now(), client.id)
      modifies all`clientsMap, client`rooms, net
      ensures Valid() && Indexed(client) && IsPath(w, path', net.Now()) && OnlyOwn(w, net.Now(), client.id)
      ensures client.rooms == old(client.rooms) - {id} && all == Rooms()
    {
      hide Left, OnlyOwn, IsPath, RoomOk, Filled, Tidy;
      ghost var w1 := net.Now();
      IndexedRoom(id, client);
      var _ := LeaveRoom(room, client);
      LeftPath(w, path, w1, net.Now(), client.id, id);
      OnlyOwnTwice(w, w1, net.Now(), client.id);
      path' := path + [net.Now()];
    }

    lemma IndexedRoom(id: string, client: Client)
      requires Valid() && Indexed(client) && id in client.rooms
      ensures id in rooms && rooms[id].id == id && id in net.members && client.id in net.members[id]
    {
      assert RoomOk(id);
    }

    // Who hears of a new room.
    method AnnounceRoom(client: Client, id: string, public: bool) returns (ghost cs: set<Cid>)
      requires Valid() && Served() && Indexed(client)
      modifies net`inbox, net`lost
      ensures Valid() && Served() && Indexed(client)
      ensures cs == if public then server.clients.Keys else {client.id}
      ensures Noted(old(net.Now()), net.Now(), cs, RoomCreate(id))
    {
      hide Filled, Noted;
      ghost var w := net.Now();
      assert client.id in w.inbox by { TidyKnows(w, client.id); }
      cs := SendRoomCreate(client, id, public);
      assert Tidy(net.Now()) by { NotedTidy(w, net.Now(), cs, id); }
      forall x | x in rooms
        ensures RoomOk(x)
      {
        assert old(RoomOk(x));
        NotedFilled(w, net.Now(), cs, RoomCreate(id), x, rooms[x].clientsMap);
      }
    }

    method SendRoomCreate(client: Client, id: string, public: bool) returns (ghost cs: set<Cid>)
      requires Served() && client.id in net.inbox
      modifies net`inbox, net`lost
      ensures cs == if public then server.clients.Keys else {client.id}
      ensures Noted(old(net.Now()), net.Now(), cs, RoomCreate(id)) && net.inbox.Keys == old(net.inbox.Keys)
    {
      hide Delivered, Ids;
      if public {
        var clients := server.GetClients({});
        net.Broadcast(clients, RoomCreate(id));
        cs := server.clients.Keys;
      } else {
        var _ := net.Send(client, RoomCreate(id));
        cs := {client.id};
      }
    }
  }

  lemma AcceptedFilled(w: World, w': World, c: Cid, u: string, id: string, m: map<nat, Client>)
    requires Filled(w, id, m) && Accepted(w, w', c, u)
    ensures Filled(w', id, m)
  {
  }

  lemma AcceptedTidy(w: World, w': World, c: Cid, u: string)
    requires Tidy(w) && Accepted(w, w', c, u)
    ensures Tidy(w') && Lists(w'.members, c, {})
  {
  }

  lemma NotedTidy(w: World, w': World, cs: set<Cid>, id: string)
    requires Tidy(w) && Noted(w, w', cs, RoomCreate(id))
    ensures Tidy(w')
  {
  }

  lemma CreatedLists(w: World, w': World, id: string, c: Cid, ids: set<string>)
    requires Created(w, w', id) && Lists(w.members, c, ids)
    ensures Lists(w'.members, c, ids) && id !in ids && w'.shown == w.shown && w'.inbox == w.inbox
    ensures id in w'.members && w'.members[id] == {}
  {
  }

  lemma CreatedInboxes(w: World, w': World, id: string)
    requires Created(w, w', id)
    ensures w'.inbox == w.inbox
  {
  }

  lemma NotedMembers(w: World, w': World, cs: set<Cid>, id: string)
    requires Noted(w, w', cs, RoomCreate(id))
    ensures w'.members == w.members
  {
  }

  lemma NotedFilled(w: World, w': World, cs: set<Cid>, ev: Event, id: string, m: map<nat, Client>)
    requires Filled(w, id, m) && Noted(w, w', cs, ev)
    ensures Filled(w', id, m)
  {
  }

  lemma CreatePath(w0: World, w1: World, w2: World, w3: World, c: Cid, id: string, cs: set<Cid>)
    returns (path: seq<World>)
    requires Created(w0, w1, id) && Noted(w1, w2, cs, RoomCreate(id)) && Joined(w2, w3, c, id)
    ensures IsPath(w0, path, w3)
    ensures Announced(path, cs, id)
    ensures id in w3.members && w3.members[id] == {c} && w3.inbox.Keys == w0.inbox.Keys
  {
    path := [w0, w1, w2, w3];
    assert Next(w0, w1) && Next(w1, w2) && Next(w2, w3);
  }

  lemma LeftNext(w: World, path: seq<World>, w': World, c: Cid, room: string)
    requires path == [w] && Left(w, w', c, room)
    ensures IsPath(w, path + [w'], w')
  {
    assert Next(w, w');
  }

  lemma LeftPath(w0: World, path: seq<World>, w: World, w': World, c: Cid, room: string)
    requires IsPath(w0, path, w) && Left(w, w', c, room)
    ensures IsPath(w0, path + [w'], w')
  {
    assert Next(w, w');
    PathStep(w0, path, w, w');
  }

  lemma NoRooms()
    ensures IsRoomList([], {})
  {
  }

  lemma InboxFilled(w: World, w': World, id: string, m: map<nat, Client>)
    requires Filled(w, id, m) && w' == w.(inbox := w'.inbox) && w'.inbox.Keys == w.inbox.Keys
    ensures Filled(w', id, m)
  {
  }

  lemma JoinedNext(w0: World, path: seq<World>, w: World, w': World, c: Cid, room: string)
    requires IsPath(w0, path, w) && Joined(w, w', c, room)
    ensures IsPath(w0, path + [w'], w')
  {
    assert Next(w, w');
    PathStep(w0, path, w, w');
  }

  lemma CreatedFilled(w: World, w': World, id: string)
    requires Tidy(w) && Created(w, w', id)
    ensures Tidy(w') && Filled(w', id, map[])
  {
  }

  lemma CreatedOther(w: World, w': World, id: string, x: string, m: map<nat, Client>)
    requires Filled(w, x, m) && Created(w, w', id)
    ensures Filled(w', x, m)
  {
  }

  lemma TidyKnows(w: World, c: Cid)
    requires Tidy(w) && c in w.shown
    ensures c in w.inbox
  {
  }

  lemma LeftTidy(w: World, w': World, c: Cid, room: string)
    requires Tidy(w) && Left(w, w', c, room)
    ensures Tidy(w') && w'.inbox.Keys == w.inbox.Keys && w'.shown == w.shown
    ensures room in w.members && w'.members == w.members[room := w.members[room] - {c}]
  {
  }

  lemma JoinedMembers(w: World, w': World, c: Cid, room: string)
    requires Joined(w, w', c, room)
    ensures room in w.members && w'.members == w.members[room := w.members[room] + {c}] && w'.shown == w.shown
  {
    hide IsMemberList;
  }

  lemma JoinedTidy(w: World, w': World, c: Cid, room: string)
    requires Tidy(w) && Joined(w, w', c, room)
    ensures Tidy(w') && w'.inbox.Keys == w.inbox.Keys && w'.shown == w.shown
    ensures room in w.members && w'.members == w.members[room := w.members[room] + {c}]
  {
    hide IsMemberList;
  }
}
