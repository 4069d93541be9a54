// The connection handler of eddwise.go for a channel with a room manager, one handler after the other: connections are
// accepted, ask for rooms and quit, in any order and any number, starting from a server nobody is connected to.
module RoomServers {
  import opened Common
  import opened RoomViews
  import opened RoomObjects
  import opened RoomManagers
  import opened RoomSpec

  // What clients do.
  datatype Call =
    | Connect(auth: Option<string>)
    | Ask(id: nat, req: Request)
    | Disconnect(id: nat)

  // What there is between two handlers: who is where, who is connected, and the last number given to a connection.
  datatype Stage = Stage(w: World, connected: set<nat>, next: nat)

  // A request is refused, with an error, and nothing happens, or its client's rooms change as it asked and nobody
  // else's do.
  ghost predicate Answered(w: World, w': World, id: nat, req: Request, err: bool, multi: bool, limit: int) {
    var was := RoomsOf(w.members, id);
    if Refuses(w.members, id, |was|, req, multi, limit) then err && w' == w
    else
      && !err && OnlyOwn(w, w', id) && Granted(was, RoomsOf(w'.members, id), req, multi)
      && w'.members.Keys == w.members.Keys + if req.CreateRequest? then {req.room} else {}
  }

  // A newcomer gets the next number and is in no room. A number nobody has is not served.
  ghost predicate Handled(call: Call, s: Stage, s': Stage, multi: bool, limit: int) {
    match call
    case Connect(auth) =>
      && s' == Stage(s'.w, s.connected + {s.next + 1}, s.next + 1)
      && s'.w.members == s.w.members && s'.w.shown == s.w.shown[s.next + 1 := ShownAs(s.next + 1, auth)]
    case Ask(id, req) =>
      if id !in s.connected then s' == s
      else s' == s.(w := s'.w) && exists err :: Answered(s.w, s'.w, id, req, err, multi, limit)
    case Disconnect(id) =>
      if id !in s.connected then s' == s
      else
        && s' == s.(w := s'.w, connected := s.connected - {id})
        && OnlyOwn(s.w, s'.w, id) && RoomsOf(s'.w.members, id) == {} && s'.w.members.Keys == s.w.members.Keys
  }

  ghost predicate Played(script: seq<Call>, stages: seq<Stage>, multi: bool, limit: int) {
    && |stages| == |script| + 1 && stages[0] == Stage(NOBODY, {}, 0)
    && forall i :: 0 <= i < |script| ==> Handled(script[i], stages[i], stages[i + 1], multi, limit)
  }

  lemma JoinPaths(w: World, path: seq<World>, w': World, path': seq<World>, w'': World)
    requires IsPath(w, path, w') && IsPath(w', path', w'')
    ensures IsPath(w, path + path'[1..], w'')
  {
    hide Next;
    var all := path + path'[1..];
    assert all[|all| - 1] == w'';
    forall i | 0 < i < |all|
      ensures Next(all[i - 1], all[i])
    {
      if i >= |path| {
        assert all[i - 1] == path'[i - |path|] && all[i] == path'[i - |path| + 1];
      }
    }
  }

  lemma Standing(w: World)
    ensures IsPath(w, [w], w)
  {
  }

  // Sending a list of rooms to one connection is a run of sends.
  lemma {:induction false} ListPath(w: World, w': World, c: Cid, list: seq<Event>) returns (path: seq<World>)
    requires c in w.inbox && forall i :: 0 <= i < |list| ==> list[i].RoomCreate?
    requires w' == w.(inbox := w.inbox[c := w.inbox[c] + list])
    ensures IsPath(w, path, w')
    decreases |list|
  {
    if list == [] {
      assert w.inbox[c] + list == w.inbox[c];
      path := [w];
    } else {
      var n := |list| - 1;
      var before := w.(inbox := w.inbox[c := w.inbox[c] + list[..n]]);
      path := ListPath(w, before, c, list[..n]);
      assert w.inbox[c] + list[..n] + [list[n]] == w.inbox[c] + list;
      assert Noted(before, w', {c}, list[n]);
      PathStep(w, path, before, w');
      path := path + [w'];
    }
  }

  lemma AcceptedNext(w: World, w': World, c: Cid, u: string)
    requires Tidy(w) && Accepted(w, w', c, u)
    ensures IsPath(w, [w, w'], w') && w'.members == w.members
    ensures w'.inbox.Keys == w.inbox.Keys + {c} && w'.shown == w.shown[c := u] && c !in w.shown
  {
    assert Next(w, w');
  }

  // What a request does, told by its client's index.
  lemma AnsweredAs(w: World, w': World, id: nat, req: Request, err: bool, held: set<string>, held': set<string>,
                   multi: bool, limit: int)
    requires held == RoomsOf(w.members, id) && held' == RoomsOf(w'.members, id)
    requires err <==> Refuses(w.members, id, |held|, req, multi, limit)
    requires err ==> w' == w
    requires !err ==> Granted(held, held', req, multi) && OnlyOwn(w, w', id)
    requires w'.members.Keys == w.members.Keys + if err || !req.CreateRequest? then {} else {req.room}
    ensures Answered(w, w', id, req, err, multi, limit)
  {
    hide Granted, OnlyOwn, Refuses, RoomsOf;
  }

  lemma AskHandled(s: Stage, s': Stage, id: nat, req: Request, err: bool, multi: bool, limit: int)
    requires id in s.connected && s' == s.(w := s'.w) && Answered(s.w, s'.w, id, req, err, multi, limit)
    ensures Handled(Ask(id, req), s, s', multi, limit)
    ensures err <==> Refuses(s.w.members, id, |RoomsOf(s.w.members, id)|, req, multi, limit)
  {
    hide Refuses, Granted, OnlyOwn, RoomsOf;
  }

  lemma ConnectHandled(s: Stage, s': Stage, auth: Option<string>, multi: bool, limit: int)
    requires s'.next == s.next + 1 && s'.connected == s.connected + {s'.next}
    requires s'.w.members == s.w.members && s'.w.shown == s.w.shown[s'.next := ShownAs(s'.next, auth)]
    ensures Handled(Connect(auth), s, s', multi, limit)
  {
  }

  lemma InNoRoom(members: map<string, set<Cid>>, c: Cid)
    requires forall id :: id in members ==> c !in members[id]
    ensures RoomsOf(members, c) == {}
  {
  }

  lemma NotServed(call: Call, s: Stage, multi: bool, limit: int)
    ensures !call.Connect? && call.id !in s.connected ==> Handled(call, s, s, multi, limit)
  {
  }

  class RoomServer {
    const rm: RoomManager
    var clientAutoInc: nat

    constructor (rm: RoomManager)
      requires rm.server.clients == map[] && rm.net.Now() == NOBODY && rm.Valid()
      ensures this.rm == rm && Serving() && Clients() == {} && clientAutoInc == 0
    {
      this.rm := rm;
      clientAutoInc := 0;
    }

    ghost function Clients(): set<Client>
      reads rm.server
    {
      set k | k in rm.server.clients :: rm.server.clients[k]
    }

    // Every connected client's index is right.
    ghost predicate AllIndexed()
      reads rm, rm.net, rm.server, Clients()
    {
      forall k :: k in rm.server.clients ==> rm.Indexed(rm.server.clients[k])
    }

    ghost function Current(): Stage
      reads this, rm.net, rm.server
    {
      Stage(rm.net.Now(), rm.server.clients.Keys, clientAutoInc)
    }

    // What holds whenever no handler is running.
    ghost predicate Serving()
      reads this, rm, rm.net, rm.server, rm.Rooms(), Clients()
    {
      && rm.Valid() && rm.Served() && AllIndexed()
      && forall k :: k in rm.net.inbox ==> k <= clientAutoInc
    }

    // A connection that passed CheckAuth is entered in the client table and is sent the public rooms.
    method Accept(auth: Option<string>) returns (client: Client, ghost path: seq<World>)
      requires Serving()
      modifies this, rm.server, rm.net
      ensures Serving() && IsPath(old(rm.net.Now()), path, rm.net.Now())
      ensures fresh(client) && rm.server.clients == old(rm.server.clients)[client.id := client]
      ensures Handled(Connect(auth), old(Current()), Current(), rm.multiRoomMode, rm.multiRoomLimitPerUser)
    {
      hide IsPath, RoomManager.Valid, AllIndexed, Handled;
      ghost var was := Current();
      client := NextClient(auth);
      path := Admit(client);
      ConnectHandled(was, Current(), auth, rm.multiRoomMode, rm.multiRoomLimitPerUser);
    }

    // The next number goes to a new client.
    method NextClient(auth: Option<string>) returns (client: Client)
      requires Serving()
      modifies `clientAutoInc
      ensures Serving() && fresh(client) && clientAutoInc == old(clientAutoInc) + 1
      ensures client.id == clientAutoInc && client.auth == auth && client.rooms == map[]
    {
      clientAutoInc := clientAutoInc + 1;
      client := new Client(clientAutoInc, auth);
      rm.StillValid();
      hide RoomManager.Valid;
    }

    method Admit(client: Client) returns (ghost path: seq<World>)
      requires rm.Valid() && rm.Served() && AllIndexed()
      requires client.id !in rm.net.inbox && client.rooms == map[]
      modifies rm.server, rm.net
      ensures rm.Valid() && rm.Served() && AllIndexed() && IsPath(old(rm.net.Now()), path, rm.net.Now())
      ensures rm.server.clients == old(rm.server.clients)[client.id := client]
      ensures rm.net.members == old(rm.net.members) && rm.net.inbox.Keys == old(rm.net.inbox.Keys) + {client.id}
      ensures rm.net.shown == old(rm.net.shown)[client.id := client.Shown()]
    {
      hide IsPath, Lists, RoomManager.Valid, RoomManager.Indexed;
      path := Register(client);
      ghost var w := rm.net.Now();
      assert rm.Indexed(client) by { assert rm.server.clients[client.id] == client; }
      ghost var list := SendRooms(client);
      ghost var more := ListPath(w, rm.net.Now(), client.id, list);
      JoinPaths(old(rm.net.Now()), path, w, more, rm.net.Now());
      path := path + more[1..];
    }

    // The public rooms, sent to the newcomer.
    method SendRooms(client: Client) returns (ghost list: seq<Event>)
      requires rm.Valid() && rm.Served() && AllIndexed() && rm.Indexed(client)
      modifies rm.net`inbox, rm.net`lost
      ensures rm.Valid() && rm.Served() && AllIndexed() && client.id in old(rm.net.inbox)
      ensures forall i :: 0 <= i < |list| ==> list[i].RoomCreate?
      ensures rm.net.inbox == old(rm.net.inbox)[client.id := old(rm.net.inbox)[client.id] + list]
    {
      hide IsPath, Lists, RoomManager.Valid, RoomManager.PublicRooms;
      var _, _, sent := rm.SendPublicRooms(client);
      list := sent;
    }

    // The client appears, in no room.
    method Greet(client: Client) returns (ghost path: seq<World>)
      requires rm.Valid() && AllIndexed()
      requires client.id !in rm.net.inbox && client.rooms == map[]
      modifies rm.net
      ensures rm.Valid() && AllIndexed() && rm.Indexed(client) && IsPath(old(rm.net.Now()), path, rm.net.Now())
      ensures rm.net.members == old(rm.net.members) && rm.net.inbox.Keys == old(rm.net.inbox.Keys) + {client.id}
      ensures rm.net.shown == old(rm.net.shown)[client.id := client.Shown()]
    {
      hide Lists, IsPath, Tidy, Accepted, RoomManager.Valid, RoomManager.Indexed, AllIndexed;
      ghost var w := rm.net.Now();
      rm.WorldTidy();
      EveryIndex();
      rm.Welcome(client);
      AcceptedNext(w, rm.net.Now(), client.id, client.Shown());
      path := [w, rm.net.Now()];
      forall k | k in rm.server.clients
        ensures rm.Indexed(rm.server.clients[k])
      {
        rm.StillIndexed(rm.server.clients[k]);
      }
      EveryIndex();
    }

    method Register(client: Client) returns (ghost path: seq<World>)
      requires rm.Valid() && rm.Served() && AllIndexed()
      requires client.id !in rm.net.inbox && client.rooms == map[]
      modifies rm.server, rm.net
      ensures rm.Valid() && rm.Served() && AllIndexed() && IsPath(old(rm.net.Now()), path, rm.net.Now())
      ensures rm.server.clients == old(rm.server.clients)[client.id := client]
      ensures rm.net.members == old(rm.net.members) && rm.net.inbox.Keys == old(rm.net.inbox.Keys) + {client.id}
      ensures rm.net.shown == old(rm.net.shown)[client.id := client.Shown()]
    {
      hide IsPath, RoomManager.Valid, RoomManager.Indexed;
      path := Greet(client);
      label Greeted:
      rm.server.AddClient(client);
      rm.StillValid@Greeted();
    }

    // A room request of a connected client.
    method Serve(client: Client, req: Request) returns (err: bool, ghost path: seq<World>)
      requires Serving() && client in Clients()
      modifies rm`rooms, rm.Rooms()`clientsMap, client`rooms, rm.net
      ensures Serving() && IsPath(old(rm.net.Now()), path, rm.net.Now())
      ensures err <==> Refuses(old(rm.net.members), client.id, |RoomsOf(old(rm.net.members), client.id)|, req,
                               rm.multiRoomMode, rm.multiRoomLimitPerUser)
      ensures Handled(Ask(client.id, req), old(Current()), Current(), rm.multiRoomMode, rm.multiRoomLimitPerUser)
      ensures rm.Kept(old(rm.rooms)) && rm.NewRooms()
    {
      hide IsPath, Answered, OnlyOwn, RoomsOf, RoomManager.Valid, RoomManager.Indexed, RoomManager.Rooms;
      hide RoomManager.Kept, AllIndexed;
      ghost var was := Current();
      assert rm.Indexed(client) && client.id in was.connected by { OneIndex(client); }
      err, path := Answer(client, req);
      StillServing(client);
      AskHandled(was, Current(), client.id, req, err, rm.multiRoomMode, rm.multiRoomLimitPerUser);
    }

    lemma OneIndex(client: Client)
      requires AllIndexed() && client in Clients() && ById(rm.server.clients)
      ensures rm.Indexed(client) && client.id in rm.server.clients && rm.server.clients[client.id] == client
    {
    }

    // A handler that works for one client keeps every index right.
    twostate lemma StillServing(client: Client)
      requires old(Serving()) && client in old(Clients()) && rm.server.clients == old(rm.server.clients)
      requires forall c :: c in Clients() && c != client ==> c.rooms == old(c.rooms)
      requires rm.Valid() && rm.Served() && rm.Indexed(client) && rm.Kept(old(rm.rooms))
      requires OnlyOwn(old(rm.net.Now()), rm.net.Now(), client.id) && clientAutoInc == old(clientAutoInc)
      ensures Serving()
    {
      hide OnlyOwn, RoomManager.Valid, RoomManager.Indexed;
      OnlyOwnFrame(old(rm.net.Now()), rm.net.Now(), client.id);
      rm.OthersStillIndexed(client.id);
    }

    // The same without a look at the other clients.
    method Answer(client: Client, req: Request) returns (err: bool, ghost path: seq<World>)
      requires rm.Valid() && rm.Served() && rm.Indexed(client)
      modifies rm`rooms, rm.Rooms()`clientsMap, client`rooms, rm.net
      ensures rm.Valid() && rm.Served() && rm.Indexed(client)
      ensures IsPath(old(rm.net.Now()), path, rm.net.Now()) && OnlyOwn(old(rm.net.Now()), rm.net.Now(), client.id)
      ensures Answered(old(rm.net.Now()), rm.net.Now(), client.id, req, err, rm.multiRoomMode, rm.multiRoomLimitPerUser)
      ensures rm.Kept(old(rm.rooms)) && rm.NewRooms()
    {
      hide IsPath, OnlyOwn, Granted, Refuses, Announced, RoomsOf, ById, Answered;
      hide RoomManager.Valid, RoomManager.Served, RoomManager.Indexed, RoomManager.Kept, RoomManager.NewRooms;
      ghost var w, held := rm.net.Now(), client.rooms.Keys;
      rm.RoomIds();
      rm.IndexIsRooms(client);
      assert |held| == |client.rooms|;
      err, path := rm.OnRoomEvent(client, req);
      rm.RoomIds();
      rm.IndexIsRooms(client);
      AnsweredAs(w, rm.net.Now(), client.id, req, err, held, client.rooms.Keys, rm.multiRoomMode,
                 rm.multiRoomLimitPerUser);
    }

    // A connection that ends leaves its rooms and the client table.
    method Quit(client: Client) returns (ghost path: seq<World>)
      requires Serving() && client in Clients()
      modifies rm.Rooms()`clientsMap, client`rooms, rm.net, rm.server
      ensures Serving() && IsPath(old(rm.net.Now()), path, rm.net.Now())
      ensures rm.server.clients == old(rm.server.clients) - {client.id}
      ensures Handled(Disconnect(client.id), old(Current()), Current(), rm.multiRoomMode, rm.multiRoomLimitPerUser)
    {
      hide IsPath, OnlyOwn, RoomsOf, RoomManager.Valid, RoomManager.Indexed;
      path := LeaveAll(client);
      label Left:
      rm.server.RemoveClient(client);
      rm.StillValid@Left();
    }

    twostate lemma SameRooms()
      requires rm.rooms == old(rm.rooms)
      ensures rm.Kept(old(rm.rooms)) && rm.NewRooms()
    {
    }

    method LeaveAll(client: Client) returns (ghost path: seq<World>)
      requires Serving() && client in Clients()
      modifies rm.Rooms()`clientsMap, client`rooms, rm.net
      ensures Serving() && IsPath(old(rm.net.Now()), path, rm.net.Now())
      ensures OnlyOwn(old(rm.net.Now()), rm.net.Now(), client.id)
      ensures RoomsOf(rm.net.members, client.id) == {} && rm.net.members.Keys == old(rm.net.members).Keys
    {
      hide IsPath, OnlyOwn, AllIndexed, RoomsOf, RoomManager.Valid, RoomManager.Indexed;
      rm.RoomIds();
      assert rm.Indexed(client) by { OneIndex(client); }
      path := rm.RoomClientQuit(client);
      InNoRoom(rm.net.members, client.id);
      rm.RoomIds();
      SameRooms();
      OnlyOwnFrame(old(rm.net.Now()), rm.net.Now(), client.id);
      StillServing(client);
    }

    lemma EveryIndex()
      ensures AllIndexed() <==> forall k :: k in rm.server.clients ==> rm.Indexed(rm.server.clients[k])
    {
    }

    lemma OneClient(id: nat)
      requires Serving() && id in rm.server.clients
      ensures rm.server.clients[id].id == id && rm.server.clients[id] in Clients()
    {
    }

    // Whatever a client does.
    method Handle(call: Call) returns (ghost path: seq<World>)
      requires Serving()
      modifies this, rm`rooms, rm.Rooms()`clientsMap, Clients()`rooms, rm.net, rm.server
      ensures Serving() && IsPath(old(rm.net.Now()), path, rm.net.Now())
      ensures Handled(call, old(Current()), Current(), rm.multiRoomMode, rm.multiRoomLimitPerUser)
      ensures rm.Kept(old(rm.rooms)) && rm.NewRooms()
      ensures forall c :: c in Clients() ==> c in old(Clients()) || fresh(c)
    {
      hide IsPath, Handled, Serving, RoomManager.Kept, RoomManager.NewRooms;
      path := [rm.net.Now()];
      Standing(rm.net.Now());
      SameRooms();
      NotServed(call, Current(), rm.multiRoomMode, rm.multiRoomLimitPerUser);
      match call
      case Connect(auth) =>
        var client;
        client, path := Accept(auth);
      case Ask(id, req) =>
        if id in rm.server.clients {
          OneClient(id);
          var err;
          err, path := Serve(rm.server.clients[id], req);
        }
      case Disconnect(id) =>
        if id in rm.server.clients {
          OneClient(id);
          path := Quit(rm.server.clients[id]);
        }
    }
  }

  lemma ExactViews(s: RoomServer)
    requires s.Serving() && Inv(s.rm.net.Now())
    ensures forall c, id :: c in s.Clients() && id in c.rooms ==>
              && id in s.rm.net.members && c.id in s.rm.net.members[id] && s.rm.rooms[id] == c.rooms[id]
              && Exact(s.rm.net.Now(), c.id, id)
  {
    hide Exact;
    forall c, id | c in s.Clients() && id in c.rooms
      ensures id in s.rm.net.members && c.id in s.rm.net.members[id] && s.rm.rooms[id] == c.rooms[id]
    {
      s.OneIndex(c);
    }
  }

  method Start(multi: bool, limit: int) returns (s: RoomServer)
    ensures fresh(s) && fresh(s.rm) && fresh(s.rm.net) && fresh(s.rm.server) && s.rm.rooms == map[]
    ensures s.rm.multiRoomMode == multi && s.rm.multiRoomLimitPerUser == limit
    ensures s.Serving() && s.Current() == Stage(NOBODY, {}, 0) && s.Clients() == {}
  {
    var net := new Network();
    var server := new Server();
    var rm := new RoomManager(server, net, multi, limit);
    s := new RoomServer(rm);
  }

  // Whatever clients do, in whatever order, the server does it step by step, all of it is a run of atomic handlers,
  // every index stays right, and every client's view of a room in its index is exactly who is there.
  method Run(script: seq<Call>, multi: bool, limit: int)
    returns (s: RoomServer, ghost path: seq<World>, ghost stages: seq<Stage>)
    ensures s.Serving() && IsPath(NOBODY, path, s.rm.net.Now())
    ensures Played(script, stages, multi, limit) && stages[|script|] == s.Current()
    ensures forall c, id :: c in s.Clients() && id in c.rooms ==>
              && id in s.rm.net.members && c.id in s.rm.net.members[id] && s.rm.rooms[id] == c.rooms[id]
              && Exact(s.rm.net.Now(), c.id, id)
  {
    s := Start(multi, limit);
    var rm, net := s.rm, s.rm.net;
    path, stages := [NOBODY], [s.Current()];
    assert IsPath(NOBODY, path, NOBODY);
    hide IsPath, Handled, RoomServer.Serving, Exact;
    for i := 0 to |script|
      invariant s.Serving() && s.rm == rm && IsPath(NOBODY, path, net.Now())
      invariant |stages| == i + 1 && stages[0] == Stage(NOBODY, {}, 0) && stages[i] == s.Current()
      invariant forall j :: 0 <= j < i ==> Handled(script[j], stages[j], stages[j + 1], multi, limit)
      invariant (forall x :: x in rm.rooms ==> fresh(rm.rooms[x])) && fresh(s.Clients())
    {
      ghost var w := net.Now();
      ghost var more := s.Handle(script[i]);
      JoinPaths(NOBODY, path, w, more, net.Now());
      path, stages := path + more[1..], stages + [s.Current()];
    }
    NobodyExact();
    PathExact(NOBODY, path, net.Now());
    ExactViews(s);
  }

  // Who is in a room under an id: the connections of the user, and the connection without auth that has the number.
  ghost function Under(m: map<nat, Client>, id: string): set<nat> {
    set k | k in m && (if m[k].auth.Some? then m[k].auth.value == id else Spells(id, k))
  }

  // An exact view of a room counts, for every id, the connections that are in the room under it.
  lemma ViewTellsWho(s: RoomServer, c: nat, room: string, id: string)
    requires s.Serving() && room in s.rm.rooms && room in s.rm.net.members && Exact(s.rm.net.Now(), c, room)
    ensures var w, m := s.rm.net.Now(), s.rm.rooms[room].clientsMap;
            View(w.inbox[c][w.since[c][room]..], room)[id] == |Under(m, id)| && m.Keys == w.members[room]
  {
    var w, m := s.rm.net.Now(), s.rm.rooms[room].clientsMap;
    s.rm.InTable(room);
    hide View, RoomManager.Valid, Spells;
    forall k | k in m
      ensures k in w.shown && (w.shown[k] == id <==> k in Under(m, id))
    {
      assert w.shown[k] == m[k].Shown();
      SprintIff(id, k);
    }
    assert Showing(w.shown, w.members[room], id) == Under(m, id);
  }

  lemma FirstRoom(w: World, w': World, c: nat, room: string, public: bool, multi: bool, limit: int)
    requires w.members == map[]
    requires exists err :: Answered(w, w', c, CreateRequest(room, public), err, multi, limit)
    ensures w'.members == map[room := {c}]
  {
    assert RoomsOf(w.members, c) == {};
    assert room in RoomsOf(w'.members, c);
    assert w'.members.Keys == {room} && w'.members[room] == {c};
  }

  // A client that is in no room gets into any room there is.
  lemma FreeToJoin(w: World, w': World, d: nat, room: string, multi: bool, limit: int)
    requires RoomsOf(w.members, d) == {} && room in w.members
    requires exists err :: Answered(w, w', d, JoinRequest(room), err, multi, limit)
    ensures OnlyOwn(w, w', d) && w'.members.Keys == w.members.Keys && d in w'.members[room]
  {
    assert room !in RoomsOf(w.members, d);
    hide OnlyOwn;
    assert room in RoomsOf(w'.members, d);
  }

  lemma SecondIn(w: World, w': World, c: nat, d: nat, room: string, multi: bool, limit: int)
    requires w.members == map[room := {c}] && d != c
    requires exists err :: Answered(w, w', d, JoinRequest(room), err, multi, limit)
    ensures w'.members == map[room := {c, d}]
  {
    hide Answered;
    FreeToJoin(w, w', d, room, multi, limit);
    assert w'.members[room] == {c, d};
  }

  lemma FirstOut(s: Stage, s': Stage, c: nat, d: nat, room: string, multi: bool, limit: int)
    requires s.w.members == map[room := {c, d}] && d != c && c in s.connected
    requires Handled(Disconnect(c), s, s', multi, limit)
    ensures s'.w.members == map[room := {d}]
  {
    assert room !in RoomsOf(s'.w.members, c);
    assert s'.w.members.Keys == {room} && s'.w.members[room] == {d};
  }

  // Two clients meet in the room one of them created, and part again, in either mode and whatever the limit.
  lemma TwoMeet(room: string, public: bool, stages: seq<Stage>, multi: bool, limit: int)
    requires Played([Connect(None), Connect(None), Ask(1, CreateRequest(room, public)), Ask(2, JoinRequest(room)),
                     Disconnect(1)], stages, multi, limit)
    ensures stages[4].w.members == map[room := {1, 2}] && stages[4].connected == {1, 2}
    ensures stages[5].w.members == map[room := {2}] && stages[5].connected == {2}
  {
    hide Answered;
    var script := [Connect(None), Connect(None), Ask(1, CreateRequest(room, public)), Ask(2, JoinRequest(room)),
                   Disconnect(1)];
    assert Handled(script[0], stages[0], stages[1], multi, limit);
    assert Handled(script[1], stages[1], stages[2], multi, limit);
    assert Handled(script[2], stages[2], stages[3], multi, limit);
    assert Handled(script[3], stages[3], stages[4], multi, limit);
    assert Handled(script[4], stages[4], stages[5], multi, limit);
    FirstRoom(stages[2].w, stages[3].w, 1, room, public, multi, limit);
    SecondIn(stages[3].w, stages[4].w, 1, 2, room, multi, limit);
    FirstOut(stages[4], stages[5], 1, 2, room, multi, limit);
  }
}
