// ConnManager of auth.go as an object, with the user announcements of user_join.go and the login and revoke handlers
// that use them. The handlers refine the atomic ones of PresenceViews.
module ConnManagers {
  import opened Common
  import opened ConnSpec
  import opened PresenceViews

  class Client {
    const id: int
    var auth: Option<string>

    constructor (id: int)
      ensures this.id == id && auth == None
    {
      this.id := id;
      auth := None;
    }

    method SetRawAuth(a: string)
      modifies this`auth
      ensures auth == Some(a)
    {
      auth := Some(a);
    }
  }

  // Each client of the list once.
  ghost predicate Once(cs: seq<Client>) {
    forall i, j :: 0 <= i < j < |cs| ==> cs[i].id != cs[j].id
  }

  ghost predicate ById(clients: map<int, Client>) {
    forall k :: k in clients ==> clients[k].id == k
  }

  ghost function Registered(clients: map<int, Client>): set<Client> {
    set k | k in clients :: clients[k]
  }

  // Every client carries the auth id it is filed under.
  ghost predicate Authed(clients: map<int, Client>, auths: map<Cid, User>)
    reads Registered(clients)
  {
    forall k :: k in clients ==> k in auths && clients[k].auth == Some(auths[k])
  }

  lemma AuthedMore(clients: map<int, Client>, auths: map<Cid, User>, c: Client, a: string)
    requires Authed(clients, auths) && c.auth == Some(a)
    ensures Authed(clients[c.id := c], auths[c.id := a])
  {
  }

  // The ids of every user's connections.
  ghost function IdsOf(groups: map<string, map<int, Client>>): (ids: map<User, set<Cid>>)
    ensures ids.Keys == groups.Keys && forall u :: u in groups ==> ids[u] == groups[u].Keys
  {
    map u | u in groups :: groups[u].Keys
  }

  // A client is filed under a user.
  function Filed(groups: map<string, map<int, Client>>, a: string, c: Client): map<string, map<int, Client>> {
    var was: map<int, Client> := if a in groups then groups[a] else map[];
    groups[a := was[c.id := c]]
  }

  // A client is removed from the group of a user, which goes when nobody is left in it.
  function Unfiled(groups: map<string, map<int, Client>>, u: string, id: int): map<string, map<int, Client>> {
    var rest: map<int, Client> := (if u in groups then groups[u] else map[]) - {id};
    if rest == map[] then groups - {u} else groups[u := rest]
  }

  // The groups are those of the index, and every client is filed under its id.
  ghost predicate GroupsOk(groups: map<string, map<int, Client>>, m: Conns) {
    IdsOf(groups) == m.users && forall u :: u in groups ==> ById(groups[u])
  }

  lemma FiledOk(groups: map<string, map<int, Client>>, m: Conns, a: string, c: Client)
    requires GroupsOk(groups, m)
    ensures var groups' := Filed(groups, a, c);
            && GroupsOk(groups', SetAuth(m, c.id, a))
            && a in groups' && (|groups'[a]| == 1 <==> First(m, c.id, a))
  {
    var was: map<int, Client> := if a in groups then groups[a] else map[];
    var now := was[c.id := c];
    assert now.Keys == Of(m, a) + {c.id} && |now| == |now.Keys| && ById(now);
    hide ById;
    assert IdsOf(Filed(groups, a, c)) == m.users[a := now.Keys];
  }

  lemma UnfiledOk(groups: map<string, map<int, Client>>, m: Conns, id: int)
    requires GroupsOk(groups, m) && id in m.clients
    ensures var u := m.clients[id];
            GroupsOk(Unfiled(groups, u, id), RemoveAuth(m, id)) && (u in Unfiled(groups, u, id) <==> AnyLeft(m, id))
  {
    var u := m.clients[id];
    var was: map<int, Client> := if u in groups then groups[u] else map[];
    var rest := was - {id};
    assert rest.Keys == Of(m, u) - {id};
    assert rest == map[] <==> rest.Keys == {};
    assert IdsOf(Unfiled(groups, u, id)) == RemoveAuth(m, id).users;
  }

  class ConnManager {
    var clients: map<int, Client>
    // The connections of every user, under their ids.
    var userConnections: map<string, map<int, Client>>
    // The two maps, with the auth id of every client.
    ghost var index: Conns

    constructor ()
      ensures Valid() && AllAuthed() && index == NO_CONNS
    {
      clients, userConnections, index := map[], map[], NO_CONNS;
    }

    ghost predicate Valid()
      reads this
    {
      && clients.Keys == index.clients.Keys && ById(clients)
      && GroupsOk(userConnections, index)
    }

    ghost predicate AllAuthed()
      reads this, Registered(clients)
    {
      Authed(clients, index.clients)
    }

    // Files the client under a, and tells whether it is the user's only connection.
    method SetAuth(client: Client, a: string) returns (first: bool)
      requires Valid()
      modifies this, client`auth
      ensures Valid() && index == ConnSpec.SetAuth(old(index), client.id, a)
      ensures first <==> First(old(index), client.id, a)
      ensures client.auth == Some(a) && clients == old(clients)[client.id := client]
      ensures userConnections == Filed(old(userConnections), a, client)
    {
      FiledOk(userConnections, index, a, client);
      assert ById(clients[client.id := client]);
      ghost var m := ConnSpec.SetAuth(index, client.id, a);
      assert clients[client.id := client].Keys == m.clients.Keys;
      hide GroupsOk, First, Filed, ById, ConnSpec.SetAuth;
      client.SetRawAuth(a);
      clients := clients[client.id := client];
      File(a, client);
      first := |userConnections[a]| == 1;
      index := m;
    }

    // The client joins the group of a user, which is made when there is none.
    method File(a: string, client: Client)
      modifies `userConnections
      ensures userConnections == Filed(old(userConnections), a, client)
    {
      if a !in userConnections {
        userConnections := userConnections[a := map[]];
      }
      userConnections := userConnections[a := userConnections[a][client.id := client]];
    }

    // The client leaves the group of a user, which is dropped when nobody is left.
    method Unfile(u: string, clientId: int) returns (any: bool)
      modifies `userConnections
      ensures userConnections == Unfiled(old(userConnections), u, clientId)
      ensures any <==> u in userConnections
    {
      var was: map<int, Client> := if u in userConnections then userConnections[u] else map[];
      var group := was - {clientId};
      if u in userConnections {
        userConnections := userConnections[u := group];
      }
      any := |group| != 0;
      if !any {
        userConnections := userConnections - {u};
      }
    }

    // Forgets a registered client, and tells whether its user is still connected.
    method RemoveAuth(clientId: int) returns (any: bool)
      requires Valid() && AllAuthed() && clientId in clients
      modifies this
      ensures Valid() && index == ConnSpec.RemoveAuth(old(index), clientId)
      ensures any <==> AnyLeft(old(index), clientId)
      ensures clients == old(clients) - {clientId}
      ensures userConnections == Unfiled(old(userConnections), old(index).clients[clientId], clientId)
    {
      var u := clients[clientId].auth.value;
      UnfiledOk(userConnections, index, clientId);
      hide GroupsOk, AnyLeft, Unfiled;
      clients := clients - {clientId};
      any := Unfile(u, clientId);
      index := ConnSpec.RemoveAuth(index, clientId);
    }

    // The registered clients of other users than the given ones.
    method GetAuthorizedUserClients(except: set<string>) returns (cs: seq<Client>)
      requires Valid() && AllAuthed()
      ensures Once(cs)
      ensures forall c :: c in cs <==> c.id in index.clients && index.clients[c.id] !in except && clients[c.id] == c
    {
      cs := [];
      var todo := clients.Keys;
      while todo != {}
        invariant todo <= clients.Keys && Once(cs)
        invariant forall c :: c in cs <==>
                    c.id in clients && c.id !in todo && index.clients[c.id] !in except && clients[c.id] == c
        decreases |todo|
      {
        ghost var some := Pick(todo);
        var k :| k in todo;
        todo := todo - {k};
        if clients[k].auth.value !in except {
          cs := cs + [clients[k]];
        }
      }
    }

    // The registered clients other than the given ones.
    method GetAuthorizedClients(except: set<int>) returns (cs: seq<Client>)
      requires Valid()
      ensures Once(cs)
      ensures forall c :: c in cs <==> c.id in index.clients && c.id !in except && clients[c.id] == c
    {
      cs := [];
      var todo := clients.Keys;
      while todo != {}
        invariant todo <= clients.Keys && Once(cs)
        invariant forall c :: c in cs <==> c.id in clients && c.id !in todo && c.id !in except && clients[c.id] == c
        decreases |todo|
      {
        ghost var some := Pick(todo);
        var k :| k in todo;
        todo := todo - {k};
        if k !in except {
          cs := cs + [clients[k]];
        }
      }
    }

    method IsUserConnected(id: string) returns (ok: bool)
      requires Valid() && Grouped(index)
      ensures ok <==> exists c :: c in index.clients && index.clients[c] == id
    {
      ok := id in userConnections;
      ConnectedMeansSome(index, id);
    }

    // The connected users other than the given ones.
    method GetAuthorizedUserIds(except: set<string>) returns (ids: seq<string>)
      requires Valid()
      ensures forall i, j :: 0 <= i < j < |ids| ==> ids[i] != ids[j]
      ensures forall u :: u in ids <==> u in index.users.Keys - except
    {
      ids := [];
      var todo := userConnections.Keys;
      while todo != {}
        invariant todo <= userConnections.Keys && forall i, j :: 0 <= i < j < |ids| ==> ids[i] != ids[j]
        invariant forall u :: u in ids <==> u in userConnections && u !in except && u !in todo
        decreases |todo|
      {
        var u :| u in todo;
        todo := todo - {u};
        if u !in except {
          ids := ids + [u];
        }
      }
    }
  }
}
