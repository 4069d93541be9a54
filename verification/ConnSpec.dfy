// The authorised-connection index of auth.go as values: which user every registered connection belongs to,
// and the connections of every user.
module ConnSpec {
  type Cid = int
  type User = string

  // `clients` is ConnManager.clients with each client's auth id; `users` is ConnManager.userConnections.
  datatype Conns = Conns(clients: map<Cid, User>, users: map<User, set<Cid>>)

  const NO_CONNS := Conns(map[], map[])

  function Of(m: Conns, u: User): set<Cid> {
    if u in m.users then m.users[u] else {}
  }

  function SetAuth(m: Conns, c: Cid, u: User): Conns {
    Conns(m.clients[c := u], m.users[u := Of(m, u) + {c}])
  }

  // The answer of setAuth: is this the only connection of the user?
  predicate First(m: Conns, c: Cid, u: User) {
    |Of(m, u) + {c}| == 1
  }

  function RemoveAuth(m: Conns, c: Cid): Conns
    requires c in m.clients
  {
    var u := m.clients[c];
    var rest := Of(m, u) - {c};
    Conns(m.clients - {c}, if rest == {} then m.users - {u} else m.users[u := rest])
  }

  // The answer of removeAuth: is the user still connected?
  predicate AnyLeft(m: Conns, c: Cid)
    requires c in m.clients
  {
    Of(m, m.clients[c]) - {c} != {}
  }

  function Others(m: Conns, u: User): set<User> {
    m.users.Keys - {u}
  }

  function OtherClients(m: Conns, u: User): set<Cid> {
    set c | c in m.clients && m.clients[c] != u
  }

  lemma Pick<T>(s: set<T>) returns (x: T)
    requires s != {}
    ensures x in s
  {
    x :| x in s;
  }

  // `users` is exactly `clients` grouped by user, without empty groups.
  ghost predicate Grouped(m: Conns) {
    && (forall c :: c in m.clients ==> m.clients[c] in m.users && c in m.users[m.clients[c]])
    && (forall u, c :: u in m.users && c in m.users[u] ==> c in m.clients && m.clients[c] == u)
    && (forall u :: u in m.users ==> m.users[u] != {})
  }

  // Registering keeps the grouping exactly for a connection that is new or that keeps its user.
  lemma SetAuthGrouped(m: Conns, c: Cid, u: User)
    requires Grouped(m)
    ensures Grouped(SetAuth(m, c, u)) <==> (c in m.clients ==> m.clients[c] == u)
  {
    var m' := SetAuth(m, c, u);
    if c in m.clients && m.clients[c] != u {
      var v := m.clients[c];
      assert v in m'.users && c in m'.users[v] && m'.clients[c] == u;
    } else {
      assert forall v, d :: v in m'.users && d in m'.users[v] && v != u ==> v in m.users && d in m.users[v];
    }
  }

  lemma RemoveAuthGrouped(m: Conns, c: Cid)
    requires Grouped(m) && c in m.clients
    ensures Grouped(RemoveAuth(m, c))
    ensures AnyLeft(m, c) <==> m.clients[c] in RemoveAuth(m, c).users
    ensures AnyLeft(m, c) <==> exists d :: d != c && d in m.clients && m.clients[d] == m.clients[c]
  {
    var m' := RemoveAuth(m, c);
    var u := m.clients[c];
    forall v, d | v in m'.users && d in m'.users[v]
      ensures d in m'.clients && m'.clients[d] == v
    {
      assert v in m.users && d in m.users[v] && m.clients[d] == v;
    }
    forall d | d in m'.clients
      ensures m'.clients[d] in m'.users && d in m'.users[m'.clients[d]]
    {
      assert d in m.users[m.clients[d]] && d != c;
    }
    if AnyLeft(m, c) {
      var d := Pick(Of(m, u) - {c});
      assert m.clients[d] == u;
    }
    forall d | d != c && d in m.clients && m.clients[d] == u
      ensures AnyLeft(m, c)
    {
      assert d in Of(m, u) - {c};
    }
  }
}
