// A channel with authentication: the user announcements of user_join.go and the handlers of auth.go that run when a
// connection authenticates and when it is revoked. They refine the atomic handlers of PresenceViews.
module AuthChannels {
  import opened Common
  import opened ConnSpec
  import opened PresenceViews
  import opened ConnManagers

  // A send that failed.
  datatype Loss = Loss(to: Cid, ev: Event)

  // What has been lost since.
  function Since(was: seq<Loss>, now: seq<Loss>): (lost: seq<Loss>)
    ensures was <= now ==> now == was + lost
  {
    if was <= now then now[|was|..] else []
  }

  // The send of a user of c's list failed.
  predicate IsListLoss(l: Loss, c: Cid) {
    l.to == c && l.ev.UserJoin?
  }

  ghost predicate ListLost(lost: seq<Loss>, c: Cid) {
    exists l :: l in lost && IsListLoss(l, c)
  }

  lemma SomeLost(lost: seq<Loss>, c: Cid)
    requires forall l :: l in lost ==> IsListLoss(l, c)
    ensures ListLost(lost, c) <==> lost != []
  {
    if lost != [] {
      assert lost[0] in lost;
    }
  }

  // Where sends go. The ghost fields are what every connection was sent, in order, and which sends failed.
  class Wire {
    ghost var inbox: map<Cid, seq<Event>>
    ghost var lost: seq<Loss>

    constructor ()
      ensures inbox == map[] && lost == []
    {
      inbox, lost := map[], [];
    }

    // The sends that failed in between.
    twostate function Lost(): (ls: seq<Loss>)
      reads this
    {
      Since(old(lost), lost)
    }

    // Something failed exactly when there was an error.
    twostate predicate Erred(err: bool)
      reads this
    {
      old(lost) <= lost && (err <==> Lost() != [])
    }

    method Open(c: Client)
      modifies `inbox
      ensures inbox == old(inbox)[c.id := []]
    {
      inbox := inbox[c.id := []];
    }

    // A send is attempted, and can fail.
    method Send(c: Client, ev: Event) returns (err: bool)
      requires c.id in inbox
      modifies this
      ensures inbox == old(inbox)[c.id := old(inbox)[c.id] + [ev]]
      ensures lost == old(lost) + if err then [Loss(c.id, ev)] else []
    {
      inbox := inbox[c.id := inbox[c.id] + [ev]];
      err := *;
      if err {
        lost := lost + [Loss(c.id, ev)];
      }
    }

    // Broadcast, seen from outside: every client of the list is sent to once.
    method Broadcast(cs: seq<Client>, ev: Event, ghost to: set<Cid>) returns (err: bool)
      requires Once(cs) && to <= inbox.Keys
      requires forall c :: c in cs ==> c.id in to
      requires forall k :: k in to ==> exists i :: 0 <= i < |cs| && cs[i].id == k
      modifies this
      ensures Told(old(inbox), inbox, to, ev)
      ensures Erred(err) && forall l :: l in Lost() ==> l.ev == ev && l.to in to
    {
      err := false;
      for i := 0 to |cs|
        invariant Erred(err) && forall l :: l in Lost() ==> l.ev == ev && l.to in to
        invariant inbox.Keys == old(inbox).Keys
        invariant forall j :: 0 <= j < |cs| ==>
                    inbox[cs[j].id] == old(inbox)[cs[j].id] + if j < i then [ev] else []
        invariant forall k :: k in inbox && k !in to ==> inbox[k] == old(inbox)[k]
      {
        var failed := Send(cs[i], ev);
        err := err || failed;
      }
    }
  }

  ghost predicate Known(cm: ConnManager, wire: Wire)
    reads cm, wire
  {
    cm.Valid() && Grouped(cm.index) && cm.clients.Keys <= wire.inbox.Keys
  }

  // The connections of other users, as a list of clients.
  lemma WhoIsOther(clients: map<int, Client>, m: Conns, cs: seq<Client>, u: User)
    requires clients.Keys == m.clients.Keys && ById(clients)
    requires forall c :: c in cs <==> c.id in m.clients && m.clients[c.id] !in {u} && clients[c.id] == c
    ensures forall c :: c in cs ==> c.id in OtherClients(m, u)
    ensures forall k :: k in OtherClients(m, u) ==> exists i :: 0 <= i < |cs| && cs[i].id == k
    ensures cs == [] ==> OtherClients(m, u) == {}
  {
    forall k | k in OtherClients(m, u)
      ensures exists i :: 0 <= i < |cs| && cs[i].id == k
    {
      assert clients[k] in cs;
    }
  }

  lemma NobodyTold(inbox: map<Cid, seq<Event>>, ev: Event)
    ensures Told(inbox, inbox, {}, ev)
  {
  }

  class AuthChannel {
    const cm: ConnManager
    const wire: Wire

    constructor (cm: ConnManager, wire: Wire)
      ensures this.cm == cm && this.wire == wire
    {
      this.cm, this.wire := cm, wire;
    }

    ghost function Now(): World
      reads cm, wire
    {
      World(cm.index, wire.inbox)
    }

    ghost predicate Valid()
      reads cm, wire, Registered(cm.clients)
    {
      Known(cm, wire) && cm.AllAuthed()
    }

    // broadcast of user_join.go: everybody of another user is told.
    method Announce(client: Client, ev: Event) returns (err: bool)
      requires Valid() && client.auth.Some?
      modifies wire
      ensures Valid() && Told(old(wire.inbox), wire.inbox, OtherClients(cm.index, client.auth.value), ev)
      ensures wire.Erred(err)
      ensures forall l :: l in wire.Lost() ==> l.ev == ev && l.to in OtherClients(cm.index, client.auth.value)
    {
      hide Told, Since;
      var u := client.auth.value;
      var clients := cm.GetAuthorizedUserClients({u});
      WhoIsOther(cm.clients, cm.index, clients, u);
      if |clients| > 0 {
        err := wire.Broadcast(clients, ev, OtherClients(cm.index, u));
      } else {
        err := false;
        NobodyTold(wire.inbox, ev);
      }
    }

    // onJoin of user_join.go: the newcomer is told who else is connected, until a send fails, and then everybody of
    // another user is told about the newcomer, if asked for. `listed` says that all sends to the newcomer went well.
    method OnJoin(client: Client, broadcast: bool)
      returns (err: bool, ghost listed: bool, ghost sent: set<User>, ghost list: seq<Event>)
      requires Valid() && client.id in cm.clients && cm.clients[client.id] == client && client.auth.Some?
      modifies wire
      ensures Valid()
      ensures IsUserList(list, sent) && sent <= Others(cm.index, client.auth.value)
      ensures listed ==> sent == Others(cm.index, client.auth.value)
      ensures wire.Erred(err) && (listed <==> !ListLost(wire.Lost(), client.id))
      ensures forall l :: l in wire.Lost() ==> l.ev.UserJoin?
      ensures listed && !broadcast ==> !err
      ensures Heard(old(wire.inbox), wire.inbox, client.id, list,
                    if listed && broadcast then OtherClients(cm.index, client.auth.value) else {},
                    UserJoin(client.auth.value))
    {
      hide IsUserList, Told;
      var u := client.auth.value;
      ghost var was := wire.inbox;
      err, sent, list := SendOthers(client);
      listed := !err;
      SomeLost(wire.Lost(), client.id);
      ghost var between := wire.inbox;
      if err || !broadcast {
        HeardList(was, between, client.id, list, UserJoin(u));
      } else {
        err := Announce(client, UserJoin(u));
        HeardBoth(cm.index, was, between, wire.inbox, client.id, list, UserJoin(u));
      }
    }

    method SendOthers(client: Client) returns (err: bool, ghost sent: set<User>, ghost list: seq<Event>)
      requires Valid() && client.id in cm.clients && client.auth.Some?
      modifies wire
      ensures Valid()
      ensures wire.inbox == old(wire.inbox)[client.id := old(wire.inbox)[client.id] + list]
      ensures IsUserList(list, sent) && sent <= Others(cm.index, client.auth.value)
      ensures !err ==> sent == Others(cm.index, client.auth.value)
      ensures wire.Erred(err) && forall l :: l in wire.Lost() ==> IsListLoss(l, client.id)
    {
      hide Grouped, IsUserList;
      var ids := cm.GetAuthorizedUserIds({client.auth.value});
      err, sent, list := SendIds(client, ids);
    }

    // The loop over the ids of the other users, left at the first error.
    method SendIds(client: Client, ids: seq<string>) returns (err: bool, ghost sent: set<User>, ghost list: seq<Event>)
      requires client.id in wire.inbox && forall i, j :: 0 <= i < j < |ids| ==> ids[i] != ids[j]
      modifies wire
      ensures wire.inbox == old(wire.inbox)[client.id := old(wire.inbox)[client.id] + list]
      ensures IsUserList(list, sent) && forall u :: u in sent ==> u in ids
      ensures !err ==> forall u :: u in ids ==> u in sent
      ensures wire.Erred(err) && forall l :: l in wire.Lost() ==> IsListLoss(l, client.id)
    {
      hide IsUserList;
      ghost var was := wire.inbox;
      err, sent, list := false, {}, [];
      NoUsers();
      assert was[client.id] + list == was[client.id];
      var i := 0;
      while i < |ids| && !err
        invariant i <= |ids| && IsUserList(list, sent) && forall u :: u in sent <==> u in ids[..i]
        invariant client.id in wire.inbox && wire.inbox[client.id] == was[client.id] + list
        invariant wire.inbox == was[client.id := wire.inbox[client.id]]
        invariant wire.Erred(err) && forall l :: l in wire.Lost() ==> IsListLoss(l, client.id)
      {
        UserListGrows(list, sent, ids[i]);
        err := wire.Send(client, UserJoin(ids[i]));
        list, sent := list + [UserJoin(ids[i])], sent + {ids[i]};
        i := i + 1;
      }
    }

    method Register(client: Client, u: string) returns (first: bool)
      requires Valid() && client.id !in cm.clients && client.id in wire.inbox
      modifies cm, client`auth
      ensures Valid() && cm.index == SetAuth(old(cm.index), client.id, u)
      ensures first <==> First(old(cm.index), client.id, u)
      ensures client.auth == Some(u) && cm.clients == old(cm.clients)[client.id := client]
    {
      ghost var before, m := cm.clients, cm.index;
      assert client !in Registered(before) && before.Keys == m.clients.Keys;
      hide First, Authed, Registered;
      SetAuthGrouped(m, client.id, u);
      hide Grouped;
      client.SetRawAuth(u);
      first := cm.SetAuth(client, u);
      AuthedMore(before, m.clients, client, u);
    }

    // What follows the registration of a connection.
    method Admit(client: Client, first: bool)
      returns (err: bool, ghost listed: bool, ghost list: seq<Event>, ghost told: map<Cid, seq<Event>>)
      requires Valid() && client.id in cm.clients && cm.clients[client.id] == client && client.auth.Some?
      modifies wire
      ensures Valid()
      ensures wire.Erred(err) && (listed <==> !ListLost(wire.Lost(), client.id))
      ensures forall l :: l in wire.Lost() ==> !l.ev.AuthChallenge?
      ensures listed ==> IsUserList(list, Others(cm.index, client.auth.value))
      ensures Heard(old(wire.inbox), told, client.id, list,
                    if first && listed then OtherClients(cm.index, client.auth.value) else {},
                    UserJoin(client.auth.value))
      ensures wire.inbox == told || wire.inbox == told[client.id := told[client.id] + [AuthPass(client.auth.value)]]
      ensures !err ==> wire.inbox == told[client.id := told[client.id] + [AuthPass(client.auth.value)]]
    {
      hide IsUserList, Told;
      ghost var sent;
      err, listed, sent, list := OnJoin(client, first);
      told := wire.inbox;
      if !err {
        err := wire.Send(client, AuthPass(client.auth.value));
      }
    }

    // A new connection is challenged. `answer` is what comes of its answer: the user that OnBasicAuth makes of it, or
    // none when reading or decoding it fails, when it names another channel or method, or when OnBasicAuth refuses. A
    // user is registered at once, and whatever fails after that, the registration stays; the others are told of it when
    // it is the first of its user and all sends of the list of users went well.
    method Login(client: Client, answer: Option<string>)
      returns (err: bool, ghost registered: bool, ghost listed: bool)
      requires Valid() && client.id !in cm.clients && client.id !in wire.inbox
      modifies cm, client`auth, wire
      ensures Valid()
      ensures old(wire.lost) <= wire.lost
      ensures registered <==> answer.Some? && Loss(client.id, AuthChallenge) !in wire.Lost()
      ensures err <==> answer.None? || wire.Lost() != []
      ensures registered ==> (listed <==> !ListLost(wire.Lost(), client.id))
      ensures wire.inbox.Keys == old(wire.inbox).Keys + {client.id}
      ensures !registered ==> cm.clients == old(cm.clients) && Rejected(old(Now()), Now(), client.id)
      ensures registered ==>
                && cm.clients == old(cm.clients)[client.id := client]
                && cm.index == SetAuth(old(cm.index), client.id, answer.value)
      ensures registered ==>
                var u := answer.value;
                Told(old(wire.inbox), wire.inbox - {client.id},
                     if listed && First(old(cm.index), client.id, u) then OtherClients(old(cm.index), u) else {},
                     UserJoin(u))
      ensures registered && listed ==>
                || LoggedIn(old(Now()), Now(), client.id, answer.value)
                || Halted(old(Now()), Now(), client.id, answer.value)
      ensures !err ==> LoggedIn(old(Now()), Now(), client.id, answer.value)
    {
      ghost var was, m := wire.inbox, cm.index;
      assert client.id !in m.clients;
      err := Challenge(client);
      registered, listed := !err && answer.Some?, false;
      if !err && answer.None? {
        err := true;
      }
      if err {
        return;
      }
      var u := answer.value;
      hide Grouped, First, SetAuth, IsUserList, Told, IsAdmission, LoggedIn, Halted, Valid;
      ghost var open := wire.inbox;
      var first := Register(client, u);
      ghost var list, told;
      err, listed, list, told := Admit(client, first);
      Announced(m, client.id, u, was, open, told, wire.inbox, list, listed);
      ToldKeys(was, wire.inbox, client.id, if listed && First(m, client.id, u) then OtherClients(m, u) else {},
               UserJoin(u));
      if listed {
        if wire.inbox == told {
          Interrupted(m, client.id, u, was, open, told, list);
        } else {
          Admitted(m, client.id, u, was, open, told, wire.inbox, list);
        }
      }
    }

    method Challenge(client: Client) returns (err: bool)
      requires Valid() && client.id !in wire.inbox
      modifies wire
      ensures Valid() && wire.inbox == old(wire.inbox)[client.id := [AuthChallenge]]
      ensures wire.lost == old(wire.lost) + if err then [Loss(client.id, AuthChallenge)] else []
    {
      hide Grouped;
      wire.Open(client);
      err := wire.Send(client, AuthChallenge);
      assert [] + [AuthChallenge] == [AuthChallenge];
    }

    // A connection is revoked: the others are told when its user has none left.
    method Revoke(client: Client) returns (err: bool)
      requires Valid() && client.id in cm.clients && cm.clients[client.id] == client
      modifies cm, wire
      ensures Valid() && LoggedOut(old(Now()), Now(), client.id) && cm.clients == old(cm.clients) - {client.id}
      ensures wire.Erred(err)
    {
      ghost var before, m := cm.clients, cm.index;
      assert m.clients[client.id] == client.auth.value;
      hide AnyLeft, Told;
      RemoveAuthGrouped(m, client.id);
      hide Grouped;
      var any := cm.RemoveAuth(client.id);
      assert Valid() by { StillAuthed(before, m.clients, cm.clients, cm.index.clients); }
      err := false;
      if any {
        NobodyTold(wire.inbox, UserLeft(client.auth.value));
      } else {
        err := Announce(client, UserLeft(client.auth.value));
      }
      OthersStay(m, client.id);
    }
  }

  lemma StillAuthed(clients: map<int, Client>, auths: map<Cid, User>, less: map<int, Client>, kept: map<Cid, User>)
    requires Authed(clients, auths) && less.Keys <= kept.Keys
    requires forall k :: k in less ==> k in clients && less[k] == clients[k]
    requires forall k :: k in kept ==> k in auths && kept[k] == auths[k]
    ensures Authed(less, kept)
  {
  }

  // Whoever belongs to another user is not affected by the revocation.
  lemma OthersStay(m: Conns, c: Cid)
    requires c in m.clients
    ensures OtherClients(RemoveAuth(m, c), m.clients[c]) == OtherClients(m, m.clients[c])
  {
  }

  lemma Admitted(m: Conns, c: Cid, u: User, was: map<Cid, seq<Event>>, open: map<Cid, seq<Event>>,
                 told: map<Cid, seq<Event>>, now: map<Cid, seq<Event>>, list: seq<Event>)
    requires c !in m.clients && c !in was && open == was[c := [AuthChallenge]]
    requires IsUserList(list, Others(SetAuth(m, c, u), u))
    requires Heard(open, told, c, list, if First(m, c, u) then OtherClients(SetAuth(m, c, u), u) else {}, UserJoin(u))
    requires now == told[c := told[c] + [AuthPass(u)]]
    ensures LoggedIn(World(m, was), World(SetAuth(m, c, u), now), c, u)
  {
    hide IsUserList;
    assert open - {c} == was && now - {c} == told - {c};
    assert OtherClients(SetAuth(m, c, u), u) == OtherClients(m, u);
    assert now[c][1..|now[c]| - 1] == list;
  }

  lemma Interrupted(m: Conns, c: Cid, u: User, was: map<Cid, seq<Event>>, open: map<Cid, seq<Event>>,
                    told: map<Cid, seq<Event>>, list: seq<Event>)
    requires c !in m.clients && c !in was && open == was[c := [AuthChallenge]]
    requires IsUserList(list, Others(SetAuth(m, c, u), u))
    requires Heard(open, told, c, list, if First(m, c, u) then OtherClients(SetAuth(m, c, u), u) else {}, UserJoin(u))
    ensures Halted(World(m, was), World(SetAuth(m, c, u), told), c, u)
  {
    hide IsUserList;
    assert open - {c} == was;
    assert OtherClients(SetAuth(m, c, u), u) == OtherClients(m, u);
    assert told[c][1..] == list;
  }

  // c receives list, everybody in cs receives ev.
  ghost predicate Heard(was: map<Cid, seq<Event>>, now: map<Cid, seq<Event>>, c: Cid, list: seq<Event>, cs: set<Cid>,
                        ev: Event) {
    c in was && c in now && now[c] == was[c] + list && Told(was - {c}, now - {c}, cs, ev)
  }

  lemma HeardList(was: map<Cid, seq<Event>>, now: map<Cid, seq<Event>>, c: Cid, list: seq<Event>, ev: Event)
    requires c in was && now == was[c := was[c] + list]
    ensures Heard(was, now, c, list, {}, ev)
  {
    assert now - {c} == was - {c};
  }

  lemma HeardBoth(m: Conns, was: map<Cid, seq<Event>>, between: map<Cid, seq<Event>>, now: map<Cid, seq<Event>>, c: Cid,
                  list: seq<Event>, ev: Event)
    requires c in was && between == was[c := was[c] + list] && c in m.clients
    requires Told(between, now, OtherClients(m, m.clients[c]), ev)
    ensures Heard(was, now, c, list, OtherClients(m, m.clients[c]), ev)
  {
  }

  lemma NoUsers()
    ensures IsUserList([], {})
  {
  }

  lemma UserListGrows(list: seq<Event>, sent: set<User>, u: User)
    requires IsUserList(list, sent) && u !in sent
    ensures IsUserList(list + [UserJoin(u)], sent + {u})
  {
  }

  lemma ToldKeys(was: map<Cid, seq<Event>>, now: map<Cid, seq<Event>>, c: Cid, cs: set<Cid>, ev: Event)
    requires Told(was, now - {c}, cs, ev) && c in now
    ensures now.Keys == was.Keys + {c}
  {
    assert (now - {c}).Keys == was.Keys;
  }

  // What the others are told by an admission.
  lemma Announced(m: Conns, c: Cid, u: User, was: map<Cid, seq<Event>>, open: map<Cid, seq<Event>>,
                  told: map<Cid, seq<Event>>, now: map<Cid, seq<Event>>, list: seq<Event>, listed: bool)
    requires c !in m.clients && c !in was && open == was[c := [AuthChallenge]]
    requires Heard(open, told, c, list, if First(m, c, u) && listed then OtherClients(SetAuth(m, c, u), u) else {},
                   UserJoin(u))
    requires now == told || now == told[c := told[c] + [AuthPass(u)]]
    ensures Told(was, now - {c}, if listed && First(m, c, u) then OtherClients(m, u) else {}, UserJoin(u))
    ensures c in now
  {
    assert open - {c} == was && now - {c} == told - {c};
    assert OtherClients(SetAuth(m, c, u), u) == OtherClients(m, u);
  }
}
