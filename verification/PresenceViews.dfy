// User presence on a channel with authentication, with login and logout taken as atomic, as values: the index of
// connections and what every connection has received, in order.
module PresenceViews {
  import opened ConnSpec

  datatype Event =
    | AuthChallenge
    | AuthPass(id: User)
    | UserJoin(id: User)
    | UserLeft(id: User)
    | Other

  datatype World = World(conns: Conns, inbox: map<Cid, seq<Event>>)

  const NOBODY := World(NO_CONNS, map[])

  // The users a client knows from the user events it received.
  function View(evs: seq<Event>): set<User> {
    if evs == [] then {} else Seen(View(evs[..|evs| - 1]), evs[|evs| - 1])
  }

  function Seen(view: set<User>, ev: Event): set<User> {
    match ev
    case UserJoin(u) => view + {u}
    case UserLeft(u) => view - {u}
    case _ => view
  }

  // The users ids, each once, in some order.
  ghost predicate IsUserList(evs: seq<Event>, ids: set<User>) {
    && |evs| == |ids| && (forall i :: 0 <= i < |evs| ==> evs[i].UserJoin?)
    && (forall u :: UserJoin(u) in evs <==> u in ids)
  }

  // Everybody in cs receives ev, nobody else receives anything.
  ghost predicate Told(was: map<Cid, seq<Event>>, now: map<Cid, seq<Event>>, cs: set<Cid>, ev: Event) {
    && cs <= was.Keys && now.Keys == was.Keys
    && forall d :: d in was ==> now[d] == was[d] + if d in cs then [ev] else []
  }

  // ---- The handlers ----------------------------------------------------------------------------------------

  // A new connection authenticates as u: it is challenged, it is told who else is connected, the others are told
  // when it is the first connection of u, and it is let in.
  ghost predicate LoggedIn(w: World, w': World, c: Cid, u: User) {
    && c !in w.conns.clients && c !in w.inbox
    && w'.conns == SetAuth(w.conns, c, u)
    && c in w'.inbox
    && IsAdmission(w'.inbox[c], Others(w'.conns, u), u)
    && Told(w.inbox, w'.inbox - {c}, if First(w.conns, c, u) then OtherClients(w.conns, u) else {}, UserJoin(u))
  }

  // The same up to a failure after the list of users went out: the connection is in, and is not sent AuthPass.
  ghost predicate Halted(w: World, w': World, c: Cid, u: User) {
    && c !in w.conns.clients && c !in w.inbox
    && w'.conns == SetAuth(w.conns, c, u)
    && c in w'.inbox && |w'.inbox[c]| >= 1 && w'.inbox[c][0] == AuthChallenge
    && IsUserList(w'.inbox[c][1..], Others(w'.conns, u))
    && Told(w.inbox, w'.inbox - {c}, if First(w.conns, c, u) then OtherClients(w.conns, u) else {}, UserJoin(u))
  }

  // A new connection that gets no further than its challenge.
  ghost predicate Rejected(w: World, w': World, c: Cid) {
    c !in w.conns.clients && c !in w.inbox && w' == World(w.conns, w.inbox[c := [AuthChallenge]])
  }

  ghost predicate IsAdmission(evs: seq<Event>, others: set<User>, u: User) {
    && |evs| >= 2 && evs[0] == AuthChallenge && evs[|evs| - 1] == AuthPass(u)
    && IsUserList(evs[1..|evs| - 1], others)
  }

  // A connection is revoked, and the others are told when its user has none left.
  ghost predicate LoggedOut(w: World, w': World, c: Cid) {
    && c in w.conns.clients
    && w'.conns == RemoveAuth(w.conns, c)
    && var u := w.conns.clients[c];
       Told(w.inbox, w'.inbox, if AnyLeft(w.conns, c) then {} else OtherClients(w.conns, u), UserLeft(u))
  }

  // Any other traffic.
  ghost predicate Noted(w: World, w': World, cs: set<Cid>) {
    w'.conns == w.conns && Told(w.inbox, w'.inbox, cs, Other)
  }

  ghost predicate Next(w: World, w': World) {
    || (exists c, u :: LoggedIn(w, w', c, u))
    || (exists c, u :: Halted(w, w', c, u))
    || (exists c :: Rejected(w, w', c))
    || (exists c :: LoggedOut(w, w', c))
    || (exists cs :: Noted(w, w', cs))
  }

  ghost predicate IsRun(run: seq<World>) {
    && |run| > 0 && run[0] == NOBODY
    && forall i :: 0 < i < |run| ==> Next(run[i - 1], run[i])
  }

  // ---- Views -----------------------------------------------------------------------------------------------

  ghost predicate Exact(w: World, c: Cid)
    requires c in w.conns.clients
  {
    c in w.inbox && View(w.inbox[c]) == Others(w.conns, w.conns.clients[c])
  }

  ghost predicate Inv(w: World) {
    && Grouped(w.conns)
    && forall c {:trigger Exact(w, c)} :: c in w.conns.clients ==> Exact(w, c)
  }

  lemma ViewOfAppend(evs: seq<Event>, ev: Event)
    ensures View(evs + [ev]) == Seen(View(evs), ev)
  {
    assert (evs + [ev])[..|evs|] == evs;
  }

  lemma {:induction false} ViewOfList(evs: seq<Event>)
    requires forall i :: 0 <= i < |evs| ==> evs[i].UserJoin?
    ensures View(evs) == set ev | ev in evs :: ev.id
  {
    if evs != [] {
      var n := |evs| - 1;
      ViewOfList(evs[..n]);
      assert evs == evs[..n] + [evs[n]];
    }
  }

  lemma ViewOfAdmission(evs: seq<Event>, others: set<User>, u: User)
    requires IsAdmission(evs, others, u)
    ensures View(evs) == others
  {
    var list := evs[1..|evs| - 1];
    assert evs == [AuthChallenge] + list + [AuthPass(u)];
    ViewOfAppend([AuthChallenge] + list, AuthPass(u));
    ViewOfChallenged(list, others);
  }

  lemma ViewOfChallenged(list: seq<Event>, others: set<User>)
    requires IsUserList(list, others)
    ensures View([AuthChallenge] + list) == others
  {
    ViewAfterChallenge(list);
    ViewOfList(list);
    forall v
      ensures v in View(list) <==> v in others
    {
      assert v in View(list) ==> UserJoin(v) in list;
    }
  }

  lemma {:induction false} ViewAfterChallenge(list: seq<Event>)
    ensures View([AuthChallenge] + list) == View(list)
  {
    if list == [] {
      assert [AuthChallenge] + list == [AuthChallenge];
      ViewOfAppend([], AuthChallenge);
    } else {
      var n := |list| - 1;
      ViewAfterChallenge(list[..n]);
      assert [AuthChallenge] + list == [AuthChallenge] + list[..n] + [list[n]];
      ViewOfAppend([AuthChallenge] + list[..n], list[n]);
    }
  }

  lemma LoggedInExact(w: World, w': World, c: Cid, u: User)
    requires Inv(w) && LoggedIn(w, w', c, u)
    ensures Inv(w')
  {
    ViewOfAdmission(w'.inbox[c], Others(w'.conns, u), u);
    hide Inv, View, IsAdmission, Told, SetAuth, Others, OtherClients, First;
    EnteredExact(w, w', c, u);
  }

  lemma HaltedExact(w: World, w': World, c: Cid, u: User)
    requires Inv(w) && Halted(w, w', c, u)
    ensures Inv(w')
  {
    hide Inv, View, IsUserList, Told, SetAuth, Others, OtherClients, First;
    assert w'.inbox[c] == [AuthChallenge] + w'.inbox[c][1..];
    ViewOfChallenged(w'.inbox[c][1..], Others(w'.conns, u));
    EnteredExact(w, w', c, u);
  }

  lemma RejectedExact(w: World, w': World, c: Cid)
    requires Inv(w) && Rejected(w, w', c)
    ensures Inv(w')
  {
    hide View;
    forall d | d in w'.conns.clients
      ensures Exact(w', d)
    {
      assert Exact(w, d);
    }
  }

  lemma EnteredExact(w: World, w': World, c: Cid, u: User)
    requires Inv(w) && c !in w.conns.clients && c !in w.inbox && w'.conns == SetAuth(w.conns, c, u)
    requires c in w'.inbox && View(w'.inbox[c]) == Others(w'.conns, u)
    requires Told(w.inbox, w'.inbox - {c}, if First(w.conns, c, u) then OtherClients(w.conns, u) else {}, UserJoin(u))
    ensures Inv(w')
  {
    hide View;
    SetAuthGrouped(w.conns, c, u);
    FirstIsNew(w.conns, c, u);
    forall d | d in w'.conns.clients
      ensures Exact(w', d)
    {
      if d != c {
        assert Exact(w, d) && (w'.inbox - {c})[d] == w'.inbox[d];
        ViewOfAppend(w.inbox[d], UserJoin(u));
        assert w.inbox[d] + [] == w.inbox[d];
      }
    }
  }

  lemma FirstIsNew(m: Conns, c: Cid, u: User)
    requires Grouped(m) && c !in m.clients
    ensures First(m, c, u) <==> u !in m.users
  {
    if u in m.users {
      var d := Pick(m.users[u]);
      assert {d, c} <= Of(m, u) + {c} && d != c && |{d, c}| == 2;
      if |Of(m, u) + {c}| == 1 {
        Cardinality({d, c}, Of(m, u) + {c});
      }
    }
  }

  lemma Cardinality<T>(a: set<T>, b: set<T>)
    requires a <= b
    ensures |a| <= |b|
  {
    assert b == a + (b - a);
  }

  lemma LoggedOutExact(w: World, w': World, c: Cid)
    requires Inv(w) && LoggedOut(w, w', c)
    ensures Inv(w')
  {
    hide View;
    RemoveAuthGrouped(w.conns, c);
    var u := w.conns.clients[c];
    forall d | d in w'.conns.clients
      ensures Exact(w', d)
    {
      assert Exact(w, d);
      ViewOfAppend(w.inbox[d], UserLeft(u));
      assert w.inbox[d] + [] == w.inbox[d];
    }
  }

  lemma NotedExact(w: World, w': World, cs: set<Cid>)
    requires Inv(w) && Noted(w, w', cs)
    ensures Inv(w')
  {
    forall d | d in w'.conns.clients
      ensures Exact(w', d)
    {
      assert Exact(w, d);
      ViewOfAppend(w.inbox[d], Other);
      assert w.inbox[d] + [] == w.inbox[d];
    }
  }

  lemma NextExact(w: World, w': World)
    requires Inv(w) && Next(w, w')
    ensures Inv(w')
  {
    hide Inv;
    if c, u :| LoggedIn(w, w', c, u) {
      LoggedInExact(w, w', c, u);
    } else if c, u :| Halted(w, w', c, u) {
      HaltedExact(w, w', c, u);
    } else if c :| Rejected(w, w', c) {
      RejectedExact(w, w', c);
    } else if c :| LoggedOut(w, w', c) {
      LoggedOutExact(w, w', c);
    } else {
      var cs :| Noted(w, w', cs);
      NotedExact(w, w', cs);
    }
  }

  lemma {:induction false} RunExact(run: seq<World>)
    requires IsRun(run)
    ensures Inv(run[|run| - 1])
  {
    hide Next;
    var n := |run| - 1;
    if n > 0 {
      RunExact(run[..n]);
      NextExact(run[n - 1], run[n]);
    }
  }

  // What every authorised connection knows is exactly who else is connected, over every run.
  lemma PresenceIsExact(run: seq<World>, c: Cid)
    requires IsRun(run) && c in run[|run| - 1].conns.clients
    ensures var w := run[|run| - 1];
            && c in w.inbox
            && View(w.inbox[c]) ==
               set d | d in w.conns.clients && w.conns.clients[d] != w.conns.clients[c] :: w.conns.clients[d]
  {
    hide Next, View;
    RunExact(run);
    var w := run[|run| - 1];
    assert Exact(w, c);
    forall u
      ensures u in Others(w.conns, w.conns.clients[c]) <==>
              u in set d | d in w.conns.clients && w.conns.clients[d] != w.conns.clients[c] :: w.conns.clients[d]
    {
      if u in w.conns.users {
        var d := Pick(w.conns.users[u]);
        assert d in w.conns.clients && w.conns.clients[d] == u;
      }
    }
  }

  // ---- The answers of setAuth and removeAuth ------------------------------------------------------------------

  datatype Call = Set(c: Cid, u: User) | Remove(c: Cid)

  // setAuth for connections that are not registered, removeAuth for connections that are.
  predicate Legal(calls: seq<Call>) {
    calls == [] ||
    (var n := |calls| - 1;
     Legal(calls[..n]) &&
     match calls[n]
     case Set(c, _) => c !in After(calls[..n]).clients
     case Remove(c) => c in After(calls[..n]).clients)
  }

  function After(calls: seq<Call>): Conns {
    if calls == [] then NO_CONNS else
    var n := |calls| - 1;
    var m := After(calls[..n]);
    match calls[n]
    case Set(c, u) => SetAuth(m, c, u)
    case Remove(c) => if c in m.clients then RemoveAuth(m, c) else m
  }

  // How often setAuth answered "first" for u.
  function Firsts(calls: seq<Call>, u: User): nat {
    if calls == [] then 0 else
    var n := |calls| - 1;
    Firsts(calls[..n], u) +
    match calls[n]
    case Set(c, v) => if u == v && First(After(calls[..n]), c, v) then 1 else 0
    case Remove(_) => 0
  }

  // How often removeAuth answered "none left" for u.
  function Lasts(calls: seq<Call>, u: User): nat {
    if calls == [] then 0 else
    var n := |calls| - 1;
    var m := After(calls[..n]);
    Lasts(calls[..n], u) +
    match calls[n]
    case Set(_, _) => 0
    case Remove(c) => if c in m.clients && m.clients[c] == u && !AnyLeft(m, c) then 1 else 0
  }

  // A user is announced once more than withdrawn exactly while it is connected.
  lemma {:induction false} AnswersBalance(calls: seq<Call>, u: User)
    requires Legal(calls)
    ensures Grouped(After(calls))
    ensures Firsts(calls, u) - Lasts(calls, u) == if u in After(calls).users then 1 else 0
    ensures u in After(calls).users <==> exists c :: c in After(calls).clients && After(calls).clients[c] == u
  {
    if calls != [] {
      var n := |calls| - 1;
      var m := After(calls[..n]);
      AnswersBalance(calls[..n], u);
      match calls[n] {
        case Set(c, v) =>
          SetAuthGrouped(m, c, v);
          FirstIsNew(m, c, v);
        case Remove(c) =>
          RemoveAuthGrouped(m, c);
      }
    }
    ConnectedMeansSome(After(calls), u);
  }

  lemma ConnectedMeansSome(m: Conns, u: User)
    requires Grouped(m)
    ensures u in m.users <==> exists c :: c in m.clients && m.clients[c] == u
  {
    if u in m.users {
      var c := Pick(m.users[u]);
      assert c in m.clients && m.clients[c] == u;
    }
  }
}
