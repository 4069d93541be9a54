// The connection handler of eddwise.go for a channel with authentication, one handler after the other: connections come
// in, authenticate or fail to, and go, in any order and any number, starting from a server nobody is connected to.
module AuthServers {
  import opened Common
  import opened ConnSpec
  import opened PresenceViews
  import opened ConnManagers
  import opened AuthChannels

  // What clients do. `answer` is what comes of the answer to the challenge.
  datatype Call =
    | Connect(answer: Option<User>)
    | Disconnect(id: int)

  // What there is between two handlers: the ConnManager, the connections that passed CheckAuth and are there, and the
  // last number given to a connection.
  datatype Stage = Stage(conns: Conns, online: set<int>, next: nat)

  // The newcomer c authenticates: it answered right, and its challenge was not lost.
  predicate Authenticates(answer: Option<User>, c: Cid, lost: seq<Loss>) {
    answer.Some? && Loss(c, AuthChallenge) !in lost
  }

  // A newcomer gets the next number, is registered exactly when it authenticates, and passes exactly when nothing was
  // lost as well. One that passed is revoked when it goes, and nobody else is.
  ghost predicate Handled(call: Call, s: Stage, s': Stage, lost: seq<Loss>) {
    match call
    case Connect(answer) =>
      var c := s.next + 1;
      s' == Stage(if Authenticates(answer, c, lost) then SetAuth(s.conns, c, answer.value) else s.conns,
                  s.online + if answer.Some? && lost == [] then {c} else {}, c)
    case Disconnect(id) =>
      if id !in s.online then s' == s && lost == []
      else id in s.conns.clients && s' == Stage(RemoveAuth(s.conns, id), s.online - {id}, s.next)
  }

  // A newcomer is registered, and its list of users was not sent to the end.
  ghost predicate LeftBehind(call: Call, s: Stage, lost: seq<Loss>) {
    call.Connect? && Authenticates(call.answer, s.next + 1, lost) && ListLost(lost, s.next + 1)
  }

  // The first i calls.
  ghost predicate PlayedTo(script: seq<Call>, stages: seq<Stage>, losses: seq<seq<Loss>>, i: nat) {
    && |losses| == i <= |script| && |stages| == i + 1 && stages[0] == Stage(NO_CONNS, {}, 0)
    && forall j :: 0 <= j < i ==> Handled(script[j], stages[j], stages[j + 1], losses[j])
  }

  ghost predicate Played(script: seq<Call>, stages: seq<Stage>, losses: seq<seq<Loss>>) {
    PlayedTo(script, stages, losses, |script|)
  }

  // Nobody has been left behind.
  ghost predicate Clean(script: seq<Call>, stages: seq<Stage>, losses: seq<seq<Loss>>)
    requires |losses| <= |script| && |losses| <= |stages|
  {
    forall i :: 0 <= i < |losses| ==> !LeftBehind(script[i], stages[i], losses[i])
  }

  lemma OneMore(script: seq<Call>, stages: seq<Stage>, losses: seq<seq<Loss>>, s': Stage, lost: seq<Loss>)
    requires var i := |losses|; i < |script| && PlayedTo(script, stages, losses, i)
    requires var i := |losses|; Handled(script[i], stages[i], s', lost)
    ensures var i := |losses|;
            && PlayedTo(script, stages + [s'], losses + [lost], i + 1)
            && (Clean(script, stages + [s'], losses + [lost]) <==>
                  Clean(script, stages, losses) && !LeftBehind(script[i], stages[i], lost))
  {
    hide Handled, LeftBehind;
    var all, n := losses + [lost], |losses|;
    assert all[n] == lost && (stages + [s'])[n] == stages[n];
    if Clean(script, stages + [s'], all) {
      forall i | 0 <= i < n
        ensures !LeftBehind(script[i], stages[i], losses[i])
      {
        assert all[i] == losses[i] && (stages + [s'])[i] == stages[i];
      }
    }
  }

  lemma LoginIsNext(w: World, w': World, c: Cid, u: User)
    requires LoggedIn(w, w', c, u) || Halted(w, w', c, u)
    ensures Next(w, w')
  {
    hide LoggedIn, Halted, Rejected, LoggedOut, Noted;
  }

  lemma LogoutIsNext(w: World, w': World, c: Cid)
    requires LoggedOut(w, w', c)
    ensures Next(w, w') && w'.inbox.Keys == w.inbox.Keys && c in w.conns.clients && w'.conns == RemoveAuth(w.conns, c)
  {
    assert exists d :: LoggedOut(w, w', d);
  }

  lemma RejectedIsNext(w: World, w': World, c: Cid)
    requires Rejected(w, w', c)
    ensures Next(w, w') && w'.conns == w.conns
  {
    assert exists d :: Rejected(w, w', d);
  }

  lemma ConnectHandled(s: Stage, s': Stage, answer: Option<User>, lost: seq<Loss>)
    requires s'.next == s.next + 1 && s'.online == s.online + if answer.Some? && lost == [] then {s'.next} else {}
    requires s'.conns == if Authenticates(answer, s'.next, lost) then SetAuth(s.conns, s'.next, answer.value)
                         else s.conns
    ensures Handled(Connect(answer), s, s', lost)
  {
    hide SetAuth, Authenticates;
  }

  // Nobody who was there before is sent anything.
  ghost predicate NothingHeard(was: map<Cid, seq<Event>>, now: map<Cid, seq<Event>>) {
    forall d :: d in was ==> d in now && now[d] == was[d]
  }

  lemma NobodyHeard(was: map<Cid, seq<Event>>, now: map<Cid, seq<Event>>, c: Cid, ev: Event)
    requires Told(was, now - {c}, {}, ev)
    ensures NothingHeard(was, now)
  {
    forall d | d in was
      ensures d in now && now[d] == was[d]
    {
      assert (now - {c})[d] == was[d] + [];
    }
  }

  lemma QuitHandled(s: Stage, s': Stage, id: int, lost: seq<Loss>)
    requires id in s.online && id in s.conns.clients && s' == Stage(RemoveAuth(s.conns, id), s.online - {id}, s.next)
    ensures Handled(Disconnect(id), s, s', lost)
  {
    hide RemoveAuth;
  }

  // The clients that are online are registered.
  ghost predicate AllIn(online: map<int, Client>, clients: map<int, Client>) {
    ById(online) && forall k :: k in online ==> k in clients && clients[k] == online[k]
  }

  lemma OneMoreIn(online: map<int, Client>, clients: map<int, Client>, c: Client)
    requires AllIn(online, clients) && c.id !in clients
    ensures AllIn(online, clients[c.id := c]) && AllIn(online[c.id := c], clients[c.id := c]) && c.id !in online
  {
  }

  lemma OneLessIn(online: map<int, Client>, clients: map<int, Client>, id: int)
    requires AllIn(online, clients)
    ensures AllIn(online - {id}, clients - {id})
  {
  }

  class AuthServer {
    const channel: AuthChannel
    var clientAutoInc: nat
    // The clients whose handlers have deferred RevokeAuth.
    var online: map<int, Client>

    constructor (channel: AuthChannel)
      requires channel.Valid() && channel.Now() == NOBODY
      ensures this.channel == channel && Serving() && Current() == Stage(NO_CONNS, {}, 0)
    {
      this.channel := channel;
      clientAutoInc, online := 0, map[];
    }

    ghost function Current(): Stage
      reads this, channel.cm
    {
      Stage(channel.cm.index, online.Keys, clientAutoInc)
    }

    // What holds whenever no handler is running.
    ghost predicate Serving()
      reads this, channel.cm, channel.wire, Registered(channel.cm.clients)
    {
      && channel.Valid() && AllIn(online, channel.cm.clients)
      && (forall k :: k in channel.wire.inbox ==> k <= clientAutoInc)
    }

    // CheckAuth of a new connection. `told` is false when the connection was registered and its list of users failed;
    // then nobody else was told of it.
    method Accept(answer: Option<User>) returns (err: bool, ghost told: bool)
      requires Serving()
      modifies this, channel.cm, channel.wire
      ensures Serving() && old(channel.wire.lost) <= channel.wire.lost
      ensures Handled(Connect(answer), old(Current()), Current(), channel.wire.Lost())
      ensures err <==> answer.None? || channel.wire.Lost() != []
      ensures told <==> !LeftBehind(Connect(answer), old(Current()), channel.wire.Lost())
      ensures told ==> Next(old(channel.Now()), channel.Now())
      ensures !told ==> NothingHeard(old(channel.wire.inbox), channel.wire.inbox)
    {
      hide SetAuth, Next, AuthChannel.Valid, Handled, AllIn, NothingHeard, ListLost, Since, Authenticates;
      ghost var was := Current();
      var client := NextClient();
      OneMoreIn(online, channel.cm.clients, client);
      err, told := Admit(client, answer);
      if !err {
        Enlist(client);
      }
      ConnectHandled(was, Current(), answer, channel.wire.Lost());
    }

    method Delist(id: int)
      requires channel.Valid() && AllIn(online - {id}, channel.cm.clients)
      requires forall k :: k in channel.wire.inbox ==> k <= clientAutoInc
      modifies `online
      ensures Serving() && online == old(online) - {id}
    {
      online := online - {id};
    }

    // From here on RevokeAuth is deferred.
    method Enlist(client: Client)
      requires Serving() && AllIn(online[client.id := client], channel.cm.clients)
      modifies `online
      ensures Serving() && online == old(online)[client.id := client]
    {
      online := online[client.id := client];
    }

    // The next number goes to a new client.
    method NextClient() returns (client: Client)
      requires Serving()
      modifies `clientAutoInc
      ensures Serving() && fresh(client) && clientAutoInc == old(clientAutoInc) + 1 && client.id == clientAutoInc
      ensures client.id !in channel.wire.inbox && client.id !in channel.cm.clients
      ensures client.id !in channel.cm.index.clients
    {
      clientAutoInc := clientAutoInc + 1;
      client := new Client(clientAutoInc);
    }

    method Admit(client: Client, answer: Option<User>) returns (err: bool, ghost told: bool)
      requires channel.Valid() && client.id !in channel.wire.inbox && client.id !in channel.cm.clients
      modifies channel.cm, channel.wire, client`auth
      ensures channel.Valid() && channel.wire.inbox.Keys == old(channel.wire.inbox).Keys + {client.id}
      ensures old(channel.wire.lost) <= channel.wire.lost
      ensures err <==> answer.None? || channel.wire.Lost() != []
      ensures if Authenticates(answer, client.id, channel.wire.Lost()) then
                && channel.cm.index == SetAuth(old(channel.cm.index), client.id, answer.value)
                && channel.cm.clients == old(channel.cm.clients)[client.id := client]
              else err && channel.cm.clients == old(channel.cm.clients) && channel.cm.index == old(channel.cm.index)
      ensures told <==> !(Authenticates(answer, client.id, channel.wire.Lost())
                          && ListLost(channel.wire.Lost(), client.id))
      ensures told ==> Next(old(channel.Now()), channel.Now())
      ensures !told ==> NothingHeard(old(channel.wire.inbox), channel.wire.inbox)
    {
      hide First, SetAuth, Grouped, IsUserList, Told, IsAdmission, LoggedIn, Halted, Rejected, Next, ListLost, Since;
      hide AuthChannel.Valid, NothingHeard;
      ghost var registered, listed, w := false, false, channel.Now();
      err, registered, listed := channel.Login(client, answer);
      told := registered ==> listed;
      if !registered {
        RejectedIsNext(w, channel.Now(), client.id);
      } else {
        if listed {
          LoginIsNext(w, channel.Now(), client.id, answer.value);
        } else {
          NobodyHeard(w.inbox, channel.wire.inbox, client.id, UserJoin(answer.value));
        }
      }
    }

    // RevokeAuth of a connection that goes.
    method Quit(id: int) returns (err: bool)
      requires Serving() && id in online
      modifies this, channel.cm, channel.wire
      ensures Serving() && Handled(Disconnect(id), old(Current()), Current(), channel.wire.Lost())
      ensures channel.wire.Erred(err) && Next(old(channel.Now()), channel.Now())
    {
      OneLessIn(online, channel.cm.clients, id);
      ghost var was := Current();
      var client := online[id];
      assert client.id == id && id in channel.cm.clients && channel.cm.clients[id] == client;
      hide AllIn, Next, AuthChannel.Valid, RemoveAuth, Handled;
      err := Release(client);
      Delist(id);
      QuitHandled(was, Current(), id, channel.wire.Lost());
    }

    method Release(client: Client) returns (err: bool)
      requires channel.Valid() && client.id in channel.cm.clients && channel.cm.clients[client.id] == client
      modifies channel.cm, channel.wire
      ensures channel.Valid() && channel.cm.clients == old(channel.cm.clients) - {client.id}
      ensures client.id in old(channel.cm.index.clients)
      ensures channel.cm.index == RemoveAuth(old(channel.cm.index), client.id)
      ensures channel.wire.inbox.Keys == old(channel.wire.inbox).Keys && channel.wire.Erred(err)
      ensures Next(old(channel.Now()), channel.Now())
    {
      ghost var w := channel.Now();
      assert client.id in w.conns.clients;
      hide LoggedOut, Next, AuthChannel.Valid, RemoveAuth;
      err := channel.Revoke(client);
      LogoutIsNext(w, channel.Now(), client.id);
    }

    // Whatever a client does.
    method Handle(call: Call) returns (ghost told: bool)
      requires Serving()
      modifies this, channel.cm, channel.wire
      ensures Serving() && old(channel.wire.lost) <= channel.wire.lost
      ensures Handled(call, old(Current()), Current(), channel.wire.Lost())
      ensures told ==> channel.Now() == old(channel.Now()) || Next(old(channel.Now()), channel.Now())
      ensures told <==> !LeftBehind(call, old(Current()), channel.wire.Lost())
    {
      told := true;
      hide Next, AuthChannel.Valid;
      match call
      case Connect(answer) =>
        var err;
        err, told := Accept(answer);
      case Disconnect(id) =>
        if id in online {
          var err := Quit(id);
        }
    }
  }

  method Start() returns (s: AuthServer)
    ensures fresh(s) && fresh(s.channel.cm) && fresh(s.channel.wire)
    ensures s.Serving() && s.Current() == Stage(NO_CONNS, {}, 0)
    ensures s.channel.Now() == NOBODY && s.channel.wire.lost == []
  {
    var cm := new ConnManager();
    var wire := new Wire();
    var channel := new AuthChannel(cm, wire);
    s := new AuthServer(channel);
  }

  lemma NobodyExact()
    ensures Inv(NOBODY)
  {
  }

  // Whatever clients do, in whatever order, and whatever is lost, the server does it step by step: who is registered
  // and who is let in follows from what they did and what was lost. What every registered connection can compute from
  // what it was sent is exactly who else is registered, unless the list of users of some newcomer was lost.
  method Run(script: seq<Call>) returns (s: AuthServer, ghost stages: seq<Stage>, ghost losses: seq<seq<Loss>>)
    ensures s.Serving() && Played(script, stages, losses) && stages[|script|] == s.Current()
    ensures s.channel.wire.lost == All(losses)
    ensures Clean(script, stages, losses) ==>
              forall c :: c in s.channel.cm.clients ==>
                && c in s.channel.wire.inbox && s.channel.cm.clients[c].auth.Some?
                && View(s.channel.wire.inbox[c]) == Others(s.channel.cm.index, s.channel.cm.clients[c].auth.value)
  {
    hide Next, Inv, Handled, View, LeftBehind, Since, All, Clean;
    s := Start();
    stages, losses := [s.Current()], [];
    ghost var told := true;
    NobodyExact();
    NoLosses(script, stages);
    for i := 0 to |script|
      invariant fresh(s) && fresh(s.channel.cm) && fresh(s.channel.wire) && s.Serving()
      invariant PlayedTo(script, stages, losses, i) && stages[i] == s.Current() && s.channel.wire.lost == All(losses)
      invariant (told <==> Clean(script, stages, losses)) && (told ==> Inv(s.channel.Now()))
    {
      ghost var w, was, ok := s.channel.Now(), s.channel.wire.lost, false;
      ok := s.Handle(script[i]);
      if told && ok && s.channel.Now() != w {
        NextExact(w, s.channel.Now());
      }
      ghost var lost := Since(was, s.channel.wire.lost);
      MoreLosses(losses, lost);
      OneMore(script, stages, losses, s.Current(), lost);
      stages, losses, told := stages + [s.Current()], losses + [lost], told && ok;
    }
    if told {
      ExactViews(s);
    }
  }

  // Everything that was lost, call by call.
  ghost function All(losses: seq<seq<Loss>>): seq<Loss> {
    if losses == [] then [] else All(losses[..|losses| - 1]) + losses[|losses| - 1]
  }

  lemma NoLosses(script: seq<Call>, stages: seq<Stage>)
    ensures All([]) == [] && Clean(script, stages, [])
  {
  }

  lemma MoreLosses(losses: seq<seq<Loss>>, lost: seq<Loss>)
    ensures All(losses + [lost]) == All(losses) + lost
  {
    assert (losses + [lost])[..|losses|] == losses;
  }

  // Two users log in and nothing is lost: both are let in, and the one that goes leaves the other.
  lemma TwoLogIn(u: User, v: User, stages: seq<Stage>)
    requires Played([Connect(Some(u)), Connect(Some(v)), Disconnect(1)], stages, [[], [], []])
    ensures stages[2].online == {1, 2} && stages[2].conns.clients == map[1 := u, 2 := v]
    ensures stages[3].online == {2} && stages[3].conns.clients == map[2 := v]
  {
    var script, losses: seq<seq<Loss>> := [Connect(Some(u)), Connect(Some(v)), Disconnect(1)], [[], [], []];
    assert Handled(script[0], stages[0], stages[1], losses[0]);
    assert Handled(script[1], stages[1], stages[2], losses[1]);
    assert Handled(script[2], stages[2], stages[3], losses[2]);
  }

  lemma ExactViews(s: AuthServer)
    requires s.Serving() && Inv(s.channel.Now())
    ensures forall c :: c in s.channel.cm.clients ==>
              && c in s.channel.wire.inbox && s.channel.cm.clients[c].auth.Some?
              && View(s.channel.wire.inbox[c]) == Others(s.channel.cm.index, s.channel.cm.clients[c].auth.value)
  {
    hide View;
    forall c | c in s.channel.cm.clients
      ensures Exact(s.channel.Now(), c)
    {
    }
  }
}
