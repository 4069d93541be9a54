// Which server tables hold a connection at which point of its life, and what is left of it at the end.
module ProtocolLifecycle {
  import opened ConnSpec
  import opened Protocol
  import Membership = ProtocolMembership

  // Between AddClient and RemoveClient.
  predicate Present(pc: Pc) {
    match pc
    case Hello(h) => h.JoinSnap? || h.JoinList? || h.JoinCastSnap? || h.JoinCast? || h.RoomsSnap? || h.RoomsList?
    case Bye(b) => b.QuitSnap? || b.Quitting? || b.LeftSnap? || b.LeftCast? || b.Removing?
    case Done => false
    case _ => true
  }

  // Between setAuth and removeAuth.
  predicate Registered(pc: Pc) {
    match pc
    case Hello(h) => !h.Credentials?
    case Bye(b) => !b.RevokeSnap? && !b.RevokeCast?
    case Done => false
    case _ => true
  }

  predicate InCheckAuth(pc: Pc) {
    && pc.Hello?
    && (pc.h.Credentials? || pc.h.AuthSnap? || pc.h.AuthList? || pc.h.AuthCastSnap? || pc.h.AuthCast? || pc.h.Passing?)
  }

  predicate Placed(cfg: Config, table: set<Cid>, conns: Conns, readers: set<Cid>, c: Cid, t: Thread) {
    && (c in table <==> Present(t.pc))
    && (c in readers <==> t.pc == Hello(RoomsList))
    && (c in conns.clients <==> cfg.auth && (Registered(t.pc) || t.failed.auth))
    && (c in conns.clients ==> conns.clients[c] == t.user)
    && (t.failed.auth ==> t.pc.Done?)
    && (InCheckAuth(t.pc) || t.failed.auth ==> cfg.auth)
  }

  ghost predicate Inv(cfg: Config, s: State) {
    && Grouped(s.conns)
    && (forall c :: c in s.threads ==> c <= s.nextId)
    && (forall c :: c in s.table || c in s.readers || c in s.conns.clients ==> c in s.threads)
    && forall c :: c in s.threads ==> Placed(cfg, s.table, s.conns, s.readers, c, s.threads[c])
  }

  lemma InitInv(cfg: Config)
    ensures Inv(cfg, Init())
  {
  }

  // Nobody else's entry changes.
  ghost predicate Framed(s: State, s': State, c: Cid) {
    && s'.table - {c} == s.table - {c}
    && s'.readers - {c} == s.readers - {c}
    && s'.conns.clients - {c} == s.conns.clients - {c}
  }

  lemma StepFrame(cfg: Config, s: State, a: Action)
    requires Enabled(cfg, s, a)
    ensures Framed(s, Apply(cfg, s, a), Actor(s, a))
  {
    hide OnRoom, OnRequest, OnCreate, OnSent;
  }

  lemma StepGrouped(cfg: Config, s: State, a: Action)
    requires Enabled(cfg, s, a) && Grouped(s.conns)
    requires a.Login? ==> a.c !in s.conns.clients
    ensures Grouped(Apply(cfg, s, a).conns)
  {
    hide Grouped, OnRoom, OnRequest, OnCreate, OnSent;
    if a.Login? {
      SetAuthGrouped(s.conns, a.c, a.user);
    } else if a.Move? && a.c in s.conns.clients {
      RemoveAuthGrouped(s.conns, a.c);
    }
  }

  lemma MovePlaced(cfg: Config, s: State, a: Action)
    requires Enabled(cfg, s, a) && a.Move?
    requires Placed(cfg, s.table, s.conns, s.readers, a.c, s.threads[a.c])
    ensures var s' := Apply(cfg, s, a);
            Placed(cfg, s'.table, s'.conns, s'.readers, a.c, s'.threads[a.c])
  {
    if s.threads[a.c].pc.Hello? {
      HelloPlaced(cfg, s, a.c, s.threads[a.c].pc.h);
    } else if s.threads[a.c].pc.Bye? {
      ByePlaced(cfg, s, a.c, s.threads[a.c].pc.b, a.pick);
    }
  }

  lemma AuthPlaced(cfg: Config, s: State, c: Cid, h: HelloPc)
    requires c in s.threads && s.threads[c].pc == Hello(h) && !h.Credentials? && InCheckAuth(Hello(h))
    requires Placed(cfg, s.table, s.conns, s.readers, c, s.threads[c])
    ensures var s' := OnHello(s, c, h);
            Placed(cfg, s'.table, s'.conns, s'.readers, c, s'.threads[c])
  {
    hide TellUsers, Fan, Others, OtherClients;
    var s' := OnHello(s, c, h);
    assert s' == s.(threads := s'.threads) && s'.threads[c].user == s.threads[c].user;
    assert s'.threads[c].pc.Done? <==> s'.threads[c].failed.auth;
    assert s'.threads[c].pc.Done? || s'.threads[c].pc.Hello?;
  }

  lemma ServedPlaced(cfg: Config, s: State, c: Cid, h: HelloPc)
    requires c in s.threads && s.threads[c].pc == Hello(h) && !InCheckAuth(Hello(h))
    requires Placed(cfg, s.table, s.conns, s.readers, c, s.threads[c])
    ensures var s' := OnHello(s, c, h);
            Placed(cfg, s'.table, s'.conns, s'.readers, c, s'.threads[c])
  {
    hide TellClients, TellRooms, Fan;
    var t' := OnHello(s, c, h).threads[c];
    assert t'.user == s.threads[c].user && t'.failed == s.threads[c].failed;
    assert t'.pc.Idle? || (t'.pc.Hello? && !InCheckAuth(t'.pc));
  }

  lemma HelloPlaced(cfg: Config, s: State, c: Cid, h: HelloPc)
    requires c in s.threads && s.threads[c].pc == Hello(h) && !h.Credentials?
    requires Placed(cfg, s.table, s.conns, s.readers, c, s.threads[c])
    ensures var s' := OnHello(s, c, h);
            Placed(cfg, s'.table, s'.conns, s'.readers, c, s'.threads[c])
  {
    hide OnHello, Placed;
    if InCheckAuth(Hello(h)) {
      AuthPlaced(cfg, s, c, h);
    } else {
      ServedPlaced(cfg, s, c, h);
    }
  }

  lemma ByePlaced(cfg: Config, s: State, c: Cid, b: ByePc, pick: Ptr)
    requires c in s.threads && s.threads[c].pc == Bye(b)
    requires Placed(cfg, s.table, s.conns, s.readers, c, s.threads[c])
    ensures var s' := OnBye(cfg, s, c, b, pick);
            Placed(cfg, s'.table, s'.conns, s'.readers, c, s'.threads[c])
  {
  }

  lemma SentPlaced(cfg: Config, s: State, a: Action)
    requires Enabled(cfg, s, a) && a.Deliver?
    requires Placed(cfg, s.table, s.conns, s.readers, a.c, s.threads[a.c])
    ensures var s' := Apply(cfg, s, a);
            Placed(cfg, s'.table, s'.conns, s'.readers, a.c, s'.threads[a.c])
  {
  }

  lemma EventPlaced(cfg: Config, s: State, a: Action)
    requires Enabled(cfg, s, a) && !a.Move? && !a.Deliver?
    requires if a.Accept? then Actor(s, a) !in s.table && Actor(s, a) !in s.readers && Actor(s, a) !in s.conns.clients
             else Placed(cfg, s.table, s.conns, s.readers, a.c, s.threads[a.c])
    ensures var s', c := Apply(cfg, s, a), Actor(s, a);
            Placed(cfg, s'.table, s'.conns, s'.readers, c, s'.threads[c])
  {
  }

  lemma OthersPlaced(cfg: Config, s: State, s': State, c: Cid, d: Cid, t: Thread)
    requires Framed(s, s', c) && d != c
    requires Placed(cfg, s.table, s.conns, s.readers, d, t)
    ensures Placed(cfg, s'.table, s'.conns, s'.readers, d, t)
  {
    assert d in s.table <==> d in s.table - {c};
    assert d in s'.table <==> d in s'.table - {c};
    assert d in s.readers <==> d in s.readers - {c};
    assert d in s'.readers <==> d in s'.readers - {c};
    assert d in s.conns.clients <==> d in s.conns.clients - {c};
    assert d in s'.conns.clients <==> d in s'.conns.clients - {c};
    assert d in s.conns.clients ==> (s.conns.clients - {c})[d] == s.conns.clients[d];
  }

  lemma StepInv(cfg: Config, s: State, a: Action)
    requires Enabled(cfg, s, a) && Inv(cfg, s)
    ensures Inv(cfg, Apply(cfg, s, a))
  {
    var s', c := Apply(cfg, s, a), Actor(s, a);
    if a.Login? {
      assert a.c !in s.conns.clients;
    }
    hide Enabled, Apply, Grouped;
    Membership.StepThreads(cfg, s, a);
    StepFrame(cfg, s, a);
    StepGrouped(cfg, s, a);
    if a.Move? {
      MovePlaced(cfg, s, a);
    } else if a.Deliver? {
      SentPlaced(cfg, s, a);
    } else {
      EventPlaced(cfg, s, a);
    }
    hide Placed;
    forall d | d in s'.threads
      ensures Placed(cfg, s'.table, s'.conns, s'.readers, d, s'.threads[d])
    {
      if d != c {
        OthersPlaced(cfg, s, s', c, d, s.threads[d]);
      }
    }
    forall d | d in s'.table || d in s'.readers || d in s'.conns.clients
      ensures d in s'.threads
    {
      if d != c {
        assert d in s'.table - {c} || d in s'.readers - {c} || d in s'.conns.clients - {c};
      }
    }
  }

  lemma {:induction false} RunInv(cfg: Config, run: seq<State>)
    requires IsRun(cfg, run)
    ensures Inv(cfg, run[|run| - 1])
  {
    hide Inv, Enabled, Apply;
    InitInv(cfg);
    if |run| > 1 {
      RunPrefix(cfg, run);
      RunInv(cfg, run[..|run| - 1]);
      var a :| Enabled(cfg, run[|run| - 2], a) && run[|run| - 1] == Apply(cfg, run[|run| - 2], a);
      StepInv(cfg, run[|run| - 2], a);
    }
  }

  lemma ReachableInv(cfg: Config, s: State)
    requires Reachable(cfg, s)
    ensures Inv(cfg, s)
  {
    var run :| IsRun(cfg, run) && run[|run| - 1] == s;
    RunInv(cfg, run);
  }

  // Clean-up: when a connection's handler has returned, the connection is in no table. The one exception is a
  // connection whose CheckAuth failed after setAuth: it stays in the ConnManager for ever, and its user with it.
  lemma CleanUp(cfg: Config, s: State, c: Cid)
    requires Reachable(cfg, s) && c in s.threads && s.threads[c].pc.Done?
    ensures c !in s.table && c !in s.readers
    ensures forall p :: p in s.rm.members ==> c !in s.rm.members[p]
    ensures c in s.conns.clients <==> s.threads[c].failed.auth
    ensures (exists u :: u in s.conns.users && c in s.conns.users[u]) <==> s.threads[c].failed.auth
  {
    ReachableInv(cfg, s);
    hide Reachable;
    if c in s.conns.clients {
      assert c in s.conns.users[s.conns.clients[c]];
    }
    NoRoomsLeft(cfg, s, c);
  }

  lemma NoRoomsLeft(cfg: Config, s: State, c: Cid)
    requires Reachable(cfg, s) && c in s.threads && s.threads[c].pc.Done?
    ensures forall p :: p in s.rm.members ==> c !in s.rm.members[p]
  {
    forall p | p in s.rm.members
      ensures c !in s.rm.members[p]
    {
      Membership.IndexAgreement(cfg, s, c, p);
      Membership.ReachableInv(cfg, s);
      assert Membership.ThreadOk(cfg, s.threads[c].mem, s.threads[c].pc);
    }
  }

  // The three tables agree with the point every connection has reached, in every reachable state.
  lemma TablesMatchProgress(cfg: Config, s: State, c: Cid)
    requires Reachable(cfg, s) && c in s.threads
    ensures c in s.table <==> Present(s.threads[c].pc)
    ensures c in s.conns.clients <==> cfg.auth && (Registered(s.threads[c].pc) || s.threads[c].failed.auth)
    ensures Grouped(s.conns)
  {
    ReachableInv(cfg, s);
  }

  // The exception of CleanUp does occur, for every user name: log in, and have the AuthPass send fail. The
  // handler returns before RevokeAuth is deferred, and the user counts as connected from then on.
  lemma FailedLoginLeaks(cfg: Config, u: User)
    requires cfg.auth
    ensures exists s: State ::
              && Reachable(cfg, s)
              && 1 in s.threads && s.threads[1].pc.Done? && 1 !in s.table
              && 1 in s.conns.clients && u in s.conns.users
  {
    var s2 := Greeted(cfg);
    var any := Ptr(0, "", false, 0);
    var s3 := Apply(cfg, s2, Login(1, u));
    var first := First(NO_CONNS, 1, u);
    assert s3.threads == map[1 := s2.threads[1].(user := u, first := first, pc := Hello(AuthSnap(first)))];
    ReachNext(cfg, s2, Login(1, u));
    var s6 := Listed(cfg, s3, u);
    var s7 := Apply(cfg, s6, Deliver(1, Send(1, AuthPass), false));
    ReachNext(cfg, s6, Deliver(1, Send(1, AuthPass), false));
    assert s7.threads[1].pc.Done?;
  }

  lemma Greeted(cfg: Config) returns (s: State)
    requires cfg.auth
    ensures Reachable(cfg, s)
    ensures s.threads == map[1 := Fresh(cfg, 1).(io := NO_IO)] && s.conns == NO_CONNS && s.table == {}
  {
    ReachInit(cfg);
    ReachNext(cfg, Init(), Accept);
    var s1 := Apply(cfg, Init(), Accept);
    var a := Deliver(1, Send(1, Challenge), true);
    ReachNext(cfg, s1, a);
    s := Apply(cfg, s1, a);
    assert s.threads[1].io.pending == multiset{};
  }

  // The first connection of a user, alone on the server, from setAuth to the AuthPass message.
  lemma Listed(cfg: Config, s0: State, u: User) returns (s: State)
    requires Reachable(cfg, s0) && s0.threads.Keys == {1} && s0.conns == SetAuth(NO_CONNS, 1, u) && s0.table == {}
    requires s0.threads[1].pc.Hello? && s0.threads[1].pc.h.AuthSnap? && s0.threads[1].user == u
    requires s0.threads[1].io == NO_IO && !s0.threads[1].failed.cast
    ensures Reachable(cfg, s)
    ensures s.threads.Keys == {1} && s.threads[1].pc == Hello(Passing) && s.threads[1].io == One(Send(1, AuthPass))
    ensures s.conns == s0.conns && s.table == {}
  {
    hide TellUsers, Fan;
    var go := Move(1, Ptr(0, "", false, 0));
    ReachNext(cfg, s0, go);
    s := Apply(cfg, s0, go);
    NothingToTell(1, Others(s0.conns, u));
    ReachNext(cfg, s, go);
    s := Apply(cfg, s, go);
    if s.threads[1].pc == Hello(AuthCastSnap) {
      ReachNext(cfg, s, go);
      s := Apply(cfg, s, go);
      NobodyToTell(OtherClients(s.conns, u), AuthJoin(u));
      ReachNext(cfg, s, go);
      s := Apply(cfg, s, go);
    }
  }

  lemma NothingToTell(c: Cid, us: set<User>)
    requires us == {}
    ensures TellUsers(c, us) == multiset{}
  {
    hide TellUsers;
    var m := TellUsers(c, us);
    assert forall x :: m[x] == 0;
  }

  lemma NobodyToTell(cs: set<Cid>, ev: Event)
    requires cs == {}
    ensures Fan(cs, ev) == multiset{}
  {
    hide Fan;
    var m := Fan(cs, ev);
    assert forall x :: m[x] == 0;
  }
}
