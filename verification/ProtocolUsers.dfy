// Presence with authentication, in every interleaving, for every connected user: who is not told, and that it happens.
module ProtocolUsers {
  import opened ConnSpec
  import opened Protocol
  import Membership = ProtocolMembership
  import Lifecycle = ProtocolLifecycle
  import Presence = ProtocolPresence
  import Witness = ProtocolWitness

  // The handler ended at a failed send of the list of users, before it announced its own user.
  predicate GaveUp(t: Thread) {
    t.pc.Done? && t.failed.list && t.failed.auth
  }

  // The first connection of its user, which has not sent x, its announcement to some connection, yet or never will.
  predicate Silent(t: Thread, x: Send) {
    t.first && (Presence.CastDue(t, x) || GaveUp(t))
  }

  // A registered connection d of user u owes the announcement.
  predicate Owes(s: State, d: Cid, u: User, x: Send) {
    d in s.threads && d in s.conns.clients && s.conns.clients[d] == u && Silent(s.threads[d], x)
  }

  ghost predicate KnownOf(s: State, c: Cid, u: User)
    requires c in s.threads
  {
    var x := Send(c, AuthJoin(u));
    x in s.sent || Presence.ListDue(s.threads[c], x) || exists d :: Owes(s, d, u, x)
  }

  ghost predicate Inv(cfg: Config, s: State) {
    && Presence.Inv(cfg, s)
    && forall c, u :: Presence.Up(s, c) && u in s.conns.users && u != s.threads[c].user ==> KnownOf(s, c, u)
  }

  // A user appears with its first connection, which is about to announce it.
  lemma NewUser(cfg: Config, s: State, a: Action, u: User, x: Send)
    requires Enabled(cfg, s, a) && u in Apply(cfg, s, a).conns.users && u !in s.conns.users
    ensures a.Login? && Owes(Apply(cfg, s, a), a.c, u, x)
  {
    hide Fan, TellUsers, TellClients, TellRooms, TellMembers, Others, OtherClients, WriterPending, OnRoom, OnCreate;
  }

  // The list of users takes in every connected user, and is worked off.
  lemma ListStep(cfg: Config, s: State, a: Action, u: User)
    requires Enabled(cfg, s, a) && !a.Accept? && u in s.conns.users && u != s.threads[a.c].user
    requires Presence.ListDue(s.threads[a.c], Send(a.c, AuthJoin(u)))
    ensures var s', x := Apply(cfg, s, a), Send(a.c, AuthJoin(u));
            x in s'.sent || Presence.ListDue(s'.threads[a.c], x) || s'.threads[a.c].pc.Done?
  {
    assert u in Others(s.conns, s.threads[a.c].user);
    hide Others, TellUsers, Fan, OnRoom, OnBye, OnCreate, OnRequest, WriterPending;
  }

  // Whoever owes an announcement makes it, or goes on to owe it.
  lemma OwesStep(cfg: Config, s: State, a: Action, c: Cid, u: User)
    requires Enabled(cfg, s, a) && !a.Accept? && Lifecycle.Inv(cfg, s) && Presence.Consistent(s.threads[a.c])
    requires c != a.c && c in s.conns.clients && s.conns.clients[c] != u
    requires Owes(s, a.c, u, Send(c, AuthJoin(u)))
    ensures var s', x := Apply(cfg, s, a), Send(c, AuthJoin(u));
            x in s'.sent || Owes(s', a.c, u, x)
  {
    assert Lifecycle.Placed(cfg, s.table, s.conns, s.readers, a.c, s.threads[a.c]);
    assert c in OtherClients(s.conns, u);
    hide Lifecycle.Inv, Grouped, OtherClients, Others, TellUsers, Fan, OnRoom, OnBye, OnCreate, OnRequest;
    hide WriterPending;
  }

  lemma StepKnown(cfg: Config, s: State, a: Action, s': State, c: Cid, u: User)
    requires Enabled(cfg, s, a) && s' == Apply(cfg, s, a) && Inv(cfg, s)
    requires Presence.Up(s', c) && u in s'.conns.users && u != s'.threads[c].user
    ensures KnownOf(s', c, u)
  {
    assert forall d :: d in s.threads ==> d <= s.nextId;
    assert a.Accept? ==> Actor(s, a) !in s.threads && s'.conns == s.conns;
    hide Apply, Enabled, Lifecycle.Inv;
    var e, x := Actor(s, a), Send(c, AuthJoin(u));
    Membership.StepThreads(cfg, s, a);
    Presence.StepForward(cfg, s, a);
    Presence.OthersUp(cfg, s, a, c);
    if Presence.Up(s, c) {
      if u !in s.conns.users {
        NewUser(cfg, s, a, u, x);
      } else {
        assert KnownOf(s, c, u);
        if e == c && Presence.ListDue(s.threads[c], x) {
          ListStep(cfg, s, a, u);
        }
        if d :| Owes(s, d, u, x) {
          StillOwes(cfg, s, a, s', c, d, u);
        }
      }
    }
  }

  lemma StillOwes(cfg: Config, s: State, a: Action, s': State, c: Cid, d: Cid, u: User)
    requires Enabled(cfg, s, a) && s' == Apply(cfg, s, a) && Presence.Inv(cfg, s)
    requires Presence.Up(s, c) && u != s.threads[c].user && Owes(s, d, u, Send(c, AuthJoin(u)))
    ensures Send(c, AuthJoin(u)) in s'.sent || Owes(s', d, u, Send(c, AuthJoin(u)))
  {
    assert Lifecycle.Placed(cfg, s.table, s.conns, s.readers, c, s.threads[c]);
    assert forall d :: d in s.threads ==> d <= s.nextId;
    hide Apply, Enabled;
    var e := Actor(s, a);
    Membership.StepThreads(cfg, s, a);
    if e == d {
      assert !a.Accept? && c != d;
      OwesStep(cfg, s, a, c, u);
    } else {
      hide Lifecycle.Inv;
      Lifecycle.StepFrame(cfg, s, a);
      assert (s'.conns.clients - {e})[d] == (s.conns.clients - {e})[d];
    }
  }

  lemma StepInv(cfg: Config, s: State, a: Action)
    requires Enabled(cfg, s, a) && Inv(cfg, s)
    ensures Inv(cfg, Apply(cfg, s, a))
  {
    var s' := Apply(cfg, s, a);
    Presence.StepInv(cfg, s, a);
    hide Apply, Enabled, Presence.Inv, KnownOf, Presence.Up;
    forall c, u | Presence.Up(s', c) && u in s'.conns.users && u != s'.threads[c].user
      ensures KnownOf(s', c, u)
    {
      StepKnown(cfg, s, a, s', c, u);
    }
  }

  lemma {:induction false} RunInv(cfg: Config, run: seq<State>)
    requires IsRun(cfg, run)
    ensures Inv(cfg, run[|run| - 1])
  {
    hide Enabled, Apply, Presence.Inv;
    Presence.InitInv(cfg);
    if |run| > 1 {
      hide Inv;
      RunPrefix(cfg, run);
      RunInv(cfg, run[..|run| - 1]);
      var a :| Enabled(cfg, run[|run| - 2], a) && run[|run| - 1] == Apply(cfg, run[|run| - 2], a);
      StepInv(cfg, run[|run| - 2], a);
    }
  }

  // In every interleaving, a connection that passed CheckAuth and is not being revoked has been sent every connected
  // user but its own, except one whose first connection has not sent it the announcement yet, or has given up before
  // that because its own list of users could not be sent.
  lemma UserKnown(cfg: Config, s: State, c: Cid, u: User)
    requires cfg.auth && Reachable(cfg, s) && c in s.threads && Presence.Passed(s.threads[c].pc)
    requires u in s.conns.users && u != s.threads[c].user
    ensures Send(c, AuthJoin(u)) in s.sent || exists d :: Owes(s, d, u, Send(c, AuthJoin(u)))
  {
    var run :| IsRun(cfg, run) && run[|run| - 1] == s;
    RunInv(cfg, run);
    hide Reachable, IsRun;
    assert Lifecycle.Placed(cfg, s.table, s.conns, s.readers, c, s.threads[c]);
    assert Presence.Up(s, c);
    assert KnownOf(s, c, u);
  }

  // ---- A user somebody is never told ------------------------------------------------------------------------------

  // A new connection logs in as u. x, an announcement to somebody, is not sent on the way.
  lemma LoggingIn(cfg: Config, s: State, u: User, x: Send) returns (s': State)
    requires cfg.auth && Reachable(cfg, s) && x.ev.AuthJoin? && x !in s.sent
    ensures Reachable(cfg, s') && x !in s'.sent
    ensures var c := s.nextId + 1;
            && s'.nextId == c && c in s'.threads && s'.threads == s.threads[c := s'.threads[c]]
            && s'.conns == SetAuth(s.conns, c, u) && s'.threads[c].user == u && !s'.threads[c].failed.cast
            && s'.threads[c].pc == Hello(AuthSnap(First(s.conns, c, u)))
  {
    hide Reachable, First, SetAuth;
    var c := s.nextId + 1;
    ReachNext(cfg, s, Accept);
    s' := Apply(cfg, s, Accept);
    s' := Witness.Drain(cfg, s', c);
    ReachNext(cfg, s', Login(c, u));
    s' := Apply(cfg, s', Login(c, u));
  }

  // The list of users, sent without a failure.
  lemma Listing(cfg: Config, s: State, c: Cid, x: Send) returns (s': State)
    requires Reachable(cfg, s) && c in s.threads && s.threads[c].pc.Hello? && s.threads[c].pc.h.AuthSnap?
    requires x.ev.AuthJoin? && x !in s.sent && (x.to == c ==> x.ev.user !in Others(s.conns, s.threads[c].user))
    ensures Reachable(cfg, s') && Witness.Only(s, s', c) && s'.conns == s.conns && x !in s'.sent
    ensures s'.threads[c].user == s.threads[c].user && s'.threads[c].failed == s.threads[c].failed
    ensures s'.threads[c].pc == if s.threads[c].pc.h.first then Hello(AuthCastSnap) else Hello(Passing)
    ensures x !in s'.threads[c].io.pending
  {
    hide Reachable, Apply, Enabled, Others, TellUsers;
    s' := Witness.HelloStep(cfg, s, c);
    s' := Witness.Drain(cfg, s', c);
    s' := Witness.HelloStep(cfg, s', c);
  }

  // The announcement of the user, sent without a failure.
  lemma Announcing(cfg: Config, s: State, c: Cid, x: Send) returns (s': State)
    requires Reachable(cfg, s) && c in s.threads && s.threads[c].pc == Hello(AuthCastSnap) && !s.threads[c].failed.cast
    requires x.ev.AuthJoin? && x !in s.sent && x.ev.user != s.threads[c].user
    ensures Reachable(cfg, s') && Witness.Only(s, s', c) && s'.conns == s.conns && x !in s'.sent
    ensures s'.threads[c].user == s.threads[c].user && s'.threads[c].pc == Hello(Passing)
    ensures x !in s'.threads[c].io.pending
  {
    hide Reachable, Apply, Enabled, Fan, OtherClients;
    s' := Witness.HelloStep(cfg, s, c);
    s' := Witness.Drain(cfg, s', c);
    s' := Witness.HelloStep(cfg, s', c);
  }

  lemma LettingIn(cfg: Config, s: State, c: Cid, x: Send) returns (s': State)
    requires Reachable(cfg, s) && c in s.threads && s.threads[c].pc == Hello(Passing)
    requires x !in s.sent && x !in s.threads[c].io.pending
    ensures Reachable(cfg, s') && Witness.Only(s, s', c) && s'.conns == s.conns && x !in s'.sent
    ensures s'.threads[c].user == s.threads[c].user && s'.threads[c].pc == Hello(Connecting)
  {
    hide Reachable, Apply, Enabled;
    s' := Witness.Drain(cfg, s, c);
    s' := Witness.HelloStep(cfg, s', c);
  }

  // A new connection logs in as u and fails at the list of users.
  lemma Failing(cfg: Config, s: State, u: User, v: User, x: Send) returns (s': State)
    requires cfg.auth && Reachable(cfg, s) && x.ev.AuthJoin? && x !in s.sent && x.to != s.nextId + 1
    requires v in s.conns.users && u != v
    ensures Reachable(cfg, s') && x !in s'.sent
    ensures var c := s.nextId + 1;
            && s'.nextId == c && c in s'.threads && s'.threads == s.threads[c := s'.threads[c]]
            && s'.conns == SetAuth(s.conns, c, u)
  {
    hide Reachable, First, SetAuth, TellUsers;
    var c := s.nextId + 1;
    s' := LoggingIn(cfg, s, u, x);
    StillOther(s.conns, c, u, v);
    s' := Witness.Step(cfg, s', c);
    s' := ListFails(cfg, s', c, Send(c, AuthJoin(v)));
  }

  lemma StillOther(m: Conns, c: Cid, u: User, v: User)
    requires v in m.users && u != v
    ensures v in Others(SetAuth(m, c, u), u)
  {
  }

  lemma ListFails(cfg: Config, s: State, c: Cid, y: Send) returns (s': State)
    requires Reachable(cfg, s) && c in s.threads && s.threads[c].pc.Hello? && s.threads[c].pc.h.AuthList?
    requires y in s.threads[c].io.pending
    ensures Reachable(cfg, s') && s'.sent == s.sent + multiset{y} && s'.conns == s.conns && s'.nextId == s.nextId
    ensures c in s'.threads && s'.threads == s.threads[c := s'.threads[c]]
  {
    ReachNext(cfg, s, Deliver(c, y, false));
    s' := Apply(cfg, s, Deliver(c, y, false));
  }

  // The first connection of v, up to its AuthPass.
  lemma FirstOne(cfg: Config, v: User, x: Send) returns (s: State)
    requires cfg.auth && x.ev.AuthJoin? && x.ev.user != v
    ensures Reachable(cfg, s) && x !in s.sent && s.nextId == 1 && 1 in s.threads
    ensures s.threads[1].user == v && s.threads[1].pc == Hello(Connecting) && s.conns == SetAuth(NO_CONNS, 1, v)
  {
    hide Reachable;
    ReachInit(cfg);
    s := LoggingIn(cfg, Init(), v, x);
    s := Listing(cfg, s, 1, x);
    s := Announcing(cfg, s, 1, x);
    s := LettingIn(cfg, s, 1, x);
  }

  // The exception of UserKnown does occur: for any two users there is a run after which both are connected and past
  // CheckAuth, and the one has never been told about the other.
  lemma UserUnknown(cfg: Config, v: User, u: User)
    requires cfg.auth && u != v
    ensures exists s: State ::
              && Reachable(cfg, s) && 1 in s.threads && 3 in s.threads
              && Presence.Passed(s.threads[1].pc) && s.threads[1].user == v
              && Presence.Passed(s.threads[3].pc) && s.threads[3].user == u && u in s.conns.users
              && Send(1, AuthJoin(u)) !in s.sent
  {
    hide Reachable;
    var x := Send(1, AuthJoin(u));
    var s := FirstOne(cfg, v, x);
    s := Failing(cfg, s, u, v, x);
    assert Of(s.conns, u) + {3} == {2, 3};
    s := LoggingIn(cfg, s, u, x);
    s := Listing(cfg, s, 3, x);
    s := LettingIn(cfg, s, 3, x);
  }
}
